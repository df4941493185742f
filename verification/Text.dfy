/** The ASCII part of the string operations the services apply to symbols. */
module Text {

  /** Tab, line feed, vertical tab, form feed, carriage return, the four separators and blank. */
  predicate IsSpace(c: char) {
    9 <= c as int <= 13 || 28 <= c as int <= 32
  }

  function UpperChar(c: char): char {
    if 'a' <= c <= 'z' then (c as int - 32) as char else c
  }

  function Upper(s: string): string {
    seq(|s|, i requires 0 <= i < |s| => UpperChar(s[i]))
  }

  function Strip(s: string): string {
    if s == "" then s
    else if IsSpace(s[0]) then Strip(s[1..])
    else if IsSpace(s[|s| - 1]) then Strip(s[..|s| - 1])
    else s
  }

  predicate IsLower(c: char) { 'a' <= c <= 'z' }

  /** The same character, or the two cases of one letter. */
  predicate SameLetter(c: char, d: char) {
    || c == d
    || (IsLower(c) && d as int == c as int - ('a' as int - 'A' as int))
    || (IsLower(d) && c as int == d as int - ('a' as int - 'A' as int))
  }

  predicate SameIgnoringCase(s: string, t: string) {
    |s| == |t| && forall i :: 0 <= i < |s| ==> SameLetter(s[i], t[i])
  }

  /** Upper-casing identifies exactly the strings that differ in case only, ... */
  lemma UpperEqualIff(s: string, t: string)
    ensures Upper(s) == Upper(t) <==> SameIgnoringCase(s, t)
  {
    if Upper(s) == Upper(t) {
      forall i | 0 <= i < |s| ensures SameLetter(s[i], t[i]) {
        assert Upper(s)[i] == Upper(t)[i];
      }
    }
  }

  /** ... leaves no lower-case letter, and leaves a string without any alone. */
  lemma UpperIsUpper(s: string)
    ensures forall i :: 0 <= i < |Upper(s)| ==> !IsLower(Upper(s)[i])
    ensures (forall i :: 0 <= i < |s| ==> !IsLower(s[i])) ==> Upper(s) == s
  {
  }

  predicate AllSpace(s: string) {
    forall i :: 0 <= i < |s| ==> IsSpace(s[i])
  }

  lemma OneMoreLeft(s: string, l: string, t: string, r: string)
    requires s != "" && s[1..] == l + t + r
    ensures s == ([s[0]] + l) + t + r
  {
    assert s == [s[0]] + s[1..];
  }

  lemma OneMoreRight(s: string, l: string, t: string, r: string)
    requires s != "" && s[..|s| - 1] == l + t + r
    ensures s == l + t + (r + [s[|s| - 1]])
  {
    assert s == s[..|s| - 1] + [s[|s| - 1]];
  }

  /** Stripping takes white space off both ends, and all of it. */
  lemma {:induction false} StripTrims(s: string) returns (left: string, right: string)
    ensures s == left + Strip(s) + right && AllSpace(left) && AllSpace(right)
    ensures Strip(s) == "" || (!IsSpace(Strip(s)[0]) && !IsSpace(Strip(s)[|Strip(s)| - 1]))
    decreases |s|
  {
    left, right := "", "";
    if s != "" {
      if IsSpace(s[0]) {
        var l, r := StripTrims(s[1..]);
        left, right := [s[0]] + l, r;
        OneMoreLeft(s, l, Strip(s), r);
      } else if IsSpace(s[|s| - 1]) {
        var l, r := StripTrims(s[..|s| - 1]);
        left, right := l, r + [s[|s| - 1]];
        OneMoreRight(s, l, Strip(s), r);
      }
    }
  }

  /** symbol.strip().upper() */
  function Normalized(s: string): string { Upper(Strip(s)) }

  lemma UpperTwice(s: string)
    ensures Upper(Upper(s)) == Upper(s)
  {
  }

  lemma {:induction false} StripUpper(s: string)
    ensures Strip(Upper(s)) == Upper(Strip(s))
    decreases |s|
  {
    if s != "" {
      assert Upper(s)[1..] == Upper(s[1..]);
      assert Upper(s)[..|s| - 1] == Upper(s[..|s| - 1]);
      StripUpper(s[1..]);
      StripUpper(s[..|s| - 1]);
    }
  }

  lemma {:induction false} StripShortens(s: string)
    ensures |Strip(s)| <= |s| && (|Strip(s)| == |s| ==> Strip(s) == s)
    decreases |s|
  {
    if s != "" {
      StripShortens(s[1..]);
      StripShortens(s[..|s| - 1]);
    }
  }

  lemma {:induction false} StripTwice(s: string)
    ensures Strip(Strip(s)) == Strip(s)
    decreases |s|
  {
    if s != "" {
      StripTwice(s[1..]);
      StripTwice(s[..|s| - 1]);
    }
  }

  lemma NormalizedTwice(s: string)
    ensures Normalized(Normalized(s)) == Normalized(s)
  {
    StripUpper(Strip(s));
    StripTwice(s);
    UpperTwice(Strip(s));
  }

  /** Upper-casing alone normalises exactly the symbols that need no stripping. */
  lemma UpperIsNormalizedIff(s: string)
    ensures Upper(s) == Normalized(s) <==> Strip(s) == s
  {
    StripShortens(s);
    assert |Upper(s)| == |s| && |Normalized(s)| == |Strip(s)|;
  }

  /** Upper-casing first does not change which symbols compare equal once normalised. */
  lemma NormalizedUpper(s: string)
    ensures Normalized(Upper(s)) == Normalized(s)
  {
    StripUpper(s);
    UpperTwice(Strip(s));
  }
}
