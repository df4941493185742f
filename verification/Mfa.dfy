/** One-time codes (section 5.2 of RFC 6238) and recovery codes: what one enrolment accepts
    over any run, for any clock. The code generator and the hash are left open. */
module Mfa {
  import opened Common
  import Text

  type Secret = string

  datatype Oracle = Oracle(totp: (Secret, int) -> string, hash: string -> string)

  datatype User = User(
    enabled: bool, secret: Option<Secret>, pending: Option<Secret>,
    lastStep: Option<int>, recovery: seq<string>, authVersion: nat)

  predicate IsDigits(s: string) {
    s != "" && forall i :: 0 <= i < |s| ==> '0' <= s[i] <= '9'
  }

  /** timestamp // 30 */
  function CurrentStep(now: int): int { now / 30 }

  predicate Fits(o: Oracle, secret: Secret, code: string, last: Option<int>, step: int) {
    (last.None? || step > last.value) && o.totp(secret, step) == code
  }

  function FirstFit(o: Oracle, secret: Secret, code: string, last: Option<int>, lo: int, hi: int): (r: Option<int>)
    ensures r.Some? ==> lo <= r.value <= hi && Fits(o, secret, code, last, r.value)
    ensures forall s :: lo <= s <= hi && (r.None? || s < r.value) ==> !Fits(o, secret, code, last, s)
    decreases hi - lo + 1
  {
    if lo > hi then None
    else if Fits(o, secret, code, last, lo) then Some(lo)
    else FirstFit(o, secret, code, last, lo + 1, hi)
  }

  /** _match_totp: the earliest unused step within one of the current one that yields the code. */
  function MatchTotp(o: Oracle, secret: Secret, code: string, last: Option<int>, now: int): Option<int> {
    if |code| != 6 || !IsDigits(code) then None
    else FirstFit(o, secret, code, last, CurrentStep(now) - 1, CurrentStep(now) + 1)
  }

  /** Upper case, without dashes and spaces. */
  function NormalizedCode(s: string): string {
    if s == "" then ""
    else if s[0] == '-' || s[0] == ' ' then NormalizedCode(s[1..])
    else [Text.UpperChar(s[0])] + NormalizedCode(s[1..])
  }

  function Without(hashes: seq<string>, h: string): (r: seq<string>)
    ensures forall x :: x in r <==> x in hashes && x != h
    ensures |r| <= |hashes| && (|r| == |hashes| <==> h !in hashes)
    ensures h !in hashes ==> r == hashes
  {
    if hashes == [] then []
    else (if hashes[0] == h then [] else [hashes[0]]) + Without(hashes[1..], h)
  }

  function Hashes(o: Oracle, codes: seq<string>): seq<string> {
    seq(|codes|, i requires 0 <= i < |codes| => o.hash(NormalizedCode(codes[i])))
  }

  /** How a challenge was answered. */
  datatype Answer = Denied | ByTotp(step: int) | ByRecovery(hash: string)

  /** verify_mfa_challenge */
  function Challenge(o: Oracle, u: User, code: string, now: int): Answer {
    if !u.enabled || u.secret.None? then Denied
    else if !IsDigits(code) then
      var h := o.hash(NormalizedCode(code));
      if h in u.recovery then ByRecovery(h) else Denied
    else
      var m := MatchTotp(o, u.secret.value, code, u.lastStep, now);
      if m.Some? then ByTotp(m.value) else Denied
  }

  function Used(u: User, a: Answer): User {
    match a
    case Denied => u
    case ByTotp(step) => u.(lastStep := Some(step))
    case ByRecovery(h) => u.(recovery := Without(u.recovery, h))
  }

  const RecoveryCodeCount := 8

  datatype Op =
    | Start(newSecret: Secret)
    | Confirm(code: string, now: int, codes: seq<string>)
    | Verify(code: string, now: int)
    | Disable(code: string, now: int)
    | ChangePassword(currentIsRight: bool, newIsSame: bool)

  /** The step a confirmation code matched, if the confirmation succeeds. */
  function Confirmed(o: Oracle, u: User, op: Op): Option<int>
    requires op.Confirm?
  {
    if u.enabled || u.pending.None? then None else MatchTotp(o, u.pending.value, op.code, None, op.now)
  }

  function Step(o: Oracle, u: User, op: Op): User {
    match op
    case Start(s) => if u.enabled then u else u.(pending := Some(s))
    case Confirm(code, now, codes) =>
      var m := Confirmed(o, u, op);
      if m.None? then u
      else User(true, u.pending, None, m, Hashes(o, codes), u.authVersion + 1)
    case Verify(code, now) => Used(u, Challenge(o, u, code, now))
    case Disable(code, now) =>
      if !u.enabled || Challenge(o, u, code, now).Denied? then u
      else User(false, None, None, None, [], u.authVersion + 1)
    case ChangePassword(right, same) =>
      if !right || same then u else u.(authVersion := u.authVersion + 1)
  }

  /** The one-time step this call accepted, by whichever entry point. */
  function AcceptedStep(o: Oracle, u: User, op: Op): Option<int> {
    match op
    case Confirm(_, _, _) => Confirmed(o, u, op)
    case Verify(code, now) => StepOf(Challenge(o, u, code, now))
    case Disable(code, now) => if u.enabled then StepOf(Challenge(o, u, code, now)) else None
    case _ => None
  }

  function StepOf(a: Answer): Option<int> {
    if a.ByTotp? then Some(a.step) else None
  }

  predicate TakesRecovery(o: Oracle, u: User, op: Op) {
    (op.Verify? || op.Disable?) && Challenge(o, u, op.code, op.now).ByRecovery?
  }

  /** An account row: fields are updated in place. */
  class Account {
    var user: User

    constructor ()
      ensures user == User(false, None, None, None, [], 0)
    {
      user := User(false, None, None, None, [], 0);
    }

    /** The search loop over the offsets -1, 0 and 1. */
    static method SearchTotp(o: Oracle, secret: Secret, code: string, last: Option<int>, now: int)
        returns (r: Option<int>)
      ensures r == MatchTotp(o, secret, code, last, now)
    {
      if |code| != 6 || !IsDigits(code) { return None; }
      var current := CurrentStep(now);
      for offset := -1 to 2
        invariant FirstFit(o, secret, code, last, current + offset, current + 1)
               == FirstFit(o, secret, code, last, current - 1, current + 1)
      {
        var candidate := current + offset;
        if (last.None? || candidate > last.value) && o.totp(secret, candidate) == code {
          return Some(candidate);
        }
      }
      return None;
    }

    method VerifyChallenge(o: Oracle, code: string, now: int) returns (ok: bool)
      modifies this
      ensures user == Step(o, old(user), Verify(code, now))
      ensures ok <==> !Challenge(o, old(user), code, now).Denied?
    {
      if !user.enabled || user.secret.None? { return false; }
      if !IsDigits(code) {
        var candidate := o.hash(NormalizedCode(code));
        var remaining := Without(user.recovery, candidate);
        if |remaining| == |user.recovery| { return false; }
        user := user.(recovery := remaining);
        return true;
      }
      var matched := SearchTotp(o, user.secret.value, code, user.lastStep, now);
      if matched.None? { return false; }
      user := user.(lastStep := matched);
      return true;
    }

    method StartEnrollment(secret: Secret) returns (ok: bool)
      modifies this
      ensures forall o: Oracle :: user == Step(o, old(user), Start(secret))
      ensures ok <==> !old(user).enabled
    {
      if user.enabled { return false; }
      user := user.(pending := Some(secret));
      return true;
    }

    method ConfirmEnrollment(o: Oracle, code: string, now: int, codes: seq<string>) returns (ok: bool)
      requires |codes| == RecoveryCodeCount
      modifies this
      ensures user == Step(o, old(user), Confirm(code, now, codes))
      ensures ok <==> Confirmed(o, old(user), Confirm(code, now, codes)).Some?
    {
      if user.enabled || user.pending.None? { return false; }
      var matched := SearchTotp(o, user.pending.value, code, None, now);
      if matched.None? { return false; }
      user := user.(secret := user.pending, pending := None, enabled := true, lastStep := matched);
      user := user.(recovery := Hashes(o, codes), authVersion := user.authVersion + 1);
      return true;
    }

    method DisableMfa(o: Oracle, code: string, now: int) returns (ok: bool)
      modifies this
      ensures user == Step(o, old(user), Disable(code, now))
      ensures ok <==> old(user).enabled && !Challenge(o, old(user), code, now).Denied?
    {
      if !user.enabled { return false; }
      ok := VerifyChallenge(o, code, now);
      if !ok { return; }
      user := user.(enabled := false, secret := None, pending := None, lastStep := None);
      user := user.(recovery := [], authVersion := user.authVersion + 1);
    }
  }

  // ---- runs ---------------------------------------------------------------------------

  ghost predicate IsRun(o: Oracle, us: seq<User>, ops: seq<Op>) {
    && |us| == |ops| + 1
    && forall i :: 0 <= i < |ops| ==> us[i + 1] == Step(o, us[i], ops[i])
  }

  /** One enrolment: enabled in every state after `i`, up to the state call `j` finds. */
  ghost predicate SameEnrolment(us: seq<User>, i: nat, j: nat) {
    forall m :: i < m <= j < |us| ==> us[m].enabled
  }

  /** Every accepted step is within one of the current step, and above the last one used. */
  lemma AcceptedInWindow(o: Oracle, u: User, op: Op)
    requires AcceptedStep(o, u, op).Some?
    ensures op.Confirm? || op.Verify? || op.Disable?
    ensures var s := AcceptedStep(o, u, op).value;
            && CurrentStep(op.now) - 1 <= s <= CurrentStep(op.now) + 1
            && (!op.Confirm? && u.lastStep.Some? ==> s > u.lastStep.value)
            && o.totp(if op.Confirm? then u.pending.value else u.secret.value, s) == op.code
  {
  }

  /** Within an enrolment the last used step never goes back, and is what was accepted last. */
  lemma {:induction false} LastStepGrows(o: Oracle, us: seq<User>, ops: seq<Op>, i: nat, j: nat, s: int)
    requires IsRun(o, us, ops) && i <= j < |us| && SameEnrolment(us, i, j)
    requires us[i].enabled && us[i].lastStep.Some? && s <= us[i].lastStep.value
    ensures us[j].lastStep.Some? && s <= us[j].lastStep.value
    decreases j - i
  {
    if i < j {
      assert us[i + 1] == Step(o, us[i], ops[i]);
      assert us[i + 1].enabled;
      LastStepGrows(o, us, ops, i + 1, j, s);
    }
  }

  /** Within one enrolment accepted steps strictly increase, whatever the clock does: from the
      confirmation on, no step is ever accepted twice. */
  lemma AcceptedStepsIncrease(o: Oracle, us: seq<User>, ops: seq<Op>, i: nat, j: nat)
    requires IsRun(o, us, ops) && i < j < |ops| && SameEnrolment(us, i, j)
    requires AcceptedStep(o, us[i], ops[i]).Some? && AcceptedStep(o, us[j], ops[j]).Some?
    ensures AcceptedStep(o, us[i], ops[i]).value < AcceptedStep(o, us[j], ops[j]).value
  {
    var s := AcceptedStep(o, us[i], ops[i]).value;
    assert us[i + 1] == Step(o, us[i], ops[i]) && us[i + 1].enabled;
    LastStepGrows(o, us, ops, i + 1, j, s);
    assert us[j].enabled;
    AcceptedInWindow(o, us[j], ops[j]);
  }

  function RecoveryUses(o: Oracle, us: seq<User>, ops: seq<Op>, i: nat, j: nat): nat
    requires i <= j <= |ops| && |us| == |ops| + 1
    decreases j - i
  {
    if i == j then 0
    else (if TakesRecovery(o, us[i], ops[i]) then 1 else 0) + RecoveryUses(o, us, ops, i + 1, j)
  }

  /** Each recovery success uses up at least one stored code. */
  lemma {:induction false} RecoveryUsesBounded(o: Oracle, us: seq<User>, ops: seq<Op>, i: nat, j: nat)
    requires IsRun(o, us, ops) && i <= j <= |ops| && us[i].enabled && SameEnrolment(us, i, j)
    ensures RecoveryUses(o, us, ops, i, j) + |us[j].recovery| <= |us[i].recovery|
    decreases j - i
  {
    if i < j {
      assert us[i + 1] == Step(o, us[i], ops[i]) && us[i + 1].enabled;
      RecoveryUsesBounded(o, us, ops, i + 1, j);
    }
  }

  /** From a confirmation on, at most eight recovery codes are accepted in that enrolment,
      counting the call that ends it. */
  lemma AtMostEightRecoveries(o: Oracle, us: seq<User>, ops: seq<Op>, i: nat, j: nat)
    requires IsRun(o, us, ops) && i < j < |ops| && SameEnrolment(us, i, j)
    requires ops[i].Confirm? && |ops[i].codes| == RecoveryCodeCount && Confirmed(o, us[i], ops[i]).Some?
    ensures RecoveryUses(o, us, ops, i + 1, j) + (if TakesRecovery(o, us[j], ops[j]) then 1 else 0) <= RecoveryCodeCount
  {
    assert us[i + 1] == Step(o, us[i], ops[i]);
    RecoveryUsesBounded(o, us, ops, i + 1, j);
  }

  lemma {:induction false} RecoveryOnlyShrinks(o: Oracle, us: seq<User>, ops: seq<Op>, i: nat, j: nat, h: string)
    requires IsRun(o, us, ops) && i <= j < |us| && us[i].enabled && SameEnrolment(us, i, j)
    requires h !in us[i].recovery
    ensures h !in us[j].recovery
    decreases j - i
  {
    if i < j {
      assert us[i + 1] == Step(o, us[i], ops[i]) && us[i + 1].enabled;
      RecoveryOnlyShrinks(o, us, ops, i + 1, j, h);
    }
  }

  /** A recovery code is accepted at most once in an enrolment, however it is spelled. */
  lemma RecoveryCodeOnce(o: Oracle, us: seq<User>, ops: seq<Op>, i: nat, j: nat)
    requires IsRun(o, us, ops) && i < j < |ops| && SameEnrolment(us, i, j)
    requires ops[i].Verify? && TakesRecovery(o, us[i], ops[i])
    requires (ops[j].Verify? || ops[j].Disable?) && !IsDigits(ops[j].code)
    requires NormalizedCode(ops[j].code) == NormalizedCode(ops[i].code)
    ensures !TakesRecovery(o, us[j], ops[j]) && AcceptedStep(o, us[j], ops[j]).None?
  {
    var h := o.hash(NormalizedCode(ops[i].code));
    assert us[i + 1] == Step(o, us[i], ops[i]) && us[i + 1].enabled;
    RecoveryOnlyShrinks(o, us, ops, i + 1, j, h);
  }

  // ---- tokens ----------------------------------------------------------------------------

  /** Calls after which every earlier token must be refused. */
  predicate Revokes(o: Oracle, u: User, op: Op) {
    match op
    case Confirm(_, _, _) => Confirmed(o, u, op).Some?
    case Disable(code, now) => u.enabled && !Challenge(o, u, code, now).Denied?
    case ChangePassword(right, same) => right && !same
    case _ => false
  }

  predicate TokenAccepted(u: User, version: nat) { version == u.authVersion }

  lemma {:induction false} VersionsGrow(o: Oracle, us: seq<User>, ops: seq<Op>, i: nat, j: nat)
    requires IsRun(o, us, ops) && i <= j < |us|
    ensures us[i].authVersion <= us[j].authVersion
    ensures us[i].authVersion == us[j].authVersion <==> forall m :: i <= m < j ==> !Revokes(o, us[m], ops[m])
    decreases j - i
  {
    if i < j {
      assert us[i + 1] == Step(o, us[i], ops[i]);
      VersionsGrow(o, us, ops, i + 1, j);
    }
  }

  /** A token minted in one state is accepted later exactly if nothing in between revoked it. */
  lemma TokenAcceptedIffNotRevoked(o: Oracle, us: seq<User>, ops: seq<Op>, i: nat, j: nat)
    requires IsRun(o, us, ops) && i <= j < |us|
    ensures TokenAccepted(us[j], us[i].authVersion) <==> forall m :: i <= m < j ==> !Revokes(o, us[m], ops[m])
  {
    VersionsGrow(o, us, ops, i, j);
  }

  // ---- which codes pass -----------------------------------------------------------------------

  predicate IsFiller(c: char) { c == '-' || c == ' ' }

  /** The same code, up to dashes, blanks and letter case. */
  predicate SameCode(a: string, b: string)
    decreases |a| + |b|
  {
    if a != "" && IsFiller(a[0]) then SameCode(a[1..], b)
    else if b != "" && IsFiller(b[0]) then SameCode(a, b[1..])
    else if a == "" || b == "" then a == b
    else Text.SameLetter(a[0], b[0]) && SameCode(a[1..], b[1..])
  }

  lemma SameLetterIff(c: char, d: char)
    ensures Text.UpperChar(c) == Text.UpperChar(d) <==> Text.SameLetter(c, d)
  {
  }

  lemma SameHeadAndTail(c: char, s: string, d: char, t: string)
    ensures [c] + s == [d] + t <==> c == d && s == t
  {
    if [c] + s == [d] + t {
      assert s == ([c] + s)[1..] && t == ([d] + t)[1..] && c == ([c] + s)[0] && d == ([d] + t)[0];
    }
  }

  lemma {:induction false} SameCodeIff(a: string, b: string)
    ensures SameCode(a, b) <==> NormalizedCode(a) == NormalizedCode(b)
    decreases |a| + |b|
  {
    if a != "" && IsFiller(a[0]) {
      SameCodeIff(a[1..], b);
    } else if b != "" && IsFiller(b[0]) {
      SameCodeIff(a, b[1..]);
    } else if a != "" && b != "" {
      SameCodeIff(a[1..], b[1..]);
      SameLetterIff(a[0], b[0]);
      SameHeadAndTail(Text.UpperChar(a[0]), NormalizedCode(a[1..]), Text.UpperChar(b[0]), NormalizedCode(b[1..]));
    }
  }

  ghost predicate Injective(hash: string -> string) {
    forall x, y :: hash(x) == hash(y) ==> x == y
  }

  /** No recovery success after call `i` and before call `j` was with this code, in any spelling. */
  ghost predicate Unused(o: Oracle, us: seq<User>, ops: seq<Op>, i: nat, j: nat, code: string)
    requires i <= j <= |ops| <= |us|
  {
    forall m :: i < m < j && TakesRecovery(o, us[m], ops[m]) ==> !SameCode(ops[m].code, code)
  }

  /** What is stored is what was issued and has not been used. */
  lemma {:induction false} StoredMeansUnused(o: Oracle, us: seq<User>, ops: seq<Op>, i: nat, j: nat, code: string)
    requires IsRun(o, us, ops) && i < j < |ops| && SameEnrolment(us, i, j) && Injective(o.hash)
    requires ops[i].Confirm? && Confirmed(o, us[i], ops[i]).Some?
    ensures o.hash(NormalizedCode(code)) in us[j].recovery <==>
            (exists n :: 0 <= n < |ops[i].codes| && SameCode(code, ops[i].codes[n])) && Unused(o, us, ops, i, j, code)
    decreases j
  {
    var h := o.hash(NormalizedCode(code));
    if j == i + 1 {
      assert us[j] == Step(o, us[i], ops[i]);
      IssuedIff(o, ops[i].codes, code);
    } else {
      StoredMeansUnused(o, us, ops, i, j - 1, code);
      assert us[j] == Step(o, us[j - 1], ops[j - 1]) && us[j].enabled && us[j - 1].enabled;
      OneUse(o, us[j - 1], ops[j - 1], code);
      assert Unused(o, us, ops, i, j, code) <==>
             Unused(o, us, ops, i, j - 1, code)
             && !(TakesRecovery(o, us[j - 1], ops[j - 1]) && SameCode(ops[j - 1].code, code));
    }
  }

  /** One call takes the code it used off the stored list, and no other. */
  lemma OneUse(o: Oracle, u: User, op: Op, code: string)
    requires u.enabled && Step(o, u, op).enabled && Injective(o.hash)
    ensures o.hash(NormalizedCode(code)) in Step(o, u, op).recovery <==>
            o.hash(NormalizedCode(code)) in u.recovery && !(TakesRecovery(o, u, op) && SameCode(op.code, code))
  {
    if TakesRecovery(o, u, op) { SameCodeIff(op.code, code); }
  }

  lemma IssuedIff(o: Oracle, codes: seq<string>, code: string)
    requires Injective(o.hash)
    ensures o.hash(NormalizedCode(code)) in Hashes(o, codes) <==>
            exists n :: 0 <= n < |codes| && SameCode(code, codes[n])
  {
    var h := o.hash(NormalizedCode(code));
    forall n | 0 <= n < |codes| ensures Hashes(o, codes)[n] == h <==> SameCode(code, codes[n]) {
      SameCodeIff(code, codes[n]);
    }
    if n :| 0 <= n < |codes| && SameCode(code, codes[n]) {
      assert Hashes(o, codes)[n] in Hashes(o, codes);
    }
  }

  /** A recovery challenge passes exactly with a code that was issued in this enrolment and is
      unused, written with any dashes, blanks and letter case, as long as it is not all digits:
      those are taken for one-time codes. The hash is assumed to tell normal forms apart. */
  lemma RecoveryPassesIff(o: Oracle, us: seq<User>, ops: seq<Op>, i: nat, j: nat)
    requires IsRun(o, us, ops) && i < j < |ops| && SameEnrolment(us, i, j) && Injective(o.hash)
    requires ops[i].Confirm? && Confirmed(o, us[i], ops[i]).Some? && (ops[j].Verify? || ops[j].Disable?)
    ensures TakesRecovery(o, us[j], ops[j]) <==>
            && !(ops[j].code != "" && forall k :: 0 <= k < |ops[j].code| ==> '0' <= ops[j].code[k] <= '9')
            && (exists n :: 0 <= n < |ops[i].codes| && SameCode(ops[j].code, ops[i].codes[n]))
            && Unused(o, us, ops, i, j, ops[j].code)
  {
    StoredMeansUnused(o, us, ops, i, j, ops[j].code);
    SecretStays(o, us, ops, i, j);
  }

  lemma {:induction false} SecretStays(o: Oracle, us: seq<User>, ops: seq<Op>, i: nat, j: nat)
    requires IsRun(o, us, ops) && i < j < |us| && SameEnrolment(us, i, j)
    requires ops[i].Confirm? && Confirmed(o, us[i], ops[i]).Some?
    ensures us[j].secret.Some? && us[j].secret == us[i].pending && us[j].lastStep.Some?
    decreases j
  {
    if j == i + 1 {
      assert us[j] == Step(o, us[i], ops[i]);
    } else {
      SecretStays(o, us, ops, i, j - 1);
      assert us[j] == Step(o, us[j - 1], ops[j - 1]) && us[j].enabled && us[j - 1].enabled;
    }
  }

  /** The last one-time step accepted from call `i` on and before call `j`. */
  function LastAccepted(o: Oracle, us: seq<User>, ops: seq<Op>, i: nat, j: nat): Option<int>
    requires i <= j <= |ops| <= |us|
    decreases j - i
  {
    if i == j then None
    else if AcceptedStep(o, us[j - 1], ops[j - 1]).Some? then AcceptedStep(o, us[j - 1], ops[j - 1])
    else LastAccepted(o, us, ops, i, j - 1)
  }

  lemma {:induction false} LastStepIsLastAccepted(o: Oracle, us: seq<User>, ops: seq<Op>, i: nat, j: nat)
    requires IsRun(o, us, ops) && i < j <= |ops| && SameEnrolment(us, i, j)
    requires ops[i].Confirm? && Confirmed(o, us[i], ops[i]).Some?
    ensures us[j].lastStep == LastAccepted(o, us, ops, i, j)
    decreases j
  {
    if j == i + 1 {
      assert us[j] == Step(o, us[i], ops[i]);
    } else {
      LastStepIsLastAccepted(o, us, ops, i, j - 1);
      assert us[j] == Step(o, us[j - 1], ops[j - 1]) && us[j].enabled && us[j - 1].enabled;
    }
  }

  /** One of the three steps around `now`. */
  predicate InWindow(step: int, now: int) {
    now / 30 - 1 <= step <= now / 30 + 1
  }

  /** A one-time code passes exactly if it is six digits and the secret confirmed for this
      enrolment yields it for a step within one of the current one that is above every step
      accepted before; and the earliest such step is what is used up. */
  lemma TotpPassesIff(o: Oracle, us: seq<User>, ops: seq<Op>, i: nat, j: nat)
    requires IsRun(o, us, ops) && i < j < |ops| && SameEnrolment(us, i, j)
    requires ops[i].Confirm? && Confirmed(o, us[i], ops[i]).Some? && (ops[j].Verify? || ops[j].Disable?)
    ensures var code, now, secret := ops[j].code, ops[j].now, us[i].pending.value;
            var last := LastAccepted(o, us, ops, i, j);
            && last.Some?
            && (AcceptedStep(o, us[j], ops[j]).Some? <==>
                  && |code| == 6 && (forall k :: 0 <= k < 6 ==> '0' <= code[k] <= '9')
                  && exists s :: InWindow(s, now) && s > last.value && o.totp(secret, s) == code)
            && (AcceptedStep(o, us[j], ops[j]).Some? ==>
                  forall s :: InWindow(s, now) && s > last.value && o.totp(secret, s) == code ==>
                    AcceptedStep(o, us[j], ops[j]).value <= s)
  {
    SecretStays(o, us, ops, i, j);
    LastStepIsLastAccepted(o, us, ops, i, j);
    assert us[j].enabled;
    var u := us[j];
    forall s ensures InWindow(s, ops[j].now) && s > u.lastStep.value && o.totp(u.secret.value, s) == ops[j].code
                     <==> InWindow(s, ops[j].now) && Fits(o, u.secret.value, ops[j].code, u.lastStep, s) {
    }
  }

  /** A confirmation passes exactly with a code the secret started last yields around now. */
  lemma ConfirmationPassesIff(o: Oracle, u: User, code: string, now: int, codes: seq<string>)
    ensures Confirmed(o, u, Confirm(code, now, codes)).Some? <==>
            && !u.enabled && u.pending.Some?
            && |code| == 6 && (forall k :: 0 <= k < 6 ==> '0' <= code[k] <= '9')
            && exists s :: InWindow(s, now) && o.totp(u.pending.value, s) == code
  {
    if u.pending.Some? {
      forall s ensures InWindow(s, now) && o.totp(u.pending.value, s) == code
                       <==> InWindow(s, now) && Fits(o, u.pending.value, code, None, s) {
      }
    }
  }

  const NewUser := User(false, None, None, None, [], 0)

  /** The last call before `j` that succeeded in turning the second factor on or off. */
  function LastSwitch(o: Oracle, us: seq<User>, ops: seq<Op>, j: nat): (r: Option<nat>)
    requires j <= |ops| <= |us|
    ensures r.Some? ==> r.value < j
  {
    if j == 0 then None
    else if ops[j - 1].Confirm? && Confirmed(o, us[j - 1], ops[j - 1]).Some? then Some(j - 1)
    else if Disables(o, us[j - 1], ops[j - 1]) then Some(j - 1)
    else LastSwitch(o, us, ops, j - 1)
  }

  predicate Disables(o: Oracle, u: User, op: Op) {
    op.Disable? && u.enabled && !Challenge(o, u, op.code, op.now).Denied?
  }

  /** The second factor is on exactly while the last switch was a confirmation; off, nothing that
      could answer a challenge is left. */
  lemma {:induction false} EnabledIffConfirmedLast(o: Oracle, us: seq<User>, ops: seq<Op>, j: nat)
    requires IsRun(o, us, ops) && us[0] == NewUser && j < |us|
    ensures us[j].enabled <==> LastSwitch(o, us, ops, j).Some? && ops[LastSwitch(o, us, ops, j).value].Confirm?
    ensures !us[j].enabled ==> us[j].secret.None? && us[j].lastStep.None? && us[j].recovery == []
  {
    if j > 0 {
      EnabledIffConfirmedLast(o, us, ops, j - 1);
      assert us[j] == Step(o, us[j - 1], ops[j - 1]);
    }
  }

  /** While it is off, the pending secret is the one started last since it was switched off. */
  lemma {:induction false} PendingIsLastStarted(o: Oracle, us: seq<User>, ops: seq<Op>, i: nat, j: nat)
    requires IsRun(o, us, ops) && i < j < |us| && ops[i].Start? && !us[i].enabled
    requires forall m :: i < m < j ==> !ops[m].Start?
    requires forall m :: i < m <= j ==> !us[m].enabled
    ensures us[j].pending == Some(ops[i].newSecret)
    decreases j
  {
    assert us[i + 1] == Step(o, us[i], ops[i]);
    if j > i + 1 {
      PendingIsLastStarted(o, us, ops, i, j - 1);
      assert us[j] == Step(o, us[j - 1], ops[j - 1]);
    }
  }
}
