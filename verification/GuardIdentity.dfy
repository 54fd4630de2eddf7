// Process identities: the tolerant comparison and the fail-closed kill authorization.
module GuardIdentity {
  import opened Options

  datatype Identity = Identity(
    pid: int,
    createTime: Option<real>,
    executable: Option<string>,
    parentPid: Option<int>,
    token: Option<string>)

  datatype Mismatch =
    | PidDiffers
    | CreateTimeDiffers
    | CreateTimeUnknown
    | ExecutableDiffers
    | ParentDiffers
    | TokenDiffers
    | NothingConfirmed

  const CREATE_TIME_TOLERANCE := 5.0

  function Abs(x: real): real { if x < 0.0 then -x else x }

  predicate Known<T>(a: Option<T>, b: Option<T>) { a.Some? && b.Some? }

  predicate TimesDiffer(expected: Identity, actual: Identity, tolerance: real)
  {
    Known(expected.createTime, actual.createTime)
      && Abs(expected.createTime.value - actual.createTime.value) > tolerance
  }

  // canon stands for the platform's canonical_executable.
  predicate ExecutablesDiffer(expected: Identity, actual: Identity, canon: string -> string)
  {
    Known(expected.executable, actual.executable) && canon(expected.executable.value) != canon(actual.executable.value)
  }

  function When(b: bool, m: Mismatch): seq<Mismatch> { if b then [m] else [] }

  // All reasons why the two identities cannot be the same process; unknown attributes are no reason.
  function IdentityMatches(
    expected: Identity, actual: Identity, tolerance: real, requireParent: bool, canon: string -> string)
    : (bool, seq<Mismatch>)
  {
    var reasons :=
      When(expected.pid != actual.pid, PidDiffers)
      + When(TimesDiffer(expected, actual, tolerance), CreateTimeDiffers)
      + When(ExecutablesDiffer(expected, actual, canon), ExecutableDiffers)
      + When(requireParent && Known(expected.parentPid, actual.parentPid)
        && expected.parentPid != actual.parentPid, ParentDiffers)
      + When(Known(expected.token, actual.token) && expected.token != actual.token, TokenDiffers);
    (reasons == [], reasons)
  }

  // The kill gate: the first obstacle, in the order of the checks, or a yes.
  function AuthorizedForKill(expected: Identity, actual: Identity, tolerance: real, canon: string -> string)
    : (bool, seq<Mismatch>)
  {
    if expected.pid != actual.pid then (false, [PidDiffers])
    else if !Known(expected.createTime, actual.createTime) then (false, [CreateTimeUnknown])
    else if TimesDiffer(expected, actual, tolerance) then (false, [CreateTimeDiffers])
    else if ExecutablesDiffer(expected, actual, canon) then (false, [ExecutableDiffers])
    else if Known(expected.parentPid, actual.parentPid) && expected.parentPid != actual.parentPid then
      (false, [ParentDiffers])
    else if Known(expected.token, actual.token) && expected.token != actual.token then (false, [TokenDiffers])
    else
      var confirmed :=
        || Known(expected.executable, actual.executable)
        || Known(expected.parentPid, actual.parentPid)
        || Known(expected.token, actual.token);
      if confirmed then (true, []) else (false, [NothingConfirmed])
  }

  // An attribute is confirmed when it is known on both sides and equal.
  predicate ExecutableConfirmed(a: Identity, b: Identity, canon: string -> string)
  {
    Known(a.executable, b.executable) && canon(a.executable.value) == canon(b.executable.value)
  }

  predicate Confirmed<T(==)>(a: Option<T>, b: Option<T>) { Known(a, b) && a == b }

  // Authorized exactly when the tolerant comparison passes, both create times are known,
  // and at least one more attribute is confirmed.
  lemma AuthorizationIsMatchPlusEvidence(expected: Identity, actual: Identity, tolerance: real, canon: string -> string)
    ensures AuthorizedForKill(expected, actual, tolerance, canon).0 <==>
      && IdentityMatches(expected, actual, tolerance, true, canon).0
      && Known(expected.createTime, actual.createTime)
      && (|| ExecutableConfirmed(expected, actual, canon)
          || Confirmed(expected.parentPid, actual.parentPid)
          || Confirmed(expected.token, actual.token))
    ensures AuthorizedForKill(expected, actual, tolerance, canon).0 ==>
      IdentityMatches(expected, actual, tolerance, false, canon).0
    ensures AuthorizedForKill(expected, actual, tolerance, canon).0 <==>
      AuthorizedForKill(expected, actual, tolerance, canon).1 == []
  {
    var r := IdentityMatches(expected, actual, tolerance, true, canon).1;
    MatchReasons(expected, actual, tolerance, true, canon);
    MatchReasons(expected, actual, tolerance, false, canon);
  }

  // The tolerant comparison passes exactly when no attribute known on both sides differs.
  lemma MatchReasons(
    expected: Identity, actual: Identity, tolerance: real, requireParent: bool, canon: string -> string)
    ensures IdentityMatches(expected, actual, tolerance, requireParent, canon).0 <==>
      && expected.pid == actual.pid
      && !TimesDiffer(expected, actual, tolerance)
      && !ExecutablesDiffer(expected, actual, canon)
      && !(requireParent && Known(expected.parentPid, actual.parentPid) && expected.parentPid != actual.parentPid)
      && !(Known(expected.token, actual.token) && expected.token != actual.token)
  {
    var a, b := When(expected.pid != actual.pid, PidDiffers),
      When(TimesDiffer(expected, actual, tolerance), CreateTimeDiffers);
    var c := When(ExecutablesDiffer(expected, actual, canon), ExecutableDiffers);
    var d := When(requireParent && Known(expected.parentPid, actual.parentPid)
      && expected.parentPid != actual.parentPid, ParentDiffers);
    var e := When(Known(expected.token, actual.token) && expected.token != actual.token, TokenDiffers);
    assert |a + b + c + d + e| == |a| + |b| + |c| + |d| + |e|;
  }

  // The two comparisons in the numbers themselves: what is known on both sides agrees, create times to within
  // the tolerance in either direction; and the kill gate wants the times known and something else confirmed.
  lemma ComparedExactly(expected: Identity, actual: Identity, tolerance: real, parent: bool, canon: string -> string)
    ensures IdentityMatches(expected, actual, tolerance, parent, canon).0 <==>
      && expected.pid == actual.pid
      && (expected.createTime.Some? && actual.createTime.Some? ==>
            -tolerance <= expected.createTime.value - actual.createTime.value <= tolerance)
      && (expected.executable.Some? && actual.executable.Some? ==>
            canon(expected.executable.value) == canon(actual.executable.value))
      && (parent && expected.parentPid.Some? && actual.parentPid.Some? ==>
            expected.parentPid.value == actual.parentPid.value)
      && (expected.token.Some? && actual.token.Some? ==> expected.token.value == actual.token.value)
    ensures AuthorizedForKill(expected, actual, tolerance, canon).0 <==>
      && expected.pid == actual.pid && expected.createTime.Some? && actual.createTime.Some?
      && -tolerance <= expected.createTime.value - actual.createTime.value <= tolerance
      && (expected.executable.Some? && actual.executable.Some? ==>
            canon(expected.executable.value) == canon(actual.executable.value))
      && (expected.parentPid.Some? && actual.parentPid.Some? ==> expected.parentPid.value == actual.parentPid.value)
      && (expected.token.Some? && actual.token.Some? ==> expected.token.value == actual.token.value)
      && (|| (expected.executable.Some? && actual.executable.Some?)
          || (expected.parentPid.Some? && actual.parentPid.Some?)
          || (expected.token.Some? && actual.token.Some?))
  {
    MatchReasons(expected, actual, tolerance, parent, canon);
  }

  // Create times known on both sides and more than five seconds apart: two processes.
  predicate Apart(a: Identity, b: Identity)
  {
    && a.createTime.Some? && b.createTime.Some?
    && !(-5.0 <= a.createTime.value - b.createTime.value <= 5.0)
  }

  lemma ApartExactly(a: Identity, b: Identity)
    ensures Apart(a, b) <==> TimesDiffer(a, b, CREATE_TIME_TOLERANCE)
  {
  }

  // The tolerant comparison alone never authorizes: two identities of which nothing but the pid is known
  // match, and are not authorized.
  lemma MatchIsNotAuthorization(pid: int, canon: string -> string)
    ensures var bare := Identity(pid, None, None, None, None);
      && IdentityMatches(bare, bare, CREATE_TIME_TOLERANCE, true, canon).0
      && !AuthorizedForKill(bare, bare, CREATE_TIME_TOLERANCE, canon).0
  {
    var bare := Identity(pid, None, None, None, None);
    MatchReasons(bare, bare, CREATE_TIME_TOLERANCE, true, canon);
  }

  // The same process, its path written in canonical form.
  function Canonical(i: Identity, canon: string -> string): Identity
  {
    i.(executable := if i.executable.Some? then Some(canon(i.executable.value)) else None)
  }

  // Canonical paths are compared, so spelling does not matter: for an idempotent canon neither verdict
  // changes when either path or both are replaced by their canonical forms.
  lemma CanonicalFormsAreInterchangeable(expected: Identity, actual: Identity, tolerance: real, canon: string -> string)
    requires forall p :: canon(canon(p)) == canon(p)
    ensures AuthorizedForKill(Canonical(expected, canon), actual, tolerance, canon)
         == AuthorizedForKill(expected, Canonical(actual, canon), tolerance, canon)
         == AuthorizedForKill(Canonical(expected, canon), Canonical(actual, canon), tolerance, canon)
         == AuthorizedForKill(expected, actual, tolerance, canon)
    ensures forall parent: bool ::
      IdentityMatches(Canonical(expected, canon), Canonical(actual, canon), tolerance, parent, canon)
         == IdentityMatches(expected, actual, tolerance, parent, canon)
  {
  }
}
