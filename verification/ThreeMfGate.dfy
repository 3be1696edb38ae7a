/** The per-platform 3MF download gate (app/services/account_health.py) and how the result of an archive
    task moves it (app/services/archive_worker.py). Identifiers are stripped text. */
module ThreeMfGate {
  import opened Platforms
  import opened Wrappers

  datatype Health =
    | HealthOk
    | HealthVerification
    | HealthDailyLimit
    | HealthCookieInvalid
    | HealthNetworkError
    | HealthUnknown

  datatype Gate = Open | DailyLimit | Verification | CookieInvalid | NetworkError | Unknown

  datatype Reason = NoReason | Isolated | BrowserSessionUnchanged | DownloadFailed | CookieUpdated | OtherReason

  datatype Snapshot = Snapshot(status: Health, modelId: string, instanceId: string, gate: Gate, gateReason: Reason)

  const EMPTY := Snapshot(HealthUnknown, "", "", Open, NoReason)

  /** The failure states of a missing 3MF that say something about the account. */
  datatype Failure = VerificationRequired | Cloudflare | AuthRequired | CookieExpired | DownloadLimited

  datatype MissingItem = MissingItem(failure: Option<Failure>, instanceId: string)

  datatype Classified = Classified(failure: Failure, instanceId: string)

  datatype Call = Call(
    modelId: string, instanceId: string, missing: seq<MissingItem>,
    missingRetry: bool, browserRecovery: bool, authorizationSucceeded: bool)

  /** A target is a model and one of its instances. */
  type Target = (string, string)

  function GateOf(failure: Failure): Gate {
    match failure
    case VerificationRequired => Verification
    case Cloudflare => Verification
    case AuthRequired => CookieInvalid
    case CookieExpired => CookieInvalid
    case DownloadLimited => DailyLimit
  }

  function UpdateGate(s: Snapshot, gate: Gate, reason: Reason, target: Target): Snapshot {
    Snapshot(if s.status != HealthUnknown then s.status else HealthOk, target.0, target.1, gate, reason)
  }

  function UpdateHealth(s: Snapshot, status: Health, target: Target): Snapshot {
    s.(status := status, modelId := target.0, instanceId := target.1)
  }

  function MarkOk(s: Snapshot, target: Target): Snapshot {
    UpdateHealth(s, HealthOk, target).(gate := Open, gateReason := NoReason)
  }

  function MarkNetworkError(s: Snapshot, target: Target): Snapshot {
    var t := UpdateHealth(s, HealthNetworkError, target);
    if s.gate == Open || s.gate == Unknown then t.(gate := Open, gateReason := NoReason) else t
  }

  function MarkChecking(s: Snapshot): Snapshot {
    if s.gate == DailyLimit then s else Snapshot(HealthUnknown, "", "", Unknown, CookieUpdated)
  }

  /** Everything that writes a platform's snapshot. */
  datatype Write =
    | SetGate(gate: Gate, reason: Reason, target: Target)
    | SetHealth(status: Health, target: Target)
    | SetOk(target: Target)
    | SetNetworkError(target: Target)
    | SetChecking
    | SetOpen(target: Target)

  function Written(s: Snapshot, writes: seq<Write>): Snapshot
    decreases |writes|
  {
    if writes == [] then s else Written(WrittenOne(s, writes[0]), writes[1..])
  }

  function WrittenOne(s: Snapshot, write: Write): Snapshot {
    match write
    case SetGate(gate, reason, target) => UpdateGate(s, gate, reason, target)
    case SetHealth(status, target) => UpdateHealth(s, status, target)
    case SetOk(target) => MarkOk(s, target)
    case SetNetworkError(target) => MarkNetworkError(s, target)
    case SetChecking => MarkChecking(s)
    case SetOpen(target) => s.(modelId := target.0, instanceId := target.1, gate := Open, gateReason := NoReason)
  }

  /** The callers that set a gate name a known one: open, a failure, or a failed account test. */
  predicate NamesGate(write: Write) {
    write.SetGate? ==> write.gate != Unknown
  }

  /** A gate is unknown only since a change of login. */
  lemma {:induction false} UnknownAfterLogin(s: Snapshot, writes: seq<Write>)
    requires forall write | write in writes :: NamesGate(write)
    requires s.gate == Unknown ==> s.gateReason == CookieUpdated
    ensures Written(s, writes).gate == Unknown ==> Written(s, writes).gateReason == CookieUpdated
    decreases |writes|
  {
    if writes != [] {
      assert NamesGate(writes[0]) && forall write | write in writes[1..] :: write in writes;
      UnknownAfterLogin(WrittenOne(s, writes[0]), writes[1..]);
    }
  }

  /** The first missing item that says something about the account. */
  function FirstFailure(missing: seq<MissingItem>): Option<Classified> {
    if missing == [] then None
    else if missing[0].failure.Some? then Some(Classified(missing[0].failure.value, missing[0].instanceId))
    else FirstFailure(missing[1..])
  }

  /** This item says something about the account, and none before it does. */
  ghost predicate IsFirstFailure(missing: seq<MissingItem>, i: nat) {
    i < |missing| && missing[i].failure.Some? && forall j | 0 <= j < i :: missing[j].failure.None?
  }

  lemma {:induction false} FirstFailureIs(missing: seq<MissingItem>)
    ensures match FirstFailure(missing)
            case None => forall item | item in missing :: item.failure.None?
            case Some(c) => exists i: nat :: IsFirstFailure(missing, i) && missing[i].failure == Some(c.failure)
                                             && missing[i].instanceId == c.instanceId
    decreases |missing|
  {
    if missing != [] {
      if missing[0].failure.Some? {
        assert IsFirstFailure(missing, 0);
      } else {
        FirstFailureIs(missing[1..]);
        assert missing == [missing[0]] + missing[1..];
        if FirstFailure(missing).Some? {
          var c := FirstFailure(missing).value;
          var i: nat :| IsFirstFailure(missing[1..], i) && missing[1..][i].failure == Some(c.failure)
                        && missing[1..][i].instanceId == c.instanceId;
          assert IsFirstFailure(missing, i + 1);
        }
      }
    }
  }

  predicate IsLoginFailure(failure: Failure) {
    failure == AuthRequired || failure == CookieExpired
  }

  /** A login failure counts as a pending verification when the browser session is being recovered, or
      while the gate waits for a confirmation in the browser. */
  function Reclassified(s: Snapshot, c: Classified, browserRecovery: bool): Classified {
    if IsLoginFailure(c.failure) &&
        (browserRecovery || (s.gate == Verification && s.gateReason == BrowserSessionUnchanged))
    then c.(failure := VerificationRequired)
    else c
  }

  function FailureTarget(call: Call, c: Classified): Target {
    (call.modelId, if c.instanceId != "" then c.instanceId else call.instanceId)
  }

  /** How one archive result moves the snapshot of its platform. */
  function Sync(s: Snapshot, call: Call): (Snapshot, Option<Classified>) {
    match FirstFailure(call.missing)
    case None =>
      if (call.missingRetry || call.browserRecovery) && call.missing == []
      then (MarkOk(s, (call.modelId, call.instanceId)), None)
      else (s, None)
    case Some(first) =>
      var direct := first.failure == VerificationRequired || first.failure == Cloudflare;
      var c := Reclassified(s, first, call.browserRecovery);
      var target := FailureTarget(call, c);
      if call.authorizationSucceeded && c.failure != Cloudflare then
        (MarkOk(s, (call.modelId, call.instanceId)), None)
      else if direct && c.failure != Cloudflare && s.gate == Open
              && (s.gateReason != Isolated || (s.modelId, s.instanceId) == target) then
        (if s.gateReason != Isolated then UpdateGate(s, Open, Isolated, target) else s, None)
      else
        (UpdateGate(s, GateOf(c.failure), DownloadFailed, target), Some(c))
  }

  /** A login failure while the browser session is recovered, or awaits a confirmation, is a verification that is
      still to come. */
  predicate AwaitsConfirmation(s: Snapshot, call: Call) {
    call.browserRecovery || (s.gate == Verification && s.gateReason == BrowserSessionUnchanged)
  }

  /** The gate a failure closes a platform with, when nothing excuses it. */
  predicate IsClosedWith(s: Snapshot, call: Call, failure: Failure, gate: Gate) {
    match failure
    case DownloadLimited => gate == DailyLimit
    case VerificationRequired => gate == Verification
    case Cloudflare => gate == Verification
    case AuthRequired => gate == if AwaitsConfirmation(s, call) then Verification else CookieInvalid
    case CookieExpired => gate == if AwaitsConfirmation(s, call) then Verification else CookieInvalid
  }

  /** A verification failure that an open gate takes for one bad instance. */
  predicate IsIsolated(s: Snapshot, call: Call, failure: Failure, target: Target) {
    && failure == VerificationRequired && s.gate == Open
    && (s.gateReason != Isolated || (s.modelId == target.0 && s.instanceId == target.1))
  }

  /** Main result: what a result with a failure makes of its platform's snapshot. A challenge of the site's own
      guard closes at once; a successful authorization excuses anything else; a verification failure of the first
      instance is noted and the gate stays open; every other failure closes the gate with the state that says
      what is wrong. */
  lemma FailureSays(s: Snapshot, call: Call, failure: Failure, instanceId: string)
    requires FirstFailure(call.missing) == Some(Classified(failure, instanceId))
    ensures var after, reported := Sync(s, call).0, Sync(s, call).1;
            var target := (call.modelId, if instanceId != "" then instanceId else call.instanceId);
            if call.authorizationSucceeded && failure != Cloudflare then
              reported.None? && after == Snapshot(HealthOk, call.modelId, call.instanceId, Open, NoReason)
            else if IsIsolated(s, call, failure, target) then
              && reported.None? && after.gate == Open && after.gateReason == Isolated
              && (after.modelId, after.instanceId) == target
            else
              && reported.Some? && IsClosedWith(s, call, failure, after.gate) && after.gateReason == DownloadFailed
              && (after.modelId, after.instanceId) == target
              && after.status == (if s.status == HealthUnknown then HealthOk else s.status)
  {}

  /** A result without a failure opens the gate after a retry or a recovery that left nothing missing. */
  lemma NoFailureSays(s: Snapshot, call: Call)
    requires FirstFailure(call.missing) == None
    ensures Sync(s, call) ==
            if call.missing == [] && (call.missingRetry || call.browserRecovery)
            then (Snapshot(HealthOk, call.modelId, call.instanceId, Open, NoReason), None)
            else (s, None)
  {}

  /** A network error opens a gate that was open or in doubt and leaves a closed one; a change of login leaves a
      daily limit and puts any other gate in doubt. */
  lemma ErrorsAndLoginsSay(s: Snapshot, target: Target)
    ensures var after := MarkNetworkError(s, target);
            && after.status == HealthNetworkError && (after.modelId, after.instanceId) == target
            && (if s.gate in {Open, Unknown} then after.gate == Open && after.gateReason == NoReason
                else after.gate == s.gate && after.gateReason == s.gateReason)
    ensures var after := MarkChecking(s);
            if s.gate == DailyLimit then after == s
            else after.gate == Unknown && after.gateReason == CookieUpdated && after.status == HealthUnknown
                 && after.modelId == after.instanceId == ""
    ensures WrittenOne(s, SetOpen(target)) == Snapshot(s.status, target.0, target.1, Open, NoReason)
  {}

  // ---------------------------------------------------------------------------------------------
  // One bad instance does not close a platform; two do

  type State = Platform -> Snapshot

  function Run(s: State, calls: seq<(Platform, Call)>): State
    decreases |calls|
  {
    if calls == [] then s
    else
      var (p, call) := calls[0];
      var after := Sync(s(p), call).0;
      Run(q => if q == p then after else s(q), calls[1..])
  }

  /** A verification failure of one target, not excused by a successful authorization. */
  predicate IsDirectFailure(call: Call) {
    var first := FirstFailure(call.missing);
    first.Some? && first.value.failure == VerificationRequired && !call.authorizationSucceeded
  }

  /** A result that marks the account well: nothing missing after a retry or a recovery, or a verification
      failure excused by a successful authorization. */
  predicate IsReset(call: Call) {
    var first := FirstFailure(call.missing);
    || (call.missing == [] && (call.missingRetry || call.browserRecovery))
    || (first.Some? && first.value.failure == VerificationRequired && call.authorizationSucceeded)
  }

  predicate SaysNothing(call: Call) {
    FirstFailure(call.missing).None? && !IsReset(call)
  }

  function TargetOf(call: Call): Target
    requires IsDirectFailure(call)
  {
    FailureTarget(call, FirstFailure(call.missing).value)
  }

  /** The failing targets of a platform since its last reset, after those in past. */
  function SinceReset(p: Platform, past: seq<Target>, calls: seq<(Platform, Call)>): seq<Target>
    decreases |calls|
  {
    if calls == [] then past
    else
      var (q, call) := calls[0];
      var now :=
        if q != p then past
        else if IsDirectFailure(call) then past + [TargetOf(call)]
        else if IsReset(call) then []
        else past;
      SinceReset(p, now, calls[1..])
  }

  ghost predicate TwoDiffer(targets: seq<Target>) {
    exists i, j :: 0 <= i < |targets| && 0 <= j < |targets| && targets[i] != targets[j]
  }

  /** What the snapshot remembers of the failures since the last reset. */
  ghost predicate Remembers(s: Snapshot, targets: seq<Target>) {
    if targets == [] then s.gate == Open && s.gateReason != Isolated
    else if TwoDiffer(targets) then s.gate == Verification && s.gateReason == DownloadFailed
    else s.gate == Open && s.gateReason == Isolated && (s.modelId, s.instanceId) == targets[0]
  }

  lemma OneMoreTarget(targets: seq<Target>, t: Target)
    ensures TwoDiffer(targets + [t]) <==> TwoDiffer(targets) || (targets != [] && targets[0] != t)
  {
    var more := targets + [t];
    if TwoDiffer(targets) {
      var i, j :| 0 <= i < |targets| && 0 <= j < |targets| && targets[i] != targets[j];
      assert more[i] != more[j];
    }
    if targets != [] && targets[0] != t { assert more[0] != more[|targets|]; }
    if TwoDiffer(more) && !TwoDiffer(targets) {
      var i, j :| 0 <= i < |more| && 0 <= j < |more| && more[i] != more[j];
      assert forall k | 0 <= k < |targets| :: targets[k] == targets[0];
    }
  }

  lemma SyncRemembers(s: Snapshot, targets: seq<Target>, call: Call)
    requires Remembers(s, targets)
    requires IsDirectFailure(call) || IsReset(call) || SaysNothing(call)
    ensures Remembers(Sync(s, call).0,
                      if IsDirectFailure(call) then targets + [TargetOf(call)]
                      else if IsReset(call) then [] else targets)
  {
    if IsDirectFailure(call) { OneMoreTarget(targets, TargetOf(call)); }
  }

  lemma {:induction false} RunRemembers(s: State, past: seq<Target>, p: Platform, calls: seq<(Platform, Call)>)
    requires Remembers(s(p), past)
    requires forall c | c in calls && c.0 == p :: IsDirectFailure(c.1) || IsReset(c.1) || SaysNothing(c.1)
    ensures Remembers(Run(s, calls)(p), SinceReset(p, past, calls))
    decreases |calls|
  {
    if calls != [] {
      var (q, call) := calls[0];
      assert (q, call) in calls && forall c | c in calls[1..] :: c in calls;
      if q == p { SyncRemembers(s(p), past, call); }
      var after := Sync(s(q), call).0;
      var now := if q != p then past else if IsDirectFailure(call) then past + [TargetOf(call)]
                 else if IsReset(call) then [] else past;
      RunRemembers(x => if x == q then after else s(x), now, p, calls[1..]);
    }
  }

  /** Main result: from an open gate that isolates nothing, a run of verification failures and resets
      leaves the gate closed if and only if two different targets have failed since the last reset. Any
      number of failures of one target leave it open, whatever happens on the other platform. */
  lemma ClosesOnSecondTarget(s: State, p: Platform, calls: seq<(Platform, Call)>)
    requires s(p).gate == Open && s(p).gateReason != Isolated
    requires forall c | c in calls && c.0 == p :: IsDirectFailure(c.1) || IsReset(c.1) || SaysNothing(c.1)
    ensures Run(s, calls)(p).gate != Open <==> TwoDiffer(SinceReset(p, [], calls))
    ensures SinceReset(p, [], calls) != [] && Run(s, calls)(p).gate == Open ==>
              Run(s, calls)(p).gateReason == Isolated
              && (Run(s, calls)(p).modelId, Run(s, calls)(p).instanceId) == SinceReset(p, [], calls)[0]
  {
    RunRemembers(s, [], p, calls);
  }

  /** Results for one platform never touch the other one's snapshot. */
  lemma {:induction false} OtherPlatformUntouched(s: State, p: Platform, calls: seq<(Platform, Call)>)
    requires forall c | c in calls :: c.0 != p
    ensures Run(s, calls)(p) == s(p)
    decreases |calls|
  {
    if calls != [] {
      var (q, call) := calls[0];
      assert (q, call) in calls && forall c | c in calls[1..] :: c in calls;
      var after := Sync(s(q), call).0;
      OtherPlatformUntouched(x => if x == q then after else s(x), p, calls[1..]);
    }
  }

  /** Why the run above has no plain status updates: one between two failures of the same target
      overwrites the remembered target but not the reason, so the second failure closes the gate if and
      only if the update named another target. A network error instead forgets the isolation. */
  lemma StatusUpdateForgetsTarget(s: Snapshot, call: Call, status: Health, target: Target)
    requires s.gate == Open && s.gateReason != Isolated && IsDirectFailure(call)
    ensures var isolated := Sync(s, call).0;
            && (Sync(UpdateHealth(isolated, status, target), call).0.gate != Open <==> target != TargetOf(call))
            && Sync(MarkNetworkError(isolated, target), call).0.gate == Open
            && MarkChecking(isolated).gate == Unknown
  {}

  // ---------------------------------------------------------------------------------------------
  // The stored snapshots

  method AccountFailure(missing: seq<MissingItem>) returns (c: Option<Classified>)
    ensures c == FirstFailure(missing)
  {
    var i := 0;
    while i < |missing|
      invariant 0 <= i <= |missing|
      invariant FirstFailure(missing) == FirstFailure(missing[i..])
    {
      if missing[i].failure.Some? {
        return Some(Classified(missing[i].failure.value, missing[i].instanceId));
      }
      i := i + 1;
    }
    c := None;
  }

  class AccountHealth {
    var snapshots: map<Platform, Snapshot>

    constructor ()
      ensures forall p :: View(p) == EMPTY == Snapshot(HealthUnknown, "", "", Open, NoReason)
    {
      snapshots := map[];
    }

    function View(p: Platform): Snapshot
      reads this
    {
      if p in snapshots then snapshots[p] else EMPTY
    }

    method UpdateThreeMfGate(p: Platform, gate: Gate, reason: Reason, target: Target)
      modifies this
      ensures View(p) == UpdateGate(old(View(p)), gate, reason, target)
      ensures View(p).gate == gate && View(p).gateReason == reason && (View(p).modelId, View(p).instanceId) == target
      ensures View(p).status == if old(View(p)).status == HealthUnknown then HealthOk else old(View(p)).status
      ensures forall q | q != p :: View(q) == old(View(q))
    {
      var current := View(p);
      if current.status == HealthUnknown { current := current.(status := HealthOk); }
      current := current.(modelId := target.0, instanceId := target.1, gate := gate, gateReason := reason);
      snapshots := snapshots[p := current];
    }

    method UpdateAccountHealth(p: Platform, status: Health, target: Target)
      modifies this
      ensures View(p) == UpdateHealth(old(View(p)), status, target)
      ensures View(p).status == status && (View(p).modelId, View(p).instanceId) == target
      ensures View(p).gate == old(View(p)).gate && View(p).gateReason == old(View(p)).gateReason
      ensures forall q | q != p :: View(q) == old(View(q))
    {
      snapshots := snapshots[p := View(p).(status := status, modelId := target.0, instanceId := target.1)];
    }

    method MarkAccountOk(p: Platform, target: Target)
      modifies this
      ensures View(p) == MarkOk(old(View(p)), target)
      ensures View(p) == Snapshot(HealthOk, target.0, target.1, Open, NoReason)
      ensures forall q | q != p :: View(q) == old(View(q))
    {
      UpdateAccountHealth(p, HealthOk, target);
      snapshots := snapshots[p := View(p).(gate := Open, gateReason := NoReason)];
    }

    method SyncArchiveResult(p: Platform, call: Call) returns (reported: Option<Classified>)
      modifies this
      ensures (View(p), reported) == Sync(old(View(p)), call)
      ensures forall q | q != p :: View(q) == old(View(q))
    {
      var first := AccountFailure(call.missing);
      if first.None? {
        if (call.missingRetry || call.browserRecovery) && call.missing == [] {
          MarkAccountOk(p, (call.modelId, call.instanceId));
        }
        return None;
      }
      var direct := first.value.failure == VerificationRequired || first.value.failure == Cloudflare;
      var current := View(p);
      var c := Reclassified(current, first.value, call.browserRecovery);
      if call.authorizationSucceeded && c.failure != Cloudflare {
        MarkAccountOk(p, (call.modelId, call.instanceId));
        return None;
      }
      var target := FailureTarget(call, c);
      if direct && c.failure != Cloudflare && current.gate == Open
         && (current.gateReason != Isolated || (current.modelId, current.instanceId) == target)
      {
        if current.gateReason != Isolated { UpdateThreeMfGate(p, Open, Isolated, target); }
        return None;
      }
      UpdateThreeMfGate(p, GateOf(c.failure), DownloadFailed, target);
      reported := Some(c);
    }
  }
}
