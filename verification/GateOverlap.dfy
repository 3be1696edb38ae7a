/** Archive results and other writers of the gate in flight together (app/services/archive_worker.py over
    app/services/account_health.py). Each reads the stored snapshots to decide, and then, for each of its writes,
    loads the snapshots of both platforms, changes one and saves both; nothing keeps others out in between. */
module GateOverlap {
  import opened Platforms
  import opened ThreeMfGate
  import opened Wrappers

  datatype Both<T> = Both(cn: T, global: T)

  function Of<T>(b: Both<T>, p: Platform): T {
    if p == Cn then b.cn else b.global
  }

  function With<T>(b: Both<T>, p: Platform, value: T): Both<T> {
    if p == Cn then b.(cn := value) else b.(global := value)
  }

  // ---------------------------------------------------------------------------------------------
  // What acts on a snapshot, one thing after the other

  /** An archive result, a write from elsewhere, or one of the two writes that mark an account well. */
  datatype Effect = Result(call: Call) | Wrote(write: Write) | Halfway(target: Target) | Finish

  function Acted(s: Snapshot, e: Effect): Snapshot {
    match e
    case Result(call) => Sync(s, call).0
    case Wrote(write) => WrittenOne(s, write)
    case Halfway(target) => UpdateHealth(s, HealthOk, target)
    case Finish => s.(gate := Open, gateReason := NoReason)
  }

  function Replay(s: Snapshot, chain: seq<Effect>): Snapshot
    decreases |chain|
  {
    if chain == [] then s else Acted(Replay(s, chain[..|chain| - 1]), chain[|chain| - 1])
  }

  // ---------------------------------------------------------------------------------------------
  // Jobs

  /** A write to come. A planned one was decided on what the job had read; any other changes what it loads. */
  datatype Pending =
    | Plan(gate: Gate, reason: Reason, target: Target, call: Call, seen: seq<Effect>)
    | Own(effect: Effect)

  datatype Job =
    | Begun(p: Platform, call: Call)
    | Ready(p: Platform, todo: seq<Pending>)
    | Loaded(p: Platform, todo: seq<Pending>, payload: Both<Snapshot>, chains: Both<seq<Effect>>)

  type JobId = nat

  /** The stored snapshots and the jobs in flight. Bookkeeping for the theorems: for each platform the chain of
      effects behind its stored snapshot, each decided with the ones before it in sight. */
  datatype System = System(payload: Both<Snapshot>, jobs: map<JobId, Job>, chains: Both<seq<Effect>>)

  datatype Event =
    | Begin(job: JobId, p: Platform, call: Call)
    | BeginWrite(job: JobId, p: Platform, write: Write)
    | Advance(job: JobId)

  function MarkingOk(target: Target): seq<Pending> {
    [Own(Halfway(target)), Own(Finish)]
  }

  /** What a result does, decided on the snapshot it reads. */
  function Decided(s: Snapshot, call: Call, seen: seq<Effect>): seq<Pending> {
    match FirstFailure(call.missing)
    case None =>
      if (call.missingRetry || call.browserRecovery) && call.missing == []
      then MarkingOk((call.modelId, call.instanceId)) else []
    case Some(first) =>
      var direct := first.failure == VerificationRequired || first.failure == Cloudflare;
      var c := Reclassified(s, first, call.browserRecovery);
      var target := FailureTarget(call, c);
      if call.authorizationSucceeded && c.failure != Cloudflare then MarkingOk((call.modelId, call.instanceId))
      else if direct && c.failure != Cloudflare && s.gate == Open
              && (s.gateReason != Isolated || (s.modelId, s.instanceId) == target) then
        (if s.gateReason != Isolated then [Plan(Open, Isolated, target, call, seen)] else [])
      else [Plan(GateOf(c.failure), DownloadFailed, target, call, seen)]
  }

  function Saved(loaded: Snapshot, w: Pending): Snapshot {
    match w
    case Plan(gate, reason, target, _, _) => UpdateGate(loaded, gate, reason, target)
    case Own(effect) => Acted(loaded, effect)
  }

  function SavedChain(loaded: seq<Effect>, w: Pending): seq<Effect> {
    match w
    case Plan(_, _, _, call, seen) => seen + [Result(call)]
    case Own(effect) => loaded + [effect]
  }

  function Kept(s: System, j: JobId, p: Platform, todo: seq<Pending>): System {
    if todo == [] then s.(jobs := s.jobs - {j}) else s.(jobs := s.jobs[j := Ready(p, todo)])
  }

  /** One step of a job: decide, load, or save. */
  function Advanced(s: System, j: JobId): System
    requires j in s.jobs
  {
    match s.jobs[j]
    case Begun(p, call) => Kept(s, j, p, Decided(Of(s.payload, p), call, Of(s.chains, p)))
    case Ready(p, todo) => if todo == [] then s else s.(jobs := s.jobs[j := Loaded(p, todo, s.payload, s.chains)])
    case Loaded(p, todo, payload, chains) =>
      if todo == [] then s
      else
        var stored := s.(payload := With(payload, p, Saved(Of(payload, p), todo[0])),
                         chains := With(chains, p, SavedChain(Of(chains, p), todo[0])));
        Kept(stored, j, p, todo[1..])
  }

  function WriteSteps(write: Write): seq<Pending> {
    if write.SetOk? then MarkingOk(write.target) else [Own(Wrote(write))]
  }

  function Step(s: System, e: Event): System {
    match e
    case Begin(j, p, call) => if j in s.jobs then s else s.(jobs := s.jobs[j := Begun(p, call)])
    case BeginWrite(j, p, write) => if j in s.jobs then s else s.(jobs := s.jobs[j := Ready(p, WriteSteps(write))])
    case Advance(j) => if j in s.jobs then Advanced(s, j) else s
  }

  function Steps(s: System, events: seq<Event>): System
    decreases |events|
  {
    if events == [] then s else Steps(Step(s, events[0]), events[1..])
  }

  function Start(payload: Both<Snapshot>): System {
    System(payload, map[], Both([], []))
  }

  // ---------------------------------------------------------------------------------------------
  // Every stored snapshot is what its chain makes, one effect after the other

  /** Equal but for the health status. */
  predicate Alike(a: Snapshot, b: Snapshot) {
    a.(status := b.status) == b
  }

  lemma ActedAlike(a: Snapshot, b: Snapshot, e: Effect)
    requires Alike(a, b)
    ensures Alike(Acted(a, e), Acted(b, e))
  {}

  /** A planned write is what the result does to the snapshot of its chain. */
  ghost predicate PendingOk(start: Snapshot, w: Pending) {
    match w
    case Plan(gate, reason, target, call, seen) =>
      Alike(UpdateGate(start, gate, reason, target), Acted(Replay(start, seen), Result(call)))
    case Own(effect) => true
  }

  ghost predicate TodoOk(start: Snapshot, todo: seq<Pending>) {
    forall w | w in todo :: PendingOk(start, w)
  }

  ghost predicate ChainOk(start: Both<Snapshot>, payload: Both<Snapshot>, chains: Both<seq<Effect>>) {
    Alike(payload.cn, Replay(start.cn, chains.cn)) && Alike(payload.global, Replay(start.global, chains.global))
  }

  ghost predicate JobOk(start: Both<Snapshot>, job: Job) {
    match job
    case Begun(_, _) => true
    case Ready(p, todo) => TodoOk(Of(start, p), todo)
    case Loaded(p, todo, payload, chains) => TodoOk(Of(start, p), todo) && ChainOk(start, payload, chains)
  }

  ghost predicate Inv(start: Both<Snapshot>, s: System) {
    ChainOk(start, s.payload, s.chains) && forall j | j in s.jobs :: JobOk(start, s.jobs[j])
  }

  lemma DecidedOk(start: Snapshot, s: Snapshot, call: Call, seen: seq<Effect>)
    requires Alike(s, Replay(start, seen))
    ensures TodoOk(start, Decided(s, call, seen))
  {}

  lemma SavedOk(start: Snapshot, loaded: Snapshot, chain: seq<Effect>, w: Pending)
    requires PendingOk(start, w) && Alike(loaded, Replay(start, chain))
    ensures Alike(Saved(loaded, w), Replay(start, SavedChain(chain, w)))
  {
    match w
    case Plan(_, _, _, call, seen) => assert (seen + [Result(call)])[..|seen|] == seen;
    case Own(effect) =>
      assert (chain + [effect])[..|chain|] == chain;
      ActedAlike(loaded, Replay(start, chain), effect);
  }

  lemma AdvancedKeepsInv(start: Both<Snapshot>, s: System, j: JobId)
    requires Inv(start, s) && j in s.jobs
    ensures Inv(start, Advanced(s, j))
  {
    assert JobOk(start, s.jobs[j]);
    match s.jobs[j]
    case Begun(p, call) => DecidedOk(Of(start, p), Of(s.payload, p), call, Of(s.chains, p));
    case Ready(p, todo) =>
    case Loaded(p, todo, payload, chains) =>
      if todo != [] {
        assert PendingOk(Of(start, p), todo[0]);
        SavedOk(Of(start, p), Of(payload, p), Of(chains, p), todo[0]);
        assert TodoOk(Of(start, p), todo[1..]);
      }
  }

  lemma {:induction false} StepsKeepInv(start: Both<Snapshot>, s: System, events: seq<Event>)
    requires Inv(start, s)
    ensures Inv(start, Steps(s, events))
    decreases |events|
  {
    if events != [] {
      if events[0].Advance? && events[0].job in s.jobs { AdvancedKeepsInv(start, s, events[0].job); }
      StepsKeepInv(start, Step(s, events[0]), events[1..]);
    }
  }

  /** Main result: however results and writers overlap, a stored snapshot is, up to its health status, what the
      effects of its chain make of the first one when they happen one after the other. */
  lemma StoredIsReplayed(start: Both<Snapshot>, events: seq<Event>, p: Platform)
    ensures var s := Steps(Start(start), events);
            Alike(Of(s.payload, p), Replay(Of(start, p), Of(s.chains, p)))
  {
    StepsKeepInv(start, Start(start), events);
  }

  // ---------------------------------------------------------------------------------------------
  // When the gate holds tasks back

  /** Whether a stored gate holds 3MF tasks back; an unknown one, stored after a change of login, does not. */
  predicate Holds(gate: Gate) {
    gate != Open && gate != Unknown
  }

  /** Opens the gate whatever it was. */
  predicate Opens(e: Effect) {
    match e
    case Result(call) =>
      var first := FirstFailure(call.missing);
      if first.None? then (call.missingRetry || call.browserRecovery) && call.missing == []
      else call.authorizationSucceeded && first.value.failure != Cloudflare
    case Wrote(write) => write.SetOk? || write.SetOpen? || (write.SetGate? && write.gate == Open)
    case Halfway(_) => false
    case Finish => true
  }

  /** A verification failure of one target, which closes the gate only on the second target. */
  function FailsAt(e: Effect): Option<Target> {
    if e.Result? && IsDirectFailure(e.call) then Some(TargetOf(e.call)) else None
  }

  /** Closes the gate whatever it was. */
  predicate Shuts(e: Effect) {
    match e
    case Result(call) => FirstFailure(call.missing).Some? && !Opens(e) && FailsAt(e).None?
    case Wrote(write) => write.SetGate? && Holds(write.gate)
    case Halfway(_) => false
    case Finish => false
  }

  /** Overwrites the remembered target. */
  function MovesTo(e: Effect): Option<Target> {
    match e
    case Wrote(SetHealth(_, target)) => Some(target)
    case Halfway(target) => Some(target)
    case _ => None
  }

  datatype Memory = Nothing | Isolating(target: Target) | InDoubt

  function NextMemory(m: Memory, e: Effect): Memory {
    if Opens(e) || (e.Wrote? && e.write.SetNetworkError?) then Nothing
    else if e.Wrote? && e.write.SetChecking? then InDoubt
    else if FailsAt(e).Some? && m == Nothing then Isolating(FailsAt(e).value)
    else if MovesTo(e).Some? && m.Isolating? then Isolating(MovesTo(e).value)
    else m
  }

  /** What an open gate remembers after these effects. */
  function Remembered(chain: seq<Effect>): Memory
    decreases |chain|
  {
    if chain == [] then Nothing else NextMemory(Remembered(chain[..|chain| - 1]), chain[|chain| - 1])
  }

  /** Closes an open gate: a failure that always does, or one of a target other than the remembered one. */
  predicate Closes(m: Memory, e: Effect) {
    Shuts(e) || (FailsAt(e).Some? && m != Nothing && m != Isolating(FailsAt(e).value))
  }

  predicate Strikes(chain: seq<Effect>, i: nat)
    requires i < |chain|
  {
    Closes(Remembered(chain[..i]), chain[i])
  }

  /** Ends the effect of what came before: the gate is opened, or a change of login meets no daily limit. */
  predicate Restarts(start: Snapshot, chain: seq<Effect>, i: nat)
    requires i < |chain|
  {
    || Opens(chain[i])
    || (chain[i].Wrote? && chain[i].write.SetChecking? && Replay(start, chain[..i]).gate != DailyLimit)
  }

  /** Something closed the gate and nothing has ended that since. */
  ghost predicate StruckSince(start: Snapshot, chain: seq<Effect>) {
    exists i | 0 <= i < |chain| :: Strikes(chain, i) && forall k | i < k < |chain| :: !Restarts(start, chain, k)
  }

  /** An outside writer neither stores an unknown gate nor starts an isolation. */
  predicate Plain(e: Effect) {
    e.Wrote? && e.write.SetGate? ==> e.write.gate != Unknown && (e.write.gate == Open ==> e.write.reason != Isolated)
  }

  ghost predicate Agrees(s: Snapshot, m: Memory) {
    match m
    case Nothing => s.gate == Open && s.gateReason != Isolated
    case Isolating(target) => s.gate == Open && s.gateReason == Isolated && (s.modelId, s.instanceId) == target
    case InDoubt => s.gate == Unknown
  }

  /** Whether a closed gate is closed no longer. */
  predicate Ends(s: Snapshot, e: Effect) {
    Opens(e) || (e.Wrote? && e.write.SetChecking? && s.gate != DailyLimit)
  }

  ghost predicate StepHolds(s: Snapshot, m: Memory, e: Effect) {
    var after := Acted(s, e);
    && (Holds(after.gate) || Agrees(after, NextMemory(m, e)))
    && (Holds(after.gate) <==> Closes(m, e) || (Holds(s.gate) && !Ends(s, e)))
  }

  lemma ActedHolds(s: Snapshot, m: Memory, e: Effect)
    requires Plain(e) && (Holds(s.gate) || Agrees(s, m))
    ensures StepHolds(s, m, e)
  {
    if e.Result? { ResultHolds(s, m, e.call); } else { WriteHolds(s, m, e); }
  }

  lemma WriteHolds(s: Snapshot, m: Memory, e: Effect)
    requires Plain(e) && !e.Result? && (Holds(s.gate) || Agrees(s, m))
    ensures StepHolds(s, m, e)
  {}

  lemma ResultHolds(s: Snapshot, m: Memory, call: Call)
    requires Holds(s.gate) || Agrees(s, m)
    ensures StepHolds(s, m, Result(call))
  {
    if IsDirectFailure(call) { DirectHolds(s, m, call); }
  }

  lemma DirectHolds(s: Snapshot, m: Memory, call: Call)
    requires IsDirectFailure(call) && (Holds(s.gate) || Agrees(s, m))
    ensures StepHolds(s, m, Result(call))
  {}

  lemma StruckNext(start: Snapshot, chain: seq<Effect>, e: Effect)
    ensures var more := chain + [e];
            StruckSince(start, more) <==>
              Strikes(more, |chain|) || (StruckSince(start, chain) && !Restarts(start, more, |chain|))
  {
    var more, n := chain + [e], |chain|;
    assert forall i | 0 <= i < n :: more[..i] == chain[..i];
    assert forall i | 0 <= i < n :: Strikes(more, i) == Strikes(chain, i);
    assert forall k | 0 <= k < n :: Restarts(start, more, k) == Restarts(start, chain, k);
    if StruckSince(start, chain) && !Restarts(start, more, n) {
      var i :| 0 <= i < n && Strikes(chain, i) && forall k | i < k < n :: !Restarts(start, chain, k);
      assert Strikes(more, i);
    }
    if Strikes(more, n) { assert 0 <= n < |more|; }
  }

  /** The gate that a chain leaves holds tasks back exactly when something closed it and nothing has ended that
      since. */
  lemma {:induction false} ChainHoldsExactlyWhen(start: Snapshot, chain: seq<Effect>)
    requires Agrees(start, Nothing) && forall e | e in chain :: Plain(e)
    ensures var s := Replay(start, chain);
            (Holds(s.gate) <==> StruckSince(start, chain)) && (Holds(s.gate) || Agrees(s, Remembered(chain)))
    decreases |chain|
  {
    if chain != [] {
      var init, last := chain[..|chain| - 1], chain[|chain| - 1];
      assert chain == init + [last] && last in chain && forall e | e in init :: e in chain;
      ChainHoldsExactlyWhen(start, init);
      ActedHolds(Replay(start, init), Remembered(init), last);
      StruckNext(start, init, last);
    }
  }

  ghost predicate AllPlain(chain: seq<Effect>) {
    forall e | e in chain :: Plain(e)
  }

  ghost predicate PlainPending(w: Pending) {
    match w
    case Plan(_, _, _, _, seen) => AllPlain(seen)
    case Own(effect) => Plain(effect)
  }

  ghost predicate PlainJob(job: Job) {
    match job
    case Begun(_, _) => true
    case Ready(_, todo) => forall w | w in todo :: PlainPending(w)
    case Loaded(_, todo, _, chains) =>
      AllPlain(chains.cn) && AllPlain(chains.global) && forall w | w in todo :: PlainPending(w)
  }

  ghost predicate PlainSystem(s: System) {
    AllPlain(s.chains.cn) && AllPlain(s.chains.global) && forall j | j in s.jobs :: PlainJob(s.jobs[j])
  }

  predicate PlainEvent(e: Event) {
    e.BeginWrite? ==> Plain(Wrote(e.write))
  }

  lemma StepKeepsPlain(s: System, e: Event)
    requires PlainSystem(s) && PlainEvent(e)
    ensures PlainSystem(Step(s, e))
  {
    if e.Advance? && e.job in s.jobs {
      assert PlainJob(s.jobs[e.job]);
      if s.jobs[e.job].Loaded? && s.jobs[e.job].todo != [] { assert PlainPending(s.jobs[e.job].todo[0]); }
    }
  }

  lemma {:induction false} StepsKeepPlain(s: System, events: seq<Event>)
    requires PlainSystem(s) && forall e | e in events :: PlainEvent(e)
    ensures PlainSystem(Steps(s, events))
    decreases |events|
  {
    if events != [] {
      assert events[0] in events && forall e | e in events[1..] :: e in events;
      StepKeepsPlain(s, events[0]);
      StepsKeepPlain(Step(s, events[0]), events[1..]);
    }
  }

  /** Main result: over any number of results and writers in flight, a platform's stored gate holds tasks back
      exactly when its chain has a closing effect that nothing has ended since: a failure that always closes, or
      a verification failure that met the memory of another target. */
  lemma GateHoldsExactlyWhen(start: Both<Snapshot>, events: seq<Event>, p: Platform)
    requires Agrees(Of(start, p), Nothing) && forall e | e in events :: PlainEvent(e)
    ensures var s := Steps(Start(start), events);
            Holds(Of(s.payload, p).gate) <==> StruckSince(Of(start, p), Of(s.chains, p))
  {
    StoredIsReplayed(start, events, p);
    StepsKeepPlain(Start(start), events);
    ChainHoldsExactlyWhen(Of(start, p), Of(Steps(Start(start), events).chains, p));
  }

  predicate DoubtExplained(s: Snapshot) {
    s.gate == Unknown ==> s.gateReason == CookieUpdated
  }

  lemma {:induction false} ReplayExplainsDoubt(start: Snapshot, chain: seq<Effect>)
    requires DoubtExplained(start) && forall e | e in chain :: Plain(e)
    ensures DoubtExplained(Replay(start, chain))
    decreases |chain|
  {
    if chain != [] {
      var init, last := chain[..|chain| - 1], chain[|chain| - 1];
      assert chain == init + [last] && last in chain && forall e | e in init :: e in chain;
      ReplayExplainsDoubt(start, init);
    }
  }

  /** Overlapping or not, writers leave a gate unknown only since a change of login. */
  lemma UnknownStillAfterLogin(start: Both<Snapshot>, events: seq<Event>, p: Platform)
    requires DoubtExplained(Of(start, p)) && forall e | e in events :: PlainEvent(e)
    ensures DoubtExplained(Of(Steps(Start(start), events).payload, p))
  {
    StoredIsReplayed(start, events, p);
    StepsKeepPlain(Start(start), events);
    ReplayExplainsDoubt(Of(start, p), Of(Steps(Start(start), events).chains, p));
  }

  // ---------------------------------------------------------------------------------------------
  // What one job decided, whatever the others do meanwhile

  predicate Without(events: seq<Event>, j: JobId) {
    forall e | e in events :: !(e.Advance? && e.job == j)
  }

  lemma {:induction false} JobWaits(s: System, events: seq<Event>, j: JobId)
    requires j in s.jobs && Without(events, j)
    ensures j in Steps(s, events).jobs && Steps(s, events).jobs[j] == s.jobs[j]
    decreases |events|
  {
    if events != [] {
      assert events[0] in events && forall e | e in events[1..] :: e in events;
      JobWaits(Step(s, events[0]), events[1..], j);
    }
  }

  /** Main result: a verification failure that writes closes the gate exactly when, at the moment it decided, the
      gate was not open or isolated another target; what was saved since does not matter. So of two failures of
      different targets, the second to save closes the gate exactly when it decided after the first had saved. */
  lemma FailureClosesExactlyWhen(s: System, j: JobId, before: seq<Event>, after: seq<Event>)
    requires j in s.jobs && s.jobs[j].Begun? && IsDirectFailure(s.jobs[j].call)
    requires Without(before, j) && Without(after, j)
    requires var read := Of(s.payload, s.jobs[j].p);
             !(read.gate == Open && read.gateReason == Isolated
               && (read.modelId, read.instanceId) == TargetOf(s.jobs[j].call))
    ensures var p, read := s.jobs[j].p, Of(s.payload, s.jobs[j].p);
            var loaded := Step(Steps(Step(s, Advance(j)), before), Advance(j));
            var saved := Step(Steps(loaded, after), Advance(j));
            Of(saved.payload, p).gate != Open <==> read.gate != Open || read.gateReason == Isolated
  {
    var decided := Step(s, Advance(j));
    JobWaits(decided, before, j);
    var loaded := Step(Steps(decided, before), Advance(j));
    JobWaits(loaded, after, j);
  }

  // ---------------------------------------------------------------------------------------------
  // The other platform

  predicate IsSave(s: System, e: Event) {
    e.Advance? && e.job in s.jobs && s.jobs[e.job].Loaded?
  }

  predicate NoSave(s: System, events: seq<Event>)
    decreases |events|
  {
    events != [] ==> !IsSave(s, events[0]) && NoSave(Step(s, events[0]), events[1..])
  }

  lemma {:induction false} UnsavedStays(s: System, events: seq<Event>)
    requires NoSave(s, events)
    ensures Steps(s, events).payload == s.payload
    decreases |events|
  {
    if events != [] { UnsavedStays(Step(s, events[0]), events[1..]); }
  }

  /** Main result: a save sets the other platform's snapshot back to what it was when the job loaded it. So it
      leaves that snapshot as it was exactly when it is then what it was at the load; in particular when nothing
      was saved in between. */
  lemma OtherPlatformKeptExactlyWhen(s: System, j: JobId, q: Platform, between: seq<Event>)
    requires j in s.jobs && s.jobs[j].Ready? && s.jobs[j].todo != [] && s.jobs[j].p != q && Without(between, j)
    ensures var loaded := Step(s, Advance(j));
            var before := Steps(loaded, between);
            var after := Step(before, Advance(j));
            && Of(after.payload, q) == Of(s.payload, q)
            && (Of(after.payload, q) == Of(before.payload, q) <==> Of(before.payload, q) == Of(s.payload, q))
            && (NoSave(loaded, between) ==> Of(after.payload, q) == Of(before.payload, q))
  {
    var loaded := Step(s, Advance(j));
    JobWaits(loaded, between, j);
    if NoSave(loaded, between) { UnsavedStays(loaded, between); }
  }

  // ---------------------------------------------------------------------------------------------
  // Results that do not overlap

  function Repeated(e: Event, n: nat): seq<Event> {
    if n == 0 then [] else [e] + Repeated(e, n - 1)
  }

  /** A result that begins and takes all its steps: at most one to decide and two for each of two writes. */
  function Alone(j: JobId, p: Platform, call: Call): seq<Event> {
    [Begin(j, p, call)] + Repeated(Advance(j), 5)
  }

  lemma FirstStep(s: System, e: Event, rest: seq<Event>)
    ensures Steps(s, [e] + rest) == Steps(Step(s, e), rest)
  {
    assert ([e] + rest)[1..] == rest;
  }

  /** Loading and saving with nothing in between. */
  function WrittenBy(s: System, p: Platform, w: Pending): System {
    s.(payload := With(s.payload, p, Saved(Of(s.payload, p), w)),
       chains := With(s.chains, p, SavedChain(Of(s.chains, p), w)))
  }

  lemma LoadAndSave(s: System, j: JobId, p: Platform, todo: seq<Pending>, n: nat)
    requires n >= 2 && todo != [] && j in s.jobs && s.jobs[j] == Ready(p, todo)
    ensures Steps(s, Repeated(Advance(j), n)) ==
        Steps(Kept(WrittenBy(s, p, todo[0]), j, p, todo[1..]), Repeated(Advance(j), n - 2))
  {
    FirstStep(s, Advance(j), Repeated(Advance(j), n - 1));
    var loaded := Step(s, Advance(j));
    FirstStep(loaded, Advance(j), Repeated(Advance(j), n - 2));
    var saved := Step(loaded, Advance(j));
    assert saved == Kept(WrittenBy(s, p, todo[0]), j, p, todo[1..]) by {
      if todo[1..] != [] { assert loaded.jobs[j := Ready(p, todo[1..])] == s.jobs[j := Ready(p, todo[1..])]; }
      else { assert loaded.jobs - {j} == s.jobs - {j}; }
    }
  }

  lemma {:induction false} DoneIsDone(s: System, j: JobId, n: nat)
    requires j !in s.jobs
    ensures Steps(s, Repeated(Advance(j), n)) == s
    decreases n
  {
    if n > 0 {
      FirstStep(s, Advance(j), Repeated(Advance(j), n - 1));
      DoneIsDone(s, j, n - 1);
    }
  }

  function SavedAll(s: Snapshot, todo: seq<Pending>): Snapshot
    decreases |todo|
  {
    if todo == [] then s else SavedAll(Saved(s, todo[0]), todo[1..])
  }

  /** A job that takes all its steps in a row does its writes one after the other, and is gone. */
  lemma {:induction false} Uninterrupted(s: System, j: JobId, p: Platform, todo: seq<Pending>, n: nat)
    requires n >= 2 * |todo|
    requires if todo == [] then j !in s.jobs else j in s.jobs && s.jobs[j] == Ready(p, todo)
    ensures var t := Steps(s, Repeated(Advance(j), n));
            t.jobs == s.jobs - {j} && t.payload == With(s.payload, p, SavedAll(Of(s.payload, p), todo))
    decreases |todo|
  {
    if todo == [] {
      DoneIsDone(s, j, n);
      assert s.jobs - {j} == s.jobs;
    } else {
      LoadAndSave(s, j, p, todo, n);
      var next := Kept(WrittenBy(s, p, todo[0]), j, p, todo[1..]);
      Uninterrupted(next, j, p, todo[1..], n - 2);
      assert next.jobs - {j} == s.jobs - {j};
    }
  }

  lemma DecidedIsSync(s: Snapshot, call: Call, seen: seq<Effect>)
    ensures SavedAll(s, Decided(s, call, seen)) == Sync(s, call).0 && |Decided(s, call, seen)| <= 2
  {
    var todo := Decided(s, call, seen);
    if |todo| == 2 {
      assert todo[1..] == [Own(Finish)] && todo[1..][1..] == [];
      var half := Saved(s, todo[0]);
      assert SavedAll(half, todo[1..]) == SavedAll(Saved(half, Own(Finish)), []);
    } else if |todo| == 1 {
      assert todo[1..] == [];
    }
  }

  /** A result that no other job disturbs is one atomic step, as in the runs of results above. */
  lemma AloneIsSync(s: System, j: JobId, p: Platform, call: Call)
    requires j !in s.jobs
    ensures var t := Steps(s, Alone(j, p, call));
            t.jobs == s.jobs && t.payload == With(s.payload, p, Sync(Of(s.payload, p), call).0)
  {
    var begun := Step(s, Begin(j, p, call));
    FirstStep(s, Begin(j, p, call), Repeated(Advance(j), 5));
    FirstStep(begun, Advance(j), Repeated(Advance(j), 4));
    var decided := Step(begun, Advance(j));
    DecidedIsSync(Of(s.payload, p), call, Of(s.chains, p));
    Uninterrupted(decided, j, p, Decided(Of(s.payload, p), call, Of(s.chains, p)), 4);
    assert decided.jobs - {j} == s.jobs;
  }

  /** And so is a writer that no other job disturbs: an account marked well in two writes, any other in one. */
  lemma AloneIsWrite(s: System, j: JobId, p: Platform, write: Write)
    requires j !in s.jobs
    ensures var t := Steps(s, [BeginWrite(j, p, write)] + Repeated(Advance(j), 4));
            t.jobs == s.jobs && t.payload == With(s.payload, p, WrittenOne(Of(s.payload, p), write))
    ensures var begun := Step(s, BeginWrite(j, p, write));
            && begun.payload == s.payload && j in begun.jobs && begun.jobs[j].Ready?
            && |begun.jobs[j].todo| == (if write.SetOk? then 2 else 1)
  {
    var begun, todo := Step(s, BeginWrite(j, p, write)), WriteSteps(write);
    FirstStep(s, BeginWrite(j, p, write), Repeated(Advance(j), 4));
    Uninterrupted(begun, j, p, todo, 4);
    assert begun.jobs - {j} == s.jobs;
    if write.SetOk? {
      assert todo[1..] == [Own(Finish)] && todo[1..][1..] == [];
      assert SavedAll(Saved(Of(s.payload, p), todo[0]), todo[1..]) == Acted(Saved(Of(s.payload, p), todo[0]), Finish);
    } else {
      assert todo[1..] == [];
    }
  }

  function OneByOne(calls: seq<(Platform, Call)>): seq<Event> {
    if calls == [] then [] else Alone(0, calls[0].0, calls[0].1) + OneByOne(calls[1..])
  }

  lemma {:induction false} StepsConcat(s: System, a: seq<Event>, b: seq<Event>)
    ensures Steps(s, a + b) == Steps(Steps(s, a), b)
    decreases |a|
  {
    if a == [] {
      assert a + b == b;
    } else {
      assert (a + b)[1..] == a[1..] + b;
      StepsConcat(Step(s, a[0]), a[1..], b);
    }
  }

  lemma {:induction false} RunFromEqual(s: State, t: State, calls: seq<(Platform, Call)>, p: Platform)
    requires forall q :: s(q) == t(q)
    ensures Run(s, calls)(p) == Run(t, calls)(p)
    decreases |calls|
  {
    if calls != [] {
      var (q, call) := calls[0];
      var a, b := Sync(s(q), call).0, Sync(t(q), call).0;
      RunFromEqual(x => if x == q then a else s(x), x => if x == q then b else t(x), calls[1..], p);
    }
  }

  /** Results that do not overlap make the run of results of which the two theorems about targets and about the
      other platform speak. */
  lemma {:induction false} OneByOneIsRun(s: System, calls: seq<(Platform, Call)>, p: Platform)
    requires 0 !in s.jobs
    ensures Of(Steps(s, OneByOne(calls)).payload, p) == Run(q => Of(s.payload, q), calls)(p)
    decreases |calls|
  {
    if calls != [] {
      var (q, call) := calls[0];
      StepsConcat(s, Alone(0, q, call), OneByOne(calls[1..]));
      AloneIsSync(s, 0, q, call);
      var t := Steps(s, Alone(0, q, call));
      var before: State := x => Of(s.payload, x);
      var after := Sync(before(q), call).0;
      OneByOneIsRun(t, calls[1..], p);
      RunFromEqual(x => Of(t.payload, x), x => if x == q then after else before(x), calls[1..], p);
    }
  }

  // ---------------------------------------------------------------------------------------------
  // Results that do

  lemma BothDecided(start: Both<Snapshot>, first: Call, second: Call)
    requires start.cn.gate == Open && start.cn.gateReason != Isolated
    requires IsDirectFailure(first) && IsDirectFailure(second)
    ensures var both := Step(Step(Start(start), Begin(1, Cn, first)), Begin(2, Cn, second));
            var decided := Step(Step(both, Advance(1)), Advance(2));
            && decided.jobs.Keys == {1, 2} && decided.payload == start
            && decided.jobs[1].Ready? && |decided.jobs[1].todo| == 1
            && decided.jobs[2].Ready? && |decided.jobs[2].todo| == 1
  {}

  /** Two failures of different targets that both decide before either saves leave the gate open. */
  lemma {:induction false} OverlappingFailuresLeaveItOpen(start: Both<Snapshot>, first: Call, second: Call)
    requires start.cn.gate == Open && start.cn.gateReason != Isolated
    requires IsDirectFailure(first) && IsDirectFailure(second) && TargetOf(first) != TargetOf(second)
    ensures var both := Step(Step(Start(start), Begin(1, Cn, first)), Begin(2, Cn, second));
            var decided := Step(Step(both, Advance(1)), Advance(2));
            var saved := Step(Steps(Step(Steps(decided, [Advance(1), Advance(1)]), Advance(2)), []), Advance(2));
            saved.jobs == map[] && saved.payload.cn.gate == Open
  {
    var both := Step(Step(Start(start), Begin(1, Cn, first)), Begin(2, Cn, second));
    FailureClosesExactlyWhen(Step(both, Advance(1)), 2, [Advance(1), Advance(1)], []);
    var decided := Step(Step(both, Advance(1)), Advance(2));
    BothDecided(start, first, second);
    FirstStep(decided, Advance(1), [Advance(1)]);
    FirstStep(Step(decided, Advance(1)), Advance(1), []);
    assert [Advance(1)] + [] == [Advance(1)] && [Advance(1)] + [Advance(1)] == [Advance(1), Advance(1)];
  }

  lemma FailureGetsReady(start: Both<Snapshot>, slow: Call)
    requires start.cn.gate == Open && start.cn.gateReason != Isolated && IsDirectFailure(slow)
    ensures var ready := Step(Step(Start(start), Begin(1, Cn, slow)), Advance(1));
            && ready.payload == start && ready.jobs.Keys == {1}
            && ready.jobs[1].Ready? && ready.jobs[1].p == Cn && ready.jobs[1].todo != []
  {}

  lemma GlobalCloses(start: Both<Snapshot>, loaded: System, closing: Call)
    requires start.global.gate == Open && loaded.payload == start && 2 !in loaded.jobs && Shuts(Result(closing))
    ensures Holds(Steps(loaded, Alone(2, Global, closing)).payload.global.gate)
  {
    AloneIsSync(loaded, 2, Global, closing);
  }

  /** A save of one platform's result that was loaded earlier opens the other platform's gate again. */
  lemma {:induction false} StaleSaveReopens(start: Both<Snapshot>, slow: Call, closing: Call)
    requires start.cn.gate == Open && start.cn.gateReason != Isolated && start.global.gate == Open
    requires IsDirectFailure(slow) && Shuts(Result(closing))
    ensures var ready := Step(Step(Start(start), Begin(1, Cn, slow)), Advance(1));
            var closed := Steps(Step(ready, Advance(1)), Alone(2, Global, closing));
            var after := Step(closed, Advance(1));
            Holds(closed.payload.global.gate) && after.payload.global.gate == Open
  {
    var ready := Step(Step(Start(start), Begin(1, Cn, slow)), Advance(1));
    var loaded := Step(ready, Advance(1));
    FailureGetsReady(start, slow);
    GlobalCloses(start, loaded, closing);
    OtherPlatformKeptExactlyWhen(ready, 1, Global, Alone(2, Global, closing));
  }

  /** One target may close the gate, when its second failure decides between the two writes of a reset that names
      another target. */
  lemma OneTargetClosesInsideReset(s: Snapshot, failure: Call, other: Target)
    requires s.gate == Open && s.gateReason != Isolated && IsDirectFailure(failure)
    ensures Replay(s, [Result(failure), Halfway(other), Result(failure)]).gate == Open <==> other == TargetOf(failure)
  {
    var chain := [Result(failure), Halfway(other), Result(failure)];
    assert chain[..2] == [Result(failure), Halfway(other)] && chain[..2][..1] == [Result(failure)];
    assert [Result(failure)][..0] == [];
    assert Replay(s, [Result(failure)]) == Acted(s, Result(failure));
  }
}
