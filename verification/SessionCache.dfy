/** Login sessions and their per-process cache (app/services/auth.py). Creating, deleting, clearing and
    touching are transactions on the shared store; a lookup is four separate steps, so any of them may
    fall between two others. One clock serves expiry times and cache deadlines. */
module SessionCache {
  import opened Wrappers

  const SESSION_TTL := 1209600.0
  const CACHE_TTL := 15.0
  const TOUCH_AFTER := 300.0

  type SessionId = string
  type Process = nat
  type LookupId = nat

  datatype Session = Session(expires: Option<real>, lastSeen: Option<real>)

  /** A cached session, its deadline, the store generation it was read at, and when it was read. */
  datatype Entry = Entry(until: real, generation: nat, session: Session, readAt: real)

  datatype Slot = Slot(process: Process, id: SessionId)

  /** A lookup in progress: it has read the store, it has missed the cache, or it holds a session to cache. */
  datatype Lookup =
    | Reading(slot: Slot, generation: nat, found: Option<Session>, readAt: real)
    | Missed(slot: Slot, generation: nat, found: Option<Session>, readAt: real)
    | Fetched(slot: Slot, generation: nat, found: Option<Session>, readAt: real)

  datatype State = State(
    items: map<SessionId, Session>, generation: nat,
    cache: map<Slot, Entry>,
    lookups: map<LookupId, Lookup>,
    now: real,
    // Bookkeeping for the theorems: identifiers ever generated, and the generation each was revoked at.
    used: set<SessionId>, revoked: map<SessionId, nat>)

  datatype Event =
    | Tick(passed: real)
    | Create(id: SessionId)
    | Delete(id: SessionId)
    | ClearAll
    | DropCached(slot: Slot)
    | DropProcessCache(process: Process)
    | Read(lookup: LookupId, slot: Slot)
    | Consult(lookup: LookupId)
    | Resolve(lookup: LookupId)
    | Store(lookup: LookupId)

  /** What a lookup returned, and the cache entry it came from, if it did. */
  datatype Answer = Answer(lookup: LookupId, slot: Slot, session: Option<Session>, entry: Option<Entry>)

  predicate Expired(session: Session, now: real) {
    session.expires.Some? && session.expires.value < now
  }

  function Pruned(items: map<SessionId, Session>, now: real): map<SessionId, Session> {
    map id | id in items && !Expired(items[id], now) :: items[id]
  }

  function Get(items: map<SessionId, Session>, id: SessionId): Option<Session> {
    if id in items then Some(items[id]) else None
  }

  predicate ShouldTouch(session: Session, now: real) {
    session.lastSeen.None? || now - session.lastSeen.value >= TOUCH_AFTER
  }

  function Finish(s: State, n: LookupId, session: Option<Session>, entry: Option<Entry>): (State, Option<Answer>)
    requires n in s.lookups
  {
    (s.(lookups := s.lookups - {n}), Some(Answer(n, s.lookups[n].slot, session, entry)))
  }

  function ReadStep(s: State, n: LookupId, slot: Slot): State {
    if n in s.lookups then s
    else s.(lookups := s.lookups[n := Reading(slot, s.generation, Get(Pruned(s.items, s.now), slot.id), s.now)])
  }

  /** The cache answers when its entry is fresh and of the generation just read; otherwise it forgets it. */
  function ConsultStep(s: State, n: LookupId): (State, Option<Answer>) {
    if n !in s.lookups || !s.lookups[n].Reading? then (s, None)
    else
      var Reading(slot, generation, found, readAt) := s.lookups[n];
      if slot in s.cache && s.cache[slot].until > s.now && s.cache[slot].generation == generation
      then Finish(s, n, Some(s.cache[slot].session), Some(s.cache[slot]))
      else (s.(cache := s.cache - {slot}, lookups := s.lookups[n := Missed(slot, generation, found, readAt)]), None)
  }

  /** Takes the session that was read, or touches it in the store when it was last seen long ago. */
  function ResolveStep(s: State, n: LookupId): (State, Option<Answer>) {
    if n !in s.lookups || !s.lookups[n].Missed? then (s, None)
    else
      var Missed(slot, generation, found, readAt) := s.lookups[n];
      if found.None? then Finish(s, n, None, None)
      else if !ShouldTouch(found.value, s.now) then
        (s.(lookups := s.lookups[n := Fetched(slot, generation, found, readAt)]), None)
      else
        var latest := Pruned(s.items, s.now);
        if slot.id !in latest then Finish(s.(items := latest), n, None, None)
        else
          var touched := latest[slot.id].(lastSeen := Some(s.now));
          (s.(items := latest[slot.id := touched], generation := s.generation + 1,
              lookups := s.lookups[n := Fetched(slot, s.generation + 1, Some(touched), s.now)]), None)
  }

  function StoreStep(s: State, n: LookupId): (State, Option<Answer>) {
    if n !in s.lookups || !s.lookups[n].Fetched? || s.lookups[n].found.None? then (s, None)
    else
      var Fetched(slot, generation, found, readAt) := s.lookups[n];
      Finish(s.(cache := s.cache[slot := Entry(s.now + CACHE_TTL, generation, found.value, readAt)]), n, found, None)
  }

  function Step(s: State, e: Event): (State, Option<Answer>) {
    match e
    case Tick(passed) => (if passed >= 0.0 then s.(now := s.now + passed) else s, None)
    case Create(id) =>
      // Generated identifiers never repeat.
      (if id in s.used then s
       else s.(items := Pruned(s.items, s.now)[id := Session(Some(s.now + SESSION_TTL), Some(s.now))],
               generation := s.generation + 1, used := s.used + {id}), None)
    case Delete(id) =>
      (if id !in s.items then s
       else s.(items := s.items - {id}, generation := s.generation + 1,
               revoked := s.revoked[id := s.generation + 1]), None)
    case ClearAll =>
      (s.(items := map[], generation := s.generation + 1,
          revoked := map id | id in s.used :: if id in s.revoked then s.revoked[id] else s.generation + 1), None)
    case DropCached(slot) => (s.(cache := s.cache - {slot}), None)
    case DropProcessCache(process) =>
      (s.(cache := map slot | slot in s.cache && slot.process != process :: s.cache[slot]), None)
    case Read(n, slot) => (ReadStep(s, n, slot), None)
    case Consult(n) => ConsultStep(s, n)
    case Resolve(n) => ResolveStep(s, n)
    case Store(n) => StoreStep(s, n)
  }

  function Run(s: State, events: seq<Event>): (State, seq<Answer>)
    decreases |events|
  {
    if events == [] then (s, [])
    else
      var (s1, answer) := Step(s, events[0]);
      var (s2, rest) := Run(s1, events[1..]);
      (s2, (if answer.Some? then [answer.value] else []) + rest)
  }

  function Init(now: real): State {
    State(map[], 0, map[], map[], now, {}, map[])
  }

  // ---------------------------------------------------------------------------------------------
  // The invariant

  /** The session is in the store as it was read, or its time is over. */
  ghost predicate Live(s: State, id: SessionId, session: Session) {
    (id in s.items && s.items[id] == session) || Expired(session, s.now)
  }

  /** A session read at a generation is live while the store is still of that generation, was not
      expired when read, and, once revoked, was read before. */
  ghost predicate Coherent(s: State, id: SessionId, generation: nat, session: Session, readAt: real) {
    && generation <= s.generation && id in s.used && readAt <= s.now
    && (generation == s.generation ==> Live(s, id, session))
    && (id in s.revoked ==> generation < s.revoked[id])
    && !Expired(session, readAt)
  }

  ghost predicate StoreInv(s: State) {
    && s.items.Keys <= s.used
    && (forall id | id in s.revoked :: id in s.used && id !in s.items && s.revoked[id] <= s.generation)
  }

  ghost predicate EntryOk(s: State, slot: Slot, entry: Entry) {
    && Coherent(s, slot.id, entry.generation, entry.session, entry.readAt)
    && entry.readAt <= entry.until - CACHE_TTL <= s.now
  }

  ghost predicate LookupOk(s: State, lookup: Lookup) {
    && lookup.generation <= s.generation
    && (lookup.found.Some? ==> Coherent(s, lookup.slot.id, lookup.generation, lookup.found.value, lookup.readAt))
  }

  ghost predicate Inv(s: State) {
    && StoreInv(s)
    && (forall slot | slot in s.cache :: EntryOk(s, slot, s.cache[slot]))
    && (forall n | n in s.lookups :: LookupOk(s, s.lookups[n]))
  }

  lemma InitInv(now: real)
    ensures Inv(Init(now))
  {}

  /** How one step may change the store: either the generation moves on, or only expired sessions go;
      and nothing becomes revoked at or below the generation it had. */
  ghost predicate Evolves(s: State, t: State) {
    && s.used <= t.used && s.now <= t.now
    && (s.generation < t.generation
        || (s.generation == t.generation
            && forall id | id in s.items ::
                (id in t.items && t.items[id] == s.items[id]) || Expired(s.items[id], t.now)))
    && (forall id | id in t.revoked ::
        (id in s.revoked && s.revoked[id] == t.revoked[id]) || s.generation < t.revoked[id])
  }

  lemma StepEvolves(s: State, e: Event)
    requires StoreInv(s)
    ensures Evolves(s, Step(s, e).0) && StoreInv(Step(s, e).0)
  {
    if e.Tick? || e.Create? || e.Delete? || e.ClearAll? { StoreStepEvolves(s, e); } else { LookupStepEvolves(s, e); }
  }

  lemma StoreStepEvolves(s: State, e: Event)
    requires StoreInv(s) && (e.Tick? || e.Create? || e.Delete? || e.ClearAll?)
    ensures Evolves(s, Step(s, e).0) && StoreInv(Step(s, e).0)
  {}

  lemma LookupStepEvolves(s: State, e: Event)
    requires StoreInv(s) && !(e.Tick? || e.Create? || e.Delete? || e.ClearAll?)
    ensures Evolves(s, Step(s, e).0) && StoreInv(Step(s, e).0)
  {}

  lemma StaysCoherent(s: State, t: State, id: SessionId, generation: nat, session: Session, readAt: real)
    requires Coherent(s, id, generation, session, readAt) && Evolves(s, t)
    ensures Coherent(t, id, generation, session, readAt)
  {}

  lemma StaysOk(s: State, t: State)
    requires Inv(s) && Evolves(s, t)
    ensures forall slot | slot in s.cache :: EntryOk(t, slot, s.cache[slot])
    ensures forall n | n in s.lookups :: LookupOk(t, s.lookups[n])
  {
    forall slot | slot in s.cache ensures EntryOk(t, slot, s.cache[slot]) {
      var entry := s.cache[slot];
      assert EntryOk(s, slot, entry);
      StaysCoherent(s, t, slot.id, entry.generation, entry.session, entry.readAt);
    }
    forall n | n in s.lookups ensures LookupOk(t, s.lookups[n]) {
      var lookup := s.lookups[n];
      assert LookupOk(s, lookup);
      if lookup.found.Some? {
        StaysCoherent(s, t, lookup.slot.id, lookup.generation, lookup.found.value, lookup.readAt);
      }
    }
  }

  /** The one lookup or entry a step writes is as good as the others. */
  lemma StepWritesOk(s: State, e: Event)
    requires Inv(s)
    requires e.Read? || e.Consult? || e.Resolve? || e.Store?
    ensures var t := Step(s, e).0;
            && (e.lookup in t.lookups ==> LookupOk(t, t.lookups[e.lookup]))
            && (forall slot | slot in t.cache :: EntryOk(t, slot, t.cache[slot]))
  {
    if e.Resolve? { ResolveWritesOk(s, e.lookup); } else { OtherWritesOk(s, e); }
  }

  lemma ResolveWritesOk(s: State, n: LookupId)
    requires Inv(s)
    ensures var t := Step(s, Resolve(n)).0;
            && (n in t.lookups ==> LookupOk(t, t.lookups[n]))
            && (forall slot | slot in t.cache :: EntryOk(t, slot, t.cache[slot]))
  {
    StepEvolves(s, Resolve(n));
    StaysOk(s, Step(s, Resolve(n)).0);
    if n in s.lookups { assert LookupOk(s, s.lookups[n]); }
  }

  lemma OtherWritesOk(s: State, e: Event)
    requires Inv(s)
    requires e.Read? || e.Consult? || e.Store?
    ensures var t := Step(s, e).0;
            && (e.lookup in t.lookups ==> LookupOk(t, t.lookups[e.lookup]))
            && (forall slot | slot in t.cache :: EntryOk(t, slot, t.cache[slot]))
  {
    StepEvolves(s, e);
    StaysOk(s, Step(s, e).0);
    if e.lookup in s.lookups { assert LookupOk(s, s.lookups[e.lookup]); }
  }

  lemma StepKeepsInv(s: State, e: Event)
    requires Inv(s)
    ensures Inv(Step(s, e).0)
  {
    if e.Read? || e.Consult? || e.Resolve? || e.Store? { LookupKeepsInv(s, e); } else { StoreEventKeepsInv(s, e); }
  }

  lemma StoreEventKeepsInv(s: State, e: Event)
    requires Inv(s) && !e.Read? && !e.Consult? && !e.Resolve? && !e.Store?
    ensures Inv(Step(s, e).0)
  {
    var t := Step(s, e).0;
    StepEvolves(s, e);
    StaysOk(s, t);
    assert t.lookups == s.lookups && forall slot | slot in t.cache :: slot in s.cache && t.cache[slot] == s.cache[slot];
  }

  lemma LookupKeepsInv(s: State, e: Event)
    requires Inv(s) && (e.Read? || e.Consult? || e.Resolve? || e.Store?)
    ensures Inv(Step(s, e).0)
  {
    var t := Step(s, e).0;
    StepEvolves(s, e);
    StaysOk(s, t);
    StepWritesOk(s, e);
    OneLookupChanges(s, e);
  }

  lemma OneLookupChanges(s: State, e: Event)
    requires e.Read? || e.Consult? || e.Resolve? || e.Store?
    ensures var t := Step(s, e).0;
            forall n | n in t.lookups && n != e.lookup :: n in s.lookups && t.lookups[n] == s.lookups[n]
  {}

  lemma {:induction false} RunKeepsInv(s: State, events: seq<Event>)
    requires Inv(s)
    ensures Inv(Run(s, events).0)
    decreases |events|
  {
    if events != [] {
      StepKeepsInv(s, events[0]);
      RunKeepsInv(Step(s, events[0]).0, events[1..]);
    }
  }

  /** Main result, coherence: after any run, a cache entry of the stored generation names a session that
      is still stored exactly as cached, or one that has expired. */
  lemma CacheCoherent(start: real, events: seq<Event>, slot: Slot)
    requires slot in Run(Init(start), events).0.cache
    ensures var s := Run(Init(start), events).0;
            s.cache[slot].generation == s.generation ==>
              (slot.id in s.items && s.items[slot.id] == s.cache[slot].session) || Expired(s.cache[slot].session, s.now)
  {
    InitInv(start);
    RunKeepsInv(Init(start), events);
    var s := Run(Init(start), events).0;
    assert EntryOk(s, slot, s.cache[slot]);
  }

  // ---------------------------------------------------------------------------------------------
  // Revocation

  /** Lookup n, if it is for this session, read the store after the session was revoked. */
  ghost predicate ReadAfterRevocation(s: State, n: LookupId, id: SessionId)
    requires id in s.revoked
  {
    n in s.lookups && s.lookups[n].slot.id == id ==>
      s.lookups[n].found.None? && s.lookups[n].generation >= s.revoked[id]
  }

  lemma StepRefusesRevoked(s: State, e: Event, n: LookupId, id: SessionId)
    requires Inv(s) && id in s.revoked && ReadAfterRevocation(s, n, id)
    ensures var (t, answer) := Step(s, e);
            && id in t.revoked && ReadAfterRevocation(t, n, id)
            && (answer.Some? && answer.value.lookup == n && answer.value.slot.id == id ==> answer.value.session.None?)
  {
    if e.Resolve? { ResolveRefusesRevoked(s, e.lookup, n, id); }
    else if e.Read? || e.Consult? || e.Store? { LookupRefusesRevoked(s, e, n, id); }
    else { StoreEventRefusesRevoked(s, e, n, id); }
  }

  lemma StoreEventRefusesRevoked(s: State, e: Event, n: LookupId, id: SessionId)
    requires Inv(s) && id in s.revoked && ReadAfterRevocation(s, n, id)
    requires !e.Read? && !e.Consult? && !e.Resolve? && !e.Store?
    ensures var (t, answer) := Step(s, e); id in t.revoked && ReadAfterRevocation(t, n, id) && answer.None?
  {}

  lemma ResolveRefusesRevoked(s: State, m: LookupId, n: LookupId, id: SessionId)
    requires Inv(s) && id in s.revoked && ReadAfterRevocation(s, n, id)
    ensures var (t, answer) := ResolveStep(s, m);
            && id in t.revoked && ReadAfterRevocation(t, n, id)
            && (answer.Some? && answer.value.lookup == n && answer.value.slot.id == id ==> answer.value.session.None?)
  {}

  lemma LookupRefusesRevoked(s: State, e: Event, n: LookupId, id: SessionId)
    requires Inv(s) && id in s.revoked && ReadAfterRevocation(s, n, id)
    requires e.Read? || e.Consult? || e.Store?
    ensures var (t, answer) := Step(s, e);
            && id in t.revoked && ReadAfterRevocation(t, n, id)
            && (answer.Some? && answer.value.lookup == n && answer.value.slot.id == id ==> answer.value.session.None?)
  {
    if e.Consult? && e.lookup == n && n in s.lookups && s.lookups[n].slot in s.cache {
      assert EntryOk(s, s.lookups[n].slot, s.cache[s.lookups[n].slot]);
    }
  }

  lemma {:induction false} RunRefusesRevoked(s: State, events: seq<Event>, n: LookupId, id: SessionId)
    requires Inv(s) && id in s.revoked && ReadAfterRevocation(s, n, id)
    ensures forall a | a in Run(s, events).1 && a.lookup == n && a.slot.id == id :: a.session.None?
    decreases |events|
  {
    if events != [] {
      StepRefusesRevoked(s, events[0], n, id);
      StepKeepsInv(s, events[0]);
      RunRefusesRevoked(Step(s, events[0]).0, events[1..], n, id);
    }
  }

  /** Main result, revocation: after a delete of a stored session, or a clear of all, commits, no lookup
      that starts later returns that session, in any process and whatever else is going on. */
  lemma RevokedNeverReturned(start: real, before: seq<Event>, revoke: Event, after: seq<Event>, n: LookupId,
      id: SessionId)
    requires var s := Run(Init(start), before).0;
             && n !in s.lookups
             && ((revoke == Delete(id) && id in s.items) || (revoke == ClearAll && id in s.used))
    ensures var s := Step(Run(Init(start), before).0, revoke).0;
            forall a | a in Run(s, after).1 && a.lookup == n && a.slot.id == id :: a.session.None?
  {
    InitInv(start);
    RunKeepsInv(Init(start), before);
    var s := Run(Init(start), before).0;
    StepKeepsInv(s, revoke);
    RunRefusesRevoked(Step(s, revoke).0, after, n, id);
  }

  /** Whatever was or will be read of the session at that generation has expired. */
  ghost predicate OnlyExpired(s: State, n: LookupId, id: SessionId, generation: nat) {
    && generation <= s.generation
    && (generation == s.generation ==> id !in s.items)
    && (n in s.lookups && s.lookups[n].slot.id == id ==>
          s.lookups[n].found.None? && s.lookups[n].generation == generation)
    && (forall slot | slot in s.cache && slot.id == id && s.cache[slot].generation == generation ::
          Expired(s.cache[slot].session, s.now))
    && (forall m | m in s.lookups && s.lookups[m].slot.id == id && s.lookups[m].generation == generation
          && s.lookups[m].found.Some? :: Expired(s.lookups[m].found.value, s.now))
  }

  lemma StoreEventKeepsOnlyExpired(s: State, e: Event, n: LookupId, id: SessionId, generation: nat)
    requires Inv(s) && OnlyExpired(s, n, id, generation)
    requires !e.Read? && !e.Consult? && !e.Resolve? && !e.Store?
    ensures OnlyExpired(Step(s, e).0, n, id, generation)
  {}

  lemma ReadKeepsOnlyExpired(s: State, m: LookupId, slot: Slot, n: LookupId, id: SessionId, generation: nat)
    requires Inv(s) && OnlyExpired(s, n, id, generation) && m != n
    ensures OnlyExpired(ReadStep(s, m, slot), n, id, generation)
  {}

  lemma ConsultReturnsOnlyExpired(s: State, m: LookupId, n: LookupId, id: SessionId, generation: nat)
    requires Inv(s) && OnlyExpired(s, n, id, generation)
    ensures OnlyExpired(ConsultStep(s, m).0, n, id, generation)
    ensures var answer := ConsultStep(s, m).1;
            answer.Some? && m == n && answer.value.slot.id == id && answer.value.session.Some? ==>
              Expired(answer.value.session.value, s.now)
  {}

  lemma ResolveReturnsOnlyExpired(s: State, m: LookupId, n: LookupId, id: SessionId, generation: nat)
    requires Inv(s) && OnlyExpired(s, n, id, generation)
    ensures OnlyExpired(ResolveStep(s, m).0, n, id, generation)
    ensures var answer := ResolveStep(s, m).1; answer.Some? ==> answer.value.session.None?
  {
    if IsTouch(s, m) { TouchKeepsOnlyExpired(s, m, n, id, generation); }
    else if m in s.lookups { assert LookupOk(s, s.lookups[m]); }
  }

  predicate IsTouch(s: State, m: LookupId) {
    m in s.lookups && s.lookups[m].Missed? && s.lookups[m].found.Some? && ShouldTouch(s.lookups[m].found.value, s.now)
  }

  lemma TouchKeepsOnlyExpired(s: State, m: LookupId, n: LookupId, id: SessionId, generation: nat)
    requires Inv(s) && OnlyExpired(s, n, id, generation) && IsTouch(s, m)
    ensures OnlyExpired(ResolveStep(s, m).0, n, id, generation)
  {
    assert LookupOk(s, s.lookups[m]);
  }

  lemma StoreReturnsOnlyExpired(s: State, m: LookupId, n: LookupId, id: SessionId, generation: nat)
    requires Inv(s) && OnlyExpired(s, n, id, generation)
    ensures OnlyExpired(StoreStep(s, m).0, n, id, generation)
    ensures var answer := StoreStep(s, m).1; answer.Some? && m == n ==> answer.value.slot.id != id
  {}

  lemma StepReturnsOnlyExpired(s: State, e: Event, n: LookupId, id: SessionId, generation: nat)
    requires Inv(s) && OnlyExpired(s, n, id, generation)
    requires !(e.Read? && e.lookup == n)
    ensures var (t, answer) := Step(s, e);
            && OnlyExpired(t, n, id, generation)
            && (answer.Some? && answer.value.lookup == n && answer.value.slot.id == id && answer.value.session.Some? ==>
                  Expired(answer.value.session.value, t.now))
  {
    match e
    case Read(m, slot) => ReadKeepsOnlyExpired(s, m, slot, n, id, generation);
    case Consult(m) => ConsultReturnsOnlyExpired(s, m, n, id, generation);
    case Resolve(m) => ResolveReturnsOnlyExpired(s, m, n, id, generation);
    case Store(m) => StoreReturnsOnlyExpired(s, m, n, id, generation);
    case _ => StoreEventKeepsOnlyExpired(s, e, n, id, generation);
  }

  lemma {:induction false} RunReturnsOnlyExpired(s: State, events: seq<Event>, n: LookupId, id: SessionId,
      generation: nat)
    requires Inv(s) && OnlyExpired(s, n, id, generation)
    requires forall e | e in events :: !(e.Read? && e.lookup == n)
    ensures forall a | a in Run(s, events).1 && a.lookup == n && a.slot.id == id && a.session.Some? ::
              Expired(a.session.value, Run(s, events).0.now)
    decreases |events|
  {
    if events != [] {
      assert events[0] in events && forall e | e in events[1..] :: e in events;
      var t := Step(s, events[0]).0;
      StepReturnsOnlyExpired(s, events[0], n, id, generation);
      StepKeepsInv(s, events[0]);
      RunReturnsOnlyExpired(t, events[1..], n, id, generation);
      TimeRuns(t, events[1..]);
    }
  }

  lemma {:induction false} TimeRuns(s: State, events: seq<Event>)
    ensures s.now <= Run(s, events).0.now
    decreases |events|
  {
    if events != [] { TimeRuns(Step(s, events[0]).0, events[1..]); }
  }

  /** A lookup that starts while the session is not in the store, for instance after a delete that found
      nothing to delete, returns nothing or a session whose time is already over. */
  lemma AbsentReturnsOnlyExpired(start: real, before: seq<Event>, after: seq<Event>, n: LookupId, slot: Slot)
    requires var s := Run(Init(start), before).0; slot.id !in s.items && n !in s.lookups
    requires forall e | e in after :: !(e.Read? && e.lookup == n)
    ensures var s := Step(Run(Init(start), before).0, Read(n, slot)).0;
            forall a | a in Run(s, after).1 && a.lookup == n && a.session.Some? && a.slot.id == slot.id ::
              Expired(a.session.value, Run(s, after).0.now)
  {
    InitInv(start);
    RunKeepsInv(Init(start), before);
    var s := Run(Init(start), before).0;
    StepKeepsInv(s, Read(n, slot));
    forall other | other in s.cache && other.id == slot.id && s.cache[other].generation == s.generation
      ensures Expired(s.cache[other].session, s.now)
    {
      assert EntryOk(s, other, s.cache[other]);
    }
    forall m | m in s.lookups && s.lookups[m].slot.id == slot.id && s.lookups[m].generation == s.generation
               && s.lookups[m].found.Some?
      ensures Expired(s.lookups[m].found.value, s.now)
    {
      assert LookupOk(s, s.lookups[m]);
    }
    RunReturnsOnlyExpired(Step(s, Read(n, slot)).0, after, n, slot.id, s.generation);
  }

  lemma {:induction false} RunOneMore(s: State, events: seq<Event>, e: Event)
    ensures Run(s, events + [e]).0 == Step(Run(s, events).0, e).0
    decreases |events|
  {
    if events == [] {
      assert [e][1..] == [];
    } else {
      assert (events + [e])[1..] == events[1..] + [e];
      RunOneMore(Step(s, events[0]).0, events[1..], e);
    }
  }

  lemma Then(s: State, events: seq<Event>, t: State, e: Event) returns (more: seq<Event>, u: State)
    requires Run(s, events).0 == t
    ensures more == events + [e] && u == Step(t, e).0 && Run(s, more).0 == u
  {
    RunOneMore(s, events, e);
    more, u := events + [e], Step(t, e).0;
  }

  lemma TwoCreated() returns (events: seq<Event>, s: State)
    ensures Run(Init(0.0), events).0 == s
    ensures s == State(map["a" := Session(Some(1209600.0), Some(0.0)), "b" := Session(Some(1209610.0), Some(10.0))],
                       2, map[], map[], 10.0, {"a", "b"}, map[])
  {
    s := Init(0.0);
    events := [];
    events, s := Then(Init(0.0), events, s, Create("a"));
    assert s.items == map["a" := Session(Some(1209600.0), Some(0.0))];
    events, s := Then(Init(0.0), events, s, Tick(10.0));
    events, s := Then(Init(0.0), events, s, Create("b"));
    assert s.items == map["a" := Session(Some(1209600.0), Some(0.0)), "b" := Session(Some(1209610.0), Some(10.0))];
  }

  // ---------------------------------------------------------------------------------------------
  // When a lookup begun while the session is not stored is given it

  /** A lookup in flight for this slot will cache what it read, without touching the store first. */
  predicate WillCache(s: State, slot: Slot, m: LookupId) {
    && m in s.lookups && s.lookups[m].slot == slot && s.lookups[m].generation == s.generation
    && s.lookups[m].found.Some? && (s.lookups[m].Fetched? || !ShouldTouch(s.lookups[m].found.value, s.now))
  }

  predicate IsCached(s: State, slot: Slot) {
    slot in s.cache && s.cache[slot].generation == s.generation && s.cache[slot].until > s.now
  }

  /** The process of the lookup still has the session: in its cache, or about to get there. */
  ghost predicate StillAround(s: State, slot: Slot) {
    IsCached(s, slot) || exists m :: WillCache(s, slot, m)
  }

  /** Some answer to lookup n gives it a session. */
  ghost predicate GivenIn(s: State, events: seq<Event>, n: LookupId) {
    exists a :: a in Run(s, events).1 && a.lookup == n && a.session.Some?
  }

  predicate NoSecondRead(events: seq<Event>, n: LookupId) {
    forall e | e in events :: !(e.Read? && e.lookup == n)
  }

  /** Lookup n reads this slot at this generation, found nothing, and nothing in reach can give it a session. */
  ghost predicate OutOfReach(s: State, n: LookupId, slot: Slot, generation: nat) {
    && generation <= s.generation
    && (generation == s.generation ==> slot.id !in s.items)
    && (n in s.lookups ==>
          s.lookups[n].slot == slot && s.lookups[n].found.None? && s.lookups[n].generation == generation)
    && (slot in s.cache && s.cache[slot].generation == generation ==> s.cache[slot].until <= s.now)
    && (forall m | m in s.lookups && s.lookups[m].slot == slot && s.lookups[m].generation == generation
          && s.lookups[m].found.Some? :: !s.lookups[m].Fetched? && ShouldTouch(s.lookups[m].found.value, s.now))
  }

  lemma StoreEventOutOfReach(s: State, e: Event, n: LookupId, slot: Slot, generation: nat)
    requires Inv(s) && OutOfReach(s, n, slot, generation)
    requires !e.Read? && !e.Consult? && !e.Resolve? && !e.Store?
    ensures OutOfReach(Step(s, e).0, n, slot, generation) && Step(s, e).1.None?
  {}

  lemma ReadOutOfReach(s: State, m: LookupId, other: Slot, n: LookupId, slot: Slot, generation: nat)
    requires Inv(s) && OutOfReach(s, n, slot, generation) && m != n
    ensures OutOfReach(ReadStep(s, m, other), n, slot, generation)
  {}

  lemma ConsultOutOfReach(s: State, m: LookupId, n: LookupId, slot: Slot, generation: nat)
    requires Inv(s) && OutOfReach(s, n, slot, generation)
    ensures OutOfReach(ConsultStep(s, m).0, n, slot, generation)
    ensures var answer := ConsultStep(s, m).1; answer.Some? && m == n ==> answer.value.session.None?
  {}

  lemma ResolveOutOfReach(s: State, m: LookupId, n: LookupId, slot: Slot, generation: nat)
    requires Inv(s) && OutOfReach(s, n, slot, generation)
    ensures OutOfReach(ResolveStep(s, m).0, n, slot, generation)
    ensures var answer := ResolveStep(s, m).1; answer.Some? ==> answer.value.session.None?
  {
    if IsTouch(s, m) { TouchOutOfReach(s, m, n, slot, generation); }
  }

  lemma TouchOutOfReach(s: State, m: LookupId, n: LookupId, slot: Slot, generation: nat)
    requires Inv(s) && OutOfReach(s, n, slot, generation) && IsTouch(s, m)
    ensures OutOfReach(ResolveStep(s, m).0, n, slot, generation)
  {}

  lemma StoreOutOfReach(s: State, m: LookupId, n: LookupId, slot: Slot, generation: nat)
    requires Inv(s) && OutOfReach(s, n, slot, generation)
    ensures OutOfReach(StoreStep(s, m).0, n, slot, generation)
    ensures var answer := StoreStep(s, m).1; answer.Some? ==> m != n
  {}

  lemma StepOutOfReach(s: State, e: Event, n: LookupId, slot: Slot, generation: nat)
    requires Inv(s) && OutOfReach(s, n, slot, generation) && !(e.Read? && e.lookup == n)
    ensures var (t, answer) := Step(s, e);
            && OutOfReach(t, n, slot, generation)
            && (answer.Some? && answer.value.lookup == n ==> answer.value.session.None?)
  {
    match e
    case Read(m, other) => ReadOutOfReach(s, m, other, n, slot, generation);
    case Consult(m) => ConsultOutOfReach(s, m, n, slot, generation);
    case Resolve(m) => ResolveOutOfReach(s, m, n, slot, generation);
    case Store(m) => StoreOutOfReach(s, m, n, slot, generation);
    case _ => StoreEventOutOfReach(s, e, n, slot, generation);
  }

  lemma {:induction false} RunOutOfReach(s: State, events: seq<Event>, n: LookupId, slot: Slot, generation: nat)
    requires Inv(s) && OutOfReach(s, n, slot, generation) && NoSecondRead(events, n)
    ensures !GivenIn(s, events, n)
    decreases |events|
  {
    if events != [] {
      assert events[0] in events && forall e | e in events[1..] :: e in events;
      var t := Step(s, events[0]).0;
      StepOutOfReach(s, events[0], n, slot, generation);
      StepKeepsInv(s, events[0]);
      RunOutOfReach(t, events[1..], n, slot, generation);
      forall a | a in Run(s, events).1 && a.lookup == n ensures a.session.None? {
        assert a in Run(t, events[1..]).1 ==> a.session.None?;
      }
    }
  }

  lemma RunFirst(s: State, e: Event, rest: seq<Event>, n: LookupId)
    ensures GivenIn(Step(s, e).0, rest, n) ==> GivenIn(s, [e] + rest, n)
    ensures Step(s, e).1.Some? && Step(s, e).1.value.lookup == n && Step(s, e).1.value.session.Some?
            ==> GivenIn(s, [e] + rest, n)
  {
    assert ([e] + rest)[1..] == rest;
    var (t, answer) := Step(s, e);
    var here := if answer.Some? then [answer.value] else [];
    assert Run(s, [e] + rest).1 == here + Run(t, rest).1;
    if answer.Some? { assert here[0] == answer.value && answer.value in here; }
  }

  /** The lookup has just read, and the store has not moved on since. */
  predicate HasRead(s: State, n: LookupId, slot: Slot) {
    && n in s.lookups && s.lookups[n].Reading? && s.lookups[n].slot == slot
    && s.lookups[n].generation == s.generation
  }

  /** A lookup that has just read asks the cache. */
  lemma CachedIsGiven(s: State, n: LookupId, slot: Slot)
    requires HasRead(s, n, slot)
    requires IsCached(s, slot)
    ensures GivenIn(s, [Consult(n)], n)
  {
    assert [Consult(n)] + [] == [Consult(n)];
    RunFirst(s, Consult(n), [], n);
  }

  lemma FetchedIsGiven(s: State, m: LookupId, n: LookupId, slot: Slot)
    requires HasRead(s, n, slot)
    requires WillCache(s, slot, m) && s.lookups[m].Fetched? && m != n
    ensures GivenIn(s, [Store(m)] + [Consult(n)], n)
  {
    CachedIsGiven(Step(s, Store(m)).0, n, slot);
    RunFirst(s, Store(m), [Consult(n)], n);
  }

  lemma MissedIsGiven(s: State, m: LookupId, n: LookupId, slot: Slot)
    requires HasRead(s, n, slot)
    requires WillCache(s, slot, m) && s.lookups[m].Missed? && m != n
    ensures GivenIn(s, [Resolve(m)] + ([Store(m)] + [Consult(n)]), n)
  {
    FetchedIsGiven(Step(s, Resolve(m)).0, m, n, slot);
    RunFirst(s, Resolve(m), [Store(m)] + [Consult(n)], n);
  }

  lemma StillAroundIsGiven(s: State, n: LookupId, slot: Slot) returns (events: seq<Event>)
    requires HasRead(s, n, slot)
    requires IsCached(s, slot) || exists m :: m != n && WillCache(s, slot, m)
    ensures NoSecondRead(events, n) && GivenIn(s, events, n)
  {
    if IsCached(s, slot) {
      CachedIsGiven(s, n, slot);
      events := [Consult(n)];
    } else {
      var m :| m != n && WillCache(s, slot, m);
      if s.lookups[m].Fetched? {
        FetchedIsGiven(s, m, n, slot);
        events := [Store(m)] + [Consult(n)];
      } else if s.lookups[m].Missed? {
        MissedIsGiven(s, m, n, slot);
        events := [Resolve(m)] + ([Store(m)] + [Consult(n)]);
      } else {
        MissedIsGiven(Step(s, Consult(m)).0, m, n, slot);
        RunFirst(s, Consult(m), [Resolve(m)] + ([Store(m)] + [Consult(n)]), n);
        events := [Consult(m)] + ([Resolve(m)] + ([Store(m)] + [Consult(n)]));
      }
    }
  }

  /** Main result: a lookup that begins while its session is not stored can be given the session exactly when, at
      that moment, its process has it cached at the stored generation, or another lookup of the process has read
      it at that generation and will cache it without a touch. */
  lemma {:induction false} AbsentGivenExactlyWhen(start: real, before: seq<Event>, n: LookupId, slot: Slot)
    requires var s := Run(Init(start), before).0; slot.id !in s.items && n !in s.lookups
    ensures var s := Run(Init(start), before).0;
            (exists after :: NoSecondRead(after, n) && GivenIn(Step(s, Read(n, slot)).0, after, n)) <==>
                StillAround(s, slot)
  {
    InitInv(start);
    RunKeepsInv(Init(start), before);
    var s := Run(Init(start), before).0;
    var t := Step(s, Read(n, slot)).0;
    StepKeepsInv(s, Read(n, slot));
    if StillAround(s, slot) {
      if !IsCached(s, slot) {
        var m :| WillCache(s, slot, m);
        assert m != n && WillCache(t, slot, m);
      }
      var after := StillAroundIsGiven(t, n, slot);
    } else {
      NotAroundIsOutOfReach(s, n, slot);
      forall after | NoSecondRead(after, n) ensures !GivenIn(t, after, n) {
        RunOutOfReach(t, after, n, slot, s.generation);
      }
    }
  }

  lemma NotAroundIsOutOfReach(s: State, n: LookupId, slot: Slot)
    requires !StillAround(s, slot) && slot.id !in s.items && n !in s.lookups
    ensures OutOfReach(ReadStep(s, n, slot), n, slot, s.generation)
  {
    var t := ReadStep(s, n, slot);
    forall m | m in t.lookups && t.lookups[m].slot == slot && t.lookups[m].generation == s.generation
        && t.lookups[m].found.Some?
      ensures !t.lookups[m].Fetched? && ShouldTouch(t.lookups[m].found.value, t.now)
    {
      assert !WillCache(s, slot, m);
    }
  }

  /** Two sessions near the end of a's time; lookup 2 has read b, which was then deleted. */
  lemma TwoSessions() returns (events: seq<Event>, s: State)
    ensures Run(Init(0.0), events).0 == s
    ensures s == State(map["a" := Session(Some(1209600.0), Some(0.0))], 3, map[],
                       map[2 := Missed(Slot(0, "b"), 2, Some(Session(Some(1209610.0), Some(10.0))), 1209500.0)],
                       1209500.0, {"a", "b"}, map["b" := 3])
  {
    var b := Slot(0, "b");
    events, s := TwoCreated();
    events, s := Then(Init(0.0), events, s, Tick(1209490.0));
    events, s := Then(Init(0.0), events, s, Read(2, b));
    events, s := Then(Init(0.0), events, s, Consult(2));
    events, s := Then(Init(0.0), events, s, Delete("b"));
    assert s.items == map["a" := Session(Some(1209600.0), Some(0.0))];
  }

  lemma AboutToTouch() returns (events: seq<Event>, s: State)
    ensures Run(Init(0.0), events).0 == s
    ensures s == State(map["a" := Session(Some(1209600.0), Some(0.0))], 3, map[],
                       map[2 := Missed(Slot(0, "b"), 2, Some(Session(Some(1209610.0), Some(10.0))), 1209500.0),
                           1 := Missed(Slot(0, "a"), 3, Some(Session(Some(1209600.0), Some(0.0))), 1209500.0)],
                       1209500.0, {"a", "b"}, map["b" := 3])
  {
    events, s := TwoSessions();
    events, s := Then(Init(0.0), events, s, Read(1, Slot(0, "a")));
    assert s.lookups[1] == Reading(Slot(0, "a"), 3, Some(Session(Some(1209600.0), Some(0.0))), 1209500.0);
    events, s := Then(Init(0.0), events, s, Consult(1));
  }

  /** Lookup 1 then touches session a, without having cached it yet. */
  lemma TouchedNotCached() returns (events: seq<Event>, s: State)
    ensures Run(Init(0.0), events).0 == s
    ensures s == State(map["a" := Session(Some(1209600.0), Some(1209500.0))], 4, map[],
                       map[2 := Missed(Slot(0, "b"), 2, Some(Session(Some(1209610.0), Some(10.0))), 1209500.0),
                           1 := Fetched(Slot(0, "a"), 4, Some(Session(Some(1209600.0), Some(1209500.0))), 1209500.0)],
                       1209500.0, {"a", "b"}, map["b" := 3])
  {
    events, s := AboutToTouch();
    events, s := Then(Init(0.0), events, s, Resolve(1));
    assert s.items == map["a" := Session(Some(1209600.0), Some(1209500.0))];
  }

  /** A little later a has expired, and the touch of lookup 2 sweeps it out of the store without moving
      the generation. */
  lemma SweptUnnoticed() returns (events: seq<Event>, s: State)
    ensures Run(Init(0.0), events).0 == s
    ensures s.items == map[] && s.cache == map[] && s.now == 1209601.0 && s.lookups.Keys == {1}
    ensures s.lookups[1] ==
            Fetched(Slot(0, "a"), s.generation, Some(Session(Some(1209600.0), Some(1209500.0))), 1209500.0)
  {
    events, s := TouchedNotCached();
    events, s := Then(Init(0.0), events, s, Tick(101.0));
    assert Pruned(s.items, s.now) == map[];
    events, s := Then(Init(0.0), events, s, Resolve(2));
  }

  /** So "stored" is needed above: deleting session a now finds nothing and moves no generation, lookup 1
      caches a afterwards, and lookup 3, begun after the delete, is given the expired session. */
  lemma ExpiredReturnedAfterDelete() returns (before: seq<Event>)
    ensures var s := Run(Init(0.0), before).0;
            var after := [Delete("a"), DropCached(Slot(0, "a")), Store(1), Read(3, Slot(0, "a"))];
            && "a" !in s.items && 3 !in s.lookups
            && exists x: Session :: Step(Run(s, after).0, Consult(3)).1.Some?
                 && Step(Run(s, after).0, Consult(3)).1.value.session == Some(x) && Expired(x, Run(s, after).0.now)
  {
    var s;
    before, s := SweptUnnoticed();
    var a := Slot(0, "a");
    var events, t := Then(s, [], s, Delete("a"));
    events, t := Then(s, events, t, DropCached(a));
    events, t := Then(s, events, t, Store(1));
    assert t.cache[a] == Entry(1209616.0, s.generation, Session(Some(1209600.0), Some(1209500.0)), 1209500.0);
    events, t := Then(s, events, t, Read(3, a));
    assert events == [Delete("a"), DropCached(a), Store(1), Read(3, a)];
    assert Step(t, Consult(3)).1.value.session == Some(Session(Some(1209600.0), Some(1209500.0)));
  }

  // ---------------------------------------------------------------------------------------------
  // A session that is stored stays, and is given

  /** Whatever is cached or held of a stored session ends when the stored one ends. */
  ghost predicate SameEnds(s: State) {
    && (forall slot | slot in s.cache && slot.id in s.items ::
          s.cache[slot].session.expires == s.items[slot.id].expires)
    && (forall n | n in s.lookups && s.lookups[n].slot.id in s.items && s.lookups[n].found.Some? ::
          s.lookups[n].found.value.expires == s.items[s.lookups[n].slot.id].expires)
  }

  lemma StepKeepsEnds(s: State, e: Event)
    requires Inv(s) && SameEnds(s)
    ensures SameEnds(Step(s, e).0)
  {
    match e
    case Create(id) => CreateKeepsEnds(s, id);
    case Resolve(n) => ResolveKeepsEnds(s, n);
    case _ =>
  }

  lemma CreateKeepsEnds(s: State, id: SessionId)
    requires Inv(s) && SameEnds(s)
    ensures SameEnds(Step(s, Create(id)).0)
  {
    forall slot | slot in s.cache ensures slot.id in s.used { assert EntryOk(s, slot, s.cache[slot]); }
    forall n | n in s.lookups && s.lookups[n].found.Some? ensures s.lookups[n].slot.id in s.used {
      assert LookupOk(s, s.lookups[n]);
    }
  }

  lemma ResolveKeepsEnds(s: State, n: LookupId)
    requires Inv(s) && SameEnds(s)
    ensures SameEnds(ResolveStep(s, n).0)
  {
    if IsTouch(s, n) { TouchKeepsEnds(s, n); }
  }

  lemma TouchKeepsEnds(s: State, n: LookupId)
    requires SameEnds(s) && IsTouch(s, n)
    ensures SameEnds(ResolveStep(s, n).0)
  {}

  lemma {:induction false} RunKeepsEnds(s: State, events: seq<Event>)
    requires Inv(s) && SameEnds(s)
    ensures SameEnds(Run(s, events).0)
    decreases |events|
  {
    if events != [] {
      StepKeepsInv(s, events[0]);
      StepKeepsEnds(s, events[0]);
      RunKeepsEnds(Step(s, events[0]).0, events[1..]);
    }
  }

  /** The session is stored, and ends then. */
  predicate Stored(s: State, id: SessionId, end: Option<real>) {
    id in s.items && s.items[id].expires == end
  }

  /** Neither its delete nor a clearing of all is among the events. */
  predicate Spared(events: seq<Event>, id: SessionId) {
    Delete(id) !in events && ClearAll !in events
  }

  predicate NotOver(end: Option<real>, now: real) {
    end.Some? ==> now <= end.value
  }

  lemma StepStores(s: State, e: Event, id: SessionId, end: Option<real>)
    requires StoreInv(s) && Stored(s, id, end) && e != Delete(id) && e != ClearAll && NotOver(end, Step(s, e).0.now)
    ensures Stored(Step(s, e).0, id, end)
  {}

  /** Main result: a session stays stored, with its end, through every event but its own delete and a clearing of
      all, until its time is over. */
  lemma {:induction false} StoredStays(s: State, events: seq<Event>, id: SessionId, end: Option<real>)
    requires StoreInv(s) && Stored(s, id, end) && Spared(events, id) && NotOver(end, Run(s, events).0.now)
    ensures Stored(Run(s, events).0, id, end)
    decreases |events|
  {
    if events != [] {
      assert events[0] in events && forall e | e in events[1..] :: e in events;
      var t := Step(s, events[0]).0;
      TimeRuns(t, events[1..]);
      StepStores(s, events[0], id, end);
      StepEvolves(s, events[0]);
      StoredStays(t, events[1..], id, end);
    }
  }

  /** The lookup, if it is of this session, has found it. */
  predicate HasFound(s: State, n: LookupId, id: SessionId) {
    n in s.lookups && s.lookups[n].slot.id == id ==> s.lookups[n].found.Some?
  }

  /** The answer, if it is to this lookup and of this session, gives a session that ends then. */
  predicate GivesEnd(answer: Answer, n: LookupId, id: SessionId, end: Option<real>) {
    answer.lookup == n && answer.slot.id == id ==> answer.session.Some? && answer.session.value.expires == end
  }

  lemma StepGives(s: State, e: Event, n: LookupId, id: SessionId, end: Option<real>)
    requires Inv(s) && SameEnds(s) && Stored(s, id, end) && HasFound(s, n, id) && NotOver(end, s.now)
    ensures var (t, answer) := Step(s, e); HasFound(t, n, id) && (answer.Some? ==> GivesEnd(answer.value, n, id, end))
  {
    if e.Resolve? { ResolveGives(s, e.lookup, n, id, end); }
  }

  lemma ResolveGives(s: State, m: LookupId, n: LookupId, id: SessionId, end: Option<real>)
    requires SameEnds(s) && Stored(s, id, end) && HasFound(s, n, id) && NotOver(end, s.now)
    ensures var (t, answer) := ResolveStep(s, m);
            HasFound(t, n, id) && (answer.Some? ==> GivesEnd(answer.value, n, id, end))
  {}

  /** So a lookup of it that has begun and is answered before then is given it, whatever other logins, lookups,
      touches and deletes come in between. */
  lemma {:induction false} StoredIsGiven(s: State, events: seq<Event>, n: LookupId, id: SessionId, end: Option<real>)
    requires Inv(s) && SameEnds(s) && Stored(s, id, end) && HasFound(s, n, id)
    requires Spared(events, id) && NotOver(end, Run(s, events).0.now)
    ensures forall a | a in Run(s, events).1 :: GivesEnd(a, n, id, end)
    decreases |events|
  {
    if events != [] {
      assert events[0] in events && forall e | e in events[1..] :: e in events;
      var t := Step(s, events[0]).0;
      TimeRuns(t, events[1..]);
      StepStores(s, events[0], id, end);
      StepGives(s, events[0], n, id, end);
      StepKeepsInv(s, events[0]);
      StepKeepsEnds(s, events[0]);
      StoredIsGiven(t, events[1..], n, id, end);
    }
  }

  /** Main result, from a login on: after any past, a new session is stored for fourteen days unless it is deleted or
      all are cleared, and every lookup of it that begins and is answered in that time is given it. */
  lemma CreatedIsGiven(start: real, before: seq<Event>, id: SessionId, meanwhile: seq<Event>, n: LookupId,
                       process: Process, after: seq<Event>)
    requires id !in Run(Init(start), before).0.used && Spared(meanwhile, id) && Spared(after, id)
    requires var s := Run(Init(start), before).0;
             var t := Run(Step(s, Create(id)).0, meanwhile).0;
             n !in t.lookups && Run(Step(t, Read(n, Slot(process, id))).0, after).0.now <= s.now + 1209600.0
    ensures var s := Run(Init(start), before).0;
            var t := Run(Step(s, Create(id)).0, meanwhile).0;
            && Stored(t, id, Some(s.now + 1209600.0))
            && forall a | a in Run(Step(t, Read(n, Slot(process, id))).0, after).1 ::
                 GivesEnd(a, n, id, Some(s.now + 1209600.0))
  {
    InitInv(start);
    RunKeepsInv(Init(start), before);
    RunKeepsEnds(Init(start), before);
    var s := Run(Init(start), before).0;
    StepKeepsInv(s, Create(id));
    StepKeepsEnds(s, Create(id));
    CreatedStays(Step(s, Create(id)).0, meanwhile, n, Slot(process, id), after, Some(s.now + 1209600.0));
  }

  lemma CreatedStays(s: State, meanwhile: seq<Event>, n: LookupId, slot: Slot, after: seq<Event>, end: Option<real>)
    requires Inv(s) && SameEnds(s) && Stored(s, slot.id, end) && Spared(meanwhile, slot.id) && Spared(after, slot.id)
    requires var t := Run(s, meanwhile).0;
             n !in t.lookups && NotOver(end, Run(Step(t, Read(n, slot)).0, after).0.now)
    ensures var t := Run(s, meanwhile).0;
            && Stored(t, slot.id, end)
            && forall a | a in Run(Step(t, Read(n, slot)).0, after).1 :: GivesEnd(a, n, slot.id, end)
  {
    var t := Run(s, meanwhile).0;
    TimeRuns(Step(t, Read(n, slot)).0, after);
    StoredStays(s, meanwhile, slot.id, end);
    RunKeepsInv(s, meanwhile);
    RunKeepsEnds(s, meanwhile);
    StepKeepsInv(t, Read(n, slot));
    StepKeepsEnds(t, Read(n, slot));
    StoredIsGiven(Step(t, Read(n, slot)).0, after, n, slot.id, end);
  }

  /** And the four steps of a lookup, taken undisturbed beside whatever else is in progress, do answer it. */
  lemma UndisturbedIsAnswered(s: State, n: LookupId, slot: Slot)
    requires n !in s.lookups && slot.id in s.items && !Expired(s.items[slot.id], s.now)
    ensures GivenIn(s, [Read(n, slot)] + ([Consult(n)] + ([Resolve(n)] + ([Store(n)] + []))), n)
  {
    var s1 := Step(s, Read(n, slot)).0;
    RunFirst(s, Read(n, slot), [Consult(n)] + ([Resolve(n)] + ([Store(n)] + [])), n);
    RunFirst(s1, Consult(n), [Resolve(n)] + ([Store(n)] + []), n);
    var s2 := Step(s1, Consult(n)).0;
    RunFirst(s2, Resolve(n), [Store(n)] + [], n);
    RunFirst(Step(s2, Resolve(n)).0, Store(n), [], n);
  }

  // ---------------------------------------------------------------------------------------------
  // Expiry

  predicate EndedBriefly(end: real, now: real) {
    now - end < CACHE_TTL
  }

  /** Main result, expiry: the cache serves a session past its end for less than its own fifteen seconds
      plus the time the lookup that cached it took between reading the store and caching. Its fifteen seconds
      alone are the bound, for as long as the entry is fresh, exactly when the session was cached before its
      end. */
  lemma ExpiredServedBriefly(start: real, before: seq<Event>, n: LookupId)
    requires var answer := Step(Run(Init(start), before).0, Consult(n)).1;
             answer.Some? && answer.value.session.Some? && answer.value.session.value.expires.Some?
    ensures var s := Run(Init(start), before).0;
            var Answer(_, _, session, entry) := Step(s, Consult(n)).1.value;
            && entry.Some? && entry.value.readAt <= entry.value.until - CACHE_TTL
            && s.now - session.value.expires.value < CACHE_TTL + (entry.value.until - CACHE_TTL - entry.value.readAt)
            && ((forall now | now < entry.value.until :: EndedBriefly(session.value.expires.value, now)) <==>
                  !Expired(session.value, entry.value.until - CACHE_TTL))
  {
    InitInv(start);
    RunKeepsInv(Init(start), before);
    var s := Run(Init(start), before).0;
    var slot := s.lookups[n].slot;
    var entry := s.cache[slot];
    assert EntryOk(s, slot, entry);
    EndsBeforeCached(entry.session.expires.value, entry.until);
  }

  lemma EndsBeforeCached(end: real, until: real)
    ensures (forall now | now < until :: EndedBriefly(end, now)) <==> until - CACHE_TTL <= end
  {
    if end < until - CACHE_TTL {
      var now := end + CACHE_TTL;
      assert now < until && !EndedBriefly(end, now);
    }
  }

  /** A lookup that read and touched the session in time, but has not cached it yet. */
  lemma AboutToCache() returns (events: seq<Event>, s: State)
    ensures Run(Init(0.0), events).0 == s
    ensures s.items == map["a" := Session(Some(1209600.0), Some(1209500.0))] && s.generation == 2
    ensures s.cache == map[] && s.now == 1209500.0
    ensures s.lookups == map[1 := Fetched(Slot(0, "a"), 2, Some(Session(Some(1209600.0), Some(1209500.0))), 1209500.0)]
  {
    s := Init(0.0);
    events := [];
    events, s := Then(Init(0.0), events, s, Create("a"));
    assert s.items == map["a" := Session(Some(1209600.0), Some(0.0))];
    events, s := Then(Init(0.0), events, s, Tick(1209500.0));
    events, s := Then(Init(0.0), events, s, Read(1, Slot(0, "a")));
    events, s := Then(Init(0.0), events, s, Consult(1));
    events, s := Then(Init(0.0), events, s, Resolve(1));
    assert s.items == map["a" := Session(Some(1209600.0), Some(1209500.0))];
  }

  /** The extra time is needed: that lookup stalls for 200 seconds before it caches, and 14 seconds later the
      session is served 114 seconds past its end. */
  lemma ServedLongAfterItsEnd() returns (events: seq<Event>)
    ensures var s := Run(Init(0.0), events).0;
            var answer := Step(s, Consult(3)).1;
            && answer.Some? && answer.value.session.Some? && answer.value.session.value.expires == Some(1209600.0)
            && s.now == 1209714.0
  {
    var s;
    events, s := AboutToCache();
    events, s := Then(Init(0.0), events, s, Tick(200.0));
    events, s := Then(Init(0.0), events, s, Store(1));
    assert s.cache[Slot(0, "a")] == Entry(1209715.0, 2, Session(Some(1209600.0), Some(1209500.0)), 1209500.0);
    events, s := Then(Init(0.0), events, s, Tick(14.0));
    events, s := Then(Init(0.0), events, s, Read(3, Slot(0, "a")));
  }

  // ---------------------------------------------------------------------------------------------
  // One process, one call at a time

  /** A session as a lookup leaves it: marked as seen now if it was not in the last five minutes. */
  function Seen(session: Session, now: real): Session {
    if session.lastSeen.Some? && now - session.lastSeen.value < 300.0 then session
    else session.(lastSeen := Some(now))
  }

  /** The four steps of a lookup in a row, and what it returns. */
  function LookedUp(s: State, slot: Slot): (State, Option<Session>) {
    var s1 := Step(s, Read(0, slot)).0;
    var (s2, cached) := Step(s1, Consult(0));
    var (s3, resolved) := Step(s2, Resolve(0));
    var (s4, stored) := Step(s3, Store(0));
    (s4, if cached.Some? then cached.value.session
         else if resolved.Some? then resolved.value.session
         else if stored.Some? then stored.value.session
         else None)
  }

  /** What a lookup that misses the cache leaves and returns. */
  function Fetching(s: State, slot: Slot): (State, Option<Session>) {
    var missed := s.(cache := s.cache - {slot});
    var found := Get(Pruned(s.items, s.now), slot.id);
    if found.None? then (missed, None)
    else if !ShouldTouch(found.value, s.now) then
      (missed.(cache := missed.cache[slot := Entry(s.now + CACHE_TTL, s.generation, found.value, s.now)]), found)
    else
      var touched := found.value.(lastSeen := Some(s.now));
      (missed.(items := Pruned(s.items, s.now)[slot.id := touched], generation := s.generation + 1,
               cache := missed.cache[slot := Entry(s.now + CACHE_TTL, s.generation + 1, touched, s.now)]),
       Some(touched))
  }

  lemma LookedUpIs(s: State, slot: Slot)
    requires s.lookups == map[]
    ensures LookedUp(s, slot) == if IsCached(s, slot) then (s, Some(s.cache[slot].session)) else Fetching(s, slot)
  {
    var s1 := Step(s, Read(0, slot)).0;
    if IsCached(s, slot) {
      assert s1.lookups - {0} == map[];
    } else {
      var s2 := Step(s1, Consult(0)).0;
      FetchedFrom(s, s2, slot);
    }
  }

  lemma FetchedFrom(s: State, s2: State, slot: Slot)
    requires s.lookups == map[]
    requires s2 == s.(cache := s.cache - {slot},
                      lookups := map[0 := Missed(slot, s.generation, Get(Pruned(s.items, s.now), slot.id), s.now)])
    ensures var (s3, resolved) := Step(s2, Resolve(0));
            var (s4, stored) := Step(s3, Store(0));
            (s4, if resolved.Some? then resolved.value.session else if stored.Some? then stored.value.session else None)
            == Fetching(s, slot)
  {
    assert s2.lookups - {0} == map[];
    var found := Get(Pruned(s.items, s.now), slot.id);
    if found.Some? {
      var s3 := Step(s2, Resolve(0)).0;
      assert s3.lookups - {0} == map[];
    }
  }

  class AuthManager {
    const process: Process
    var items: map<SessionId, Session>
    var generation: nat
    var cache: map<Slot, Entry>

    constructor (process: Process)
      ensures this.process == process && items == map[] && generation == 0 && cache == map[]
    {
      this.process := process;
      items, generation, cache := map[], 0, map[];
    }

    ghost function View(now: real): State
      reads this
    {
      State(items, generation, cache, map[], now, {}, map[])
    }

    method PruneSessions(now: real)
      modifies this`items
      ensures items == Pruned(old(items), now)
      ensures forall id :: id in items <==> id in old(items) && NotOver(old(items)[id].expires, now)
      ensures forall id | id in items :: items[id] == old(items)[id]
    {
      var kept: map<SessionId, Session> := map[];
      var rest := items.Keys;
      while rest != {}
        invariant rest <= items.Keys && items == old(items)
        invariant kept == map id | id in items && id !in rest && !Expired(items[id], now) :: items[id]
        decreases |rest|
      {
        var id :| id in rest;
        if !Expired(items[id], now) { kept := kept[id := items[id]]; }
        rest := rest - {id};
      }
      items := kept;
    }

    /** The caller passes a newly generated identifier. */
    method CreateSession(id: SessionId, now: real)
      requires id !in items
      modifies this
      ensures View(now) == Step(old(View(now)), Create(id)).0.(used := {})
      ensures items.Keys == {id} + (set other | other in old(items) && NotOver(old(items)[other].expires, now))
      ensures items[id] == Session(Some(now + 1209600.0), Some(now)) && generation == old(generation) + 1
      ensures (forall other | other in items && other != id :: items[other] == old(items)[other]) && cache == old(cache)
    {
      PruneSessions(now);
      items := items[id := Session(Some(now + SESSION_TTL), Some(now))];
      generation := generation + 1;
    }

    method DeleteSession(id: SessionId, now: real)
      modifies this
      ensures View(now) == Step(Step(old(View(now)), Delete(id)).0, DropCached(Slot(process, id))).0.(revoked := map[])
      ensures items == old(items) - {id} && cache == old(cache) - {Slot(process, id)}
      ensures generation == old(generation) + (if id in old(items) then 1 else 0)
    {
      if id in items {
        items := items - {id};
        generation := generation + 1;
      }
      cache := cache - {Slot(process, id)};
    }

    method ClearAllSessions(now: real)
      modifies this
      ensures View(now) == Step(Step(old(View(now)), ClearAll).0, DropProcessCache(process)).0.(revoked := map[])
      ensures items == map[] && generation == old(generation) + 1
      ensures forall slot :: slot in cache <==> slot in old(cache) && slot.process != process
      ensures forall slot | slot in cache :: cache[slot] == old(cache)[slot]
    {
      items := map[];
      generation := generation + 1;
      cache := map slot | slot in cache && slot.process != process :: cache[slot];
    }

    method CachedSession(slot: Slot, expected: nat, now: real) returns (session: Option<Session>)
      modifies this`cache
      ensures session == (if slot in old(cache) && old(cache)[slot].until > now
                             && old(cache)[slot].generation == expected
                          then Some(old(cache)[slot].session) else None)
      ensures cache == if session.Some? then old(cache) else old(cache) - {slot}
    {
      if slot in cache && cache[slot].until > now && cache[slot].generation == expected {
        return Some(cache[slot].session);
      }
      cache := cache - {slot};
      session := None;
    }

    /** Marks a session as seen now; a touch sweeps expired sessions and moves the generation. */
    method TouchSession(id: SessionId, now: real)
      requires id in items && !Expired(items[id], now)
      modifies this`items, this`generation
      ensures items == Pruned(old(items), now)[id := old(items)[id].(lastSeen := Some(now))]
      ensures generation == old(generation) + 1
    {
      PruneSessions(now);
      items := items[id := items[id].(lastSeen := Some(now))];
      generation := generation + 1;
    }

    /** A lookup that missed the cache. */
    method FetchSession(id: SessionId, now: real) returns (session: Option<Session>)
      requires Slot(process, id) !in cache
      modifies this
      ensures (View(now), session) == Fetching(old(View(now)), Slot(process, id))
    {
      assert cache - {Slot(process, id)} == cache;
      if id !in items || Expired(items[id], now) { return None; }
      if ShouldTouch(items[id], now) { TouchSession(id, now); }
      session := Some(items[id]);
      cache := cache[Slot(process, id) := Entry(now + CACHE_TTL, generation, session.value, now)];
    }

    /** Undisturbed, a lookup is its four steps in a row. */
    method GetSession(id: SessionId, now: real) returns (session: Option<Session>)
      modifies this
      ensures (View(now), session) == LookedUp(old(View(now)), Slot(process, id))
      ensures session.Some? && !old(IsCached(View(now), Slot(process, id))) ==>
                && id in old(items) && NotOver(old(items)[id].expires, now)
                && session == Some(Seen(old(items)[id], now)) && items[id] == session.value
      ensures id in old(items) && NotOver(old(items)[id].expires, now) ==> session.Some?
    {
      LookedUpIs(View(now), Slot(process, id));
      session := CachedSession(Slot(process, id), generation, now);
      if session.None? {
        assert cache - {Slot(process, id)} == old(cache) - {Slot(process, id)};
        session := FetchSession(id, now);
      }
    }
  }
}
