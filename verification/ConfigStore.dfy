/** The optimistic configuration store (app/core/store.py over app/core/database.py). Each database
    transaction is one atomic step; validation is the identity on complete payloads. */
module ConfigStore {
  import opened Wrappers
  import opened ConfigMerge

  predicate IsConfig(j: Json) {
    j.Object? && "user" in j.fields
  }

  /** A validated payload: it always has its top-level fields, so it is never the empty payload. */
  type AppConfig = j: Json | IsConfig(j) witness Object(map["user" := Null])

  const EMPTY := Object(map[])

  lemma MergeKeepsConfig(b: AppConfig, c: AppConfig, d: AppConfig, m: Json)
    requires Merge(b, c, d) == Merged(m)
    ensures IsConfig(m)
  {
    if Diverging(Some(b), Some(c), Some(d)) {
      MergeByField(b, c, d, m, "user");
    }
  }

  // ---------------------------------------------------------------------------------------------
  // One store, one call at a time

  class Config {
    var data: AppConfig

    constructor (data: AppConfig)
      ensures this.data == data
    {
      this.data := data;
    }
  }

  datatype Loaded = Loaded(baseline: AppConfig, revision: nat)

  datatype SaveError = ConfigConflict(path: Path) | RevisionConflict

  class JsonStore {
    const defaults: AppConfig
    var payload: Json
    var revision: nat
    /** What each returned object looked like when it was loaded or saved. */
    var loaded: map<Config, Loaded>

    constructor (defaults: AppConfig)
      ensures payload == EMPTY && revision == 0 && loaded == map[] && this.defaults == defaults
    {
      this.defaults := defaults;
      payload, revision, loaded := EMPTY, 0, map[];
    }

    ghost predicate Valid()
      reads this
    {
      payload == EMPTY || IsConfig(payload)
    }

    function Latest(): AppConfig
      requires Valid()
      reads this
    {
      if payload == EMPTY then defaults else payload
    }

    /** The store as a single session sees it; the run theorems below speak of many. */
    ghost function Seen(baseline: AppConfig, data: AppConfig): State
      reads this
    {
      State(payload, revision, map[0 := Session(baseline, data)])
    }

    ghost function Baseline(config: Config): AppConfig
      requires Valid()
      reads this
    {
      if config in loaded then loaded[config].baseline else Latest()
    }

    method Load() returns (config: Config)
      requires Valid()
      modifies this
      ensures Valid() && fresh(config) && config.data == payload == old(Latest())
      ensures revision == old(revision) + (if old(payload) == EMPTY then 1 else 0)
      ensures loaded == old(loaded)[config := Loaded(config.data, revision)]
      ensures forall b, d :: Step(old(Seen(b, d)), defaults, LoadBy(0)).0 == Seen(Baseline(config), config.data)
    {
      if payload == EMPTY {
        payload, revision := defaults, revision + 1;
      }
      config := new Config(payload);
      loaded := loaded[config := Loaded(config.data, revision)];
    }

    /** Merges the edits of config into the latest payload. The object itself keeps its own data. */
    method Save(config: Config) returns (r: Result<Config, SaveError>)
      requires Valid()
      modifies this
      ensures Valid()
      ensures var baseline := old(Baseline(config));
              match Merge(baseline, old(Latest()), config.data)
              case Merged(m) =>
                && r.Success? && fresh(r.value) && r.value.data == payload == m
                && revision == old(revision) + 1
                && loaded == old(loaded)[config := Loaded(m, revision)][r.value := Loaded(m, revision)]
              case Conflict =>
                && r.Failure? && r.error.ConfigConflict? && unchanged(this)
                && ConflictAt(Some(baseline), Some(old(Latest())), Some(config.data), r.error.path)
      ensures Step(old(Seen(Baseline(config), config.data)), defaults, SaveBy(0)).0 ==
              if r.Success? then Seen(Baseline(r.value), r.value.data) else old(Seen(Baseline(config), config.data))
    {
      var latest := Latest();
      var baseline := if config in loaded then loaded[config].baseline else latest;
      var merged := MergeConfigChanges(baseline, latest, config.data);
      if merged.Failure? { return Failure(ConfigConflict(merged.error)); }
      MergeKeepsConfig(baseline, latest, config.data, merged.value);
      payload, revision := merged.value, revision + 1;
      var saved := new Config(payload);
      loaded := loaded[config := Loaded(payload, revision)][saved := Loaded(payload, revision)];
      r := Success(saved);
    }

    /** Applies a change to the latest payload inside the transaction. */
    method Update(mutator: AppConfig -> AppConfig, expected: Option<nat>) returns (r: Result<Config, SaveError>)
      requires Valid()
      modifies this
      ensures Valid()
      ensures expected.Some? && expected.value != old(revision) ==> r == Failure(RevisionConflict) && unchanged(this)
      ensures expected.None? || expected.value == old(revision) ==>
        && r.Success? && fresh(r.value) && r.value.data == payload == mutator(old(Latest()))
        && revision == old(revision) + 1
        && loaded == old(loaded)[r.value := Loaded(r.value.data, revision)]
      ensures forall b, d ::
                Step(old(Seen(b, d)), defaults, UpdateBy(0, mutator, expected)).0 ==
                  (if r.Success? then Seen(Baseline(r.value), r.value.data) else old(Seen(b, d)))
    {
      if expected.Some? && expected.value != revision { return Failure(RevisionConflict); }
      payload, revision := mutator(Latest()), revision + 1;
      var saved := new Config(payload);
      loaded := loaded[saved := Loaded(saved.data, revision)];
      r := Success(saved);
    }
  }

  // ---------------------------------------------------------------------------------------------
  // Many sessions, interleaved. A session continues from the object its last call returned.

  type SessionId = nat

  datatype Session = Session(baseline: AppConfig, data: AppConfig)

  datatype State = State(payload: Json, revision: nat, sessions: map<SessionId, Session>)

  datatype Event =
    | LoadBy(id: SessionId)
    | EditBy(id: SessionId, data: AppConfig)
    | SaveBy(id: SessionId)
    | UpdateBy(id: SessionId, mutator: AppConfig -> AppConfig, expected: Option<nat>)

  /** A committed transaction: the stored payload before and after it, and what its session had read
      and wanted. */
  datatype Commit = Commit(before: AppConfig, after: AppConfig, baseline: AppConfig, desired: AppConfig)

  predicate ValidState(s: State) {
    s.payload == EMPTY || IsConfig(s.payload)
  }

  function Latest(s: State, defaults: AppConfig): AppConfig
    requires ValidState(s)
  {
    if s.payload == EMPTY then defaults else s.payload
  }

  function Committed(s: State, id: SessionId, after: AppConfig): State {
    State(after, s.revision + 1, s.sessions[id := Session(after, after)])
  }

  /** One step of one session, with the transaction it committed, if any. */
  function Step(s: State, defaults: AppConfig, e: Event): (r: (State, Option<Commit>))
    requires ValidState(s)
    ensures ValidState(r.0)
  {
    var latest := Latest(s, defaults);
    match e
    case LoadBy(id) =>
      if s.payload == EMPTY
      then (Committed(s, id, defaults), Some(Commit(latest, defaults, latest, defaults)))
      else (s.(sessions := s.sessions[id := Session(latest, latest)]), None)
    case EditBy(id, data) =>
      if id in s.sessions then (s.(sessions := s.sessions[id := s.sessions[id].(data := data)]), None) else (s, None)
    case SaveBy(id) =>
      if id !in s.sessions then (s, None)
      else
        var Session(baseline, desired) := s.sessions[id];
        (match Merge(baseline, latest, desired)
         case Merged(m) =>
           MergeKeepsConfig(baseline, latest, desired, m);
           (Committed(s, id, m), Some(Commit(latest, m, baseline, desired)))
         case Conflict => (s, None))
    case UpdateBy(id, mutator, expected) =>
      if expected.Some? && expected.value != s.revision then (s, None)
      else (Committed(s, id, mutator(latest)), Some(Commit(latest, mutator(latest), latest, mutator(latest))))
  }

  function Logged(commit: Option<Commit>): seq<Commit> {
    if commit.Some? then [commit.value] else []
  }

  function Run(s: State, defaults: AppConfig, events: seq<Event>): (r: (State, seq<Commit>))
    requires ValidState(s)
    ensures ValidState(r.0)
    decreases |events|
  {
    if events == [] then (s, [])
    else
      var (s1, commit) := Step(s, defaults, events[0]);
      var (s2, rest) := Run(s1, defaults, events[1..]);
      (s2, Logged(commit) + rest)
  }

  ghost predicate EditedAt(commit: Commit, p: Path) {
    At(Some(commit.desired), p) != At(Some(commit.baseline), p)
  }

  /** A commit changes a path only if its session edited that path, writes every leaf its session
      edited, and writes a leaf only over a value the session had read (or over that same leaf). */
  ghost predicate SoundAt(commit: Commit, p: Path) {
    && (!EditedAt(commit, p) ==> At(Some(commit.after), p) == At(Some(commit.before), p))
    && (EditedAt(commit, p) && !IsObject(At(Some(commit.desired), p)) ==>
          && At(Some(commit.after), p) == At(Some(commit.desired), p)
          && (At(Some(commit.before), p) == At(Some(commit.baseline), p)
              || At(Some(commit.before), p) == At(Some(commit.desired), p)))
  }

  lemma StepSound(s: State, defaults: AppConfig, e: Event, p: Path)
    requires ValidState(s)
    ensures var (s', commit) := Step(s, defaults, e);
            match commit
            case None => s'.payload == s.payload && s'.revision == s.revision
            case Some(t) => s'.payload == t.after && s'.revision == s.revision + 1
                            && t.before == Latest(s, defaults) && SoundAt(t, p)
  {
    if e.SaveBy? && e.id in s.sessions {
      var Session(b, d) := s.sessions[e.id];
      var c := Latest(s, defaults);
      if Merge(b, c, d).Merged? {
        MergeObeysPathLaws(b, c, d, Merge(b, c, d).tree, p);
        if At(Some(d), p) != At(Some(b), p) && !IsObject(At(Some(d), p)) {
          NothingUnseenOverwritten(Some(b), Some(c), Some(d), p);
        }
      }
    }
  }

  /** The log of a run is a chain from the first payload to the last, one revision per commit. */
  ghost predicate Chained(first: AppConfig, log: seq<Commit>, last: AppConfig) {
    && (forall i, j | 0 <= i && j == i + 1 < |log| :: log[i].after == log[j].before)
    && (if log == [] then last == first else log[0].before == first && log[|log| - 1].after == last)
  }

  lemma ChainCons(first: AppConfig, commit: Commit, rest: seq<Commit>, last: AppConfig)
    requires commit.before == first && Chained(commit.after, rest, last)
    ensures Chained(first, [commit] + rest, last)
  {
    var log := [commit] + rest;
    forall i, j | 0 <= i && j == i + 1 < |log| ensures log[i].after == log[j].before {
      assert log[j] == rest[j - 1];
      if i > 0 { assert log[i] == rest[i - 1]; }
    }
  }

  lemma {:induction false} RunIsChained(s: State, defaults: AppConfig, events: seq<Event>)
    requires ValidState(s)
    ensures var (s', log) := Run(s, defaults, events);
            && s'.revision == s.revision + |log|
            && Chained(Latest(s, defaults), log, Latest(s', defaults))
            && forall i, p | 0 <= i < |log| :: SoundAt(log[i], p)
    decreases |events|
  {
    if events != [] {
      var (s1, commit) := Step(s, defaults, events[0]);
      var (s2, rest) := Run(s1, defaults, events[1..]);
      RunIsChained(s1, defaults, events[1..]);
      StepSound(s, defaults, events[0], []);
      if commit.Some? {
        var log := [commit.value] + rest;
        ChainCons(Latest(s, defaults), commit.value, rest, Latest(s2, defaults));
        forall i, p | 0 <= i < |log| ensures SoundAt(log[i], p) {
          if i == 0 { StepSound(s, defaults, events[0], p); } else { assert log[i] == rest[i - 1]; }
        }
      }
    }
  }

  /** Main result, no lost update: whatever commit i left at path p is still there at the end of the
      run, or the first later commit to change it came from a session that edited p itself; and if that
      edit is a leaf, the session had read the very value it replaced. */
  lemma {:induction false} NoLostUpdate(s: State, defaults: AppConfig, events: seq<Event>, i: nat, p: Path)
    requires ValidState(s) && i < |Run(s, defaults, events).1|
    ensures var (s', log) := Run(s, defaults, events);
            var written := At(Some(log[i].after), p);
            || At(Some(Latest(s', defaults)), p) == written
            || exists k :: && i < k < |log| && EditedAt(log[k], p)
                           && At(Some(log[k].before), p) == written && At(Some(log[k].after), p) != written
                           && (IsObject(At(Some(log[k].desired), p)) || At(Some(log[k].baseline), p) == written)
  {
    RunIsChained(s, defaults, events);
    var (s', log) := Run(s, defaults, events);
    var written := At(Some(log[i].after), p);
    var k := i + 1;
    while k < |log| && At(Some(log[k].after), p) == written
      invariant i < k <= |log|
      invariant At(Some(log[k - 1].after), p) == written
    {
      k := k + 1;
    }
    if k < |log| {
      assert SoundAt(log[k], p) && log[k].before == log[k - 1].after;
    }
  }

  ghost predicate WasStored(first: AppConfig, log: seq<Commit>, value: AppConfig) {
    value == first || exists i :: 0 <= i < |log| && log[i].after == value
  }

  lemma StoredStays(first: AppConfig, log: seq<Commit>, more: seq<Commit>, value: AppConfig)
    requires WasStored(first, log, value)
    ensures WasStored(first, log + more, value)
  {
    if value != first {
      var i :| 0 <= i < |log| && log[i].after == value;
      assert (log + more)[i].after == value;
    }
  }

  ghost predicate BaselinesStored(s: State, defaults: AppConfig, first: AppConfig, log: seq<Commit>)
    requires ValidState(s)
  {
    && WasStored(first, log, Latest(s, defaults))
    && forall id | id in s.sessions :: WasStored(first, log, s.sessions[id].baseline)
  }

  lemma StepKeepsBaselinesStored(s: State, defaults: AppConfig, e: Event, first: AppConfig, past: seq<Commit>)
    requires ValidState(s) && BaselinesStored(s, defaults, first, past)
    ensures var (s', commit) := Step(s, defaults, e);
            && BaselinesStored(s', defaults, first, past + Logged(commit))
            && (commit.Some? ==> WasStored(first, past, commit.value.baseline))
  {
    var (s', commit) := Step(s, defaults, e);
    var now := past + Logged(commit);
    StoredStays(first, past, Logged(commit), Latest(s, defaults));
    if commit.Some? {
      assert now[|past|].after == commit.value.after;
      StepSound(s, defaults, e, []);
    }
    forall id | id in s.sessions ensures WasStored(first, now, s.sessions[id].baseline) {
      StoredStays(first, past, Logged(commit), s.sessions[id].baseline);
    }
  }

  /** Every commit's baseline was stored before that commit. */
  ghost predicate ReadBefore(first: AppConfig, past: seq<Commit>, log: seq<Commit>) {
    forall i | 0 <= i < |log| :: WasStored(first, past + log[..i], log[i].baseline)
  }

  lemma ReadBeforeCons(first: AppConfig, past: seq<Commit>, commit: Option<Commit>, rest: seq<Commit>)
    requires commit.Some? ==> WasStored(first, past, commit.value.baseline)
    requires ReadBefore(first, past + Logged(commit), rest)
    ensures ReadBefore(first, past, Logged(commit) + rest)
  {
    var now, log, n := past + Logged(commit), Logged(commit) + rest, |Logged(commit)|;
    forall i | 0 <= i < |log| ensures WasStored(first, past + log[..i], log[i].baseline) {
      if i < n { assert past + log[..i] == past; }
      else { assert log[i] == rest[i - n] && past + log[..i] == now + rest[..i - n]; }
    }
  }

  /** Each session's baseline is a payload that was stored once, the first one or some commit's result,
      and a session commits only from a baseline stored before. */
  lemma {:induction false} BaselinesWereStored(s: State, defaults: AppConfig, events: seq<Event>,
                                               first: AppConfig, past: seq<Commit>)
    requires ValidState(s) && BaselinesStored(s, defaults, first, past)
    ensures var (s', log) := Run(s, defaults, events);
            BaselinesStored(s', defaults, first, past + log) && ReadBefore(first, past, log)
    decreases |events|
  {
    if events == [] {
      assert past + [] == past;
    } else {
      var (s1, commit) := Step(s, defaults, events[0]);
      var rest := Run(s1, defaults, events[1..]).1;
      StepKeepsBaselinesStored(s, defaults, events[0], first, past);
      BaselinesWereStored(s1, defaults, events[1..], first, past + Logged(commit));
      ReadBeforeCons(first, past, commit, rest);
      assert past + (Logged(commit) + rest) == past + Logged(commit) + rest;
    }
  }

  /** No event of this session. */
  ghost predicate NoneBy(events: seq<Event>, id: SessionId) {
    forall e | e in events :: e.id != id
  }

  lemma {:induction false} OthersLeaveSession(s: State, defaults: AppConfig, events: seq<Event>, id: SessionId)
    requires ValidState(s) && NoneBy(events, id) && id in s.sessions
    ensures var t := Run(s, defaults, events).0; id in t.sessions && t.sessions[id] == s.sessions[id]
    decreases |events|
  {
    if events != [] {
      assert events[0] in events && forall e | e in events[1..] :: e in events;
      OthersLeaveSession(Step(s, defaults, events[0]).0, defaults, events[1..], id);
    }
  }

  /** What a session loads, edits and saves, whatever the others do in between: its edits are merged, against what it
      loaded, into the payload stored by the time of the save; or nothing changes, exactly when they conflict with
      it. */
  lemma {:induction false} EditsAreSaved(s: State, defaults: AppConfig, id: SessionId, data: AppConfig,
                                         others: seq<Event>)
    requires ValidState(s) && NoneBy(others, id)
    ensures var loaded := Step(s, defaults, LoadBy(id)).0;
            var edited := Step(loaded, defaults, EditBy(id, data)).0;
            var before := Run(edited, defaults, others).0;
            var after := Step(before, defaults, SaveBy(id)).0;
            && loaded.payload == edited.payload == Latest(s, defaults)
            && edited.revision == loaded.revision == s.revision + (if s.payload == EMPTY then 1 else 0)
            && (match Merge(Latest(s, defaults), Latest(before, defaults), data)
                case Merged(m) => after.payload == m && after.revision == before.revision + 1
                                  && after.sessions == before.sessions[id := Session(m, m)]
                case Conflict => after == before)
  {
    var edited := Step(Step(s, defaults, LoadBy(id)).0, defaults, EditBy(id, data)).0;
    OthersLeaveSession(edited, defaults, others, id);
  }

  /** An update applies its change to the payload stored at that moment, unless the store has moved on from the
      revision it names. */
  lemma UpdateSays(s: State, defaults: AppConfig, id: SessionId, mutator: AppConfig -> AppConfig,
                   expected: Option<nat>)
    requires ValidState(s)
    ensures var after := Step(s, defaults, UpdateBy(id, mutator, expected)).0;
            if expected == None || expected == Some(s.revision)
            then after.payload == mutator(Latest(s, defaults)) && after.revision == s.revision + 1
            else after == s
  {}

  // ---------------------------------------------------------------------------------------------
  // Saving the same object twice. The first save rebases the object on the merged payload but leaves
  // its data as it was, so a second save writes that data back.

  lemma {:induction false} DroppedChange(b: Option<Json>, c: Option<Json>, d: Option<Json>, m: Option<Json>)
      returns (p: Path)
    requires MergeField(b, c, d) == Success(m) && m != d
    ensures At(d, p) == At(b, p) && At(c, p) != At(b, p)
    decreases if b.Some? then b.value else Null
  {
    p := [];
    if Diverging(b, c, d) {
      if forall k :: Child(m, k) == Child(d, k) {
        MergeByField(b.value, c.value, d.value, m.value, "");
        ObjectsEqual(m, d);
      }
      var k :| Child(m, k) != Child(d, k);
      MergeByField(b.value, c.value, d.value, m.value, k);
      if Child(b, k).Some? {
        var q := DroppedChange(Child(b, k), Child(c, k), Child(d, k), Child(m, k));
        p := [k] + q;
      } else {
        p := [k];
      }
    }
  }

  /** Saving the object again stores exactly its stale data if nothing was stored in between, and that undoes
      nothing if and only if no other session had changed a path this one left alone. */
  lemma SecondSaveOfSameObject(b: AppConfig, c: AppConfig, d: AppConfig, m: AppConfig)
    requires Merge(b, c, d) == Merged(m)
    ensures Merge(m, m, d) == Merged(d)
    ensures d == m <==> forall p :: At(Some(d), p) == At(Some(b), p) ==> At(Some(c), p) == At(Some(b), p)
  {
    if d != m {
      var p := DroppedChange(Some(b), Some(c), Some(d), Some(m));
    } else {
      forall p | At(Some(d), p) == At(Some(b), p) ensures At(Some(c), p) == At(Some(b), p) {
        MergeObeysPathLaws(b, c, d, m, p);
      }
    }
  }

  /** Whatever was stored in between: where this session left a leaf alone, a second save that is not refused
      keeps the latest value exactly if nobody had changed the leaf before the first save; otherwise it
      writes the stale value back. */
  lemma {:induction false} SecondSaveAfterOthers(b: AppConfig, c: AppConfig, d: AppConfig, m: AppConfig,
                                                 later: AppConfig, again: AppConfig, p: Path)
    requires Merge(b, c, d) == Merged(m) && Merge(m, later, d) == Merged(again)
    requires At(Some(d), p) == At(Some(b), p) && !IsObject(At(Some(d), p))
    ensures At(Some(again), p) == if At(Some(c), p) == At(Some(b), p) then At(Some(later), p) else At(Some(b), p)
  {
    TakesSide(b, c, d, m, p);
    TakesSide(m, later, d, again, p);
  }

  /** Where the saver left a leaf alone the current value stays; a leaf it edited is written. */
  lemma {:induction false} TakesSide(b: Json, c: Json, d: Json, m: Json, p: Path)
    requires Merge(b, c, d) == Merged(m) && !IsObject(At(Some(d), p))
    ensures At(Some(m), p) == if At(Some(d), p) == At(Some(b), p) then At(Some(c), p) else At(Some(d), p)
  {
    MergeObeysPathLaws(b, c, d, m, p);
  }
}
