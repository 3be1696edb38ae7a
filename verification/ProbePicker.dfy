/** Which queued task runs next, and how a 3MF task becomes the probe of a platform whose gate is in doubt
    (app/services/archive_worker.py; the lease is in app/services/task_state.py). */
module ProbePicker {
  import opened Wrappers
  import opened Platforms
  import ThreeMfGate

  /** Where a task downloads from; pages of neither platform have no gate. */
  datatype Place = On(platform: Platform) | Elsewhere

  /** A gate as one task sees it: a platform whose login changed is open although unknown. */
  datatype Gate = Gate(open: bool, unknown: bool)

  /** A queue item. A probe is a 3MF-only task that runs whatever the gate says. */
  datatype Item = Item(id: string, key: string, place: Place, status: string, retryAt: int,
                       waitsForChildren: bool, only3mf: bool, flagged: bool)

  /** What the picker reads besides the queue. */
  datatype World = World(now: int, blocked: set<Place>, gate: Item -> Gate)

  predicate Eligible(w: World, item: Item) {
    && item.status in {"", "queued", "pending"}
    && item.retryAt <= w.now
    && !item.waitsForChildren
    && item.place !in w.blocked
  }

  predicate IsProbe(item: Item, place: Place) {
    item.only3mf && item.flagged && item.place == place
  }

  predicate HeldByGate(w: World, item: Item) {
    item.only3mf && !item.flagged && !w.gate(item).open
  }

  predicate MayProbe(w: World, active: seq<Item>, item: Item) {
    w.gate(item).unknown && !exists a :: a in active && IsProbe(a, item.place)
  }

  predicate Runs(w: World, active: seq<Item>, item: Item) {
    Eligible(w, item) && (HeldByGate(w, item) ==> MayProbe(w, active, item))
  }

  /** The first task of the queue that runs: the picker in one pass. */
  function FirstFit(w: World, active: seq<Item>, queued: seq<Item>): Option<nat>
    decreases |queued|
  {
    if queued == [] then None
    else if Runs(w, active, queued[0]) then Some(0)
    else
      match FirstFit(w, active, queued[1..])
      case None => None
      case Some(i) => Some(i + 1)
  }

  function Promoted(w: World, item: Item): Item {
    if HeldByGate(w, item) then item.(flagged := true) else item
  }

  lemma {:induction false} FirstFitFacts(w: World, active: seq<Item>, queued: seq<Item>)
    ensures match FirstFit(w, active, queued)
            case None => forall j | 0 <= j < |queued| :: !Runs(w, active, queued[j])
            case Some(i) => i < |queued| && Runs(w, active, queued[i])
                            && forall j | 0 <= j < i :: !Runs(w, active, queued[j])
    decreases |queued|
  {
    if queued != [] {
      var rest := queued[1..];
      FirstFitFacts(w, active, rest);
      assert forall j | 0 < j < |queued| :: queued[j] == rest[j - 1];
    }
  }

  lemma FirstFitIs(w: World, active: seq<Item>, queued: seq<Item>, i: nat)
    requires i < |queued| && Runs(w, active, queued[i]) && forall j | 0 <= j < i :: !Runs(w, active, queued[j])
    ensures FirstFit(w, active, queued) == Some(i)
  {
    FirstFitFacts(w, active, queued);
  }

  // ---------------------------------------------------------------------------------------------
  // The picker of the source

  /** Main result: the two passes of the source pick what one pass picks. Its second pass, over tasks that are
      not 3MF-only, starts only when the first has found nothing, and then finds nothing either. */
  method NextExecutable(w: World, active: seq<Item>, queued: seq<Item>) returns (picked: Option<(nat, Item)>)
    ensures match FirstFit(w, active, queued)
            case None => picked == None
            case Some(i) => i < |queued| && picked == Some((i, Promoted(w, queued[i])))
  {
    var i := 0;
    while i < |queued|
      invariant 0 <= i <= |queued|
      invariant forall j | 0 <= j < i :: !Runs(w, active, queued[j])
    {
      var item := queued[i];
      if Eligible(w, item) {
        if !HeldByGate(w, item) {
          FirstFitIs(w, active, queued, i);
          return Some((i, item));
        }
        var promoted := PromoteProbe(w, active, item);
        if promoted.Some? {
          FirstFitIs(w, active, queued, i);
          return Some((i, promoted.value));
        }
      }
      i := i + 1;
    }
    FirstFitFacts(w, active, queued);
    picked := FirstOrdinary(w, queued);
  }

  method PromoteProbe(w: World, active: seq<Item>, item: Item) returns (promoted: Option<Item>)
    requires item.only3mf
    ensures promoted == if MayProbe(w, active, item) then Some(item.(flagged := true)) else None
  {
    if !w.gate(item).unknown { return None; }
    var i := 0;
    while i < |active|
      invariant 0 <= i <= |active|
      invariant forall j | 0 <= j < i :: !IsProbe(active[j], item.place)
    {
      if active[i].only3mf && active[i].place == item.place && active[i].flagged {
        assert IsProbe(active[i], item.place);
        return None;
      }
      i := i + 1;
    }
    promoted := Some(item.(flagged := true));
  }

  method FirstOrdinary(w: World, queued: seq<Item>) returns (found: Option<(nat, Item)>)
    ensures found.Some? ==> exists j :: 0 <= j < |queued| && found == Some((j, queued[j]))
                                        && Eligible(w, queued[j]) && !queued[j].only3mf
    ensures found.None? ==> forall j | 0 <= j < |queued| :: Eligible(w, queued[j]) ==> queued[j].only3mf
  {
    var i := 0;
    while i < |queued|
      invariant 0 <= i <= |queued|
      invariant forall j | 0 <= j < i :: Eligible(w, queued[j]) ==> queued[j].only3mf
    {
      if Eligible(w, queued[i]) && !queued[i].only3mf { return Some((i, queued[i])); }
      i := i + 1;
    }
    found := None;
  }

  /** When a task may run: it waits, its retry is due, it waits for no children, its platform is not blocked, and
      if it is for 3MF files only and no probe, its gate is open, or in doubt with no probe of the platform active. */
  ghost predicate MayRun(w: World, active: seq<Item>, item: Item) {
    && (item.status == "" || item.status == "queued" || item.status == "pending")
    && item.retryAt <= w.now && !item.waitsForChildren && item.place !in w.blocked
    && (!item.only3mf || item.flagged || w.gate(item).open
        || (w.gate(item).unknown
            && forall a | a in active :: !(a.only3mf && a.flagged && a.place == item.place)))
  }

  lemma RunsExactlyWhen(w: World, active: seq<Item>, item: Item)
    ensures Runs(w, active, item) <==> MayRun(w, active, item)
  {}

  // ---------------------------------------------------------------------------------------------
  // Runs of the queue

  datatype State = State(active: seq<Item>, queued: seq<Item>)

  datatype Event =
    | Lease(world: World)
    | Enqueue(item: Item, first: bool)
    | Leave(id: string)                      // an active task completes or fails
    | Requeue(id: string, retryAt: int)      // an active task goes back, with its flag
    | Resume(id: string)                     // a waiting task is flagged from outside and moved ahead

  function Remove(items: seq<Item>, id: string): seq<Item> {
    if items == [] then [] else (if items[0].id == id then [] else [items[0]]) + Remove(items[1..], id)
  }

  /** The last item with this id, as the source's loop leaves it. */
  function Find(items: seq<Item>, id: string): Option<Item> {
    if items == [] then None
    else
      var later := Find(items[1..], id);
      if later.Some? then later else if items[0].id == id then Some(items[0]) else None
  }

  function WithoutKey(items: seq<Item>, key: string): seq<Item> {
    if items == [] then []
    else (if key != "" && items[0].key == key then [] else [items[0]]) + WithoutKey(items[1..], key)
  }

  function Leased(w: World, item: Item): Item {
    Promoted(w, item).(status := "running", retryAt := 0)
  }

  function Step(s: State, e: Event): State {
    match e
    case Lease(w) =>
      FirstFitFacts(w, s.active, s.queued);
      (match FirstFit(w, s.active, s.queued)
       case None => s
       case Some(i) => State(s.active + [Leased(w, s.queued[i])], s.queued[..i] + s.queued[i + 1..]))
    case Enqueue(item, first) => s.(queued := if first then [item] + s.queued else s.queued + [item])
    case Leave(id) => s.(active := Remove(s.active, id))
    case Requeue(id, retryAt) =>
      (match Find(s.active, id)
       case None => s
       case Some(item) =>
         State(Remove(s.active, id), WithoutKey(s.queued, item.key) + [item.(status := "queued", retryAt := retryAt)]))
    case Resume(id) =>
      (match Find(s.queued, id)
       case None => s
       case Some(item) => s.(queued := [item.(flagged := true, status := "queued")] + Remove(s.queued, id)))
  }

  function Run(s: State, events: seq<Event>): State
    decreases |events|
  {
    if events == [] then s else Run(Step(s, events[0]), events[1..])
  }

  ghost predicate IsFirstThatMay(s: State, w: World, i: nat) {
    i < |s.queued| && MayRun(w, s.active, s.queued[i]) && forall j | 0 <= j < i :: !MayRun(w, s.active, s.queued[j])
  }

  /** Main result: a lease takes the first task that may run out of the queue and nothing else, and runs it, as a
      probe if its gate was not open; without such a task it changes nothing. */
  lemma LeaseTakesFirst(s: State, w: World, i: nat)
    ensures IsFirstThatMay(s, w, i) ==>
              var item := s.queued[i];
              var probe := item.flagged || (item.only3mf && !w.gate(item).open);
              Step(s, Lease(w)) == State(s.active + [item.(flagged := probe, status := "running", retryAt := 0)],
                                         s.queued[..i] + s.queued[i + 1..])
    ensures (forall item | item in s.queued :: !MayRun(w, s.active, item)) ==> Step(s, Lease(w)) == s
  {
    FirstFitFacts(w, s.active, s.queued);
    forall item ensures Runs(w, s.active, item) <==> MayRun(w, s.active, item) { RunsExactlyWhen(w, s.active, item); }
    if IsFirstThatMay(s, w, i) { FirstFitIs(w, s.active, s.queued, i); }
  }

  function OtherThan(id: string): Item -> bool { (item: Item) => item.id != id }

  function NotOf(key: string): Item -> bool { (item: Item) => key == "" || item.key != key }

  lemma {:induction false} RemoveFilters(items: seq<Item>, id: string)
    ensures Remove(items, id) == Filter(OtherThan(id), items)
    decreases |items|
  {
    if items != [] {
      RemoveFilters(items[1..], id);
      assert [] + Remove(items[1..], id) == Remove(items[1..], id);
    }
  }

  lemma {:induction false} WithoutKeyFilters(items: seq<Item>, key: string)
    ensures WithoutKey(items, key) == Filter(NotOf(key), items)
    decreases |items|
  {
    if items != [] {
      WithoutKeyFilters(items[1..], key);
      assert [] + WithoutKey(items[1..], key) == WithoutKey(items[1..], key);
    }
  }

  /** The last task of the list with this id. */
  ghost predicate IsLastWithId(items: seq<Item>, id: string, i: nat) {
    i < |items| && items[i].id == id && forall j | i < j < |items| :: items[j].id != id
  }

  lemma {:induction false} FindIs(items: seq<Item>, id: string)
    ensures match Find(items, id)
            case None => forall item | item in items :: item.id != id
            case Some(item) => exists i: nat :: IsLastWithId(items, id, i) && items[i] == item
    decreases |items|
  {
    if items != [] {
      FindIs(items[1..], id);
      assert items == [items[0]] + items[1..];
      if Find(items[1..], id).Some? {
        var i: nat :| IsLastWithId(items[1..], id, i) && items[1..][i] == Find(items[1..], id).value;
        assert IsLastWithId(items, id, i + 1);
      } else if items[0].id == id {
        assert IsLastWithId(items, id, 0);
      }
    }
  }

  /** A task that is added waits in front or at the end; one that leaves is taken out of the active ones and nothing
      else is. */
  lemma ArrivalsAndLeavesSay(s: State, id: string, item: Item)
    ensures Step(s, Enqueue(item, true)) == State(s.active, [item] + s.queued)
    ensures Step(s, Enqueue(item, false)) == State(s.active, s.queued + [item])
    ensures Step(s, Leave(id)) == State(Filter(OtherThan(id), s.active), s.queued)
  {
    RemoveFilters(s.active, id);
  }

  /** An active task that goes back keeps its flag, waits for its retry at the end of the queue, and replaces the ones
      of its key that wait there. */
  lemma RequeueSays(s: State, id: string, retryAt: int, i: nat)
    ensures IsLastWithId(s.active, id, i) ==>
              Step(s, Requeue(id, retryAt)) ==
                State(Filter(OtherThan(id), s.active),
                      Filter(NotOf(s.active[i].key), s.queued)
                      + [s.active[i].(status := "queued", retryAt := retryAt)])
    ensures (forall a | a in s.active :: a.id != id) ==> Step(s, Requeue(id, retryAt)) == s
  {
    FoundIs(s.active, id, i);
    RemoveFilters(s.active, id);
    if IsLastWithId(s.active, id, i) { WithoutKeyFilters(s.queued, s.active[i].key); }
  }

  /** A waiting task that is resumed is a probe from now on, and waits in front. */
  lemma ResumeSays(s: State, id: string, i: nat)
    ensures IsLastWithId(s.queued, id, i) ==>
              Step(s, Resume(id)) ==
                State(s.active, [s.queued[i].(flagged := true, status := "queued")] + Filter(OtherThan(id), s.queued))
    ensures (forall b | b in s.queued :: b.id != id) ==> Step(s, Resume(id)) == s
  {
    FoundIs(s.queued, id, i);
    RemoveFilters(s.queued, id);
  }

  lemma FoundIs(items: seq<Item>, id: string, i: nat)
    ensures IsLastWithId(items, id, i) ==> Find(items, id) == Some(items[i])
    ensures (forall item | item in items :: item.id != id) ==> Find(items, id) == None
  {
    FindIs(items, id);
    if IsLastWithId(items, id, i) { assert items[i] in items; }
  }

  function Probes(items: seq<Item>, place: Place): nat {
    if items == [] then 0 else (if IsProbe(items[0], place) then 1 else 0) + Probes(items[1..], place)
  }

  /** Whether an event puts a probe into the queue: a flagged task enqueued, requeued or resumed. */
  predicate Flags(s: State, e: Event, place: Place) {
    match e
    case Lease(_) => false
    case Enqueue(item, _) => IsProbe(item, place)
    case Leave(_) => false
    case Requeue(id, _) => Find(s.active, id).Some? && IsProbe(Find(s.active, id).value, place)
    case Resume(id) =>
      var found := Find(s.queued, id);
      found.Some? && found.value.only3mf && found.value.place == place
  }

  function FlagsIn(s: State, events: seq<Event>, place: Place): nat
    decreases |events|
  {
    if events == [] then 0
    else (if Flags(s, events[0], place) then 1 else 0) + FlagsIn(Step(s, events[0]), events[1..], place)
  }

  lemma {:induction false} ProbesConcat(a: seq<Item>, b: seq<Item>, place: Place)
    ensures Probes(a + b, place) == Probes(a, place) + Probes(b, place)
    decreases |a|
  {
    if a == [] {
      assert a + b == b;
    } else {
      assert (a + b)[1..] == a[1..] + b;
      ProbesConcat(a[1..], b, place);
    }
  }

  lemma {:induction false} ProbesAfterRemove(items: seq<Item>, id: string, place: Place)
    ensures Probes(Remove(items, id), place) <= Probes(items, place)
    decreases |items|
  {
    if items != [] {
      ProbesAfterRemove(items[1..], id, place);
      ProbesConcat(if items[0].id == id then [] else [items[0]], Remove(items[1..], id), place);
    }
  }

  /** A task that is taken out takes its flag with it. */
  lemma {:induction false} ProbesAfterTake(items: seq<Item>, id: string, place: Place)
    requires Find(items, id).Some? && IsProbe(Find(items, id).value, place)
    ensures Probes(Remove(items, id), place) + 1 <= Probes(items, place)
    decreases |items|
  {
    ProbesConcat(if items[0].id == id then [] else [items[0]], Remove(items[1..], id), place);
    if Find(items[1..], id).Some? {
      ProbesAfterTake(items[1..], id, place);
    } else {
      ProbesAfterRemove(items[1..], id, place);
    }
  }

  lemma {:induction false} ProbesWithoutKey(items: seq<Item>, key: string, place: Place)
    ensures Probes(WithoutKey(items, key), place) <= Probes(items, place)
    decreases |items|
  {
    if items != [] {
      ProbesWithoutKey(items[1..], key, place);
      ProbesConcat(if key != "" && items[0].key == key then [] else [items[0]], WithoutKey(items[1..], key), place);
    }
  }

  lemma {:induction false} NoProbes(items: seq<Item>, place: Place)
    ensures Probes(items, place) == 0 <==> !exists a :: a in items && IsProbe(a, place)
    decreases |items|
  {
    if items != [] {
      NoProbes(items[1..], place);
      assert items == [items[0]] + items[1..];
    }
  }

  lemma OneMore(items: seq<Item>, item: Item, place: Place)
    ensures Probes(items + [item], place) == Probes(items, place) + (if IsProbe(item, place) then 1 else 0)
    ensures Probes([item] + items, place) == Probes(items, place) + (if IsProbe(item, place) then 1 else 0)
  {
    ProbesConcat(items, [item], place);
    ProbesConcat([item], items, place);
    assert [item][1..] == [];
  }

  lemma LeaseStep(s: State, w: World, place: Place)
    ensures var t := Step(s, Lease(w));
            && Probes(t.queued, place) <= Probes(s.queued, place)
            && (Probes(t.active, place) + Probes(t.queued, place) == Probes(s.active, place) + Probes(s.queued, place)
                || (Probes(s.active, place) == 0 && Probes(t.active, place) == 1))
  {
    FirstFitFacts(w, s.active, s.queued);
    var fit := FirstFit(w, s.active, s.queued);
    if fit.Some? {
      var i := fit.value;
      var item := s.queued[i];
      assert s.queued == s.queued[..i] + ([item] + s.queued[i + 1..]);
      ProbesConcat(s.queued[..i], [item] + s.queued[i + 1..], place);
      OneMore(s.queued[i + 1..], item, place);
      ProbesConcat(s.queued[..i], s.queued[i + 1..], place);
      OneMore(s.active, Leased(w, item), place);
      NoProbes(s.active, place);
    }
  }

  lemma OtherStep(s: State, e: Event, place: Place)
    requires !e.Lease?
    ensures var t, more := Step(s, e), if Flags(s, e, place) then 1 else 0;
            && Probes(t.active, place) <= Probes(s.active, place)
            && Probes(t.queued, place) <= Probes(s.queued, place) + more
            && (!e.Enqueue? && !e.Resume? ==>
                  Probes(t.active, place) + Probes(t.queued, place)
                  <= Probes(s.active, place) + Probes(s.queued, place))
  {
    match e
    case Enqueue(item, _) => OneMore(s.queued, item, place);
    case Leave(id) => ProbesAfterRemove(s.active, id, place);
    case Requeue(id, retryAt) =>
      if Find(s.active, id).Some? {
        var item := Find(s.active, id).value;
        OneMore(WithoutKey(s.queued, item.key), item.(status := "queued", retryAt := retryAt), place);
        ProbesWithoutKey(s.queued, item.key, place);
        ProbesAfterRemove(s.active, id, place);
        if IsProbe(item, place) { ProbesAfterTake(s.active, id, place); }
      }
    case Resume(id) =>
      if Find(s.queued, id).Some? {
        OneMore(Remove(s.queued, id), Find(s.queued, id).value.(flagged := true, status := "queued"), place);
        ProbesAfterRemove(s.queued, id, place);
      }
  }

  /** Main result: whatever happens to the queue and the gates, the probes that run on a platform at once are at
      most one more than those that were put into the queue already flagged. */
  lemma {:induction false} ProbesBounded(s: State, events: seq<Event>, place: Place, flagged: nat)
    requires Probes(s.queued, place) <= flagged && Probes(s.active, place) + Probes(s.queued, place) <= 1 + flagged
    ensures Probes(Run(s, events).active, place) <= 1 + flagged + FlagsIn(s, events, place)
    decreases |events|
  {
    if events != [] {
      var more := if Flags(s, events[0], place) then 1 else 0;
      if events[0].Lease? { LeaseStep(s, events[0].world, place); } else { OtherStep(s, events[0], place); }
      ProbesBounded(Step(s, events[0]), events[1..], place, flagged + more);
    }
  }

  /** So from a queue without flagged tasks, as long as none is flagged on its way in, at most one probe runs
      per platform. */
  lemma OneProbePerPlatform(s: State, events: seq<Event>, place: Place)
    requires Probes(s.queued, place) == 0 && Probes(s.active, place) <= 1 && FlagsIn(s, events, place) == 0
    ensures Probes(Run(s, events).active, place) <= 1
  {
    ProbesBounded(s, events, place, 0);
  }

  /** A lease that runs a task flagged before, beside an active probe of its platform. */
  predicate Doubles(s: State, e: Event, place: Place) {
    && e.Lease? && Probes(s.active, place) >= 1
    && match FirstFit(e.world, s.active, s.queued)
       case None => false
       case Some(i) => i < |s.queued| && IsProbe(s.queued[i], place)
  }

  /** A lease keeps to one probe exactly unless the first task that runs is a probe already and another one is
      active: promotion alone never makes it two. */
  lemma LeaseDoublesExactlyWhen(s: State, w: World, place: Place)
    requires Probes(s.active, place) <= 1
    ensures Probes(Step(s, Lease(w)).active, place) <= 1 <==> !Doubles(s, Lease(w), place)
  {
    FirstFitFacts(w, s.active, s.queued);
    var fit := FirstFit(w, s.active, s.queued);
    if fit.Some? {
      OneMore(s.active, Leased(w, s.queued[fit.value]), place);
      NoProbes(s.active, place);
    }
  }

  /** At no moment of the run are two probes of the platform active. */
  predicate OneProbeAllAlong(s: State, events: seq<Event>, place: Place)
    decreases |events|
  {
    Probes(s.active, place) <= 1 && (events != [] ==> OneProbeAllAlong(Step(s, events[0]), events[1..], place))
  }

  predicate NoLeaseDoubles(s: State, events: seq<Event>, place: Place)
    decreases |events|
  {
    events != [] ==> !Doubles(s, events[0], place) && NoLeaseDoubles(Step(s, events[0]), events[1..], place)
  }

  /** Main result: a run never has two active probes of a platform exactly when none of its leases finds a probe
      first in line while one is active. */
  lemma {:induction false} OneProbeExactlyWhen(s: State, events: seq<Event>, place: Place)
    requires Probes(s.active, place) <= 1
    ensures OneProbeAllAlong(s, events, place) <==> NoLeaseDoubles(s, events, place)
    decreases |events|
  {
    if events != [] {
      var t := Step(s, events[0]);
      if events[0].Lease? { LeaseDoublesExactlyWhen(s, events[0].world, place); }
      else { OtherStep(s, events[0], place); }
      if Probes(t.active, place) <= 1 { OneProbeExactlyWhen(t, events[1..], place); }
    }
  }

  // ---------------------------------------------------------------------------------------------
  // The lease of the source: pick, take out of the queue, run

  class TaskQueue {
    var active: seq<Item>
    var queued: seq<Item>

    ghost function Contents(): State
      reads this
    {
      State(active, queued)
    }

    method LeaseNext(w: World) returns (task: Option<Item>)
      modifies this
      ensures Contents() == Step(old(Contents()), Lease(w))
      ensures task == None <==> forall j | 0 <= j < |old(queued)| :: !Runs(w, old(active), old(queued)[j])
      ensures task.Some? ==> active == old(active) + [task.value] && task.value.status == "running"
    {
      var picked := NextExecutable(w, active, queued);
      FirstFitFacts(w, active, queued);
      if picked == None { return None; }
      var (i, item) := picked.value;
      var leased := item.(status := "running", retryAt := 0);
      active, queued := active + [leased], queued[..i] + queued[i + 1..];
      task := Some(leased);
    }
  }

  // ---------------------------------------------------------------------------------------------
  // Two probes of one platform

  const CLOSED := World(0, {}, i => Gate(false, false))

  function Waiting(id: string, flagged: bool): Item {
    Item(id, id, On(Cn), "queued", 0, false, true, flagged)
  }

  function Running(id: string): Item {
    Waiting(id, true).(status := "running")
  }

  lemma Next(s: State, e: Event, rest: seq<Event>)
    ensures Run(s, [e] + rest) == Run(Step(s, e), rest)
  {
    assert ([e] + rest)[1..] == rest;
  }

  lemma ResumedRuns(active: seq<Item>, id: string, rest: seq<Item>)
    requires Find(rest, id) == None
    ensures Run(State(active, [Waiting(id, false)] + rest), [Resume(id)] + [Lease(CLOSED)]) ==
        State(active + [Running(id)], rest)
  {
    var queued := [Waiting(id, false)] + rest;
    assert queued[1..] == rest;
    NothingToRemove(rest, id);
    assert Find(queued, id) == Some(Waiting(id, false)) && Remove(queued, id) == [] + rest == rest;
    Next(State(active, queued), Resume(id), [Lease(CLOSED)]);
    var flagged := [Waiting(id, true)] + rest;
    assert Step(State(active, queued), Resume(id)) == State(active, flagged);
    assert FirstFit(CLOSED, active, flagged) == Some(0) && flagged[..0] + flagged[1..] == rest;
    assert [Lease(CLOSED)] + [] == [Lease(CLOSED)];
    Next(State(active, flagged), Lease(CLOSED), []);
  }

  lemma {:induction false} NothingToRemove(items: seq<Item>, id: string)
    requires Find(items, id) == None
    ensures Remove(items, id) == items
    decreases |items|
  {
    if items != [] { NothingToRemove(items[1..], id); }
  }

  /** The condition above does fail: a recovery flags one waiting task and it is leased; a second recovery flags
      another while the first still runs, and it is leased beside it, though the gate stays closed. */
  lemma {:induction false} ResumedProbesRunTogether(s: State)
    requires s == State([], [Waiting("a", false)] + [Waiting("b", false)])
    ensures var t := Run(s, [Resume("a")] + [Lease(CLOSED)]);
            var u := Run(t, [Resume("b")] + [Lease(CLOSED)]);
            Probes(t.active, On(Cn)) == 1 && Probes(u.active, On(Cn)) == 2
    ensures forall item :: CLOSED.gate(item) == Gate(false, false)
  {
    assert [Waiting("b", false)][1..] == [];
    ResumedRuns([], "a", [Waiting("b", false)]);
    assert [] + [Running("a")] == [Running("a")] && [Waiting("b", false)] + [] == [Waiting("b", false)];
    ResumedRuns([Running("a")], "b", []);
    OneMore([], Running("a"), On(Cn));
    OneMore([Running("a")], Running("b"), On(Cn));
  }

  // ---------------------------------------------------------------------------------------------
  // Which gates are in doubt

  /** How a stored snapshot looks to a task of its platform; an expired daily limit counts as open. */
  function SeenGate(s: ThreeMfGate.Snapshot, limitHolds: bool): Gate {
    match s.gate
    case Open => Gate(true, false)
    case Unknown => Gate(s.gateReason == ThreeMfGate.CookieUpdated, true)
    case DailyLimit => Gate(!limitHolds, false)
    case _ => Gate(false, false)
  }

  /** A gate is seen open when it is, when it is in doubt after a change of login, and when its daily limit is over. */
  lemma SeenGateSays(s: ThreeMfGate.Snapshot, limitHolds: bool)
    ensures SeenGate(s, limitHolds).open <==>
            || s.gate == ThreeMfGate.Open
            || (s.gate == ThreeMfGate.Unknown && s.gateReason == ThreeMfGate.CookieUpdated)
            || (s.gate == ThreeMfGate.DailyLimit && !limitHolds)
    ensures SeenGate(s, limitHolds).unknown <==> s.gate == ThreeMfGate.Unknown
  {}

  /** Main result: whatever the writers of the gate have done to a platform's snapshot, no task is held by it and
      free to be promoted at once: they store an unknown gate only after a change of login, and that is open. So
      promotion answers only to a gate stored by something else. */
  lemma WrittenGatesPromoteNothing(writes: seq<ThreeMfGate.Write>, limitHolds: bool, w: World, active: seq<Item>,
                                   item: Item)
    requires forall write | write in writes :: ThreeMfGate.NamesGate(write)
    requires w.gate(item) == SeenGate(ThreeMfGate.Written(ThreeMfGate.EMPTY, writes), limitHolds)
    ensures HeldByGate(w, item) ==> !MayProbe(w, active, item)
    ensures Runs(w, active, item) ==> Promoted(w, item) == item
  {
    ThreeMfGate.UnknownAfterLogin(ThreeMfGate.EMPTY, writes);
  }
}
