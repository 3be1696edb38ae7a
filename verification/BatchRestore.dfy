/** The two passes that bring batch parents back: those that fell back into the queue, and those that are gone
    while their children are still there (app/services/archive_worker.py). */
module BatchRestore {
  import opened Wrappers
  import opened BatchItems
  import opened BatchQueue

  // ---------------------------------------------------------------------------------------------
  // Parents that wait in the queue

  function Parked(t: Task): Task { t.(status := WaitingChildren) }

  predicate IsTracker(t: Task) {
    IsBatch(t.mode) && t.expected != []
  }

  predicate Returns(active: seq<Task>, t: Task) {
    !HasId(active, t.id) && IsTracker(t)
  }

  /** Active and queued items after the pass. */
  function RestoredFrom(active: seq<Task>, queued: seq<Task>): (seq<Task>, seq<Task>)
    decreases |queued|
  {
    if queued == [] then (active, [])
    else if Returns(active, queued[0]) then RestoredFrom(active + [Parked(queued[0])], queued[1..])
    else
      var (a, kept) := RestoredFrom(active, queued[1..]);
      (a, [queued[0]] + kept)
  }

  function RestoreQueued(q: Queue): Queue {
    var (active, queued) := RestoredFrom(q.active, q.queued);
    Queue(active, queued, q.failed)
  }

  /** The pass moves tasks and marks them: it neither loses, adds nor doubles any id. */
  lemma {:induction false} RestoreQueuedIds(active: seq<Task>, queued: seq<Task>, id: Id)
    ensures var after := RestoredFrom(active, queued);
            Ids(after.0)[id] + Ids(after.1)[id] == Ids(active)[id] + Ids(queued)[id]
    decreases |queued|
  {
    if queued != [] {
      var t, rest := queued[0], queued[1..];
      assert Ids(queued)[id] == Ids(rest)[id] + (if t.id == id then 1 else 0);
      if Returns(active, t) {
        RestoreQueuedIds(active + [Parked(t)], rest, id);
        IdsSplit(active, Parked(t));
      } else {
        RestoreQueuedIds(active, rest, id);
        var after := RestoredFrom(active, rest);
        assert RestoredFrom(active, queued) == (after.0, [t] + after.1);
        IdsCons(t, after.1);
      }
    }
  }

  ghost predicate WasParked(queued: seq<Task>, u: Task) {
    exists t :: t in queued && t.expected != [] && u == Parked(t)
  }

  lemma {:induction false} RestoreQueuedMoves(active: seq<Task>, queued: seq<Task>)
    ensures var (a, kept) := RestoredFrom(active, queued);
            && (forall t | t in active :: t in a)
            && (forall u | u in a :: u in active || WasParked(queued, u))
            && (forall t | t in kept :: t in queued)
    decreases |queued|
  {
    if queued != [] {
      var t := queued[0];
      assert queued == [t] + queued[1..];
      var (a, kept) := RestoredFrom(active, queued);
      if Returns(active, t) {
        RestoreQueuedMoves(active + [Parked(t)], queued[1..]);
        assert WasParked(queued, Parked(t));
      } else {
        RestoreQueuedMoves(active, queued[1..]);
      }
      assert forall u | WasParked(queued[1..], u) :: WasParked(queued, u);
    }
  }

  lemma {:induction false} RestoreQueuedKeeps(active: seq<Task>, queued: seq<Task>)
    ensures var (a, kept) := RestoredFrom(active, queued);
            forall t | t in queued :: t in kept || (t.expected != [] && Parked(t) in a)
    decreases |queued|
  {
    if queued != [] {
      var t := queued[0];
      assert queued == [t] + queued[1..];
      if Returns(active, t) {
        RestoreQueuedKeeps(active + [Parked(t)], queued[1..]);
        RestoreQueuedMoves(active + [Parked(t)], queued[1..]);
        assert Parked(t) in active + [Parked(t)];
      } else {
        RestoreQueuedKeeps(active, queued[1..]);
      }
    }
  }

  /** What stays in the queue is no batch parent, or its id runs already. */
  lemma {:induction false} NoTrackerStays(active: seq<Task>, queued: seq<Task>)
    ensures var (a, kept) := RestoredFrom(active, queued); forall t | t in kept && IsTracker(t) :: HasId(a, t.id)
    decreases |queued|
  {
    if queued != [] {
      var t := queued[0];
      if Returns(active, t) {
        NoTrackerStays(active + [Parked(t)], queued[1..]);
      } else {
        NoTrackerStays(active, queued[1..]);
        RestoreQueuedMoves(active, queued[1..]);
      }
    }
  }

  lemma {:induction false} NothingToRestore(active: seq<Task>, queued: seq<Task>)
    requires forall t | t in queued :: !IsTracker(t)
    ensures RestoredFrom(active, queued) == (active, queued)
    decreases |queued|
  {
    if queued != [] {
      assert queued == [queued[0]] + queued[1..];
      assert !IsTracker(queued[0]);
      NothingToRestore(active, queued[1..]);
    }
  }

  // ---------------------------------------------------------------------------------------------
  // Parents that are gone

  datatype Child = Child(task: Task, section: Status)

  /** What the orphans of one missing parent tell about it. */
  datatype Group = Group(parentId: Id, url: Url, children: seq<Expected>)

  predicate IsOrphan(live: seq<Task>, t: Task) {
    t.parentId != "" && !HasId(live, t.parentId) && t.sourceUrl != ""
  }

  function Orphans(live: seq<Task>, tasks: seq<Task>, section: Status): seq<Child>
    decreases |tasks|
  {
    if tasks == [] then []
    else
      var last := tasks[|tasks| - 1];
      Orphans(live, tasks[..|tasks| - 1], section) + (if IsOrphan(live, last) then [Child(last, section)] else [])
  }

  function AllOrphans(q: Queue): seq<Child> {
    Orphans(Live(q), q.active, Running) + Orphans(Live(q), q.queued, Queued) + Orphans(Live(q), q.failed, Failed)
  }

  /** The item a child stands for: none without a page or a task key. */
  function ItemsOf(c: Child): seq<Expected> {
    var t := c.task;
    if t.url == "" || t.key == "" then []
    else [Expected(t.key, if t.batchAttempts < 1 then 1 else t.batchAttempts, c.section, Clip(t.message))]
  }

  function AddTo(groups: seq<Group>, c: Child): seq<Group> {
    if groups == [] then [Group(c.task.parentId, c.task.sourceUrl, ItemsOf(c))]
    else if groups[0].parentId == c.task.parentId
    then [groups[0].(children := groups[0].children + ItemsOf(c))] + groups[1..]
    else [groups[0]] + AddTo(groups[1..], c)
  }

  function Grouped(orphans: seq<Child>): seq<Group>
    decreases |orphans|
  {
    if orphans == [] then [] else AddTo(Grouped(orphans[..|orphans| - 1]), orphans[|orphans| - 1])
  }

  predicate IsAlive(g: Group) {
    exists e :: e in g.children && (e.status == Running || e.status == Queued)
  }

  function Rebuilt(detect: Url -> Mode, g: Group): Task {
    Task(g.parentId, g.url, SourceOf(detect, g.url).mode, Running, g.children, "", "", "", 0, 0, "")
  }

  function RebuiltParents(detect: Url -> Mode, groups: seq<Group>): seq<Task> {
    if groups == [] then []
    else (if IsAlive(groups[0]) then [Rebuilt(detect, groups[0])] else []) + RebuiltParents(detect, groups[1..])
  }

  function RestoreOrphaned(detect: Url -> Mode, q: Queue): Queue {
    var parents := RebuiltParents(detect, Grouped(AllOrphans(q)));
    if parents == [] then q
    else Queue(parents + q.active, q.queued, Without(parents, q.failed))
  }

  function Without(parents: seq<Task>, failed: seq<Task>): seq<Task>
    decreases |failed|
  {
    if failed == [] then []
    else
      var last := failed[|failed| - 1];
      Without(parents, failed[..|failed| - 1]) + (if HasId(parents, last.id) then [] else [last])
  }

  // What the groups hold

  ghost predicate Distinct(groups: seq<Group>) {
    forall i, j | 0 <= i < j < |groups| :: groups[i].parentId != groups[j].parentId
  }

  /** A group's page comes from one of its orphans, and its items have keys. */
  ghost predicate Grounded(orphans: seq<Child>, g: Group) {
    && (exists o :: o in orphans && o.task.parentId == g.parentId && o.task.sourceUrl == g.url)
    && forall e | e in g.children :: e.key != ""
  }

  ghost predicate Holds(groups: seq<Group>, c: Child) {
    exists g :: g in groups && g.parentId == c.task.parentId && forall e | e in ItemsOf(c) :: e in g.children
  }

  lemma {:induction false} AddToKeeps(orphans: seq<Child>, groups: seq<Group>, c: Child)
    requires Distinct(groups) && forall g | g in groups :: Grounded(orphans, g)
    requires c in orphans
    ensures Distinct(AddTo(groups, c))
    ensures forall g | g in AddTo(groups, c) :: Grounded(orphans, g)
    ensures forall g | g in AddTo(groups, c) ::
              g.parentId == c.task.parentId || exists h :: h in groups && h.parentId == g.parentId
    decreases |groups|
  {
    if groups == [] {
    } else if groups[0].parentId == c.task.parentId {
      var first := groups[0].(children := groups[0].children + ItemsOf(c));
      assert Grounded(orphans, groups[0]);
      assert Grounded(orphans, first);
      assert groups[0] in groups;
    } else {
      AddToKeeps(orphans, groups[1..], c);
      var rest := AddTo(groups[1..], c);
      forall j | 0 <= j < |rest| ensures groups[0].parentId != rest[j].parentId {
        assert rest[j] in rest;
      }
      assert groups[0] in groups;
    }
  }

  lemma {:induction false} AddToHolds(groups: seq<Group>, c: Child, other: Child)
    ensures Holds(AddTo(groups, c), c)
    ensures Holds(groups, other) ==> Holds(AddTo(groups, c), other)
    decreases |groups|
  {
    var after := AddTo(groups, c);
    if groups == [] {
      assert after[0] in after;
    } else if groups[0].parentId == c.task.parentId {
      assert after[0] in after;
      assert groups == [groups[0]] + groups[1..];
      if Holds(groups, other) {
        var g :| g in groups && g.parentId == other.task.parentId && forall e | e in ItemsOf(other) :: e in g.children;
        if g == groups[0] { assert after[0] in after; } else { assert g in after; }
      }
    } else {
      AddToHolds(groups[1..], c, other);
      assert groups == [groups[0]] + groups[1..];
      var g :| g in after[1..] && g.parentId == c.task.parentId && forall e | e in ItemsOf(c) :: e in g.children;
      assert g in after;
      if Holds(groups, other) {
        assert Holds(after[1..], other) || groups[0] in after;
      }
    }
  }

  lemma {:induction false} GroupedFacts(orphans: seq<Child>)
    ensures Distinct(Grouped(orphans))
    ensures forall g | g in Grouped(orphans) :: Grounded(orphans, g)
    decreases |orphans|
  {
    if orphans != [] {
      var init, last := orphans[..|orphans| - 1], orphans[|orphans| - 1];
      GroupedFacts(init);
      assert forall o | o in init :: o in orphans;
      forall g | g in Grouped(init) ensures Grounded(orphans, g) {
        assert Grounded(init, g);
      }
      AddToKeeps(orphans, Grouped(init), last);
    }
  }

  predicate AllFailed(g: Group) {
    forall e | e in g.children :: e.status == Failed
  }

  /** Failed children alone bring no parent back. */
  lemma {:induction false} OnlyFailedChildren(orphans: seq<Child>)
    requires forall o | o in orphans :: o.section == Failed
    ensures forall g | g in Grouped(orphans) :: AllFailed(g)
    decreases |orphans|
  {
    if orphans != [] {
      var init, last := orphans[..|orphans| - 1], orphans[|orphans| - 1];
      assert last in orphans && forall o | o in init :: o in orphans;
      OnlyFailedChildren(init);
      AddToStaysFailed(Grouped(init), last);
    }
  }

  lemma {:induction false} AddToStaysFailed(groups: seq<Group>, c: Child)
    requires c.section == Failed && forall g | g in groups :: AllFailed(g)
    ensures forall g | g in AddTo(groups, c) :: AllFailed(g)
    decreases |groups|
  {
    if groups != [] {
      assert groups[0] in groups && AllFailed(groups[0]);
      if groups[0].parentId == c.task.parentId {
        assert AllFailed(groups[0].(children := groups[0].children + ItemsOf(c)));
      } else {
        AddToStaysFailed(groups[1..], c);
      }
    }
  }

  lemma {:induction false} NothingRebuilt(detect: Url -> Mode, groups: seq<Group>)
    requires forall g | g in groups :: AllFailed(g)
    ensures RebuiltParents(detect, groups) == []
    decreases |groups|
  {
    if groups != [] {
      assert AllFailed(groups[0]);
      NothingRebuilt(detect, groups[1..]);
    }
  }

  ghost predicate ChildOf(orphans: seq<Child>, id: Id, e: Expected) {
    exists o :: o in orphans && o.task.parentId == id && e in ItemsOf(o)
  }

  /** Every item of a group stands for one of the orphans of its id. */
  lemma {:induction false} ItemsCome(orphans: seq<Child>, g: Group, e: Expected)
    requires g in Grouped(orphans) && e in g.children
    ensures ChildOf(orphans, g.parentId, e)
    decreases |orphans|
  {
    var init, last := orphans[..|orphans| - 1], orphans[|orphans| - 1];
    assert orphans == init + [last];
    var h := AddToItems(Grouped(init), last, g, e);
    if h.Some? { ItemsCome(init, h.value, e); }
  }

  lemma {:induction false} AddToItems(groups: seq<Group>, c: Child, g: Group, e: Expected) returns (h: Option<Group>)
    requires g in AddTo(groups, c) && e in g.children
    ensures h.Some? ==> h.value in groups && h.value.parentId == g.parentId && e in h.value.children
    ensures h.None? ==> g.parentId == c.task.parentId && e in ItemsOf(c)
    decreases |groups|
  {
    if g in groups {
      h := Some(g);
    } else if groups == [] || groups[0].parentId == c.task.parentId {
      h := if groups != [] && e in groups[0].children then Some(groups[0]) else None;
    } else {
      h := AddToItems(groups[1..], c, g, e);
    }
  }

  lemma {:induction false} OrphanIsHeld(orphans: seq<Child>, o: Child)
    requires o in orphans
    ensures Holds(Grouped(orphans), o)
    decreases |orphans|
  {
    var init, last := orphans[..|orphans| - 1], orphans[|orphans| - 1];
    assert orphans == init + [last];
    if o in init { OrphanIsHeld(init, o); }
    AddToHolds(Grouped(init), last, o);
  }

  lemma {:induction false} OrphansFacts(live: seq<Task>, tasks: seq<Task>, section: Status)
    ensures forall t | t in tasks && IsOrphan(live, t) :: Child(t, section) in Orphans(live, tasks, section)
    ensures forall c | c in Orphans(live, tasks, section) ::
              c.section == section && c.task in tasks && IsOrphan(live, c.task)
    decreases |tasks|
  {
    if tasks != [] {
      var init, last := tasks[..|tasks| - 1], tasks[|tasks| - 1];
      assert tasks == init + [last];
      OrphansFacts(live, init, section);
    }
  }

  lemma {:induction false} WithoutFacts(parents: seq<Task>, failed: seq<Task>)
    ensures forall t :: t in Without(parents, failed) <==> t in failed && !HasId(parents, t.id)
    ensures Ids(Without(parents, failed)) <= Ids(failed)
    decreases |failed|
  {
    if failed != [] {
      var init, last := failed[..|failed| - 1], failed[|failed| - 1];
      assert failed == init + [last];
      WithoutFacts(parents, init);
      IdsSplit(init, last);
      IdsSplit(Without(parents, init), last);
      if HasId(parents, last.id) { assert Without(parents, failed) == Without(parents, init); }
    }
  }

  ghost predicate IsRebuilt(detect: Url -> Mode, groups: seq<Group>, p: Task) {
    exists g :: g in groups && IsAlive(g) && p == Rebuilt(detect, g)
  }

  lemma {:induction false} RebuiltFacts(detect: Url -> Mode, groups: seq<Group>)
    ensures forall p | p in RebuiltParents(detect, groups) :: IsRebuilt(detect, groups, p)
    ensures forall g | g in groups && IsAlive(g) :: Rebuilt(detect, g) in RebuiltParents(detect, groups)
    decreases |groups|
  {
    if groups != [] {
      assert groups == [groups[0]] + groups[1..];
      RebuiltFacts(detect, groups[1..]);
      assert forall p | IsRebuilt(detect, groups[1..], p) :: IsRebuilt(detect, groups, p);
    }
  }

  lemma {:induction false} RebuiltUnique(detect: Url -> Mode, groups: seq<Group>)
    requires Distinct(groups)
    ensures UniqueIds(RebuiltParents(detect, groups))
    decreases |groups|
  {
    if groups != [] {
      RebuiltUnique(detect, groups[1..]);
      NotRebuilt(detect, groups);
      var first, rest := Rebuilt(detect, groups[0]), RebuiltParents(detect, groups[1..]);
      IdsCons(first, rest);
      assert Ids(rest)[first.id] == 0;
      assert [] + rest == rest;
    }
  }

  lemma NotRebuilt(detect: Url -> Mode, groups: seq<Group>)
    requires Distinct(groups) && groups != []
    ensures groups[0].parentId !in Ids(RebuiltParents(detect, groups[1..]))
  {
    var rest := RebuiltParents(detect, groups[1..]);
    IdsFacts(rest);
    RebuiltFacts(detect, groups[1..]);
    forall p | p in rest ensures p.id != groups[0].parentId {
      assert IsRebuilt(detect, groups[1..], p);
    }
  }
}
