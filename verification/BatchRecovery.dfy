/** What the three recovery passes that open every refresh achieve together: restore queued parents, restore
    orphaned parents, merge duplicate parents (app/services/archive_worker.py). */
module BatchRecovery {
  import opened Wrappers
  import opened BatchItems
  import opened BatchQueue
  import opened BatchRestore
  import opened BatchMerge

  function Recovered(detect: Url -> Mode, q: Queue): Queue {
    MergeDuplicates(detect, RestoreOrphaned(detect, RestoreQueued(q)))
  }

  // ---------------------------------------------------------------------------------------------
  // The queue as the worker leaves it

  /** A parent belongs to no page, and tracks keys. */
  ghost predicate ParentOk(t: Task) {
    t.id != "" && (t.expected != [] ==> t.sourceUrl == "" && forall e | e in t.expected :: e.key != "")
  }

  /** A child names parent and page together, and can be tracked. */
  predicate ChildOk(t: Task) {
    if t.parentId == "" then t.sourceUrl == "" else t.sourceUrl != "" && t.url != "" && t.key != ""
  }

  predicate SamePage(c: Task, d: Task) {
    c.parentId != "" && c.parentId == d.parentId && c.sourceUrl != "" && d.sourceUrl != "" ==>
        c.sourceUrl == d.sourceUrl
  }

  predicate IsChildOf(c: Task, p: Task) {
    c.parentId == p.id && c.sourceUrl != ""
  }

  /** The batch a parent tracks, if it tracks one, is the one its child was made for. */
  predicate Fits(detect: Url -> Mode, c: Task, p: Task) {
    IsChildOf(c, p) && ParentKey(detect, p).Some? ==> ParentKey(detect, p) == Some(SourceOf(detect, c.sourceUrl))
  }

  predicate Tracks(detect: Url -> Mode, p: Task, c: Task) {
    IsChildOf(c, p) ==> ParentKey(detect, p).Some?
  }

  ghost predicate WellFormed(detect: Url -> Mode, q: Queue) {
    && UniqueIds(All(q))
    && (forall t | t in All(q) :: ParentOk(t))
    && (forall c | c in Live(q) :: ChildOk(c))
    && (forall c, p | c in All(q) && p in All(q) :: Fits(detect, c, p))
    && (forall c, p | c in All(q) && p in Live(q) :: Tracks(detect, p, c))
    && (forall c, d | c in All(q) && d in All(q) :: SamePage(c, d))
  }

  ghost predicate HasParent(live: seq<Task>, c: Task) {
    c.parentId != "" ==> HasId(live, c.parentId)
  }

  // ---------------------------------------------------------------------------------------------
  // Restoring queued parents

  lemma ParkedOrigin(q: Queue, u: Task) returns (t: Task)
    requires u in All(RestoreQueued(q))
    ensures t in All(q) && (u == t || u == Parked(t))
  {
    RestoreQueuedMoves(q.active, q.queued);
    if u in q.queued || u in q.active || u in q.failed {
      t := u;
    } else {
      assert WasParked(q.queued, u);
      t :| t in q.queued && t.expected != [] && u == Parked(t);
    }
  }

  lemma LiveOrigin(q: Queue, u: Task) returns (t: Task)
    requires u in Live(RestoreQueued(q))
    ensures t in Live(q) && (u == t || u == Parked(t))
  {
    RestoreQueuedMoves(q.active, q.queued);
    if u in q.queued || u in q.active {
      t := u;
    } else {
      assert WasParked(q.queued, u);
      t :| t in q.queued && t.expected != [] && u == Parked(t);
    }
  }

  lemma RestoreQueuedWellFormed(detect: Url -> Mode, q: Queue)
    requires WellFormed(detect, q)
    ensures WellFormed(detect, RestoreQueued(q))
  {
    var r := RestoreQueued(q);
    forall id ensures Ids(All(r))[id] <= 1 {
      RestoreQueuedIds(q.active, q.queued, id);
      AllIds(q);
      AllIds(r);
      assert Ids(All(q))[id] <= 1;
    }
    forall u | u in All(r) ensures ParentOk(u) { var t := ParkedOrigin(q, u); }
    forall u | u in Live(r) ensures ChildOk(u) { var t := LiveOrigin(q, u); assert ChildOk(t); }
    forall u, v | u in All(r) && v in All(r) ensures Fits(detect, u, v) {
      var t := ParkedOrigin(q, u);
      var w := ParkedOrigin(q, v);
      assert Fits(detect, t, w);
    }
    forall u, v | u in All(r) && v in Live(r) ensures Tracks(detect, v, u) {
      var t := ParkedOrigin(q, u);
      var w := LiveOrigin(q, v);
      assert Tracks(detect, w, t);
    }
    forall u, v | u in All(r) && v in All(r) ensures SamePage(u, v) {
      var t := ParkedOrigin(q, u);
      var w := ParkedOrigin(q, v);
      assert SamePage(t, w);
    }
  }

  // ---------------------------------------------------------------------------------------------
  // Restoring orphaned parents

  function Parents(detect: Url -> Mode, q: Queue): seq<Task> {
    RebuiltParents(detect, Grouped(AllOrphans(q)))
  }

  /** Shape of the pass, whether or not anything is restored. */
  lemma RestoreOrphanedShape(detect: Url -> Mode, q: Queue)
    ensures RestoreOrphaned(detect, q) ==
        Queue(Parents(detect, q) + q.active, q.queued, Without(Parents(detect, q), q.failed))
  {
    if Parents(detect, q) == [] {
      assert [] + q.active == q.active;
      NothingWithout(q.failed);
    }
  }

  lemma {:induction false} NothingWithout(failed: seq<Task>)
    ensures Without([], failed) == failed
    decreases |failed|
  {
    if failed != [] {
      NothingWithout(failed[..|failed| - 1]);
      assert failed == failed[..|failed| - 1] + [failed[|failed| - 1]];
    }
  }

  lemma AllOrphansFacts(q: Queue, c: Child)
    requires c in AllOrphans(q)
    ensures c.task in All(q) && IsOrphan(Live(q), c.task)
  {
    OrphansFacts(Live(q), q.active, Running);
    OrphansFacts(Live(q), q.queued, Queued);
    OrphansFacts(Live(q), q.failed, Failed);
  }

  /** A restored parent stands for orphans of its id, and no live task had that id. */
  lemma ParentOrigin(detect: Url -> Mode, q: Queue, p: Task) returns (c: Task)
    requires p in Parents(detect, q)
    ensures c in All(q) && IsOrphan(Live(q), c) && c.parentId == p.id && c.sourceUrl == p.url
    ensures p.parentId == "" && p.sourceUrl == "" && ParentOk(p)
    ensures ParentKey(detect, p) == Some(SourceOf(detect, p.url))
  {
    var groups := Grouped(AllOrphans(q));
    GroupedFacts(AllOrphans(q));
    RebuiltFacts(detect, groups);
    assert IsRebuilt(detect, groups, p);
    var g :| g in groups && IsAlive(g) && p == Rebuilt(detect, g);
    assert Grounded(AllOrphans(q), g);
    var o :| o in AllOrphans(q) && o.task.parentId == g.parentId && o.task.sourceUrl == g.url;
    AllOrphansFacts(q, o);
    c := o.task;
  }

  /** Main result about this pass: a restored parent tracks exactly the keys of the orphans that name it. What
      a failed parent of the same id tracked beyond that is forgotten. */
  lemma RestoredTracksItsChildren(detect: Url -> Mode, q: Queue, p: Task, key: Key)
    requires p in Parents(detect, q)
    ensures KeyCount(p.expected, key) > 0 <==> HasOrphan(AllOrphans(q), p.id, key)
  {
    var groups := Grouped(AllOrphans(q));
    RebuiltFacts(detect, groups);
    assert IsRebuilt(detect, groups, p);
    var g :| g in groups && IsAlive(g) && p == Rebuilt(detect, g);
    GroupTracksItsOrphans(AllOrphans(q), g, key);
  }

  ghost predicate HasOrphan(orphans: seq<Child>, id: Id, key: Key) {
    exists o :: o in orphans && o.task.parentId == id && ItemsOf(o) != [] && o.task.key == key
  }

  lemma GroupTracksItsOrphans(orphans: seq<Child>, g: Group, key: Key)
    requires g in Grouped(orphans)
    ensures KeyCount(g.children, key) > 0 <==> HasOrphan(orphans, g.parentId, key)
  {
    NoneWithKey(g.children, key);
    if KeyCount(g.children, key) > 0 {
      var e :| e in g.children && e.key == key;
      ItemsCome(orphans, g, e);
    }
    if HasOrphan(orphans, g.parentId, key) {
      var o :| o in orphans && o.task.parentId == g.parentId && ItemsOf(o) != [] && o.task.key == key;
      OrphanIsIn(orphans, g, o);
      assert ItemsOf(o)[0].key == key;
    }
  }

  lemma OrphanIsIn(orphans: seq<Child>, g: Group, o: Child)
    requires g in Grouped(orphans) && o in orphans && o.task.parentId == g.parentId && ItemsOf(o) != []
    ensures ItemsOf(o)[0] in g.children
  {
    OrphanIsHeld(orphans, o);
    GroupedFacts(orphans);
    var h :| h in Grouped(orphans) && h.parentId == o.task.parentId && forall e | e in ItemsOf(o) :: e in h.children;
    SameIdSameGroup(Grouped(orphans), g, h);
  }

  lemma SameIdSameGroup(groups: seq<Group>, g: Group, h: Group)
    requires Distinct(groups) && g in groups && h in groups && g.parentId == h.parentId
    ensures g == h
  {
  }

  /** A live child with a page and a key gets its parent back. */
  lemma OrphanGetsParent(detect: Url -> Mode, q: Queue, c: Task)
    requires c in Live(q) && ChildOk(c) && c.parentId != "" && !HasId(Live(q), c.parentId)
    ensures HasId(Parents(detect, q), c.parentId)
  {
    var groups := Grouped(AllOrphans(q));
    OrphansFacts(Live(q), q.active, Running);
    OrphansFacts(Live(q), q.queued, Queued);
    assert IsOrphan(Live(q), c);
    var o := if c in q.active then Child(c, Running) else Child(c, Queued);
    assert o in AllOrphans(q);
    OrphanIsHeld(AllOrphans(q), o);
    var g :| g in groups && g.parentId == c.parentId && forall e | e in ItemsOf(o) :: e in g.children;
    assert ItemsOf(o)[0] in g.children;
    RebuiltFacts(detect, groups);
    assert Rebuilt(detect, g).id == c.parentId;
  }

  lemma RestoreOrphanedUnique(detect: Url -> Mode, q: Queue)
    requires UniqueIds(All(q))
    ensures UniqueIds(All(RestoreOrphaned(detect, q)))
  {
    var r, parents := RestoreOrphaned(detect, q), Parents(detect, q);
    RestoreOrphanedShape(detect, q);
    GroupedFacts(AllOrphans(q));
    RebuiltUnique(detect, Grouped(AllOrphans(q)));
    WithoutFacts(parents, q.failed);
    AllIds(q);
    AllIds(r);
    IdsConcat(parents, q.active);
    forall id ensures Ids(All(r))[id] <= 1 {
      assert Ids(All(q))[id] <= 1 && Ids(parents)[id] <= 1;
      if id in Ids(parents) { ParentIdIsNew(detect, q, id); }
    }
  }

  lemma ParentIdIsNew(detect: Url -> Mode, q: Queue, id: Id)
    requires id in Ids(Parents(detect, q))
    ensures id !in Ids(q.active) && id !in Ids(q.queued)
    ensures id !in Ids(Without(Parents(detect, q), q.failed))
  {
    var parents := Parents(detect, q);
    IdsFacts(parents);
    var p :| p in parents && p.id == id;
    var c := ParentOrigin(detect, q, p);
    WithoutFacts(parents, q.failed);
    IdsFacts(Without(parents, q.failed));
    IdsFacts(q.active);
    IdsFacts(q.queued);
    assert forall t | t in q.active || t in q.queued :: t in Live(q);
  }

  lemma RestoreOrphanedWellFormed(detect: Url -> Mode, q: Queue)
    requires WellFormed(detect, q)
    ensures WellFormed(detect, RestoreOrphaned(detect, q))
  {
    var r, parents := RestoreOrphaned(detect, q), Parents(detect, q);
    RestoreOrphanedShape(detect, q);
    RestoreOrphanedUnique(detect, q);
    WithoutFacts(parents, q.failed);
    forall u | u in All(r) ensures u in All(q) || u in parents {}
    forall u | u in Live(r) ensures u in Live(q) || u in parents {}
    forall u | u in All(r) ensures ParentOk(u) { if u in parents { var c := ParentOrigin(detect, q, u); } }
    forall u | u in Live(r) ensures ChildOk(u) { if u in parents { var c := ParentOrigin(detect, q, u); } }
    forall u, v | u in All(r) && v in All(r) ensures Fits(detect, u, v) {
      if u in parents {
        var c := ParentOrigin(detect, q, u);
      } else if v in parents {
        var c := ParentOrigin(detect, q, v);
        assert SamePage(u, c);
      } else {
        assert Fits(detect, u, v);
      }
    }
    forall u, v | u in All(r) && v in Live(r) ensures Tracks(detect, v, u) {
      if u in parents {
        var c := ParentOrigin(detect, q, u);
      } else if v in parents {
        var c := ParentOrigin(detect, q, v);
      } else {
        assert Tracks(detect, v, u);
      }
    }
    forall u, v | u in All(r) && v in All(r) ensures SamePage(u, v) {
      if u in parents { var c := ParentOrigin(detect, q, u); }
      if v in parents { var c := ParentOrigin(detect, q, v); }
    }
  }

  lemma RestoreOrphanedCovers(detect: Url -> Mode, q: Queue)
    requires WellFormed(detect, q)
    ensures forall c | c in Live(RestoreOrphaned(detect, q)) :: HasParent(Live(RestoreOrphaned(detect, q)), c)
  {
    var r, parents := RestoreOrphaned(detect, q), Parents(detect, q);
    RestoreOrphanedShape(detect, q);
    forall c | c in Live(r) ensures HasParent(Live(r), c) {
      if c in parents {
        var o := ParentOrigin(detect, q, c);
      } else if c.parentId != "" {
        assert c in Live(q) && ChildOk(c);
        if !HasId(Live(q), c.parentId) {
          OrphanGetsParent(detect, q, c);
          var p :| p in parents && p.id == c.parentId;
          assert p in Live(r);
        } else {
          var p :| p in Live(q) && p.id == c.parentId;
          assert p in Live(r);
        }
      }
    }
  }

  // ---------------------------------------------------------------------------------------------
  // Merging duplicates

  lemma BecameFacts(detect: Url -> Mode, q: Queue, t: Task)
    requires ParentOk(t)
    ensures var u := Became(detect, q, t);
            && u == t.(parentId := u.parentId, expected := u.expected)
            && u.parentId == Rewritten(detect, All(q), t).parentId
            && ParentKey(detect, u) == ParentKey(detect, t)
            && (t.expected == [] ==> u.expected == [])
  {
    var v := Rewritten(detect, All(q), t);
    var s := ParentKey(detect, v);
    if s.Some? {
      var key := t.expected[0].key;
      WithItemsKeeps(v, Additions(detect, q, s.value), key);
    }
  }

  /** The parent that is kept for a batch stays in its section, with its id. */
  lemma KeptStays(detect: Url -> Mode, q: Queue, tasks: seq<Task>, p: Task)
    requires UniqueIds(All(q)) && p in tasks && ParentOk(p)
    requires ParentKey(detect, p).Some? && First(detect, All(q), ParentKey(detect, p).value) == Some(p)
    ensures Became(detect, q, p) in MergedSection(detect, q, tasks)
    ensures Became(detect, q, p).id == p.id && ParentKey(detect, Became(detect, q, p)) == ParentKey(detect, p)
  {
    FirstIsKept(detect, All(q), ParentKey(detect, p).value);
    SectionFacts(detect, q, tasks);
    BecameFacts(detect, q, p);
  }

  lemma MergedUnique(detect: Url -> Mode, q: Queue)
    requires UniqueIds(All(q))
    ensures UniqueIds(All(MergeDuplicates(detect, q)))
  {
    var r := MergeDuplicates(detect, q);
    if Duplicates(detect, All(q)) != [] {
      AllIds(q);
      AllIds(r);
      forall id ensures Ids(All(r))[id] <= 1 {
        SectionIds(detect, q, q.active, id);
        SectionIds(detect, q, q.queued, id);
        SectionIds(detect, q, q.failed, id);
        assert Ids(All(q))[id] <= 1;
      }
    }
  }

  /** The parent a batch keeps is alive if any parent of it is. */
  lemma KeptIsLive(detect: Url -> Mode, q: Queue, p: Task)
    requires p in Live(q) && ParentKey(detect, p).Some?
    ensures First(detect, All(q), ParentKey(detect, p).value).Some?
    ensures First(detect, All(q), ParentKey(detect, p).value).value in Live(q)
  {
    var s := ParentKey(detect, p).value;
    FirstFacts(detect, Live(q), s);
    FirstOfPrefix(detect, Live(q), q.failed, s);
    AllIds(q);
  }

  ghost predicate HasFittingParent(detect: Url -> Mode, live: seq<Task>, c: Task) {
    c.parentId != "" ==>
      exists p :: p in live && p.id == c.parentId && ParentKey(detect, p) == Some(SourceOf(detect, c.sourceUrl))
  }

  lemma SurvivorOf(detect: Url -> Mode, q: Queue, u: Task) returns (t: Task)
    requires Duplicates(detect, All(q)) != [] && u in Live(MergeDuplicates(detect, q))
    ensures t in Live(q) && !HasId(Duplicates(detect, All(q)), t.id) && u == Became(detect, q, t)
  {
    SectionFacts(detect, q, q.active);
    SectionFacts(detect, q, q.queued);
    if u in MergedSection(detect, q, q.active) {
      assert CameFrom(detect, q, q.active, u);
      t :| t in q.active && !HasId(Duplicates(detect, All(q)), t.id) && u == Became(detect, q, t);
    } else {
      assert CameFrom(detect, q, q.queued, u);
      t :| t in q.queued && !HasId(Duplicates(detect, All(q)), t.id) && u == Became(detect, q, t);
    }
  }

  lemma AnySurvivorOf(detect: Url -> Mode, q: Queue, u: Task) returns (t: Task)
    requires Duplicates(detect, All(q)) != [] && u in All(MergeDuplicates(detect, q))
    ensures t in All(q) && !HasId(Duplicates(detect, All(q)), t.id) && u == Became(detect, q, t)
  {
    if u in Live(MergeDuplicates(detect, q)) {
      t := SurvivorOf(detect, q, u);
    } else {
      SectionFacts(detect, q, q.failed);
      assert CameFrom(detect, q, q.failed, u);
      t :| t in q.failed && !HasId(Duplicates(detect, All(q)), t.id) && u == Became(detect, q, t);
    }
  }

  lemma MergedFits(detect: Url -> Mode, q: Queue, u: Task)
    requires WellFormed(detect, q) && (forall c | c in Live(q) :: HasParent(Live(q), c))
    requires u in Live(MergeDuplicates(detect, q))
    ensures HasFittingParent(detect, Live(MergeDuplicates(detect, q)), u)
  {
    var r := MergeDuplicates(detect, q);
    if Duplicates(detect, All(q)) == [] {
      assert HasParent(Live(q), u);
      if u.parentId != "" {
        var p :| p in Live(q) && p.id == u.parentId;
        assert ChildOk(u) && Fits(detect, u, p) && Tracks(detect, p, u);
      }
    } else if u.parentId != "" {
      var c := SurvivorOf(detect, q, u);
      BecameFacts(detect, q, c);
      ChildKeepsBatch(detect, q, c);
      var s := SourceOf(detect, c.sourceUrl);
      var kept := First(detect, All(q), s).value;
      FirstFacts(detect, All(q), s);
      assert ParentOk(kept);
      if kept in q.active { KeptStays(detect, q, q.active, kept); } else { KeptStays(detect, q, q.queued, kept); }
      assert Became(detect, q, kept) in Live(r);
    }
  }

  /** A live child ends with the kept parent of its batch, which is alive. */
  lemma ChildKeepsBatch(detect: Url -> Mode, q: Queue, c: Task)
    requires WellFormed(detect, q) && (forall d | d in Live(q) :: HasParent(Live(q), d))
    requires c in Live(q) && Rewritten(detect, All(q), c).parentId != ""
    ensures First(detect, All(q), SourceOf(detect, c.sourceUrl)).Some?
    ensures var kept := First(detect, All(q), SourceOf(detect, c.sourceUrl)).value;
            kept in Live(q) && kept.id == Rewritten(detect, All(q), c).parentId
  {
    var s := SourceOf(detect, c.sourceUrl);
    FirstFacts(detect, All(q), s);
    if c.parentId != "" {
      assert HasParent(Live(q), c) && ChildOk(c);
      var p :| p in Live(q) && p.id == c.parentId;
      assert Fits(detect, c, p) && Tracks(detect, p, c);
      KeptIsLive(detect, q, p);
      assert ParentOk(First(detect, All(q), s).value);
    }
  }

  // ---------------------------------------------------------------------------------------------
  // Main results

  lemma BeforeMerge(detect: Url -> Mode, q: Queue)
    requires WellFormed(detect, q)
    ensures var r := RestoreOrphaned(detect, RestoreQueued(q));
            WellFormed(detect, r) && forall c | c in Live(r) :: HasParent(Live(r), c)
  {
    RestoreQueuedWellFormed(detect, q);
    RestoreOrphanedWellFormed(detect, RestoreQueued(q));
    RestoreOrphanedCovers(detect, RestoreQueued(q));
  }

  /** Main result: after the passes every active or queued child has an active or queued parent, and it is
      the parent of the batch the child was made for. */
  lemma {:induction false} EveryChildHasItsParent(detect: Url -> Mode, q: Queue)
    requires WellFormed(detect, q)
    ensures forall c | c in Live(Recovered(detect, q)) :: HasFittingParent(detect, Live(Recovered(detect, q)), c)
  {
    BeforeMerge(detect, q);
    forall c | c in Live(Recovered(detect, q)) ensures HasFittingParent(detect, Live(Recovered(detect, q)), c) {
      MergedFits(detect, RestoreOrphaned(detect, RestoreQueued(q)), c);
    }
  }

  /** Main result: ids stay unique, and no two parents, failed ones included, track the same batch. */
  lemma OneParentPerBatch(detect: Url -> Mode, q: Queue)
    requires WellFormed(detect, q)
    ensures UniqueIds(All(Recovered(detect, q)))
    ensures forall u, v | u in All(Recovered(detect, q)) && v in All(Recovered(detect, q))
                          && ParentKey(detect, u).Some? && ParentKey(detect, u) == ParentKey(detect, v) :: u == v
  {
    var r, m := RestoreOrphaned(detect, RestoreQueued(q)), Recovered(detect, q);
    BeforeMerge(detect, q);
    MergedUnique(detect, r);
    forall u, v | u in All(m) && v in All(m)
                  && ParentKey(detect, u).Some? && ParentKey(detect, u) == ParentKey(detect, v)
      ensures u == v
    {
      ParentIsFirst(detect, r, u);
      ParentIsFirst(detect, r, v);
    }
  }

  /** After the merge a parent is what became of the first one of its batch. */
  lemma ParentIsFirst(detect: Url -> Mode, q: Queue, u: Task)
    requires (forall t | t in All(q) :: ParentOk(t))
    requires u in All(MergeDuplicates(detect, q)) && ParentKey(detect, u).Some?
    ensures First(detect, All(q), ParentKey(detect, u).value).Some?
    ensures var kept := First(detect, All(q), ParentKey(detect, u).value).value;
            u == if Duplicates(detect, All(q)) == [] then kept else Became(detect, q, kept)
  {
    if Duplicates(detect, All(q)) == [] {
      OthersAreDuplicates(detect, All(q), u);
    } else {
      var t := AnySurvivorOf(detect, q, u);
      BecameFacts(detect, q, t);
      OthersAreDuplicates(detect, All(q), t);
    }
  }

  /** What a survivor owes a parent of its batch: the keys of a dropped one exactly once, its own at least once. */
  ghost predicate TakesOver(u: Task, p: Task) {
    forall key | key != "" && KeyCount(p.expected, key) > 0 ::
      if u.id == p.id then KeyCount(u.expected, key) > 0 else KeyCount(u.expected, key) == 1
  }

  /** Main result: every batch that had a parent before the merge has one after it, which tracks each key of
      every dropped duplicate exactly once and drops none of its own. */
  lemma DuplicatesAreTracked(detect: Url -> Mode, q: Queue, p: Task)
    requires WellFormed(detect, q)
    requires p in All(RestoreOrphaned(detect, RestoreQueued(q))) && ParentKey(detect, p).Some?
    ensures exists u :: u in All(Recovered(detect, q))
                        && ParentKey(detect, u) == ParentKey(detect, p) && TakesOver(u, p)
  {
    var r := RestoreOrphaned(detect, RestoreQueued(q));
    BeforeMerge(detect, q);
    OthersAreDuplicates(detect, All(r), p);
    if Duplicates(detect, All(r)) == [] {
      assert TakesOver(p, p);
    } else {
      var u := TrackedAfterMerge(detect, r, p);
    }
  }

  lemma TrackedAfterMerge(detect: Url -> Mode, q: Queue, p: Task) returns (u: Task)
    requires WellFormed(detect, q) && Duplicates(detect, All(q)) != []
    requires p in All(q) && ParentKey(detect, p).Some?
    ensures u in All(MergeDuplicates(detect, q)) && ParentKey(detect, u) == ParentKey(detect, p) && TakesOver(u, p)
  {
    var s := ParentKey(detect, p).value;
    FirstFacts(detect, All(q), s);
    OthersAreDuplicates(detect, All(q), p);
    var kept := First(detect, All(q), s).value;
    assert ParentOk(kept);
    if kept in q.active { KeptStays(detect, q, q.active, kept); }
    else if kept in q.queued { KeptStays(detect, q, q.queued, kept); }
    else { KeptStays(detect, q, q.failed, kept); }
    u := Became(detect, q, kept);
    forall key | key != "" && KeyCount(p.expected, key) > 0
      ensures if u.id == p.id then KeyCount(u.expected, key) > 0 else KeyCount(u.expected, key) == 1
    {
      if kept.id == p.id {
        SameIdSameTask(All(q), kept, p);
        WithItemsKeeps(kept, Additions(detect, q, s), key);
      } else {
        DuplicateItemsTracked(detect, All(q), p, key);
        AdditionsInclude(detect, q, s, key);
        WithItemsTracks(kept, Additions(detect, q, s), key);
      }
    }
  }

  /** The same task, except that a child may belong to another parent. */
  predicate SameTask(t: Task, u: Task) {
    u == t.(parentId := u.parentId)
  }

  predicate StaysIn(before: Queue, t: Task, after: Queue, u: Task) {
    && (t in before.active ==> u in after.active)
    && (t in before.queued ==> u in after.queued)
    && (t in before.failed ==> u in after.failed)
  }

  lemma MergeKeepsOthers(detect: Url -> Mode, q: Queue, tasks: seq<Task>, t: Task)
    requires WellFormed(detect, q) && t in tasks && t in All(q) && t.expected == []
    ensures Became(detect, q, t) in MergedSection(detect, q, tasks)
  {
    DuplicatesAmong(detect, All(q));
    if HasId(Duplicates(detect, All(q)), t.id) {
      var d :| d in Duplicates(detect, All(q)) && d.id == t.id;
      SameIdSameTask(All(q), d, t);
    }
    SectionFacts(detect, q, tasks);
  }

  /** A restored parent has a live child that names it. */
  lemma ParentHasLiveChild(detect: Url -> Mode, q: Queue, p: Task) returns (c: Task)
    requires p in Parents(detect, q)
    ensures c in Live(q) && c.parentId == p.id
  {
    var orphans := AllOrphans(q);
    RebuiltFacts(detect, Grouped(orphans));
    assert IsRebuilt(detect, Grouped(orphans), p);
    var g :| g in Grouped(orphans) && IsAlive(g) && p == Rebuilt(detect, g);
    var e :| e in g.children && (e.status == Running || e.status == Queued);
    ItemsCome(orphans, g, e);
    var o :| o in orphans && o.task.parentId == g.parentId && e in ItemsOf(o);
    OrphanSection(q, o);
    c := o.task;
  }

  lemma OrphanSection(q: Queue, o: Child)
    requires o in AllOrphans(q) && (o.section == Running || o.section == Queued)
    ensures o.task in Live(q)
  {
    OrphansFacts(Live(q), q.active, Running);
    OrphansFacts(Live(q), q.queued, Queued);
    OrphansFacts(Live(q), q.failed, Failed);
  }

  /** Whether an active or queued task names this one as its parent. */
  ghost predicate IsNamed(q: Queue, t: Task) {
    exists c :: c in Live(q) && c.parentId == t.id
  }

  lemma NamedAfterParking(q: Queue, t: Task)
    ensures IsNamed(RestoreQueued(q), t) <==> IsNamed(q, t)
  {
    var m := RestoreQueued(q);
    RestoreQueuedMoves(q.active, q.queued);
    RestoreQueuedKeeps(q.active, q.queued);
    if IsNamed(m, t) {
      var c :| c in Live(m) && c.parentId == t.id;
      var d := LiveOrigin(q, c);
    }
    if IsNamed(q, t) {
      var c :| c in Live(q) && c.parentId == t.id;
      assert c in Live(m) || Parked(c) in Live(m);
    }
  }

  /** The second pass restores a parent in a failed task's place exactly when a live task names it. */
  lemma RestoredInPlaceExactlyWhen(detect: Url -> Mode, q: Queue, t: Task)
    requires WellFormed(detect, q) && t in q.failed
    ensures HasId(Parents(detect, q), t.id) <==> IsNamed(q, t)
  {
    if HasId(Parents(detect, q), t.id) {
      var p :| p in Parents(detect, q) && p.id == t.id;
      var c := ParentHasLiveChild(detect, q, p);
    }
    if IsNamed(q, t) {
      var c :| c in Live(q) && c.parentId == t.id;
      AllIds(q);
      IdsFacts(Live(q));
      IdsFacts(q.failed);
      assert Ids(All(q))[t.id] <= 1;
      assert t in All(q) && ChildOk(c) && ParentOk(t);
      OrphanGetsParent(detect, q, c);
    }
  }

  /** A task that tracks nothing reaches the merge where it was, unless its parent was restored in its place. */
  lemma OthersReachMerge(detect: Url -> Mode, q: Queue, t: Task)
    requires WellFormed(detect, q) && t in All(q) && t.expected == []
    ensures var r := RestoreOrphaned(detect, RestoreQueued(q));
            && (t in q.active ==> t in r.active)
            && (t in q.queued ==> t in r.queued)
            && (t in q.failed ==> (t in r.failed <==> !IsNamed(q, t)))
            && (t in q.failed && IsNamed(q, t) ==> !HasId(r.failed, t.id))
  {
    RestoreQueuedMoves(q.active, q.queued);
    RestoreQueuedKeeps(q.active, q.queued);
    var m := RestoreQueued(q);
    RestoreOrphanedShape(detect, m);
    WithoutFacts(Parents(detect, m), m.failed);
    if t in q.failed {
      RestoreQueuedWellFormed(detect, q);
      RestoredInPlaceExactlyWhen(detect, m, t);
      NamedAfterParking(q, t);
    }
  }

  /** Main result: a task that tracks nothing keeps its section and everything but its parent, with one exact
      exception: a failed task that an active or queued one names as its parent gives way to the parent
      restored under its id. */
  lemma OthersSurvive(detect: Url -> Mode, q: Queue, t: Task)
    requires WellFormed(detect, q) && t in All(q) && t.expected == []
    ensures (exists u :: SameTask(t, u) && StaysIn(q, t, Recovered(detect, q), u)) <==>
        !(t in q.failed && IsNamed(q, t))
  {
    var r, after := RestoreOrphaned(detect, RestoreQueued(q)), Recovered(detect, q);
    BeforeMerge(detect, q);
    OthersReachMerge(detect, q, t);
    if t in q.failed && IsNamed(q, t) {
      forall u | u in after.failed ensures u.id != t.id { FailedStays(detect, r, u); }
    } else if Duplicates(detect, All(r)) == [] {
      assert SameTask(t, t) && StaysIn(q, t, after, t);
    } else {
      var u := Became(detect, r, t);
      assert t in All(r);
      BecameFacts(detect, r, t);
      if t in q.active { MergeKeepsOthers(detect, r, r.active, t); }
      if t in q.queued { MergeKeepsOthers(detect, r, r.queued, t); }
      if t in q.failed { MergeKeepsOthers(detect, r, r.failed, t); }
      assert SameTask(t, u) && StaysIn(q, t, after, u);
    }
  }

  /** The merge adds no id to the failed tasks. */
  lemma FailedStays(detect: Url -> Mode, q: Queue, u: Task)
    requires WellFormed(detect, q) && u in MergeDuplicates(detect, q).failed
    ensures HasId(q.failed, u.id)
  {
    if Duplicates(detect, All(q)) != [] {
      SectionFacts(detect, q, q.failed);
      assert CameFrom(detect, q, q.failed, u);
      var t :| t in q.failed && u == Became(detect, q, t);
      assert t in All(q);
      BecameFacts(detect, q, t);
    }
  }

  // ---------------------------------------------------------------------------------------------
  // What becomes of the items a parent tracked

  /** Some parent of the batch takes over what this one tracks. */
  ghost predicate IsTakenOver(detect: Url -> Mode, after: Queue, p: Task) {
    exists u :: u in All(after) && ParentKey(detect, u) == ParentKey(detect, p) && TakesOver(u, p)
  }

  /** A parent restored under this id, of the same batch, that tracks exactly the keys of the orphans naming it. */
  ghost predicate IsRestored(detect: Url -> Mode, q: Queue, p: Task, r: Task) {
    && r in Parents(detect, q) && r.id == p.id && ParentKey(detect, r) == ParentKey(detect, p)
    && forall key :: KeyCount(r.expected, key) > 0 <==> HasOrphan(AllOrphans(q), p.id, key)
  }

  lemma RestoredFor(detect: Url -> Mode, q: Queue, p: Task) returns (r: Task)
    requires WellFormed(detect, q) && p in q.failed && IsNamed(q, p) && ParentKey(detect, p).Some?
    ensures IsRestored(detect, q, p, r) && r in All(RestoreOrphaned(detect, q))
  {
    RestoredInPlaceExactlyWhen(detect, q, p);
    r :| r in Parents(detect, q) && r.id == p.id;
    forall key ensures KeyCount(r.expected, key) > 0 <==> HasOrphan(AllOrphans(q), p.id, key) {
      RestoredTracksItsChildren(detect, q, r, key);
    }
    var c := ParentOrigin(detect, q, r);
    assert Fits(detect, c, p);
    RestoreOrphanedShape(detect, q);
  }

  /** A parent that is not replaced by a restored one reaches the merge, at most parked. */
  lemma ParentReachesMerge(detect: Url -> Mode, q: Queue, p: Task) returns (t: Task)
    requires WellFormed(detect, q) && p in All(q) && !(p in q.failed && IsNamed(q, p))
    ensures t in All(RestoreOrphaned(detect, RestoreQueued(q))) && (t == p || t == Parked(p))
  {
    var m := RestoreQueued(q);
    RestoreQueuedMoves(q.active, q.queued);
    RestoreQueuedKeeps(q.active, q.queued);
    RestoreOrphanedShape(detect, m);
    WithoutFacts(Parents(detect, m), m.failed);
    if p in q.failed {
      RestoreQueuedWellFormed(detect, q);
      RestoredInPlaceExactlyWhen(detect, m, p);
      NamedAfterParking(q, p);
      t := p;
    } else {
      t := if p in Live(m) then p else Parked(p);
    }
  }

  /** Main result: what any batch parent of the queue tracked is tracked by its batch's one parent afterwards, each
      key of a dropped duplicate exactly once, with one exact exception: a failed parent that a live task names
      gives way to a restored one, which tracks just what its orphans say, and that is what is taken over. */
  lemma {:induction false} TrackedItemsAreAccountedFor(detect: Url -> Mode, q: Queue, p: Task)
    requires WellFormed(detect, q) && p in All(q) && ParentKey(detect, p).Some?
    ensures if p in q.failed && IsNamed(q, p)
            then exists r :: IsRestored(detect, RestoreQueued(q), p, r) && IsTakenOver(detect, Recovered(detect, q), r)
            else IsTakenOver(detect, Recovered(detect, q), p)
  {
    if p in q.failed && IsNamed(q, p) {
      RestoreQueuedWellFormed(detect, q);
      NamedAfterParking(q, p);
      var r := RestoredFor(detect, RestoreQueued(q), p);
      DuplicatesAreTracked(detect, q, r);
      assert IsTakenOver(detect, Recovered(detect, q), r);
    } else {
      var t := ParentReachesMerge(detect, q, p);
      DuplicatesAreTracked(detect, q, t);
      SameTracking(detect, Recovered(detect, q), p, t);
    }
  }

  lemma SameTracking(detect: Url -> Mode, after: Queue, p: Task, t: Task)
    requires (t == p || t == Parked(p)) && IsTakenOver(detect, after, t)
    ensures IsTakenOver(detect, after, p)
  {
    var u :| u in All(after) && ParentKey(detect, u) == ParentKey(detect, t) && TakesOver(u, t);
    assert TakesOver(u, p);
  }

  // ---------------------------------------------------------------------------------------------
  // Recovery keeps the queue well-formed

  lemma BecameParentOk(detect: Url -> Mode, q: Queue, t: Task)
    requires ParentOk(t)
    ensures ParentOk(Became(detect, q, t))
  {
    BecameFacts(detect, q, t);
    var v := Rewritten(detect, All(q), t);
    var s := ParentKey(detect, v);
    if s.Some? {
      var own, additions := NormalizedAll(v.expected), Additions(detect, q, s.value);
      MergeTracksOnce(own + additions, "");
      NoneWithKey(MergedItems(own + additions), "");
    }
  }

  /** Whom a task names after the merge: the kept parent of its page, if there is one. */
  lemma NamesKept(detect: Url -> Mode, q: Queue, c: Task, p: Task)
    requires WellFormed(detect, q) && c in All(q) && p in All(q) && c.sourceUrl != ""
    requires Rewritten(detect, All(q), c).parentId == p.id
    ensures var s := SourceOf(detect, c.sourceUrl);
            if First(detect, All(q), s).Some?
            then p == First(detect, All(q), s).value && ParentKey(detect, p) == Some(s)
            else IsChildOf(c, p) && ParentKey(detect, p) == None
  {
    var s := SourceOf(detect, c.sourceUrl);
    FirstFacts(detect, All(q), s);
    if First(detect, All(q), s).Some? {
      assert ParentOk(First(detect, All(q), s).value);
      SameIdSameTask(All(q), p, First(detect, All(q), s).value);
    } else {
      assert Fits(detect, c, p);
    }
  }

  lemma MergedFamilies(detect: Url -> Mode, q: Queue, c: Task, p: Task)
    requires WellFormed(detect, q) && c in All(q) && p in All(q)
    ensures var u, v := Became(detect, q, c), Became(detect, q, p);
            Fits(detect, u, v) && (p in Live(q) ==> Tracks(detect, v, u))
  {
    assert ParentOk(c) && ParentOk(p);
    BecameFacts(detect, q, c);
    BecameFacts(detect, q, p);
    if IsChildOf(Became(detect, q, c), Became(detect, q, p)) {
      NamesKept(detect, q, c, p);
      if p in Live(q) { assert Tracks(detect, p, c); }
    }
  }

  lemma MergedSamePage(detect: Url -> Mode, q: Queue, c: Task, d: Task)
    requires WellFormed(detect, q) && c in All(q) && d in All(q)
    ensures SamePage(Became(detect, q, c), Became(detect, q, d))
  {
    assert ParentOk(c) && ParentOk(d) && SamePage(c, d);
    BecameFacts(detect, q, c);
    BecameFacts(detect, q, d);
    if c.sourceUrl != "" && d.sourceUrl != "" {
      KeptPage(detect, q, c, d);
      KeptPage(detect, q, d, c);
    }
  }

  /** Two tasks that name the same parent after the merge, of which the first has a kept parent. */
  lemma KeptPage(detect: Url -> Mode, q: Queue, c: Task, d: Task)
    requires WellFormed(detect, q) && c in All(q) && d in All(q) && c.sourceUrl != "" && d.sourceUrl != ""
    ensures First(detect, All(q), SourceOf(detect, c.sourceUrl)).Some?
            && Rewritten(detect, All(q), c).parentId == Rewritten(detect, All(q), d).parentId
            ==> c.sourceUrl == d.sourceUrl
  {
    var s := SourceOf(detect, c.sourceUrl);
    FirstFacts(detect, All(q), s);
    if First(detect, All(q), s).Some?
       && Rewritten(detect, All(q), c).parentId == Rewritten(detect, All(q), d).parentId
    {
      var kept := First(detect, All(q), s).value;
      assert ParentOk(kept);
      NamesKept(detect, q, c, kept);
      NamesKept(detect, q, d, kept);
    }
  }

  lemma MergedChildOk(detect: Url -> Mode, q: Queue, c: Task)
    requires WellFormed(detect, q) && c in Live(q)
    ensures ChildOk(Became(detect, q, c))
  {
    assert ParentOk(c) && ChildOk(c);
    BecameFacts(detect, q, c);
  }

  lemma MergeWellFormed(detect: Url -> Mode, q: Queue)
    requires WellFormed(detect, q)
    ensures WellFormed(detect, MergeDuplicates(detect, q))
  {
    var r := MergeDuplicates(detect, q);
    MergedUnique(detect, q);
    if Duplicates(detect, All(q)) != [] {
      forall u | u in All(r) ensures ParentOk(u) { var t := AnySurvivorOf(detect, q, u); BecameParentOk(detect, q, t); }
      forall u | u in Live(r) ensures ChildOk(u) { var t := SurvivorOf(detect, q, u); MergedChildOk(detect, q, t); }
      forall u, v | u in All(r) && v in All(r) ensures Fits(detect, u, v) && SamePage(u, v) {
        var c := AnySurvivorOf(detect, q, u);
        var p := AnySurvivorOf(detect, q, v);
        MergedFamilies(detect, q, c, p);
        MergedSamePage(detect, q, c, p);
      }
      forall u, v | u in All(r) && v in Live(r) ensures Tracks(detect, v, u) {
        var c := AnySurvivorOf(detect, q, u);
        var p := SurvivorOf(detect, q, v);
        MergedFamilies(detect, q, c, p);
      }
    }
  }

  /** Main result: recovery keeps the queue well-formed, so all of the above holds of every later recovery. */
  lemma {:induction false} RecoveryKeepsWellFormed(detect: Url -> Mode, q: Queue)
    requires WellFormed(detect, q)
    ensures WellFormed(detect, Recovered(detect, q))
  {
    BeforeMerge(detect, q);
    MergeWellFormed(detect, RestoreOrphaned(detect, RestoreQueued(q)));
  }

  // ---------------------------------------------------------------------------------------------
  // A second recovery

  /** Main result: recovering again changes nothing. */
  lemma RecoveryIsIdempotent(detect: Url -> Mode, q: Queue)
    requires WellFormed(detect, q)
    ensures Recovered(detect, Recovered(detect, q)) == Recovered(detect, q)
  {
    var m := Recovered(detect, q);
    NoTrackerQueued(detect, q);
    NothingToRestore(m.active, m.queued);
    EveryChildHasItsParent(detect, q);
    NothingOrphaned(detect, m);
    OneParentPerBatch(detect, q);
    NothingToMerge(detect, m);
  }

  lemma NoTrackerQueued(detect: Url -> Mode, q: Queue)
    requires WellFormed(detect, q)
    ensures forall t | t in Recovered(detect, q).queued :: !IsTracker(t)
  {
    var a, r, m := RestoreQueued(q), RestoreOrphaned(detect, RestoreQueued(q)), Recovered(detect, q);
    BeforeMerge(detect, q);
    RestoreOrphanedShape(detect, a);
    forall t | t in r.queued ensures !IsTracker(t) { NoTrackerInQueue(detect, q, t); }
    if Duplicates(detect, All(r)) != [] {
      SectionFacts(detect, r, r.queued);
      forall u | u in m.queued ensures !IsTracker(u) {
        assert CameFrom(detect, r, r.queued, u);
        var t :| t in r.queued && u == Became(detect, r, t);
        assert t in All(r);
        BecameFacts(detect, r, t);
      }
    }
  }

  lemma NoTrackerInQueue(detect: Url -> Mode, q: Queue, t: Task)
    requires WellFormed(detect, q) && t in RestoreQueued(q).queued
    ensures !IsTracker(t)
  {
    var a := RestoreQueued(q);
    NoTrackerStays(q.active, q.queued);
    RestoreQueuedWellFormed(detect, q);
    AllIds(a);
    IdsFacts(a.active);
    IdsFacts(a.queued);
    assert Ids(All(a))[t.id] <= 1;
  }

  lemma NothingOrphaned(detect: Url -> Mode, q: Queue)
    requires forall c | c in Live(q) :: HasFittingParent(detect, Live(q), c)
    ensures RestoreOrphaned(detect, q) == q
  {
    OrphansFacts(Live(q), q.active, Running);
    OrphansFacts(Live(q), q.queued, Queued);
    OrphansFacts(Live(q), q.failed, Failed);
    forall o | o in AllOrphans(q) ensures o.section == Failed {
      assert o.section != Failed ==> o.task in Live(q);
      assert o.task in Live(q) ==> HasFittingParent(detect, Live(q), o.task);
    }
    OnlyFailedChildren(AllOrphans(q));
    NothingRebuilt(detect, Grouped(AllOrphans(q)));
  }

  lemma NothingToMerge(detect: Url -> Mode, q: Queue)
    requires UniqueIds(All(q))
    requires forall u, v | u in All(q) && v in All(q) && ParentKey(detect, u).Some?
                           && ParentKey(detect, u) == ParentKey(detect, v) :: u == v
    ensures MergeDuplicates(detect, q) == q
  {
    var duplicates := Duplicates(detect, All(q));
    if duplicates != [] {
      DuplicatesAmong(detect, All(q));
      var p := duplicates[0];
      var s := ParentKey(detect, p).value;
      FirstFacts(detect, All(q), s);
      FirstIsKept(detect, All(q), s);
    }
  }

  // ---------------------------------------------------------------------------------------------
  // What recovery may forget

  /** Restoring a parent replaces the failed one of the same id: what only the failed one tracked is lost. */
  lemma {:induction false} RestoringForgets(detect: Url -> Mode, page: Url, model: Url)
    requires page != "" && model != "" && IsBatch(detect(page))
    ensures var parent := Task("p", page, detect(page), Failed,
                               [Expected("a", 1, Queued, ""), Expected("b", 1, Queued, "")],
                               "", "", "", 0, 0, "");
            var child := Task("c", model, OtherMode("single_model"), Queued, [], "p", page, "a", 1, 0, "");
            var q := Queue([], [child], [parent]);
            && WellFormed(detect, q)
            && forall u | u in All(Recovered(detect, q)) :: KeyCount(u.expected, "b") == 0
  {
    var parent := Task("p", page, detect(page), Failed, [Expected("a", 1, Queued, ""), Expected("b", 1, Queued, "")],
                       "", "", "", 0, 0, "");
    var child := Task("c", model, OtherMode("single_model"), Queued, [], "p", page, "a", 1, 0, "");
    var q := Queue([], [child], [parent]);
    LoneChildIsWellFormed(detect, q, parent, child);
    LoneChildBringsParent(detect, page, parent, child, q);
    NothingDoubled(detect, Rebuilt(detect, Group("p", page, [Expected("a", 1, Queued, "")])), child);
  }

  /** A parent and its one child leave the merge nothing to do. */
  lemma NothingDoubled(detect: Url -> Mode, parent: Task, child: Task)
    requires child.expected == []
    ensures MergeDuplicates(detect, Queue([parent], [child], [])) == Queue([parent], [child], [])
    ensures All(Queue([parent], [child], [])) == [parent, child]
  {
    assert All(Queue([parent], [child], [])) == [parent, child];
    assert [parent, child][..1] == [parent] && [parent][..0] == [];
    assert Duplicates(detect, [parent]) == [];
    assert ParentKey(detect, child) == None;
  }

  lemma LoneChildIsWellFormed(detect: Url -> Mode, q: Queue, parent: Task, child: Task)
    requires q == Queue([], [child], [parent]) && ParentOk(parent) && ParentOk(child) && ChildOk(child)
    requires parent.id != child.id && child.parentId != child.id && parent.parentId == "" && parent.sourceUrl == ""
    requires ParentKey(detect, parent) == Some(SourceOf(detect, child.sourceUrl))
    ensures WellFormed(detect, q)
  {
    assert All(q) == [child, parent] && Live(q) == [child];
    TwoIds(child, parent);
  }

  lemma TwoIds(t: Task, u: Task)
    requires t.id != u.id
    ensures UniqueIds([t, u])
  {
    IdsCons(t, [u]);
    IdsCons(u, []);
    assert [t] + [u] == [t, u] && [u] + [] == [u];
  }

  lemma LoneChildBringsParent(detect: Url -> Mode, page: Url, parent: Task, child: Task, q: Queue)
    requires page != "" && child.url != "" && q == Queue([], [child], [parent]) && parent.id == "p" && child.id != "p"
    requires parent.parentId == ""
    requires child == Task(child.id, child.url, OtherMode("single_model"), Queued, [], "p", page, "a", 1, 0, "")
    ensures RestoreOrphaned(detect, RestoreQueued(q)) ==
            Queue([Rebuilt(detect, Group("p", page, [Expected("a", 1, Queued, "")]))], [child], [])
  {
    assert RestoredFrom([], [child]).1 == [child] + RestoredFrom([], [child][1..]).1;
    assert RestoreQueued(q) == q;
    LoneOrphan(q, parent, child);
    var g := Group("p", page, [Expected("a", 1, Queued, "")]);
    assert [Child(child, Queued)][..0] == [];
    assert Grouped([Child(child, Queued)]) == [g];
    var rebuilt := Rebuilt(detect, g);
    assert g.children[0] in g.children && RebuiltParents(detect, [g]) == [rebuilt];
    assert [parent][..0] == [] && Without([rebuilt], [parent]) == [];
  }

  lemma LoneOrphan(q: Queue, parent: Task, child: Task)
    requires q == Queue([], [child], [parent]) && parent.parentId == "" && child.sourceUrl != ""
    requires child.parentId != "" && child.parentId != child.id
    ensures AllOrphans(q) == [Child(child, Queued)]
  {
    assert Live(q) == [child];
    assert [child][..0] == [] && [parent][..0] == [];
    assert Orphans(Live(q), [child], Queued) == [Child(child, Queued)];
    assert Orphans(Live(q), [parent], Failed) == [];
  }
}
