/** The three recovery passes as the worker runs them over the stored queue (app/services/archive_worker.py). */
module ArchiveQueues {
  import opened Wrappers
  import opened BatchItems
  import opened BatchQueue
  import opened BatchRestore
  import opened BatchMerge
  import opened BatchOverlap
  import opened BatchRecovery

  // ---------------------------------------------------------------------------------------------
  // Grouping orphans: a dictionary of groups and the order in which they were found

  function GroupKey(g: Group): Id { g.parentId }

  method GroupSection(live: seq<Task>, tasks: seq<Task>, section: Status,
                      groupsBefore: map<Id, Group>, orderBefore: seq<Id>, ghost seen: seq<Child>)
      returns (groups: map<Id, Group>, order: seq<Id>)
    requires Shows(groupsBefore, orderBefore, Grouped(seen), GroupKey)
    ensures Shows(groups, order, Grouped(seen + Orphans(live, tasks, section)), GroupKey)
  {
    groups, order := groupsBefore, orderBefore;
    var i := 0;
    assert seen + [] == seen;
    while i < |tasks|
      invariant 0 <= i <= |tasks|
      invariant Shows(groups, order, Grouped(seen + Orphans(live, tasks[..i], section)), GroupKey)
    {
      NextOrphan(live, tasks, section, i, seen);
      if IsOrphan(live, tasks[i]) {
        groups, order := AddChild(groups, order, Child(tasks[i], section),
                                  Grouped(seen + Orphans(live, tasks[..i], section)));
      }
      i := i + 1;
    }
    assert tasks[..i] == tasks;
  }

  lemma NextOrphan(live: seq<Task>, tasks: seq<Task>, section: Status, i: nat, seen: seq<Child>)
    requires i < |tasks|
    ensures var before := Grouped(seen + Orphans(live, tasks[..i], section));
            Grouped(seen + Orphans(live, tasks[..i + 1], section)) ==
            if IsOrphan(live, tasks[i]) then AddTo(before, Child(tasks[i], section)) else before
  {
    var before, after := Orphans(live, tasks[..i], section), Orphans(live, tasks[..i + 1], section);
    assert tasks[..i + 1][..i] == tasks[..i];
    if IsOrphan(live, tasks[i]) {
      var c := Child(tasks[i], section);
      assert after == before + [c];
      GroupOneMore(seen + before, c);
      assert seen + after == seen + before + [c];
    } else {
      assert after == before;
    }
  }

  lemma GroupOneMore(seen: seq<Child>, c: Child)
    ensures Grouped(seen + [c]) == AddTo(Grouped(seen), c)
  {
    assert (seen + [c])[..|seen|] == seen;
  }

  method AddChild(groupsBefore: map<Id, Group>, orderBefore: seq<Id>, c: Child, ghost list: seq<Group>)
      returns (groups: map<Id, Group>, order: seq<Id>)
    requires Shows(groupsBefore, orderBefore, list, GroupKey)
    ensures Shows(groups, order, AddTo(list, c), GroupKey)
  {
    groups, order := groupsBefore, orderBefore;
    var id := c.task.parentId;
    if id !in groups {
      var g := Group(id, c.task.sourceUrl, ItemsOf(c));
      ShowsAppended(groups, order, list, GroupKey, g);
      assert forall j | 0 <= j < |list| :: order[j] in groups;
      AddToNew(list, c);
      groups, order := groups[id := g], order + [id];
    } else {
      var g := groups[id].(children := groups[id].children + ItemsOf(c));
      ghost var j :| 0 <= j < |order| && order[j] == id;
      ShowsReplaced(groups, order, list, GroupKey, j, g);
      assert forall i | 0 <= i < j :: order[i] != order[j];
      AddToOld(list, c, j);
      groups := groups[id := g];
    }
  }

  lemma {:induction false} AddToNew(list: seq<Group>, c: Child)
    requires forall j | 0 <= j < |list| :: list[j].parentId != c.task.parentId
    ensures AddTo(list, c) == list + [Group(c.task.parentId, c.task.sourceUrl, ItemsOf(c))]
    decreases |list|
  {
    if list != [] { AddToNew(list[1..], c); }
  }

  lemma {:induction false} AddToOld(list: seq<Group>, c: Child, j: nat)
    requires j < |list| && list[j].parentId == c.task.parentId
    requires forall i | 0 <= i < j :: list[i].parentId != c.task.parentId
    ensures AddTo(list, c) == list[j := list[j].(children := list[j].children + ItemsOf(c))]
    decreases |list|
  {
    if j > 0 {
      assert forall i | 0 <= i < j - 1 :: list[1..][i] == list[i + 1];
      AddToOld(list[1..], c, j - 1);
    }
  }

  method RebuildParents(detect: Url -> Mode, groups: map<Id, Group>, order: seq<Id>, ghost list: seq<Group>)
      returns (parents: seq<Task>)
    requires Shows(groups, order, list, GroupKey)
    ensures parents == RebuiltParents(detect, list)
  {
    parents := [];
    var i := |order|;
    while i > 0
      invariant 0 <= i <= |order|
      invariant parents == RebuiltParents(detect, list[i..])
    {
      i := i - 1;
      assert list[i..][1..] == list[i + 1..];
      var g := groups[order[i]];
      if IsAlive(g) { parents := [Rebuilt(detect, g)] + parents; } else { assert [] + parents == parents; }
    }
    assert list[0..] == list;
  }

  method DropFailed(parents: seq<Task>, failed: seq<Task>) returns (rest: seq<Task>)
    ensures rest == Without(parents, failed)
  {
    rest := [];
    var i := 0;
    while i < |failed|
      invariant 0 <= i <= |failed|
      invariant rest == Without(parents, failed[..i])
    {
      assert failed[..i + 1][..i] == failed[..i];
      if !HasId(parents, failed[i].id) { rest := rest + [failed[i]]; }
      i := i + 1;
    }
    assert failed[..i] == failed;
  }

  // ---------------------------------------------------------------------------------------------
  // Collecting, rewriting and finishing

  function At(items: map<Source, seq<Expected>>, s: Source): seq<Expected> {
    if s in items then items[s] else []
  }

  ghost predicate Keeps(detect: Url -> Mode, all: seq<Task>, kept: map<Source, Task>) {
    forall s :: First(detect, all, s) == if s in kept then Some(kept[s]) else None
  }

  method CollectParents(detect: Url -> Mode, all: seq<Task>)
      returns (kept: map<Source, Task>, dropped: seq<Task>, items: map<Source, seq<Expected>>)
    ensures Keeps(detect, all, kept) && dropped == Duplicates(detect, all)
    ensures forall s :: At(items, s) == DuplicateItems(detect, all, s)
  {
    kept, dropped, items := map[], [], map[];
    var i := 0;
    while i < |all|
      invariant 0 <= i <= |all|
      invariant Keeps(detect, all[..i], kept) && dropped == Duplicates(detect, all[..i])
      invariant forall s :: At(items, s) == DuplicateItems(detect, all[..i], s)
    {
      kept, dropped, items := CollectParent(detect, all[..i], all[i], kept, dropped, items);
      assert all[..i + 1] == all[..i] + [all[i]];
      i := i + 1;
    }
    assert all[..i] == all;
  }

  method CollectParent(detect: Url -> Mode, ghost earlier: seq<Task>, t: Task,
                       keptBefore: map<Source, Task>, droppedBefore: seq<Task>, itemsBefore: map<Source, seq<Expected>>)
      returns (kept: map<Source, Task>, dropped: seq<Task>, items: map<Source, seq<Expected>>)
    requires Keeps(detect, earlier, keptBefore) && droppedBefore == Duplicates(detect, earlier)
    requires forall s :: At(itemsBefore, s) == DuplicateItems(detect, earlier, s)
    ensures Keeps(detect, earlier + [t], kept) && dropped == Duplicates(detect, earlier + [t])
    ensures forall s :: At(items, s) == DuplicateItems(detect, earlier + [t], s)
  {
    kept, dropped, items := keptBefore, droppedBefore, itemsBefore;
    assert (earlier + [t])[..|earlier|] == earlier;
    var s := ParentKey(detect, t);
    if s.Some? {
      if s.value in kept {
        dropped := dropped + [t];
        items := items[s.value := At(items, s.value) + NormalizedAll(t.expected)];
      } else {
        kept := kept[s.value := t];
      }
    }
  }

  method RewriteSection(detect: Url -> Mode, ghost all: seq<Task>, kept: map<Source, Task>, dropped: seq<Task>,
                        tasks: seq<Task>, section: Status, itemsBefore: map<Source, seq<Expected>>)
      returns (rewritten: seq<Task>, items: map<Source, seq<Expected>>)
    requires Keeps(detect, all, kept) && dropped == Duplicates(detect, all)
    ensures rewritten == RewrittenSection(detect, all, tasks)
    ensures forall s :: At(items, s) == At(itemsBefore, s) + RewrittenItems(detect, all, tasks, section, s)
  {
    rewritten, items := [], itemsBefore;
    var i := 0;
    while i < |tasks|
      invariant 0 <= i <= |tasks|
      invariant rewritten == RewrittenSection(detect, all, tasks[..i])
      invariant forall s :: At(items, s) == At(itemsBefore, s) + RewrittenItems(detect, all, tasks[..i], section, s)
    {
      assert tasks[..i + 1][..i] == tasks[..i];
      var t := tasks[i];
      ghost var noted := items;
      rewritten, items := RewriteOne(detect, all, kept, dropped, t, section, rewritten, items);
      NotedNext(detect, all, tasks[..i + 1], section, itemsBefore, noted, items);
      i := i + 1;
    }
    assert tasks[..i] == tasks;
  }

  method RewriteOne(detect: Url -> Mode, ghost all: seq<Task>, kept: map<Source, Task>, dropped: seq<Task>, t: Task,
                    section: Status, before: seq<Task>, itemsBefore: map<Source, seq<Expected>>)
      returns (rewritten: seq<Task>, items: map<Source, seq<Expected>>)
    requires Keeps(detect, all, kept) && dropped == Duplicates(detect, all)
    ensures rewritten == before + (if HasId(dropped, t.id) then [] else [Rewritten(detect, all, t)])
    ensures forall s :: At(items, s) == At(itemsBefore, s) + Noted(detect, all, t, section, s)
  {
    rewritten, items := before, itemsBefore;
    if !HasId(dropped, t.id) {
      var updated := RewriteTask(detect, all, kept, t);
      rewritten := rewritten + [updated];
      if updated != t {
        var s := SourceOf(detect, t.sourceUrl);
        items := items[s := At(items, s) + ChildItem(updated, section)];
      }
    }
  }

  lemma NotedNext(detect: Url -> Mode, all: seq<Task>, tasks: seq<Task>, section: Status,
                  start: map<Source, seq<Expected>>, before: map<Source, seq<Expected>>,
                  after: map<Source, seq<Expected>>)
    requires tasks != []
    requires forall s :: At(before, s) == At(start, s) + RewrittenItems(detect, all, tasks[..|tasks| - 1], section, s)
    requires forall s :: At(after, s) == At(before, s) + Noted(detect, all, tasks[|tasks| - 1], section, s)
    ensures forall s :: At(after, s) == At(start, s) + RewrittenItems(detect, all, tasks, section, s)
  {
    forall s ensures At(after, s) == At(start, s) + RewrittenItems(detect, all, tasks, section, s) {
      Reassociate(At(start, s), RewrittenItems(detect, all, tasks[..|tasks| - 1], section, s),
                  Noted(detect, all, tasks[|tasks| - 1], section, s));
    }
  }

  lemma Reassociate(a: seq<Expected>, b: seq<Expected>, c: seq<Expected>)
    ensures a + b + c == a + (b + c)
  {
  }

  method RewriteTask(detect: Url -> Mode, ghost all: seq<Task>, kept: map<Source, Task>, t: Task)
      returns (updated: Task)
    requires Keeps(detect, all, kept)
    ensures updated == Rewritten(detect, all, t)
  {
    updated := t;
    if t.sourceUrl != "" {
      var s := SourceOf(detect, t.sourceUrl);
      if s in kept && kept[s].id != "" && t.parentId != kept[s].id { updated := t.(parentId := kept[s].id); }
    }
  }

  method FinishSection(detect: Url -> Mode, ghost q: Queue, kept: map<Source, Task>, items: map<Source, seq<Expected>>,
                       tasks: seq<Task>) returns (finished: seq<Task>)
    requires Keeps(detect, All(q), kept) && forall s :: At(items, s) == Additions(detect, q, s)
    ensures finished == Map(t => Finished(detect, q, t), tasks)
  {
    finished := [];
    var i := 0;
    while i < |tasks|
      invariant 0 <= i <= |tasks|
      invariant finished == Map(t => Finished(detect, q, t), tasks[..i])
    {
      var t := FinishOne(detect, q, kept, items, tasks[i]);
      finished := finished + [t];
      assert tasks[..i + 1] == tasks[..i] + [tasks[i]];
      i := i + 1;
    }
    assert tasks[..i] == tasks;
  }

  method FinishOne(detect: Url -> Mode, ghost q: Queue, kept: map<Source, Task>, items: map<Source, seq<Expected>>,
                   t: Task)
      returns (finished: Task)
    requires Keeps(detect, All(q), kept) && forall s :: At(items, s) == Additions(detect, q, s)
    ensures finished == Finished(detect, q, t)
  {
    finished := t;
    var s := ParentKey(detect, t);
    if s.Some? && s.value in kept && kept[s.value] == t {
      var additions := At(items, s.value);
      if additions != [] {
        var own := NormalizedAll(t.expected);
        var merged := MergeExpectedItems(own + additions);
        if merged != own { finished := t.(expected := merged); }
      }
    }
  }

  // ---------------------------------------------------------------------------------------------
  // The passes over the stored queue

  class ArchiveQueue {
    var active: seq<Task>
    var queued: seq<Task>
    var failed: seq<Task>

    ghost function Contents(): Queue
      reads this
    {
      Queue(active, queued, failed)
    }

    method RestoreQueuedParents()
      modifies this
      ensures Contents() == RestoreQueued(old(Contents()))
    {
      var running, kept := active, [];
      var i := 0;
      assert queued[0..] == queued;
      assert [] + RestoredFrom(active, queued).1 == RestoredFrom(active, queued).1;
      while i < |queued|
        invariant 0 <= i <= |queued| && unchanged(this)
        invariant var rest := RestoredFrom(running, queued[i..]);
                  RestoredFrom(active, queued) == (rest.0, kept + rest.1)
      {
        var t := queued[i];
        assert queued[i..][1..] == queued[i + 1..];
        if HasId(running, t.id) || !IsBatch(t.mode) || t.expected == [] {
          var rest := RestoredFrom(running, queued[i + 1..]);
          assert kept + ([t] + rest.1) == kept + [t] + rest.1;
          kept := kept + [t];
        } else {
          running := running + [t.(status := WaitingChildren)];
        }
        i := i + 1;
      }
      assert queued[i..] == [] && kept + [] == kept;
      active, queued := running, kept;
    }

    method RestoreOrphanedParents(detect: Url -> Mode)
      modifies this
      ensures Contents() == RestoreOrphaned(detect, old(Contents()))
    {
      var live := active + queued;
      var groups, order := GroupSection(live, active, Running, map[], [], []);
      assert [] + Orphans(live, active, Running) == Orphans(live, active, Running);
      groups, order := GroupSection(live, queued, Queued, groups, order, Orphans(live, active, Running));
      groups, order := GroupSection(live, failed, Failed, groups, order,
                                    Orphans(live, active, Running) + Orphans(live, queued, Queued));
      var parents := RebuildParents(detect, groups, order, Grouped(AllOrphans(Contents())));
      if parents != [] {
        var rest := DropFailed(parents, failed);
        active, failed := parents + active, rest;
      }
    }

    /** The third pass up to its save: what it will store instead of the queue it has read, if it found duplicates. */
    method PlanMerge(detect: Url -> Mode) returns (plan: Option<Queue>)
      ensures plan == MergePlan(detect, Contents())
    {
      ghost var q := Contents();
      var all := active + queued + failed;
      var kept, dropped, items := CollectParents(detect, all);
      if dropped == [] { return None; }
      var a, b, c;
      a, items := RewriteSection(detect, all, kept, dropped, active, Running, items);
      b, items := RewriteSection(detect, all, kept, dropped, queued, Queued, items);
      c, items := RewriteSection(detect, all, kept, dropped, failed, Failed, items);
      assert forall s :: At(items, s) == Additions(detect, q, s);
      a := FinishSection(detect, q, kept, items, a);
      b := FinishSection(detect, q, kept, items, b);
      c := FinishSection(detect, q, kept, items, c);
      plan := Some(Queue(a, b, c));
    }

    /** Its save replaces the whole queue, whatever that is by now. */
    method SavePlan(plan: Option<Queue>)
      modifies this
      ensures Contents() == if plan.Some? then plan.value else old(Contents())
    {
      if plan.Some? { active, queued, failed := plan.value.active, plan.value.queued, plan.value.failed; }
    }

    /** The third pass when nobody else uses the queue in between. */
    method MergeDuplicateParents(detect: Url -> Mode)
      modifies this
      ensures Contents() == MergeDuplicates(detect, old(Contents()))
    {
      var plan := PlanMerge(detect);
      SavePlan(plan);
    }

    /** All three passes, in the order in which a refresh runs them, with nobody else using the queue. */
    method Recover(detect: Url -> Mode)
      modifies this
      ensures Contents() == Recovered(detect, old(Contents()))
    {
      RestoreQueuedParents();
      RestoreOrphanedParents(detect);
      MergeDuplicateParents(detect);
    }
  }
}
