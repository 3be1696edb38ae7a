/** The pass that folds batch parents tracking the same batch into the first of them
    (app/services/archive_worker.py). */
module BatchMerge {
  import opened Wrappers
  import opened BatchItems
  import opened BatchQueue

  /** The first parent that tracks this batch. */
  function First(detect: Url -> Mode, all: seq<Task>, s: Source): Option<Task>
    decreases |all|
  {
    if all == [] then None
    else
      var before, last := First(detect, all[..|all| - 1], s), all[|all| - 1];
      if before.Some? then before else if ParentKey(detect, last) == Some(s) then Some(last) else None
  }

  /** A parent whose batch an earlier one tracks. */
  predicate IsLater(detect: Url -> Mode, earlier: seq<Task>, t: Task) {
    ParentKey(detect, t).Some? && First(detect, earlier, ParentKey(detect, t).value).Some?
  }

  function Duplicates(detect: Url -> Mode, all: seq<Task>): seq<Task>
    decreases |all|
  {
    if all == [] then []
    else
      var init, last := all[..|all| - 1], all[|all| - 1];
      Duplicates(detect, init) + (if IsLater(detect, init, last) then [last] else [])
  }

  /** What the duplicates of a batch track, in order. */
  function DuplicateItems(detect: Url -> Mode, all: seq<Task>, s: Source): seq<Expected>
    decreases |all|
  {
    if all == [] then []
    else
      var init, last := all[..|all| - 1], all[|all| - 1];
      DuplicateItems(detect, init, s)
      + (if IsLater(detect, init, last) && ParentKey(detect, last) == Some(s) then NormalizedAll(last.expected) else [])
  }

  /** A child of the batch now belongs to the parent that is kept. */
  function Rewritten(detect: Url -> Mode, all: seq<Task>, t: Task): Task {
    var kept := First(detect, all, SourceOf(detect, t.sourceUrl));
    if t.sourceUrl == "" || kept == None || kept.value.id == "" then t else t.(parentId := kept.value.id)
  }

  /** The item a child that changed hands stands for. */
  function ChildItem(t: Task, section: Status): seq<Expected> {
    var attempts := if t.batchAttempts != 0 then t.batchAttempts else t.attemptCount;
    if t.url == "" || t.key == "" then []
    else [Expected(t.key, if attempts < 1 then 1 else attempts,
                   if t.status != NoStatus then t.status else section, Clip(t.message))]
  }

  function RewrittenSection(detect: Url -> Mode, all: seq<Task>, tasks: seq<Task>): seq<Task>
    decreases |tasks|
  {
    if tasks == [] then []
    else
      var last := tasks[|tasks| - 1];
      RewrittenSection(detect, all, tasks[..|tasks| - 1])
      + (if HasId(Duplicates(detect, all), last.id) then [] else [Rewritten(detect, all, last)])
  }

  /** What a child adds to this batch: something only if it stays and changes hands. */
  function Noted(detect: Url -> Mode, all: seq<Task>, t: Task, section: Status, s: Source): seq<Expected> {
    if !HasId(Duplicates(detect, all), t.id) && Rewritten(detect, all, t) != t && SourceOf(detect, t.sourceUrl) == s
    then ChildItem(t, section) else []
  }

  function RewrittenItems(detect: Url -> Mode, all: seq<Task>, tasks: seq<Task>, section: Status,
      s: Source): seq<Expected>
    decreases |tasks|
  {
    if tasks == [] then []
    else
      var last := tasks[|tasks| - 1];
      RewrittenItems(detect, all, tasks[..|tasks| - 1], section, s) + Noted(detect, all, last, section, s)
  }

  function Additions(detect: Url -> Mode, q: Queue, s: Source): seq<Expected> {
    DuplicateItems(detect, All(q), s)
    + RewrittenItems(detect, All(q), q.active, Running, s)
    + RewrittenItems(detect, All(q), q.queued, Queued, s)
    + RewrittenItems(detect, All(q), q.failed, Failed, s)
  }

  function WithItems(t: Task, additions: seq<Expected>): Task {
    var merged := MergedItems(NormalizedAll(t.expected) + additions);
    if additions == [] || merged == NormalizedAll(t.expected) then t else t.(expected := merged)
  }

  /** A kept parent takes the additions; one that changed hands itself is a copy they do not reach. */
  function Finished(detect: Url -> Mode, q: Queue, t: Task): Task {
    var s := ParentKey(detect, t);
    if s.Some? && First(detect, All(q), s.value) == Some(t) then WithItems(t, Additions(detect, q, s.value)) else t
  }

  function MergedSection(detect: Url -> Mode, q: Queue, tasks: seq<Task>): seq<Task> {
    Map(t => Finished(detect, q, t), RewrittenSection(detect, All(q), tasks))
  }

  function MergeDuplicates(detect: Url -> Mode, q: Queue): Queue {
    if Duplicates(detect, All(q)) == [] then q
    else Queue(MergedSection(detect, q, q.active), MergedSection(detect, q, q.queued),
               MergedSection(detect, q, q.failed))
  }

  // ---------------------------------------------------------------------------------------------
  // Which parent is kept

  lemma {:induction false} FirstFacts(detect: Url -> Mode, all: seq<Task>, s: Source)
    ensures var first := First(detect, all, s);
            && (first.Some? ==> first.value in all && ParentKey(detect, first.value) == Some(s))
            && (first.None? ==> forall t | t in all :: ParentKey(detect, t) != Some(s))
    decreases |all|
  {
    if all != [] {
      var init, last := all[..|all| - 1], all[|all| - 1];
      assert all == init + [last];
      FirstFacts(detect, init, s);
    }
  }

  lemma {:induction false} FirstOfPrefix(detect: Url -> Mode, a: seq<Task>, b: seq<Task>, s: Source)
    requires First(detect, a, s).Some?
    ensures First(detect, a + b, s) == First(detect, a, s)
    decreases |b|
  {
    if b == [] {
      assert a + b == a;
    } else {
      assert (a + b)[..|a + b| - 1] == a + b[..|b| - 1];
      FirstOfPrefix(detect, a, b[..|b| - 1], s);
    }
  }

  lemma {:induction false} DuplicatesAmong(detect: Url -> Mode, all: seq<Task>)
    ensures forall t | t in Duplicates(detect, all) :: t in all && ParentKey(detect, t).Some?
    decreases |all|
  {
    if all != [] {
      assert all == all[..|all| - 1] + [all[|all| - 1]];
      DuplicatesAmong(detect, all[..|all| - 1]);
    }
  }

  /** The first parent of a batch is no duplicate. */
  lemma {:induction false} FirstIsKept(detect: Url -> Mode, all: seq<Task>, s: Source)
    requires UniqueIds(all) && First(detect, all, s).Some?
    ensures !HasId(Duplicates(detect, all), First(detect, all, s).value.id)
    decreases |all|
  {
    var init, last := all[..|all| - 1], all[|all| - 1];
    assert all == init + [last];
    IdsSplit(init, last);
    assert forall id :: Ids(init)[id] <= Ids(all)[id];
    assert Ids(all)[last.id] <= 1;
    IdsFacts(init);
    DuplicatesAmong(detect, init);
    FirstFacts(detect, init, s);
    if First(detect, init, s).Some? { FirstIsKept(detect, init, s); }
  }

  /** And every other parent of it is one. */
  lemma {:induction false} OthersAreDuplicates(detect: Url -> Mode, all: seq<Task>, t: Task)
    requires t in all && ParentKey(detect, t).Some?
    ensures t in Duplicates(detect, all) || First(detect, all, ParentKey(detect, t).value) == Some(t)
    decreases |all|
  {
    var init, last := all[..|all| - 1], all[|all| - 1];
    assert all == init + [last];
    if t in init { OthersAreDuplicates(detect, init, t); }
  }

  lemma {:induction false} DuplicateItemsTracked(detect: Url -> Mode, all: seq<Task>, p: Task, key: Key)
    requires p in Duplicates(detect, all) && ParentKey(detect, p).Some?
    ensures KeyCount(DuplicateItems(detect, all, ParentKey(detect, p).value), key) >= KeyCount(p.expected, key)
    decreases |all|
  {
    var s := ParentKey(detect, p).value;
    var init, last := all[..|all| - 1], all[|all| - 1];
    var adds := IsLater(detect, init, last) && ParentKey(detect, last) == Some(s);
    var added := if adds then NormalizedAll(last.expected) else [];
    KeyCountConcat(DuplicateItems(detect, init, s), added, key);
    if p in Duplicates(detect, init) {
      DuplicateItemsTracked(detect, init, p, key);
    } else {
      KeyCountNormalized(p.expected, key);
    }
  }

  // ---------------------------------------------------------------------------------------------
  // What becomes of a task

  function Became(detect: Url -> Mode, q: Queue, t: Task): Task {
    Finished(detect, q, Rewritten(detect, All(q), t))
  }

  ghost predicate CameFrom(detect: Url -> Mode, q: Queue, tasks: seq<Task>, u: Task) {
    exists t :: t in tasks && !HasId(Duplicates(detect, All(q)), t.id) && u == Became(detect, q, t)
  }

  ghost predicate WasRewritten(detect: Url -> Mode, all: seq<Task>, tasks: seq<Task>, u: Task) {
    exists t :: t in tasks && !HasId(Duplicates(detect, all), t.id) && u == Rewritten(detect, all, t)
  }

  lemma {:induction false} RewrittenStays(detect: Url -> Mode, all: seq<Task>, tasks: seq<Task>, t: Task)
    requires t in tasks && !HasId(Duplicates(detect, all), t.id)
    ensures Rewritten(detect, all, t) in RewrittenSection(detect, all, tasks)
    decreases |tasks|
  {
    var init, last := tasks[..|tasks| - 1], tasks[|tasks| - 1];
    assert tasks == init + [last];
    if t in init { RewrittenStays(detect, all, init, t); }
  }

  lemma {:induction false} RewrittenCame(detect: Url -> Mode, all: seq<Task>, tasks: seq<Task>, u: Task)
    requires u in RewrittenSection(detect, all, tasks)
    ensures WasRewritten(detect, all, tasks, u)
    decreases |tasks|
  {
    var init, last := tasks[..|tasks| - 1], tasks[|tasks| - 1];
    assert tasks == init + [last];
    if u in RewrittenSection(detect, all, init) {
      RewrittenCame(detect, all, init, u);
    } else {
      assert last in tasks && u == Rewritten(detect, all, last);
    }
  }

  lemma {:induction false} RewrittenIds(detect: Url -> Mode, all: seq<Task>, tasks: seq<Task>, id: Id)
    ensures Ids(RewrittenSection(detect, all, tasks))[id] <= Ids(tasks)[id]
    decreases |tasks|
  {
    if tasks != [] {
      var init, last := tasks[..|tasks| - 1], tasks[|tasks| - 1];
      assert tasks == init + [last];
      RewrittenIds(detect, all, init, id);
      IdsSplit(init, last);
      var before, u := RewrittenSection(detect, all, init), Rewritten(detect, all, last);
      if HasId(Duplicates(detect, all), last.id) {
        assert RewrittenSection(detect, all, tasks) == before;
      } else {
        assert RewrittenSection(detect, all, tasks) == before + [u];
        IdsSplit(before, u);
      }
    }
  }

  lemma {:induction false} IdsOfMap(f: Task -> Task, tasks: seq<Task>)
    requires forall t :: f(t).id == t.id
    ensures Ids(Map(f, tasks)) == Ids(tasks)
    decreases |tasks|
  {
    if tasks != [] {
      assert Map(f, tasks)[1..] == Map(f, tasks[1..]);
      IdsOfMap(f, tasks[1..]);
    }
  }

  lemma SectionFacts(detect: Url -> Mode, q: Queue, tasks: seq<Task>)
    ensures forall t | t in tasks && !HasId(Duplicates(detect, All(q)), t.id) ::
              Became(detect, q, t) in MergedSection(detect, q, tasks)
    ensures forall u | u in MergedSection(detect, q, tasks) :: CameFrom(detect, q, tasks, u)
  {
    var f := t => Finished(detect, q, t);
    var rewritten := RewrittenSection(detect, All(q), tasks);
    MapFacts(f, rewritten);
    forall t | t in tasks && !HasId(Duplicates(detect, All(q)), t.id)
      ensures Became(detect, q, t) in MergedSection(detect, q, tasks)
    {
      RewrittenStays(detect, All(q), tasks, t);
      assert f(Rewritten(detect, All(q), t)) in Map(f, rewritten);
    }
    forall u | u in MergedSection(detect, q, tasks) ensures CameFrom(detect, q, tasks, u) {
      var v :| v in rewritten && f(v) == u;
      RewrittenCame(detect, All(q), tasks, v);
    }
  }

  lemma SectionIds(detect: Url -> Mode, q: Queue, tasks: seq<Task>, id: Id)
    ensures Ids(MergedSection(detect, q, tasks))[id] <= Ids(tasks)[id]
  {
    IdsOfMap(t => Finished(detect, q, t), RewrittenSection(detect, All(q), tasks));
    RewrittenIds(detect, All(q), tasks, id);
  }

  /** A batch parent that keeps its place is tracked as before, with the same batch, and exactly once each of
      its own and of its duplicates' items if there was anything to add. */
  lemma WithItemsTracks(t: Task, additions: seq<Expected>, key: Key)
    requires key != "" && KeyCount(additions, key) > 0
    ensures KeyCount(WithItems(t, additions).expected, key) == 1
  {
    var own := NormalizedAll(t.expected);
    MergeTracksOnce(own + additions, key);
    KeyCountConcat(own, additions, key);
    KeyCountNormalized(t.expected, key);
  }

  lemma WithItemsKeeps(t: Task, additions: seq<Expected>, key: Key)
    requires key != "" && KeyCount(t.expected, key) > 0
    ensures KeyCount(WithItems(t, additions).expected, key) > 0
  {
    var own := NormalizedAll(t.expected);
    MergeTracksOnce(own + additions, key);
    KeyCountConcat(own, additions, key);
    KeyCountNormalized(t.expected, key);
  }

  lemma AdditionsInclude(detect: Url -> Mode, q: Queue, s: Source, key: Key)
    ensures KeyCount(Additions(detect, q, s), key) >= KeyCount(DuplicateItems(detect, All(q), s), key)
  {
    var a := DuplicateItems(detect, All(q), s);
    var b := RewrittenItems(detect, All(q), q.active, Running, s);
    var c := RewrittenItems(detect, All(q), q.queued, Queued, s);
    var d := RewrittenItems(detect, All(q), q.failed, Failed, s);
    KeyCountConcat(a, b, key);
    KeyCountConcat(a + b, c, key);
    KeyCountConcat(a + b + c, d, key);
  }
}
