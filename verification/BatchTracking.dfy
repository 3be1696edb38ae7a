/** What the parent that is kept tracks after the merge, key by key: whose attempts, status and message it holds
    (app/services/archive_worker.py). */
module BatchTracking {
  import opened Wrappers
  import opened BatchItems
  import opened BatchQueue
  import opened BatchRestore
  import opened BatchMerge
  import opened BatchRecovery

  // ---------------------------------------------------------------------------------------------
  // The terms of the statements

  /** The section in which a position of the queue lies, as the status of its tasks. */
  function SectionAt(q: Queue, i: nat): Status {
    if i < |q.active| then Running else if i < |q.active| + |q.queued| then Queued else Failed
  }

  /** The task is still there after the merge, and belongs to another parent. */
  ghost predicate ChangesHands(detect: Url -> Mode, q: Queue, t: Task) {
    exists u :: u in All(MergeDuplicates(detect, q)) && u.id == t.id && u.parentId != t.parentId
  }

  /** The task at this position is a child for this key that comes to the kept parent of this batch. */
  ghost predicate ComesAt(detect: Url -> Mode, q: Queue, s: Source, key: Key, i: nat) {
    && i < |All(q)| && ChangesHands(detect, q, All(q)[i])
    && All(q)[i].url != "" && All(q)[i].key == key && SourceOf(detect, All(q)[i].sourceUrl) == s
  }

  /** The item says of this child how often it was tried, what it does and why it failed last. */
  predicate StandsFor(e: Expected, c: Task, section: Status) {
    && e.key == c.key
    && e.attempts == (if c.batchAttempts > 1 then c.batchAttempts
                      else if c.batchAttempts == 0 && c.attemptCount > 1 then c.attemptCount else 1)
    && e.status == (if c.status == NoStatus then section else c.status)
    && e.lastFailure <= c.message && |e.lastFailure| == (if |c.message| > 400 then 400 else |c.message|)
  }

  /** A parent that tracks this batch, and this key. */
  predicate TracksKey(detect: Url -> Mode, t: Task, s: Source, key: Key) {
    ParentKey(detect, t) == Some(s) && exists e :: e in t.expected && e.key == key
  }

  /** The last of the items with this key, as it is read back. */
  ghost predicate IsLastWith(items: seq<Expected>, key: Key, e: Expected) {
    exists j :: 0 <= j < |items| && items[j].key == key && e == Normalized(items[j])
                && forall l | j < l < |items| :: items[l].key != key
  }

  // ---------------------------------------------------------------------------------------------
  // The last candidate, section by section

  lemma {:induction false} LastWithConcat(a: seq<Expected>, b: seq<Expected>, key: Key)
    ensures LastWith(a + b, key) == if LastWith(b, key).Some? then LastWith(b, key) else LastWith(a, key)
    decreases |b|
  {
    if b == [] {
      assert a + b == a;
    } else {
      assert (a + b)[..|a + b| - 1] == a + b[..|b| - 1];
      LastWithConcat(a, b[..|b| - 1], key);
    }
  }

  lemma {:induction false} LastWithIs(items: seq<Expected>, key: Key)
    ensures match LastWith(items, key)
            case None => forall e | e in items :: e.key != key
            case Some(e) => IsLastWith(items, key, e)
    decreases |items|
  {
    if items != [] {
      var init, last := items[..|items| - 1], items[|items| - 1];
      assert items == init + [last];
      LastWithIs(init, key);
      if last.key == key {
        assert items[|items| - 1].key == key;
      } else if LastWith(init, key).Some? {
        var e := LastWith(init, key).value;
        var j :| 0 <= j < |init| && init[j].key == key && e == Normalized(init[j])
                 && forall l | j < l < |init| :: init[l].key != key;
        assert items[j] == init[j];
      }
    }
  }

  /** Reading back twice is reading back once. */
  lemma {:induction false} LastWithNormalized(items: seq<Expected>, key: Key)
    ensures LastWith(NormalizedAll(items), key) == LastWith(items, key)
    decreases |items|
  {
    if items != [] {
      assert NormalizedAll(items)[..|items| - 1] == NormalizedAll(items[..|items| - 1]);
      LastWithNormalized(items[..|items| - 1], key);
    }
  }

  /** The child stays, changes hands, and counts for this batch and key. */
  predicate Notes(detect: Url -> Mode, all: seq<Task>, t: Task, s: Source, key: Key) {
    && !HasId(Duplicates(detect, all), t.id) && Rewritten(detect, all, t) != t
    && t.url != "" && t.key == key && SourceOf(detect, t.sourceUrl) == s
  }

  /** The child at this position is the last of the section that counts for the key, and the item stands for it. */
  ghost predicate LastNotes(detect: Url -> Mode, all: seq<Task>, tasks: seq<Task>, section: Status, s: Source, key: Key,
                            e: Expected, i: nat)
  {
    && i < |tasks| && Notes(detect, all, tasks[i], s, key) && StandsFor(e, tasks[i], section)
    && forall j | i < j < |tasks| :: !Notes(detect, all, tasks[j], s, key)
  }

  /** The last child of a section that counts for the key decides what the section adds for it. */
  ghost predicate LastOfSection(detect: Url -> Mode, all: seq<Task>, tasks: seq<Task>, section: Status, s: Source,
                                key: Key, e: Option<Expected>)
  {
    match e
    case None => forall t | t in tasks :: !Notes(detect, all, t, s, key)
    case Some(e) => exists i: nat :: LastNotes(detect, all, tasks, section, s, key, e, i)
  }

  lemma {:induction false} SectionAdds(detect: Url -> Mode, all: seq<Task>, tasks: seq<Task>, section: Status,
                                       s: Source, key: Key)
    requires key != ""
    ensures LastOfSection(detect, all, tasks, section, s, key,
                          LastWith(RewrittenItems(detect, all, tasks, section, s), key))
    decreases |tasks|
  {
    if tasks != [] {
      var init, last := tasks[..|tasks| - 1], tasks[|tasks| - 1];
      var before := LastWith(RewrittenItems(detect, all, init, section, s), key);
      SectionAdds(detect, all, init, section, s, key);
      LastWithConcat(RewrittenItems(detect, all, init, section, s), Noted(detect, all, last, section, s), key);
      OneAdds(detect, all, last, section, s, key);
      var e := LastWith(Noted(detect, all, last, section, s), key);
      if Notes(detect, all, last, s, key) {
        assert LastNotes(detect, all, tasks, section, s, key, e.value, |tasks| - 1);
      } else {
        SectionStays(detect, all, tasks, section, s, key, before);
      }
    }
  }

  lemma SectionStays(detect: Url -> Mode, all: seq<Task>, tasks: seq<Task>, section: Status, s: Source, key: Key,
                     e: Option<Expected>)
    requires tasks != [] && LastOfSection(detect, all, tasks[..|tasks| - 1], section, s, key, e)
    requires !Notes(detect, all, tasks[|tasks| - 1], s, key)
    ensures LastOfSection(detect, all, tasks, section, s, key, e)
  {
    var init := tasks[..|tasks| - 1];
    assert tasks == init + [tasks[|tasks| - 1]];
    if e.Some? {
      var i: nat :| LastNotes(detect, all, init, section, s, key, e.value, i);
      assert LastNotes(detect, all, tasks, section, s, key, e.value, i);
    }
  }

  lemma OneAdds(detect: Url -> Mode, all: seq<Task>, t: Task, section: Status, s: Source, key: Key)
    requires key != ""
    ensures var e := LastWith(Noted(detect, all, t, section, s), key);
            if Notes(detect, all, t, s, key) then e.Some? && StandsFor(e.value, t, section) else e.None?
  {
    var noted := Noted(detect, all, t, section, s);
    if noted != [] { assert noted[..|noted| - 1] == []; }
  }

  // ---------------------------------------------------------------------------------------------
  // What the duplicates add

  /** The task at this position decides what the duplicates of the batch add for the key. */
  ghost predicate Decides(detect: Url -> Mode, all: seq<Task>, s: Source, key: Key, e: Expected, i: nat) {
    && i < |all| && TracksKey(detect, all[i], s, key) && First(detect, all[..i], s).Some?
    && IsLastWith(all[i].expected, key, e)
    && forall j | i < j < |all| :: !TracksKey(detect, all[j], s, key)
  }

  ghost predicate LastDuplicate(detect: Url -> Mode, all: seq<Task>, s: Source, key: Key, e: Option<Expected>) {
    match e
    case None => forall i | 0 <= i < |all| && TracksKey(detect, all[i], s, key) :: First(detect, all[..i], s).None?
    case Some(e) => exists i: nat :: Decides(detect, all, s, key, e, i)
  }

  lemma {:induction false} DuplicatesAdd(detect: Url -> Mode, all: seq<Task>, s: Source, key: Key)
    ensures LastDuplicate(detect, all, s, key, LastWith(DuplicateItems(detect, all, s), key))
    decreases |all|
  {
    if all != [] {
      var init, last := all[..|all| - 1], all[|all| - 1];
      var before := LastWith(DuplicateItems(detect, init, s), key);
      DuplicatesAdd(detect, init, s, key);
      LastAdds(detect, all, s, key);
      if TracksKey(detect, last, s, key) && First(detect, init, s).Some? {
        assert Decides(detect, all, s, key, LastWith(last.expected, key).value, |all| - 1);
      } else if before.Some? {
        LastStays(detect, all, s, key, before.value);
      } else {
        NoneStays(detect, all, s, key);
      }
    }
  }

  lemma LastAdds(detect: Url -> Mode, all: seq<Task>, s: Source, key: Key)
    requires all != []
    ensures var init, last := all[..|all| - 1], all[|all| - 1];
            if TracksKey(detect, last, s, key) && First(detect, init, s).Some?
            then LastWith(DuplicateItems(detect, all, s), key) == LastWith(last.expected, key)
                 && LastWith(last.expected, key).Some?
                 && IsLastWith(last.expected, key, LastWith(last.expected, key).value)
            else LastWith(DuplicateItems(detect, all, s), key) == LastWith(DuplicateItems(detect, init, s), key)
  {
    var init, last := all[..|all| - 1], all[|all| - 1];
    var added := if IsLater(detect, init, last) && ParentKey(detect, last) == Some(s)
                 then NormalizedAll(last.expected) else [];
    LastWithConcat(DuplicateItems(detect, init, s), added, key);
    LastWithNormalized(last.expected, key);
    LastWithIs(last.expected, key);
  }

  lemma NoneStays(detect: Url -> Mode, all: seq<Task>, s: Source, key: Key)
    requires all != [] && LastDuplicate(detect, all[..|all| - 1], s, key, None)
    requires TracksKey(detect, all[|all| - 1], s, key) ==> First(detect, all[..|all| - 1], s).None?
    ensures LastDuplicate(detect, all, s, key, None)
  {
    var init := all[..|all| - 1];
    forall i | 0 <= i < |all| && TracksKey(detect, all[i], s, key) ensures First(detect, all[..i], s).None? {
      if i < |init| { assert all[..i] == init[..i] && all[i] == init[i]; }
    }
  }

  /** The last task tells nothing of the key, so the last duplicate is the one before. */
  lemma LastStays(detect: Url -> Mode, all: seq<Task>, s: Source, key: Key, e: Expected)
    requires all != [] && LastDuplicate(detect, all[..|all| - 1], s, key, Some(e))
    requires TracksKey(detect, all[|all| - 1], s, key) ==> First(detect, all[..|all| - 1], s).None?
    ensures LastDuplicate(detect, all, s, key, Some(e))
  {
    var init := all[..|all| - 1];
    var i: nat :| Decides(detect, init, s, key, e, i);
    assert all[i] == init[i] && all[..i] == init[..i];
    assert init == init[..i] + init[i..];
    FirstOfPrefix(detect, init[..i], init[i..], s);
    assert Decides(detect, all, s, key, e, i);
  }

  // ---------------------------------------------------------------------------------------------
  // Who changes hands

  /** Ids are unique, and parents belong to no page. */
  ghost predicate Sound(q: Queue) {
    UniqueIds(All(q)) && forall t | t in All(q) :: ParentOk(t)
  }

  lemma HandsChanged(detect: Url -> Mode, q: Queue, t: Task)
    requires Sound(q) && t in All(q)
    ensures ChangesHands(detect, q, t) <==>
        var dropped := Duplicates(detect, All(q));
        dropped != [] && !HasId(dropped, t.id) && Rewritten(detect, All(q), t) != t
  {
    var m := MergeDuplicates(detect, q);
    if ChangesHands(detect, q, t) {
      var u :| u in All(m) && u.id == t.id && u.parentId != t.parentId;
      if Duplicates(detect, All(q)) == [] {
        SameIdSameTask(All(q), t, u);
      } else {
        var v := AnySurvivorOf(detect, q, u);
        BecameFacts(detect, q, v);
        SameIdSameTask(All(q), t, v);
      }
    }
    var dropped := Duplicates(detect, All(q));
    if dropped != [] && !HasId(dropped, t.id) && Rewritten(detect, All(q), t) != t {
      BecameFacts(detect, q, t);
      Survives(detect, q, t);
    }
  }

  lemma Survives(detect: Url -> Mode, q: Queue, t: Task)
    requires t in All(q) && Duplicates(detect, All(q)) != [] && !HasId(Duplicates(detect, All(q)), t.id)
    ensures Became(detect, q, t) in All(MergeDuplicates(detect, q))
  {
    if t in q.active { SectionFacts(detect, q, q.active); }
    else if t in q.queued { SectionFacts(detect, q, q.queued); }
    else { SectionFacts(detect, q, q.failed); }
  }

  lemma ComingIsNoted(detect: Url -> Mode, q: Queue, s: Source, key: Key, i: nat)
    requires Sound(q) && Duplicates(detect, All(q)) != [] && i < |All(q)|
    ensures ComesAt(detect, q, s, key, i) <==> Notes(detect, All(q), All(q)[i], s, key)
  {
    assert All(q)[i] in All(q);
    HandsChanged(detect, q, All(q)[i]);
  }

  /** What the children that change hands add for the key: the last of them decides. */
  function ChildItems(detect: Url -> Mode, q: Queue, s: Source): seq<Expected> {
    RewrittenItems(detect, All(q), q.active, Running, s)
    + RewrittenItems(detect, All(q), q.queued, Queued, s)
    + RewrittenItems(detect, All(q), q.failed, Failed, s)
  }

  /** Among these positions, the last child that comes decides. */
  ghost predicate LastBetween(detect: Url -> Mode, q: Queue, s: Source, key: Key, lo: nat, hi: nat, e: Option<Expected>)
  {
    match e
    case None => forall i: nat | lo <= i < hi :: !ComesAt(detect, q, s, key, i)
    case Some(e) => exists i: nat :: lo <= i < hi && ComesAt(detect, q, s, key, i)
                                     && StandsFor(e, All(q)[i], SectionAt(q, i))
                                     && forall j: nat | i < j < hi :: !ComesAt(detect, q, s, key, j)
  }

  lemma SectionBetween(detect: Url -> Mode, q: Queue, s: Source, key: Key, tasks: seq<Task>, lo: nat, section: Status)
    requires Sound(q) && Duplicates(detect, All(q)) != [] && key != ""
    requires lo + |tasks| <= |All(q)| && All(q)[lo..lo + |tasks|] == tasks
    requires forall i: nat | lo <= i < lo + |tasks| :: SectionAt(q, i) == section
    ensures LastBetween(detect, q, s, key, lo, lo + |tasks|,
                        LastWith(RewrittenItems(detect, All(q), tasks, section, s), key))
  {
    SectionAdds(detect, All(q), tasks, section, s, key);
    forall i: nat | lo <= i < lo + |tasks|
      ensures ComesAt(detect, q, s, key, i) <==> Notes(detect, All(q), tasks[i - lo], s, key)
    {
      ComingIsNoted(detect, q, s, key, i);
    }
    var e := LastWith(RewrittenItems(detect, All(q), tasks, section, s), key);
    if e.Some? {
      var i: nat :| LastNotes(detect, All(q), tasks, section, s, key, e.value, i);
      assert ComesAt(detect, q, s, key, lo + i) && All(q)[lo + i] == tasks[i];
    }
  }

  lemma JoinBetween(detect: Url -> Mode, q: Queue, s: Source, key: Key, lo: nat, mid: nat, hi: nat,
                    a: seq<Expected>, b: seq<Expected>)
    requires lo <= mid <= hi
    requires LastBetween(detect, q, s, key, lo, mid, LastWith(a, key))
    requires LastBetween(detect, q, s, key, mid, hi, LastWith(b, key))
    ensures LastBetween(detect, q, s, key, lo, hi, LastWith(a + b, key))
  {
    LastWithConcat(a, b, key);
  }

  lemma SectionsOf(q: Queue)
    ensures var x, y := |q.active|, |q.active| + |q.queued|;
            && All(q)[0..x] == q.active && All(q)[x..y] == q.queued && All(q)[y..y + |q.failed|] == q.failed
            && |All(q)| == y + |q.failed|
  {}

  lemma ActiveBetween(detect: Url -> Mode, q: Queue, s: Source, key: Key)
    requires Sound(q) && Duplicates(detect, All(q)) != [] && key != ""
    ensures LastBetween(detect, q, s, key, 0, |q.active|,
                        LastWith(RewrittenItems(detect, All(q), q.active, Running, s), key))
  {
    SectionsOf(q);
    SectionBetween(detect, q, s, key, q.active, 0, Running);
  }

  lemma QueuedBetween(detect: Url -> Mode, q: Queue, s: Source, key: Key)
    requires Sound(q) && Duplicates(detect, All(q)) != [] && key != ""
    ensures LastBetween(detect, q, s, key, |q.active|, |q.active| + |q.queued|,
                        LastWith(RewrittenItems(detect, All(q), q.queued, Queued, s), key))
  {
    SectionsOf(q);
    SectionBetween(detect, q, s, key, q.queued, |q.active|, Queued);
  }

  lemma FailedBetween(detect: Url -> Mode, q: Queue, s: Source, key: Key)
    requires Sound(q) && Duplicates(detect, All(q)) != [] && key != ""
    ensures LastBetween(detect, q, s, key, |q.active| + |q.queued|, |All(q)|,
                        LastWith(RewrittenItems(detect, All(q), q.failed, Failed, s), key))
  {
    SectionsOf(q);
    SectionBetween(detect, q, s, key, q.failed, |q.active| + |q.queued|, Failed);
  }

  lemma ChildrenAdd(detect: Url -> Mode, q: Queue, s: Source, key: Key)
    requires Sound(q) && Duplicates(detect, All(q)) != [] && key != ""
    ensures LastBetween(detect, q, s, key, 0, |All(q)|, LastWith(ChildItems(detect, q, s), key))
  {
    var x, y := |q.active|, |q.active| + |q.queued|;
    SectionsOf(q);
    ActiveBetween(detect, q, s, key);
    QueuedBetween(detect, q, s, key);
    FailedBetween(detect, q, s, key);
    JoinSections(detect, q, s, key, x, y, |All(q)|);
  }

  lemma JoinSections(detect: Url -> Mode, q: Queue, s: Source, key: Key, x: nat, y: nat, end: nat)
    requires x <= y <= end
    requires LastBetween(detect, q, s, key, 0, x, LastWith(RewrittenItems(detect, All(q), q.active, Running, s), key))
    requires LastBetween(detect, q, s, key, x, y, LastWith(RewrittenItems(detect, All(q), q.queued, Queued, s), key))
    requires LastBetween(detect, q, s, key, y, end, LastWith(RewrittenItems(detect, All(q), q.failed, Failed, s), key))
    ensures LastBetween(detect, q, s, key, 0, end, LastWith(ChildItems(detect, q, s), key))
  {
    var a := RewrittenItems(detect, All(q), q.active, Running, s);
    var b := RewrittenItems(detect, All(q), q.queued, Queued, s);
    JoinBetween(detect, q, s, key, 0, x, y, a, b);
    JoinBetween(detect, q, s, key, 0, y, end, a + b, RewrittenItems(detect, All(q), q.failed, Failed, s));
  }

  // ---------------------------------------------------------------------------------------------
  // What the merged parent holds

  lemma LastOfMerged(candidates: seq<Expected>, key: Key)
    requires key != ""
    ensures LastWith(MergedItems(candidates), key) == LastWith(candidates, key)
  {
    var merged := MergedItems(candidates);
    LastWithIs(merged, key);
    LastWithIs(candidates, key);
    if LastWith(candidates, key).Some? {
      LastHasKey(candidates, key);
      LastCandidateWins(candidates, LastWith(candidates, key).value);
    }
    if LastWith(merged, key).Some? {
      var j :| 0 <= j < |merged| && merged[j].key == key && LastWith(merged, key).value == Normalized(merged[j])
               && forall l | j < l < |merged| :: merged[l].key != key;
      LastCandidateWins(candidates, merged[j]);
    }
  }

  lemma WithItemsReads(t: Task, additions: seq<Expected>, key: Key)
    requires key != ""
    ensures LastWith(WithItems(t, additions).expected, key) ==
            if LastWith(additions, key).Some? then LastWith(additions, key) else LastWith(t.expected, key)
  {
    var own := NormalizedAll(t.expected);
    LastOfMerged(own + additions, key);
    LastWithConcat(own, additions, key);
    LastWithNormalized(t.expected, key);
  }

  /** After the merge the parent of a batch is the first one, with what was added to it. */
  lemma MergedParent(detect: Url -> Mode, q: Queue, s: Source, u: Task)
    requires Sound(q) && Duplicates(detect, All(q)) != []
    requires u in All(MergeDuplicates(detect, q)) && ParentKey(detect, u) == Some(s)
    ensures First(detect, All(q), s).Some?
    ensures u == WithItems(First(detect, All(q), s).value, Additions(detect, q, s))
  {
    ParentIsFirst(detect, q, u);
    FirstFacts(detect, All(q), s);
    var kept := First(detect, All(q), s).value;
    assert ParentOk(kept);
  }

  lemma AdditionsAre(detect: Url -> Mode, q: Queue, s: Source, key: Key)
    ensures LastWith(Additions(detect, q, s), key) ==
            if LastWith(ChildItems(detect, q, s), key).Some? then LastWith(ChildItems(detect, q, s), key)
            else LastWith(DuplicateItems(detect, All(q), s), key)
  {
    var d := DuplicateItems(detect, All(q), s);
    var a := RewrittenItems(detect, All(q), q.active, Running, s);
    var b := RewrittenItems(detect, All(q), q.queued, Queued, s);
    var c := RewrittenItems(detect, All(q), q.failed, Failed, s);
    LastWithConcat(d, a + b + c, key);
    Regroup(d, a, b, c);
  }

  lemma Regroup(d: seq<Expected>, a: seq<Expected>, b: seq<Expected>, c: seq<Expected>)
    ensures d + (a + b + c) == d + a + b + c
  {}

  // ---------------------------------------------------------------------------------------------
  // What becomes of a queued task in the first pass

  /** A queued batch parent moves to the active tasks and waits for its children there; any other stays. */
  ghost predicate Sorted(t: Task, active: seq<Task>, queued: seq<Task>) {
    if IsBatch(t.mode) && t.expected != []
    then t.(status := WaitingChildren) in active && !HasId(queued, t.id)
    else t in queued
  }

  lemma {:induction false} FirstPassSorts(active: seq<Task>, queued: seq<Task>, t: Task)
    requires t in queued && !HasId(active, t.id) && Ids(queued)[t.id] == 1
    ensures var (a, kept) := RestoredFrom(active, queued); Sorted(t, a, kept)
    decreases |queued|
  {
    var first, rest := queued[0], queued[1..];
    assert queued == [first] + rest;
    IdsCons(first, rest);
    IdsFacts(rest);
    if first == t {
      var more := if Returns(active, t) then active + [Parked(t)] else active;
      RestoreQueuedMoves(more, rest);
    } else {
      assert t.id in Ids(rest);
      FirstPassSorts(if Returns(active, first) then active + [Parked(first)] else active, rest, t);
    }
  }

  /** Main result about the first pass: every queued batch parent waits among the active tasks afterwards and no
      longer in the queue, every other queued task stays, and active ones stay as they are. */
  lemma QueuedParentsReturn(q: Queue, t: Task)
    requires UniqueIds(All(q))
    ensures t in q.queued ==> Sorted(t, RestoreQueued(q).active, RestoreQueued(q).queued)
    ensures t in q.active ==> t in RestoreQueued(q).active
    ensures RestoreQueued(q).failed == q.failed
  {
    RestoreQueuedMoves(q.active, q.queued);
    AllIds(q);
    IdsFacts(q.active);
    IdsFacts(q.queued);
    assert Ids(All(q))[t.id] <= 1;
    if t in q.queued { FirstPassSorts(q.active, q.queued, t); }
  }

  // ---------------------------------------------------------------------------------------------
  // What a restored parent tracks

  /** The task at this position is a child whose parent is gone, with a page and a key. */
  predicate IsOrphanAt(q: Queue, id: Id, i: nat) {
    && i < |All(q)| && All(q)[i].parentId == id && id != "" && (forall t | t in q.active + q.queued :: t.id != id)
    && All(q)[i].sourceUrl != "" && All(q)[i].url != "" && All(q)[i].key != ""
  }

  /** The item says of this child how often its batch has tried it, where it stands and why it failed last. */
  predicate Retells(e: Expected, c: Task, section: Status) {
    && e.key == c.key && e.attempts == (if c.batchAttempts > 1 then c.batchAttempts else 1) && e.status == section
    && e.lastFailure <= c.message && |e.lastFailure| == (if |c.message| > 400 then 400 else |c.message|)
  }

  ghost predicate RetellsAt(q: Queue, id: Id, e: Expected, i: nat) {
    IsOrphanAt(q, id, i) && Retells(e, All(q)[i], SectionAt(q, i))
  }

  /** Main result: a restored parent is running, and tracks of its orphans exactly what each of them says. */
  lemma {:induction false} RestoredParentSays(detect: Url -> Mode, q: Queue, p: Task)
    requires p in Parents(detect, q)
    ensures p.status == Running && p.id != ""
    ensures forall i: nat | IsOrphanAt(q, p.id, i) ::
              exists e :: e in p.expected && Retells(e, All(q)[i], SectionAt(q, i))
    ensures forall e | e in p.expected :: exists i: nat :: RetellsAt(q, p.id, e, i)
  {
    var c := ParentOrigin(detect, q, p);
    var groups := Grouped(AllOrphans(q));
    RebuiltFacts(detect, groups);
    assert IsRebuilt(detect, groups, p);
    var g :| g in groups && IsAlive(g) && p == Rebuilt(detect, g);
    forall i: nat | IsOrphanAt(q, p.id, i)
      ensures exists e :: e in p.expected && Retells(e, All(q)[i], SectionAt(q, i))
    {
      var o := Child(All(q)[i], SectionAt(q, i));
      OrphanAt(q, p.id, i);
      OrphanIsIn(AllOrphans(q), g, o);
      assert Retells(ItemsOf(o)[0], All(q)[i], SectionAt(q, i));
    }
    forall e | e in p.expected ensures exists i: nat :: RetellsAt(q, p.id, e, i) {
      ItemsCome(AllOrphans(q), g, e);
      var o :| o in AllOrphans(q) && o.task.parentId == g.parentId && e in ItemsOf(o);
      var i := PositionOf(q, o);
      AllOrphansFacts(q, o);
      assert RetellsAt(q, p.id, e, i);
    }
  }

  lemma OrphanAt(q: Queue, id: Id, i: nat)
    requires IsOrphanAt(q, id, i)
    ensures Child(All(q)[i], SectionAt(q, i)) in AllOrphans(q)
  {
    OrphansFacts(Live(q), q.active, Running);
    OrphansFacts(Live(q), q.queued, Queued);
    OrphansFacts(Live(q), q.failed, Failed);
    assert IsOrphan(Live(q), All(q)[i]);
    if i < |q.active| { assert All(q)[i] in q.active; }
    else if i < |q.active| + |q.queued| { assert All(q)[i] == q.queued[i - |q.active|]; }
    else { assert All(q)[i] == q.failed[i - |q.active| - |q.queued|]; }
  }

  lemma PositionOf(q: Queue, o: Child) returns (i: nat)
    requires o in AllOrphans(q)
    ensures i < |All(q)| && All(q)[i] == o.task && SectionAt(q, i) == o.section
  {
    OrphansFacts(Live(q), q.active, Running);
    OrphansFacts(Live(q), q.queued, Queued);
    OrphansFacts(Live(q), q.failed, Failed);
    if o in Orphans(Live(q), q.active, Running) {
      i :| 0 <= i < |q.active| && q.active[i] == o.task;
    } else if o in Orphans(Live(q), q.queued, Queued) {
      var j :| 0 <= j < |q.queued| && q.queued[j] == o.task;
      i := |q.active| + j;
    } else {
      var j :| 0 <= j < |q.failed| && q.failed[j] == o.task;
      i := |q.active| + |q.queued| + j;
    }
  }

  // ---------------------------------------------------------------------------------------------
  // Main results, in the terms above

  /** The batch has a parent after the merge, and any such parent satisfies the rest. */
  lemma TheParent(detect: Url -> Mode, q: Queue, s: Source, kept: Task) returns (u: Task)
    requires Sound(q) && Duplicates(detect, All(q)) != [] && First(detect, All(q), s) == Some(kept)
    ensures u in All(MergeDuplicates(detect, q)) && ParentKey(detect, u) == Some(s) && u.id == kept.id
    ensures u == WithItems(kept, Additions(detect, q, s))
  {
    FirstFacts(detect, All(q), s);
    FirstIsKept(detect, All(q), s);
    Survives(detect, q, kept);
    assert ParentOk(kept);
    BecameFacts(detect, q, kept);
    u := Became(detect, q, kept);
    MergedParent(detect, q, s, u);
  }

  /** The parent has the child's new parent id, holds its key once, and if the child is the last that comes for its
      key, says what the child says. */
  ghost predicate IsFoundIn(detect: Url -> Mode, q: Queue, s: Source, key: Key, i: nat, u: Task)
    requires i < |All(q)|
  {
    && ParentKey(detect, u) == Some(s) && KeyCount(u.expected, key) == 1
    && (forall c | c in All(MergeDuplicates(detect, q)) && c.id == All(q)[i].id :: c.parentId == u.id)
    && ((forall j: nat | j > i :: !ComesAt(detect, q, s, key, j)) ==> Says(u, key, All(q)[i], SectionAt(q, i)))
  }

  ghost predicate Says(u: Task, key: Key, child: Task, section: Status) {
    exists e :: IsLastWith(u.expected, key, e) && StandsFor(e, child, section)
  }

  /** Main result: when a child with a page and a key changes hands, the parent of its batch holds its key exactly
      once; and the last such child of the key, in the order of the queue, decides what the item says: that it has
      been tried as often as the child, what the child does and why it failed. */
  lemma ChildrenAreFound(detect: Url -> Mode, q: Queue, s: Source, key: Key, i: nat)
    requires Sound(q) && key != "" && ComesAt(detect, q, s, key, i)
    ensures var after := All(MergeDuplicates(detect, q));
            exists u :: u in after && IsFoundIn(detect, q, s, key, i, u)
                        && forall v | v in after && ParentKey(detect, v) == Some(s) :: v == u
  {
    HandsChanged(detect, q, All(q)[i]);
    FirstFacts(detect, All(q), s);
    var kept := First(detect, All(q), s).value;
    var u := TheParent(detect, q, s, kept);
    forall v | v in All(MergeDuplicates(detect, q)) && ParentKey(detect, v) == Some(s) ensures v == u {
      MergedParent(detect, q, s, v);
    }
    NewParent(detect, q, All(q)[i], kept.id);
    ChildIsHeld(detect, q, s, key, i, kept);
  }

  lemma ChildIsHeld(detect: Url -> Mode, q: Queue, s: Source, key: Key, i: nat, kept: Task)
    requires Sound(q) && key != "" && ComesAt(detect, q, s, key, i) && Duplicates(detect, All(q)) != []
    ensures var u := WithItems(kept, Additions(detect, q, s));
            && KeyCount(u.expected, key) == 1
            && ((forall j: nat | j > i :: !ComesAt(detect, q, s, key, j)) ==> Says(u, key, All(q)[i], SectionAt(q, i)))
  {
    var u := WithItems(kept, Additions(detect, q, s));
    ChildrenAdd(detect, q, s, key);
    AdditionsAre(detect, q, s, key);
    HeldOnce(kept, Additions(detect, q, s), key);
    WithItemsReads(kept, Additions(detect, q, s), key);
    LastWithIs(u.expected, key);
  }

  lemma HeldOnce(t: Task, additions: seq<Expected>, key: Key)
    requires key != "" && LastWith(additions, key).Some?
    ensures KeyCount(WithItems(t, additions).expected, key) == 1
  {
    LastHasKey(additions, key);
    NoneWithKey(additions, key);
    LastWithIs(additions, key);
    WithItemsTracks(t, additions, key);
  }

  lemma NewParent(detect: Url -> Mode, q: Queue, t: Task, id: Id)
    requires Sound(q) && t in All(q) && ChangesHands(detect, q, t)
    requires var kept := First(detect, All(q), SourceOf(detect, t.sourceUrl)); kept.Some? && kept.value.id == id
    ensures forall c | c in All(MergeDuplicates(detect, q)) && c.id == t.id :: c.parentId == id
  {
    HandsChanged(detect, q, t);
    forall c | c in All(MergeDuplicates(detect, q)) && c.id == t.id ensures c.parentId == id {
      var v := AnySurvivorOf(detect, q, c);
      BecameFacts(detect, q, v);
      SameIdSameTask(All(q), t, v);
    }
  }

  /** The last position at which a parent of the batch tracks the key. */
  ghost predicate IsLastTracking(detect: Url -> Mode, q: Queue, s: Source, key: Key, i: nat) {
    && i < |All(q)| && TracksKey(detect, All(q)[i], s, key)
    && forall j: nat | i < j < |All(q)| :: !TracksKey(detect, All(q)[j], s, key)
  }

  /** Both end with the same item for the key. */
  ghost predicate SameLast(u: Task, p: Task, key: Key) {
    exists e :: IsLastWith(u.expected, key, e) && IsLastWith(p.expected, key, e)
  }

  /** Without such a child, the last parent of the batch that tracked the key decides, be it the kept one or a
      duplicate. */
  lemma ParentsCarryOver(detect: Url -> Mode, q: Queue, s: Source, key: Key, i: nat)
    requires Sound(q) && key != "" && (forall j: nat :: !ComesAt(detect, q, s, key, j))
    requires IsLastTracking(detect, q, s, key, i)
    ensures forall u | u in All(MergeDuplicates(detect, q)) && ParentKey(detect, u) == Some(s) ::
              SameLast(u, All(q)[i], key)
  {
    var p := All(q)[i];
    LastWithIs(p.expected, key);
    forall u | u in All(MergeDuplicates(detect, q)) && ParentKey(detect, u) == Some(s) ensures SameLast(u, p, key) {
      if Duplicates(detect, All(q)) == [] {
        OthersAreDuplicates(detect, All(q), u);
        OthersAreDuplicates(detect, All(q), p);
      } else {
        MergedParent(detect, q, s, u);
        LastParentIsRead(detect, q, s, key, i);
        LastWithIs(u.expected, key);
      }
    }
  }

  lemma LastParentIsRead(detect: Url -> Mode, q: Queue, s: Source, key: Key, i: nat)
    requires Sound(q) && key != "" && Duplicates(detect, All(q)) != []
    requires (forall j: nat :: !ComesAt(detect, q, s, key, j)) && IsLastTracking(detect, q, s, key, i)
    requires First(detect, All(q), s).Some?
    ensures var u := WithItems(First(detect, All(q), s).value, Additions(detect, q, s));
            LastWith(u.expected, key) == LastWith(All(q)[i].expected, key)
  {
    var all, kept := All(q), First(detect, All(q), s).value;
    WithItemsReads(kept, Additions(detect, q, s), key);
    AdditionsAre(detect, q, s, key);
    ChildrenAdd(detect, q, s, key);
    DuplicatesAdd(detect, all, s, key);
    LastWithIs(all[i].expected, key);
    var e := LastWith(DuplicateItems(detect, all, s), key);
    if e.Some? {
      var j: nat :| Decides(detect, all, s, key, e.value, j);
      assert i == j;
      SameLastItem(all[i].expected, key, e.value);
    } else {
      FirstAt(detect, all, s, i);
    }
  }

  lemma SameLastItem(items: seq<Expected>, key: Key, e: Expected)
    requires IsLastWith(items, key, e)
    ensures LastWith(items, key) == Some(e)
  {
    LastWithIs(items, key);
    var j :| 0 <= j < |items| && items[j].key == key && e == Normalized(items[j])
             && forall l | j < l < |items| :: items[l].key != key;
    assert items[j] in items;
  }

  lemma FirstAt(detect: Url -> Mode, all: seq<Task>, s: Source, i: nat)
    requires i < |all| && ParentKey(detect, all[i]) == Some(s) && First(detect, all[..i], s).None?
    ensures First(detect, all, s) == Some(all[i])
  {
    assert all[..i + 1][..i] == all[..i] && all == all[..i + 1] + all[i + 1..];
    FirstOfPrefix(detect, all[..i + 1], all[i + 1..], s);
  }

  /** And the parent holds no other key. */
  lemma NothingElseIsHeld(detect: Url -> Mode, q: Queue, s: Source, key: Key, u: Task)
    requires Sound(q) && key != "" && u in All(MergeDuplicates(detect, q)) && ParentKey(detect, u) == Some(s)
    requires KeyCount(u.expected, key) > 0
    ensures exists i: nat :: i < |All(q)| && (ComesAt(detect, q, s, key, i) || TracksKey(detect, All(q)[i], s, key))
  {
    LastWithIs(u.expected, key);
    NoneWithKey(u.expected, key);
    if Duplicates(detect, All(q)) == [] {
      var i :| 0 <= i < |All(q)| && All(q)[i] == u;
    } else {
      MergedParent(detect, q, s, u);
      FirstFacts(detect, All(q), s);
      var kept := First(detect, All(q), s).value;
      var i :| 0 <= i < |All(q)| && All(q)[i] == kept;
      WithItemsReads(kept, Additions(detect, q, s), key);
      AdditionsAre(detect, q, s, key);
      ChildrenAdd(detect, q, s, key);
      DuplicatesAdd(detect, All(q), s, key);
      LastWithIs(kept.expected, key);
    }
  }

  // ---------------------------------------------------------------------------------------------
  // What the merge leaves alone

  /** No other parent tracks the batch, and no child comes to it. */
  ghost predicate NothingToAdd(detect: Url -> Mode, q: Queue, t: Task, s: Source) {
    && (forall p | p in All(q) && ParentKey(detect, p) == Some(s) :: p == t)
    && forall key, i: nat | key != "" :: !ComesAt(detect, q, s, key, i)
  }

  /** The merge leaves a task exactly as it is, stored items and all, that does not change hands and, if it is a
      parent, is alone with its batch and has nothing to add. */
  lemma OthersUntouched(detect: Url -> Mode, q: Queue, t: Task)
    requires Sound(q) && t in All(q) && !ChangesHands(detect, q, t)
    requires ParentKey(detect, t).Some? ==> NothingToAdd(detect, q, t, ParentKey(detect, t).value)
    ensures StaysIn(q, t, MergeDuplicates(detect, q), t)
  {
    if Duplicates(detect, All(q)) != [] {
      NoDuplicate(detect, q, t);
      HandsChanged(detect, q, t);
      if ParentKey(detect, t).Some? {
        var s := ParentKey(detect, t).value;
        NoDuplicateItems(detect, All(q), s, t);
        NoChildItems(detect, q, q.active, Running, s);
        NoChildItems(detect, q, q.queued, Queued, s);
        NoChildItems(detect, q, q.failed, Failed, s);
        assert Additions(detect, q, s) == [];
      }
      assert Became(detect, q, t) == t;
      SectionFacts(detect, q, q.active);
      SectionFacts(detect, q, q.queued);
      SectionFacts(detect, q, q.failed);
    }
  }

  lemma NoDuplicate(detect: Url -> Mode, q: Queue, t: Task)
    requires Sound(q) && t in All(q)
    requires ParentKey(detect, t).Some? ==> NothingToAdd(detect, q, t, ParentKey(detect, t).value)
    ensures !HasId(Duplicates(detect, All(q)), t.id)
  {
    DuplicatesAmong(detect, All(q));
    if HasId(Duplicates(detect, All(q)), t.id) {
      var d :| d in Duplicates(detect, All(q)) && d.id == t.id;
      SameIdSameTask(All(q), d, t);
      var s := ParentKey(detect, t).value;
      OthersAreDuplicates(detect, All(q), t);
      FirstFacts(detect, All(q), s);
      FirstIsKept(detect, All(q), s);
    }
  }

  lemma {:induction false} NoDuplicateItems(detect: Url -> Mode, all: seq<Task>, s: Source, t: Task)
    requires UniqueIds(all) && forall p | p in all && ParentKey(detect, p) == Some(s) :: p == t
    ensures DuplicateItems(detect, all, s) == []
    decreases |all|
  {
    if all != [] {
      var init, last := all[..|all| - 1], all[|all| - 1];
      assert all == init + [last];
      IdsSplit(init, last);
      assert forall id :: Ids(init)[id] <= Ids(all)[id];
      assert Ids(all)[last.id] <= 1;
      IdsFacts(init);
      FirstFacts(detect, init, s);
      NoDuplicateItems(detect, init, s, t);
    }
  }

  lemma {:induction false} NoChildItems(detect: Url -> Mode, q: Queue, tasks: seq<Task>, section: Status, s: Source)
    requires Sound(q) && Duplicates(detect, All(q)) != [] && forall u | u in tasks :: u in All(q)
    requires forall key, i: nat | key != "" :: !ComesAt(detect, q, s, key, i)
    ensures RewrittenItems(detect, All(q), tasks, section, s) == []
    decreases |tasks|
  {
    if tasks != [] {
      var init, last := tasks[..|tasks| - 1], tasks[|tasks| - 1];
      assert tasks == init + [last];
      NoChildItems(detect, q, init, section, s);
      NothingNoted(detect, q, last, section, s);
    }
  }

  lemma NothingNoted(detect: Url -> Mode, q: Queue, t: Task, section: Status, s: Source)
    requires Sound(q) && Duplicates(detect, All(q)) != [] && t in All(q)
    requires forall key, i: nat | key != "" :: !ComesAt(detect, q, s, key, i)
    ensures Noted(detect, All(q), t, section, s) == []
  {
    var i :| 0 <= i < |All(q)| && All(q)[i] == t;
    ComingIsNoted(detect, q, s, t.key, i);
  }

  /** A parent that is itself a child and changes hands takes its own items along as they are: it is a copy, which
      nothing is added to. */
  lemma ParentAsChild(detect: Url -> Mode, q: Queue, t: Task)
    requires UniqueIds(All(q)) && t in All(q) && !HasId(Duplicates(detect, All(q)), t.id)
    requires Duplicates(detect, All(q)) != [] && Rewritten(detect, All(q), t).parentId != t.parentId
    ensures t.(parentId := Rewritten(detect, All(q), t).parentId) in All(MergeDuplicates(detect, q))
  {
    var u := Rewritten(detect, All(q), t);
    Survives(detect, q, t);
    var s := ParentKey(detect, u);
    if s.Some? {
      FirstFacts(detect, All(q), s.value);
      if First(detect, All(q), s.value) == Some(u) { SameIdSameTask(All(q), t, u); }
    }
  }
}
