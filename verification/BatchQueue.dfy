/** The archive queue as the recovery passes see it, and what they look up in it
    (app/services/archive_worker.py). */
module BatchQueue {
  import opened BatchItems
  import opened Wrappers

  type Id = string
  type Url = string

  datatype Mode = AuthorUpload | CollectionModels | OtherMode(name: string)

  predicate IsBatch(mode: Mode) {
    !mode.OtherMode?
  }

  /** A queue item; "" and [] where the source has nothing. A batch parent has expected items; a child names
      its parent and the page the batch was made from. */
  datatype Task = Task(id: Id, url: Url, mode: Mode, status: Status, expected: seq<Expected>,
                       parentId: Id, sourceUrl: Url, key: Key,
                       batchAttempts: int, attemptCount: int, message: string)

  datatype Queue = Queue(active: seq<Task>, queued: seq<Task>, failed: seq<Task>)

  function Live(q: Queue): seq<Task> { q.active + q.queued }

  function All(q: Queue): seq<Task> { q.active + q.queued + q.failed }

  /** How the source tells batches apart: mode and page. */
  datatype Source = Source(mode: Mode, url: Url)

  /** The batch a parent tracks. */
  function ParentKey(detect: Url -> Mode, t: Task): Option<Source> {
    var mode := if IsBatch(t.mode) then t.mode else detect(t.url);
    if t.expected == [] || t.url == "" || !IsBatch(mode) then None else Some(Source(mode, t.url))
  }

  /** Parents of one page track one batch when they say the same mode, or when one of them says none and the page
      stands for the mode of the other; without a batch mode of either kind a task tracks none. */
  lemma SamePageSameBatch(detect: Url -> Mode, t: Task, u: Task)
    requires t.expected != [] && u.expected != [] && t.url == u.url != ""
    ensures ParentKey(detect, t).Some? <==> IsBatch(t.mode) || IsBatch(detect(t.url))
    ensures IsBatch(t.mode) && u.mode == t.mode ==> ParentKey(detect, t) == ParentKey(detect, u)
    ensures !IsBatch(t.mode) && IsBatch(u.mode) && u.mode == detect(t.url) ==>
              ParentKey(detect, t) == ParentKey(detect, u)
    ensures IsBatch(t.mode) && IsBatch(u.mode) && t.mode != u.mode ==> ParentKey(detect, t) != ParentKey(detect, u)
  {}

  /** The batch a page stands for. */
  function SourceOf(detect: Url -> Mode, url: Url): Source {
    Source(if IsBatch(detect(url)) then detect(url) else AuthorUpload, url)
  }

  // ---------------------------------------------------------------------------------------------
  // Identifiers

  function Ids(tasks: seq<Task>): multiset<Id> {
    if tasks == [] then multiset{} else multiset{tasks[0].id} + Ids(tasks[1..])
  }

  ghost predicate UniqueIds(tasks: seq<Task>) {
    forall id :: Ids(tasks)[id] <= 1
  }

  predicate HasId(tasks: seq<Task>, id: Id) {
    exists t :: t in tasks && t.id == id
  }

  lemma {:induction false} IdsConcat(a: seq<Task>, b: seq<Task>)
    ensures Ids(a + b) == Ids(a) + Ids(b)
    decreases |a|
  {
    if a == [] {
      assert a + b == b;
    } else {
      assert (a + b)[1..] == a[1..] + b;
      IdsConcat(a[1..], b);
    }
  }

  lemma IdsSplit(a: seq<Task>, last: Task)
    ensures Ids(a + [last]) == Ids(a) + multiset{last.id}
  {
    IdsConcat(a, [last]);
    assert [last][1..] == [];
  }

  lemma IdsCons(first: Task, rest: seq<Task>)
    ensures Ids([first] + rest) == multiset{first.id} + Ids(rest)
  {
    assert ([first] + rest)[1..] == rest;
  }

  lemma {:induction false} IdsFacts(tasks: seq<Task>)
    ensures forall t | t in tasks :: t.id in Ids(tasks)
    ensures forall id | id in Ids(tasks) :: HasId(tasks, id)
    decreases |tasks|
  {
    if tasks != [] {
      IdsFacts(tasks[1..]);
      forall id | id in Ids(tasks) ensures HasId(tasks, id) {
        if id != tasks[0].id {
          assert HasId(tasks[1..], id);
          var t :| t in tasks[1..] && t.id == id;
          assert t in tasks;
        } else {
          assert tasks[0] in tasks;
        }
      }
    }
  }

  /** With unique ids a task is known by its id. */
  lemma {:induction false} SameIdSameTask(tasks: seq<Task>, t: Task, u: Task)
    requires UniqueIds(tasks) && t in tasks && u in tasks && t.id == u.id
    ensures t == u
    decreases |tasks|
  {
    IdsFacts(tasks[1..]);
    assert Ids(tasks)[t.id] <= 1;
    if t != tasks[0] && u != tasks[0] {
      assert forall id :: Ids(tasks[1..])[id] <= Ids(tasks)[id];
      SameIdSameTask(tasks[1..], t, u);
    }
  }

  lemma AllIds(q: Queue)
    ensures Ids(All(q)) == Ids(q.active) + Ids(q.queued) + Ids(q.failed)
    ensures Ids(Live(q)) == Ids(q.active) + Ids(q.queued)
    ensures All(q) == Live(q) + q.failed
  {
    IdsConcat(q.active, q.queued);
    IdsConcat(q.active + q.queued, q.failed);
  }

  // ---------------------------------------------------------------------------------------------
  // Items counted by key

  function KeyCount(items: seq<Expected>, key: Key): nat {
    if items == [] then 0 else (if items[0].key == key then 1 else 0) + KeyCount(items[1..], key)
  }

  lemma {:induction false} KeyCountConcat(a: seq<Expected>, b: seq<Expected>, key: Key)
    ensures KeyCount(a + b, key) == KeyCount(a, key) + KeyCount(b, key)
    decreases |a|
  {
    if a == [] {
      assert a + b == b;
    } else {
      assert (a + b)[1..] == a[1..] + b;
      KeyCountConcat(a[1..], b, key);
    }
  }

  lemma {:induction false} KeyCountNormalized(items: seq<Expected>, key: Key)
    ensures KeyCount(NormalizedAll(items), key) == KeyCount(items, key)
    decreases |items|
  {
    if items != [] {
      assert NormalizedAll(items)[1..] == NormalizedAll(items[1..]);
      KeyCountNormalized(items[1..], key);
    }
  }

  // ---------------------------------------------------------------------------------------------
  // Merging what two parents track

  /** Replace the item with this key where it stands, or add it at the end. */
  function Put(items: seq<Expected>, item: Expected): seq<Expected> {
    if items == [] then [item]
    else if items[0].key == item.key then [item] + items[1..]
    else [items[0]] + Put(items[1..], item)
  }

  function MergedItems(candidates: seq<Expected>): seq<Expected>
    decreases |candidates|
  {
    if candidates == [] then []
    else
      var before, item := MergedItems(candidates[..|candidates| - 1]), Normalized(candidates[|candidates| - 1]);
      if item.key == "" then before else Put(before, item)
  }

  /** The last candidate with this key. */
  function LastWith(candidates: seq<Expected>, key: Key): Option<Expected>
    decreases |candidates|
  {
    if candidates == [] then None
    else
      var last := candidates[|candidates| - 1];
      if last.key == key then Some(Normalized(last)) else LastWith(candidates[..|candidates| - 1], key)
  }

  lemma {:induction false} PutFacts(items: seq<Expected>, item: Expected, key: Key)
    ensures KeyCount(Put(items, item), key) ==
            if key == item.key && KeyCount(items, key) == 0 then 1 else KeyCount(items, key)
    ensures KeyCount(items, item.key) <= 1 ==>
              forall e :: e in Put(items, item) <==> e == item || (e in items && e.key != item.key)
    decreases |items|
  {
    if items != [] {
      if items[0].key == item.key {
        assert Put(items, item)[1..] == items[1..];
        if KeyCount(items, item.key) <= 1 {
          NoneWithKey(items[1..], item.key);
          assert items == [items[0]] + items[1..];
        }
      } else {
        PutFacts(items[1..], item, key);
        assert Put(items, item)[1..] == Put(items[1..], item);
        assert items == [items[0]] + items[1..];
      }
    }
  }

  lemma {:induction false} NoneWithKey(items: seq<Expected>, key: Key)
    ensures KeyCount(items, key) == 0 <==> forall e | e in items :: e.key != key
    decreases |items|
  {
    if items != [] {
      NoneWithKey(items[1..], key);
      assert items == [items[0]] + items[1..];
    }
  }

  /** Main result about merging item lists: every key that occurs, and only those, is tracked exactly once. */
  lemma {:induction false} MergeTracksOnce(candidates: seq<Expected>, key: Key)
    ensures KeyCount(MergedItems(candidates), key) == if key != "" && KeyCount(candidates, key) > 0 then 1 else 0
    decreases |candidates|
  {
    if candidates != [] {
      var init, last := candidates[..|candidates| - 1], candidates[|candidates| - 1];
      MergeTracksOnce(init, key);
      assert candidates == init + [last];
      KeyCountConcat(init, [last], key);
      assert [last][1..] == [];
      PutFacts(MergedItems(init), Normalized(last), key);
    }
  }

  /** And the tracked item is the last candidate: its attempts and status win, whatever came before. */
  lemma {:induction false} LastCandidateWins(candidates: seq<Expected>, item: Expected)
    ensures item in MergedItems(candidates) <==> item.key != "" && LastWith(candidates, item.key) == Some(item)
    decreases |candidates|
  {
    if candidates != [] {
      var init, last := candidates[..|candidates| - 1], Normalized(candidates[|candidates| - 1]);
      LastCandidateWins(init, item);
      MergeTracksOnce(init, last.key);
      PutFacts(MergedItems(init), last, last.key);
      LastHasKey(init, item.key);
    }
  }

  lemma {:induction false} LastHasKey(candidates: seq<Expected>, key: Key)
    ensures LastWith(candidates, key).Some? ==> LastWith(candidates, key).value.key == key
    decreases |candidates|
  {
    if candidates != [] { LastHasKey(candidates[..|candidates| - 1], key); }
  }

  /** The merge as the source does it: a dictionary and the order in which keys were first seen. */
  method MergeExpectedItems(candidates: seq<Expected>) returns (items: seq<Expected>)
    ensures items == MergedItems(candidates)
  {
    var merged: map<Key, Expected> := map[];
    var order: seq<Key> := [];
    var i := 0;
    while i < |candidates|
      invariant 0 <= i <= |candidates|
      invariant Shows(merged, order, MergedItems(candidates[..i]), ItemKey)
    {
      var item := Normalized(candidates[i]);
      assert candidates[..i + 1][..i] == candidates[..i];
      if item.key != "" {
        PutShown(merged, order, MergedItems(candidates[..i]), item);
        if item.key !in merged { order := order + [item.key]; }
        merged := merged[item.key := item];
      }
      i := i + 1;
    }
    assert candidates[..i] == candidates;
    items := seq(|order|, j requires 0 <= j < |order| && order[j] in merged => merged[order[j]]);
  }

  function ItemKey(item: Expected): Key { item.key }

  lemma PutShown(merged: map<Key, Expected>, order: seq<Key>, items: seq<Expected>, item: Expected)
    requires Shows(merged, order, items, ItemKey)
    ensures Shows(merged[item.key := item], if item.key in merged then order else order + [item.key],
                  Put(items, item), ItemKey)
  {
    PutAt(items, item);
    if item.key in merged {
      var j :| 0 <= j < |order| && order[j] == item.key;
      ShowsReplaced(merged, order, items, ItemKey, j, item);
      assert items[j].key == item.key;
    } else {
      ShowsAppended(merged, order, items, ItemKey, item);
      assert forall j | 0 <= j < |items| :: order[j] in merged;
    }
  }

  lemma {:induction false} PutAt(items: seq<Expected>, item: Expected)
    requires forall j, l | 0 <= j < l < |items| :: items[j].key != items[l].key
    ensures (forall j | 0 <= j < |items| :: items[j].key != item.key) ==> Put(items, item) == items + [item]
    ensures forall j | 0 <= j < |items| && items[j].key == item.key :: Put(items, item) == items[j := item]
    decreases |items|
  {
    if items != [] && items[0].key != item.key {
      var rest := items[1..];
      PutAt(rest, item);
      assert forall j | 0 <= j < |rest| :: rest[j] == items[j + 1];
      forall j | 0 <= j < |items| && items[j].key == item.key ensures Put(items, item) == items[j := item] {
        assert rest[j - 1].key == item.key;
      }
    }
  }
}
