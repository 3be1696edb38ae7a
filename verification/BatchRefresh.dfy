/** One refresh of the batch tasks (app/services/archive_worker.py): every expected item is classified
    against the queue, and lost or transiently failed ones are enqueued again, within limits. */
module BatchRefresh {
  import opened BatchItems

  const REQUEUE_LIMIT := 3
  const TRANSIENT_LIMIT := 5

  /** What one refresh sees: task keys running, failed with their messages, and archived; and which
      messages name a transient failure. Failures of 3MF-only tasks are not among the failed. */
  datatype View = View(running: set<Key>, failed: map<Key, string>, archived: set<Key>, transient: string -> bool)

  datatype Outcome = IsRunning | IsQueued | IsRequeued | IsFailed | IsCompleted

  /** What becomes of one item, given the keys queued so far in this refresh. */
  function Refreshed(v: View, queued: set<Key>, item: Expected): (Expected, Outcome) {
    var key, attempts := item.key, item.attempts;
    if key in v.running then (item.(status := Running), IsRunning)
    else if key in queued then (item.(status := Queued), IsQueued)
    else if key in v.failed && key !in v.archived then
      var message := v.failed[key];
      var noted := if message != "" then item.(lastFailure := Clip(message)) else item;
      if v.transient(message) && attempts < TRANSIENT_LIMIT
      then (noted.(attempts := attempts + 1, status := Queued), IsRequeued)
      else (noted.(status := Failed), IsFailed)
    else if key in v.archived then (item.(status := Archived), IsCompleted)
    else if attempts < REQUEUE_LIMIT || (v.transient(item.lastFailure) && attempts < TRANSIENT_LIMIT)
    then (item.(attempts := attempts + 1, status := Queued), IsRequeued)
    else (item.(status := Failed), IsFailed)
  }

  /** Items after a refresh, the keys then queued, and the keys enqueued by it, in order. */
  datatype Pass = Pass(items: seq<Expected>, queued: set<Key>, requeued: seq<Key>)

  function RefreshedItems(v: View, queued: set<Key>, items: seq<Expected>): Pass
    decreases |items|
  {
    if items == [] then Pass([], queued, [])
    else
      var (item, outcome) := Refreshed(v, queued, items[0]);
      var again := outcome == IsRequeued;
      var rest := RefreshedItems(v, if again then queued + {item.key} else queued, items[1..]);
      Pass([item] + rest.items, rest.queued, (if again then [item.key] else []) + rest.requeued)
  }

  /** All batches of one refresh, one after the other: each sees what the earlier ones enqueued. */
  function RefreshedBatches(v: View, queued: set<Key>, batches: seq<seq<Expected>>): (seq<Pass>, seq<Key>)
    decreases |batches|
  {
    if batches == [] then ([], [])
    else
      var first := RefreshedItems(v, queued, NormalizedAll(batches[0]));
      var (rest, requeued) := RefreshedBatches(v, first.queued, batches[1..]);
      ([first] + rest, first.requeued + requeued)
  }

  function CountStatus(items: seq<Expected>, status: Status): nat {
    if items == [] then 0 else (if items[0].status == status then 1 else 0) + CountStatus(items[1..], status)
  }

  ghost predicate NoRepeats(keys: seq<Key>) {
    forall i, j | 0 <= i < j < |keys| :: keys[i] != keys[j]
  }

  // ---------------------------------------------------------------------------------------------
  // Conservation

  /** A refresh keeps every item in its place and settles its status. */
  lemma {:induction false} RefreshSettles(v: View, queued: set<Key>, items: seq<Expected>)
    ensures var after := RefreshedItems(v, queued, items).items;
            && |after| == |items|
            && forall i | 0 <= i < |items| ::
                after[i].key == items[i].key && after[i].status in {Running, Queued, Failed, Archived}
    decreases |items|
  {
    if items != [] {
      var (item, outcome) := Refreshed(v, queued, items[0]);
      RefreshSettles(v, if outcome == IsRequeued then queued + {item.key} else queued, items[1..]);
      assert forall i | 0 < i < |items| :: items[i] == items[1..][i - 1];
    }
  }

  /** Settled items are counted once each; none runs or waits exactly when all are archived or failed. */
  lemma {:induction false} SettledCounts(items: seq<Expected>)
    requires forall i | 0 <= i < |items| :: items[i].status in {Running, Queued, Failed, Archived}
    ensures CountStatus(items, Running) + CountStatus(items, Queued) + CountStatus(items, Failed)
            + CountStatus(items, Archived) == |items|
    ensures CountStatus(items, Running) == CountStatus(items, Queued) == 0 <==>
            forall i | 0 <= i < |items| :: items[i].status == Archived || items[i].status == Failed
    decreases |items|
  {
    if items != [] {
      SettledCounts(items[1..]);
      assert forall i | 0 < i < |items| :: items[i] == items[1..][i - 1];
    }
  }

  /** Main result: a refresh loses and adds no item, leaves each with exactly one of the four statuses,
      so those counts add up to the total; and the batch has nothing running or queued exactly when every
      item is archived or failed for good. */
  lemma RefreshConserves(v: View, queued: set<Key>, items: seq<Expected>)
    ensures var after := RefreshedItems(v, queued, items).items;
            && |after| == |items|
            && (forall i | 0 <= i < |items| :: after[i].key == items[i].key)
            && CountStatus(after, Running) + CountStatus(after, Queued) + CountStatus(after, Failed)
               + CountStatus(after, Archived) == |items|
            && (CountStatus(after, Running) == CountStatus(after, Queued) == 0 <==>
                  forall i | 0 <= i < |items| :: after[i].status == Archived || after[i].status == Failed)
  {
    RefreshSettles(v, queued, items);
    SettledCounts(RefreshedItems(v, queued, items).items);
  }

  /** What each status means: where the item's key was found. */
  ghost predicate StatusExplained(v: View, queuedAfter: set<Key>, after: Expected) {
    && (after.status == Running <==> after.key in v.running)
    && (after.status == Queued ==> after.key in queuedAfter)
    && (after.status == Archived <==> after.key in v.archived && after.key !in v.running && after.key !in queuedAfter)
    && (after.status == Failed ==> after.key !in v.running && after.key !in v.archived
                                   && (after.key in v.failed || after.attempts >= REQUEUE_LIMIT))
  }

  /** An item ends as archived exactly when its model is archived and no task for it runs or waits. */
  lemma {:induction false} RefreshExplainsStatus(v: View, queued: set<Key>, items: seq<Expected>, i: nat)
    requires i < |items|
    ensures |RefreshedItems(v, queued, items).items| == |items|
    ensures StatusExplained(v, RefreshedItems(v, queued, items).queued, RefreshedItems(v, queued, items).items[i])
    decreases |items|
  {
    RefreshSettles(v, queued, items);
    var (item, outcome) := Refreshed(v, queued, items[0]);
    var queued' := if outcome == IsRequeued then queued + {item.key} else queued;
    RefreshQueues(v, queued', items[1..]);
    if i > 0 { RefreshExplainsStatus(v, queued', items[1..], i - 1); }
  }

  /** Whether a refresh enqueues the item at this position. */
  predicate RequeuedAt(v: View, queued: set<Key>, items: seq<Expected>, i: nat)
    decreases |items|
  {
    i < |items| &&
    var (item, outcome) := Refreshed(v, queued, items[0]);
    if i == 0 then outcome == IsRequeued
    else RequeuedAt(v, if outcome == IsRequeued then queued + {item.key} else queued, items[1..], i - 1)
  }

  /** Every way an item can go. It is found running, or queued by now, or archived and without a task; otherwise
      it is lost or failed, and enqueued again if it may be. */
  ghost predicate GoesItsWay(v: View, queuedBefore: set<Key>, before: Expected, after: Expected, again: bool) {
    if before.key in v.running then !again && after == before.(status := Running)
    else if before.key in queuedBefore then !again && after == before.(status := Queued)
    else if before.key in v.archived then !again && after == before.(status := Archived)
    else
      && (again <==> MayGoAgain(v, before))
      && after.key == before.key
      && after.attempts == before.attempts + (if again then 1 else 0)
      && after.status == (if again then Queued else Failed)
      && (if before.key in v.failed && v.failed[before.key] != ""
          then after.lastFailure <= v.failed[before.key] && |after.lastFailure| <= 400
               && (after.lastFailure == v.failed[before.key] || |after.lastFailure| == 400)
          else after.lastFailure == before.lastFailure)
  }

  /** A failed item goes again after a transient failure only, up to five attempts; a lost one up to three, or up
      to five if its last failure was transient. */
  predicate MayGoAgain(v: View, item: Expected) {
    if item.key in v.failed then v.transient(v.failed[item.key]) && item.attempts < 5
    else item.attempts < 3 || (v.transient(item.lastFailure) && item.attempts < 5)
  }

  /** Main result: exactly what becomes of each item, given the keys that are queued once the items before it are
      done. In particular a failure that is not transient stays failed, with its attempts as they were. */
  lemma {:induction false} EachItemGoesItsWay(v: View, queued: set<Key>, items: seq<Expected>, i: nat)
    requires i < |items|
    ensures |RefreshedItems(v, queued, items).items| == |items|
    ensures GoesItsWay(v, RefreshedItems(v, queued, items[..i]).queued, items[i],
                       RefreshedItems(v, queued, items).items[i], RequeuedAt(v, queued, items, i))
    decreases |items|
  {
    RefreshSettles(v, queued, items);
    var (item, outcome) := Refreshed(v, queued, items[0]);
    if i == 0 {
      assert items[..0] == [];
    } else {
      assert items[..i][0] == items[0] && items[..i][1..] == items[1..][..i - 1];
      EachItemGoesItsWay(v, if outcome == IsRequeued then queued + {item.key} else queued, items[1..], i - 1);
    }
  }

  /** A key is enqueued at most once, only if nothing for it was running or queued, and never for an
      archived model. */
  lemma {:induction false} RefreshQueues(v: View, queued: set<Key>, items: seq<Expected>)
    ensures var pass := RefreshedItems(v, queued, items);
            && NoRepeats(pass.requeued)
            && pass.queued == queued + (set k | k in pass.requeued)
            && forall k | k in pass.requeued :: k !in queued && k !in v.running && k !in v.archived
    decreases |items|
  {
    if items != [] {
      var (item, outcome) := Refreshed(v, queued, items[0]);
      var queued' := if outcome == IsRequeued then queued + {item.key} else queued;
      RefreshQueues(v, queued', items[1..]);
    }
  }

  /** Main result: over all batches of one refresh, no task key is enqueued twice, and none that was
      running, queued or archived. */
  lemma {:induction false} EachKeyOncePerRefresh(v: View, queued: set<Key>, batches: seq<seq<Expected>>)
    ensures var requeued := RefreshedBatches(v, queued, batches).1;
            && NoRepeats(requeued)
            && forall k | k in requeued :: k !in queued && k !in v.running && k !in v.archived
    decreases |batches|
  {
    if batches != [] {
      var first := RefreshedItems(v, queued, NormalizedAll(batches[0]));
      RefreshQueues(v, queued, NormalizedAll(batches[0]));
      EachKeyOncePerRefresh(v, first.queued, batches[1..]);
      var rest := RefreshedBatches(v, first.queued, batches[1..]).1;
      var all := first.requeued + rest;
      forall i, j | 0 <= i < j < |all| ensures all[i] != all[j] {
        if i < |first.requeued| <= j { assert all[i] in first.requeued && all[j] in rest; }
      }
    }
  }

  /** The keys that the first i batches enqueue. */
  function EnqueuedBefore(v: View, queued: set<Key>, batches: seq<seq<Expected>>, i: nat): seq<Key>
    requires i <= |batches|
  {
    RefreshedBatches(v, queued, batches[..i]).1
  }

  lemma EnqueuedByFirst(v: View, queued: set<Key>, batches: seq<seq<Expected>>, i: nat)
    requires 0 < i <= |batches|
    ensures var first := RefreshedItems(v, queued, NormalizedAll(batches[0]));
            && EnqueuedBefore(v, queued, batches, i) ==
               first.requeued + EnqueuedBefore(v, first.queued, batches[1..], i - 1)
            && first.queued == queued + (set k | k in first.requeued)
  {
    RefreshQueues(v, queued, NormalizedAll(batches[0]));
    assert batches[..i][0] == batches[0] && batches[..i][1..] == batches[1..][..i - 1];
  }

  /** Each batch is refreshed in its turn, after what the batches before it enqueued. */
  lemma {:induction false} BatchesInTurn(v: View, queued: set<Key>, batches: seq<seq<Expected>>, i: nat)
    requires i < |batches|
    ensures |RefreshedBatches(v, queued, batches).0| == |batches|
    ensures RefreshedBatches(v, queued, batches).0[i] ==
            RefreshedItems(v, queued + (set k | k in EnqueuedBefore(v, queued, batches, i)), NormalizedAll(batches[i]))
    decreases |batches|
  {
    BatchCount(v, queued, batches);
    var first := RefreshedItems(v, queued, NormalizedAll(batches[0]));
    if i == 0 {
      assert batches[..0] == [];
      assert queued + (set k | k in EnqueuedBefore(v, queued, batches, 0)) == queued;
    } else {
      BatchesInTurn(v, first.queued, batches[1..], i - 1);
      EnqueuedByFirst(v, queued, batches, i);
      var below := EnqueuedBefore(v, first.queued, batches[1..], i - 1);
      assert first.queued + (set k | k in below) == queued + (set k | k in first.requeued + below);
    }
  }

  /** All that is enqueued is what the batches enqueue, one after the other. */
  lemma {:induction false} EnqueuedInTurn(v: View, queued: set<Key>, batches: seq<seq<Expected>>, i: nat)
    requires i < |batches|
    ensures |RefreshedBatches(v, queued, batches).0| == |batches|
    ensures EnqueuedBefore(v, queued, batches, i + 1) ==
            EnqueuedBefore(v, queued, batches, i) + RefreshedBatches(v, queued, batches).0[i].requeued
    decreases |batches|
  {
    BatchCount(v, queued, batches);
    EnqueuedByFirst(v, queued, batches, i + 1);
    var first := RefreshedItems(v, queued, NormalizedAll(batches[0]));
    if i == 0 {
      NoneEnqueued(v, queued, batches);
      NoneEnqueued(v, first.queued, batches[1..]);
    } else {
      EnqueuedByFirst(v, queued, batches, i);
      EnqueuedInTurn(v, first.queued, batches[1..], i - 1);
      var below := EnqueuedBefore(v, first.queued, batches[1..], i - 1);
      Regroup(first.requeued, below, RefreshedBatches(v, queued, batches).0[i].requeued);
    }
  }

  lemma NoneEnqueued(v: View, queued: set<Key>, batches: seq<seq<Expected>>)
    ensures EnqueuedBefore(v, queued, batches, 0) == []
  {
    assert batches[..0] == [];
  }

  lemma Regroup(a: seq<Key>, b: seq<Key>, c: seq<Key>)
    ensures a + (b + c) == a + b + c
  {}

  lemma {:induction false} BatchCount(v: View, queued: set<Key>, batches: seq<seq<Expected>>)
    ensures |RefreshedBatches(v, queued, batches).0| == |batches|
    decreases |batches|
  {
    if batches != [] { BatchCount(v, RefreshedItems(v, queued, NormalizedAll(batches[0])).queued, batches[1..]); }
  }

  // ---------------------------------------------------------------------------------------------
  // Attempts over many refreshes

  /** A refresh of one batch, with the keys queued before it. */
  datatype Turn = Turn(view: View, queued: set<Key>)

  /** Refreshes of one batch, with any change of the queue, the archive and the failures in between. */
  function RefreshedOver(turns: seq<Turn>, items: seq<Expected>): seq<Expected>
    decreases |turns|
  {
    if turns == [] then items
    else RefreshedOver(turns[1..], RefreshedItems(turns[0].view, turns[0].queued, NormalizedAll(items)).items)
  }

  /** How often a refresh enqueued the item at this position. */
  function RequeuesAt(turns: seq<Turn>, items: seq<Expected>, i: nat): nat
    decreases |turns|
  {
    if turns == [] || i >= |items| then 0
    else
      var after := RefreshedItems(turns[0].view, turns[0].queued, NormalizedAll(items)).items;
      (if RequeuedAt(turns[0].view, turns[0].queued, NormalizedAll(items), i) then 1 else 0)
      + RequeuesAt(turns[1..], after, i)
  }

  function Max(x: int, y: int): int {
    if x >= y then x else y
  }

  lemma {:induction false} AttemptsInOneRefresh(v: View, queued: set<Key>, items: seq<Expected>, i: nat)
    requires i < |items|
    ensures |RefreshedItems(v, queued, items).items| == |items|
    ensures var before, after := items[i].attempts, RefreshedItems(v, queued, items).items[i].attempts;
            && after == before + (if RequeuedAt(v, queued, items, i) then 1 else 0)
            && (RequeuedAt(v, queued, items, i) ==> after <= TRANSIENT_LIMIT)
    decreases |items|
  {
    RefreshSettles(v, queued, items);
    if i > 0 {
      var (item, outcome) := Refreshed(v, queued, items[0]);
      AttemptsInOneRefresh(v, if outcome == IsRequeued then queued + {item.key} else queued, items[1..], i - 1);
    }
  }

  /** Main result: over any number of refreshes an item's attempts are its first ones plus one for each time
      it was enqueued, and never exceed five unless they did at the start; so an item that starts at one
      is enqueued again at most four times, whatever happens to its tasks. */
  lemma {:induction false} RetryBound(turns: seq<Turn>, items: seq<Expected>, i: nat)
    requires i < |items|
    ensures |RefreshedOver(turns, items)| == |items|
    ensures var first, last := Normalized(items[i]).attempts, Normalized(RefreshedOver(turns, items)[i]).attempts;
            && last == first + RequeuesAt(turns, items, i)
            && last <= Max(first, TRANSIENT_LIMIT)
            && (first == 1 ==> RequeuesAt(turns, items, i) <= 4)
    decreases |turns|
  {
    if turns != [] {
      AttemptsInOneRefresh(turns[0].view, turns[0].queued, NormalizedAll(items), i);
      var after := RefreshedItems(turns[0].view, turns[0].queued, NormalizedAll(items)).items;
      RetryBound(turns[1..], after, i);
    }
  }

  /** The bound is reached: five refreshes that each find nothing but a transient failure. */
  lemma BoundIsReached(key: Key, message: string)
    requires message != ""
    ensures var turn := Turn(View({}, map[key := message], {}, m => true), {});
            RequeuesAt([turn, turn, turn, turn, turn], [Expected(key, 1, NoStatus, "")], 0) == 4
  {
    var v := View({}, map[key := message], {}, m => true);
    var turn := Turn(v, {});
    var m := Clip(message);
    StepOnce(turn, [turn, turn, turn, turn], Expected(key, 1, NoStatus, ""), Expected(key, 2, Queued, m));
    StepOnce(turn, [turn, turn, turn], Expected(key, 2, Queued, m), Expected(key, 3, Queued, m));
    StepOnce(turn, [turn, turn], Expected(key, 3, Queued, m), Expected(key, 4, Queued, m));
    StepOnce(turn, [turn], Expected(key, 4, Queued, m), Expected(key, 5, Queued, m));
    StepOnce(turn, [], Expected(key, 5, Queued, m), Expected(key, 5, Failed, m));
  }

  lemma StepOnce(turn: Turn, rest: seq<Turn>, before: Expected, after: Expected)
    requires Refreshed(turn.view, turn.queued, Normalized(before)).0 == after
    ensures RequeuesAt([turn] + rest, [before], 0) ==
            (if Refreshed(turn.view, turn.queued, Normalized(before)).1 == IsRequeued then 1 else 0)
            + RequeuesAt(rest, [after], 0)
  {
    assert ([turn] + rest)[1..] == rest;
    assert NormalizedAll([before]) == [Normalized(before)];
    assert RefreshedItems(turn.view, turn.queued, [Normalized(before)]).items == [after];
  }

  // ---------------------------------------------------------------------------------------------
  // The loop of the source

  datatype Progress = Progress(total: nat, completed: nat, failed: nat, running: nat, queued: nat, remaining: nat)

  method RefreshBatch(v: View, queuedBefore: set<Key>, stored: seq<Expected>)
      returns (items: seq<Expected>, queued: set<Key>, requeued: seq<Key>, progress: Progress, done: bool)
    ensures Pass(items, queued, requeued) == RefreshedItems(v, queuedBefore, NormalizedAll(stored))
    ensures progress == Progress(|stored|, CountStatus(items, Archived), CountStatus(items, Failed),
                                 CountStatus(items, Running), CountStatus(items, Queued),
                                 CountStatus(items, Running) + CountStatus(items, Queued))
    ensures done <==> CountStatus(items, Running) == CountStatus(items, Queued) == 0
  {
    var tally;
    items, queued, requeued, tally := RefreshItems(v, queuedBefore, NormalizedAll(stored));
    var total := |stored|;
    progress := Progress(total, tally.completed, tally.failed, tally.running, tally.queued,
                         total - (tally.completed + tally.failed));
    done := tally.completed + tally.failed >= total && tally.running == 0 && tally.queued == 0;
  }

  method RefreshItems(v: View, queuedBefore: set<Key>, expected: seq<Expected>)
      returns (items: seq<Expected>, queued: set<Key>, requeued: seq<Key>, tally: Tally)
    ensures Pass(items, queued, requeued) == RefreshedItems(v, queuedBefore, expected)
    ensures tally == TallyOf(items) && tally.completed + tally.failed + tally.running + tally.queued == |expected|
  {
    tally := Tally(0, 0, 0, 0);
    items, queued, requeued := [], queuedBefore, [];
    ghost var whole := RefreshedItems(v, queuedBefore, expected);
    var i := 0;
    while i < |expected|
      invariant 0 <= i <= |expected|
      invariant OnTrack(v, whole, items, queued, requeued, expected[i..])
      invariant tally == TallyOf(items) && tally.completed + tally.failed + tally.running + tally.queued == i
    {
      StayOnTrack(v, whole, items, queued, requeued, expected, i);
      var outcome;
      items, outcome, tally := RefreshNext(v, queued, items, expected[i], tally);
      if outcome == IsRequeued {
        queued := queued + {expected[i].key};
        requeued := requeued + [expected[i].key];
      }
      i := i + 1;
    }
    assert OnTrack(v, whole, items, queued, requeued, []);
  }

  lemma StayOnTrack(v: View, whole: Pass, items: seq<Expected>, queued: set<Key>, requeued: seq<Key>,
                    expected: seq<Expected>, i: nat)
    requires i < |expected| && OnTrack(v, whole, items, queued, requeued, expected[i..])
    ensures var (item, outcome) := Refreshed(v, queued, expected[i]);
            if outcome == IsRequeued
            then OnTrack(v, whole, items + [item], queued + {expected[i].key}, requeued + [expected[i].key],
                         expected[i + 1..])
            else OnTrack(v, whole, items + [item], queued, requeued, expected[i + 1..])
  {
    JoinOne(v, queued, expected[i..], items, requeued);
    assert expected[i..][0] == expected[i] && expected[i..][1..] == expected[i + 1..];
    assert requeued + [] == requeued;
  }

  datatype Tally = Tally(completed: nat, failed: nat, running: nat, queued: nat)

  function TallyOf(items: seq<Expected>): Tally {
    Tally(CountStatus(items, Archived), CountStatus(items, Failed), CountStatus(items, Running),
          CountStatus(items, Queued))
  }

  /** One turn of the loop: classify the next item and count it. */
  method RefreshNext(v: View, queued: set<Key>, items: seq<Expected>, next: Expected, before: Tally)
      returns (more: seq<Expected>, outcome: Outcome, tally: Tally)
    requires before == TallyOf(items)
    ensures more == items + [Refreshed(v, queued, next).0] && outcome == Refreshed(v, queued, next).1
    ensures tally == TallyOf(more)
    ensures tally.completed + tally.failed + tally.running + tally.queued ==
            before.completed + before.failed + before.running + before.queued + 1
  {
    var (item, found) := Refreshed(v, queued, next);
    outcome := found;
    CountOneMore(items, item);
    more := items + [item];
    tally := match outcome
      case IsRunning => before.(running := before.running + 1)
      case IsQueued => before.(queued := before.queued + 1)
      case IsRequeued => before.(queued := before.queued + 1)
      case IsFailed => before.(failed := before.failed + 1)
      case IsCompleted => before.(completed := before.completed + 1);
  }

  /** What is done so far in front of what remains. */
  function Joined(items: seq<Expected>, requeued: seq<Key>, rest: Pass): Pass {
    Pass(items + rest.items, rest.queued, requeued + rest.requeued)
  }

  /** The whole pass is what is done so far and the pass over what remains. */
  ghost predicate OnTrack(v: View, whole: Pass, items: seq<Expected>, queued: set<Key>, requeued: seq<Key>,
                          rest: seq<Expected>)
  {
    whole == Joined(items, requeued, RefreshedItems(v, queued, rest))
  }

  lemma JoinOne(v: View, queued: set<Key>, rest: seq<Expected>, items: seq<Expected>, requeued: seq<Key>)
    requires rest != []
    ensures var (item, outcome) := Refreshed(v, queued, rest[0]);
            var again := outcome == IsRequeued;
            Joined(items, requeued, RefreshedItems(v, queued, rest)) ==
            Joined(items + [item], requeued + (if again then [item.key] else []),
                   RefreshedItems(v, if again then queued + {item.key} else queued, rest[1..]))
  {
    var (item, outcome) := Refreshed(v, queued, rest[0]);
    var again := outcome == IsRequeued;
    var below := RefreshedItems(v, if again then queued + {item.key} else queued, rest[1..]);
    var key := if again then [item.key] else [];
    assert items + ([item] + below.items) == items + [item] + below.items;
    assert requeued + (key + below.requeued) == requeued + key + below.requeued;
  }

  lemma {:induction false} CountOneMore(items: seq<Expected>, item: Expected)
    ensures forall s :: CountStatus(items + [item], s) == CountStatus(items, s) + (if item.status == s then 1 else 0)
    decreases |items|
  {
    if items != [] {
      assert (items + [item])[1..] == items[1..] + [item];
      CountOneMore(items[1..], item);
    }
  }
}
