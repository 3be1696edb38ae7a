/** The idle retry itself: at most one model per site and run (app/services/archive_worker.py). */
module IdleScheduler {
  import opened Wrappers
  import opened Platforms
  import opened IdleRetry

  datatype Answer = Accepted | Merged | Refused

  /** Whether a candidate's gate is open, and what a retry of it answers. */
  datatype World = World(open: Candidate -> bool, answer: Candidate -> Answer)

  datatype Tally = Tally(started: seq<Candidate>, accepted: nat, queued: nat, failed: nat, gated: nat)

  datatype Reason = Busy | Disabled | Scheduled | NothingEligible

  const NOTHING := Tally([], 0, 0, 0, 0)

  function Counted(w: World, t: Tally, c: Candidate): Tally {
    var more := t.(started := t.started + [c]);
    match w.answer(c)
    case Accepted => more.(accepted := t.accepted + 1)
    case Merged => more.(queued := t.queued + 1)
    case Refused => more.(failed := t.failed + 1)
  }

  /** One site's turn: skip candidates whose gate is closed, start the first other one. */
  function Turn(w: World, t: Tally, bucket: seq<Candidate>): Tally
    decreases |bucket|
  {
    if bucket == [] then t
    else if w.open(bucket[0]) then Counted(w, t, bucket[0])
    else Turn(w, t.(gated := t.gated + 1), bucket[1..])
  }

  /** A whole run: each site has one turn, as long as the limit allows. */
  function Chosen(w: World, limit: nat, cn: seq<Candidate>, global: seq<Candidate>): Tally {
    var first := if limit == 0 then NOTHING else Turn(w, NOTHING, cn);
    if |first.started| >= limit then first else Turn(w, first, global)
  }

  // ---------------------------------------------------------------------------------------------
  // What a run guarantees

  /** The first candidate whose gate is open; in a sorted bucket the oldest. */
  function FirstOpen(w: World, bucket: seq<Candidate>): Option<nat>
    ensures var r := FirstOpen(w, bucket);
            && (r.Some? ==> r.value < |bucket| && w.open(bucket[r.value])
                            && forall j | 0 <= j < r.value :: !w.open(bucket[j]))
            && (r.None? ==> forall j | 0 <= j < |bucket| :: !w.open(bucket[j]))
  {
    if bucket == [] then None
    else if w.open(bucket[0]) then Some(0)
    else
      assert forall j | 0 < j < |bucket| :: bucket[j] == bucket[1..][j - 1];
      match FirstOpen(w, bucket[1..])
      case None => None
      case Some(i) => Some(i + 1)
  }

  lemma {:induction false} TurnFacts(w: World, t: Tally, bucket: seq<Candidate>)
    ensures var first, after := FirstOpen(w, bucket), Turn(w, t, bucket);
            && after.started == t.started + (if first.Some? then [bucket[first.value]] else [])
            && after.gated == t.gated + (if first.Some? then first.value else |bucket|)
            && after.accepted + after.queued + after.failed ==
               t.accepted + t.queued + t.failed + (if first.Some? then 1 else 0)
    decreases |bucket|
  {
    if bucket != [] && !w.open(bucket[0]) { TurnFacts(w, t.(gated := t.gated + 1), bucket[1..]); }
  }

  /** No candidate of this site that could be retried is older. */
  ghost predicate IsOldestOpen(w: World, now: int, candidates: seq<Candidate>, c: Candidate) {
    && c in candidates && !Cooling(now, c) && w.open(c)
    && forall d | d in candidates && d.key.platform == c.key.platform && !Cooling(now, d) && w.open(d) :: Leq(c, d)
  }

  /** Main result: a run starts at most one model per site and no more than the limit, always the oldest of its
      site that is out of cooldown and not gated; and every start is answered in exactly one way. */
  lemma RunChoosesWell(w: World, limit: nat, now: int, items: seq<Missing>)
    ensures var all := Grouped(items);
            var t := Chosen(w, limit, Bucket(Cn, now, all), Bucket(Global, now, all));
            && |t.started| <= limit && |t.started| <= 2
            && (forall i, j | 0 <= i < j < |t.started| :: t.started[i].key.platform != t.started[j].key.platform)
            && (forall c | c in t.started :: IsOldestOpen(w, now, all, c))
            && t.accepted + t.queued + t.failed == |t.started|
  {
    var all := Grouped(items);
    var cn, global := Bucket(Cn, now, all), Bucket(Global, now, all);
    TurnFacts(w, NOTHING, cn);
    TurnFacts(w, Turn(w, NOTHING, cn), global);
    if FirstOpen(w, cn).Some? { FirstOpenIsOldest(w, now, all, Cn); }
    if FirstOpen(w, global).Some? { FirstOpenIsOldest(w, now, all, Global); }
  }

  lemma FirstOpenIsOldest(w: World, now: int, all: seq<Candidate>, p: Platform)
    requires FirstOpen(w, Bucket(p, now, all)).Some?
    ensures var bucket := Bucket(p, now, all);
            var c := bucket[FirstOpen(w, bucket).value];
            c.key.platform == p && IsOldestOpen(w, now, all, c)
  {
    BucketFacts(p, now, all);
    var bucket := Bucket(p, now, all);
    var i := FirstOpen(w, bucket).value;
    var c := bucket[i];
    assert c in bucket;
    forall d | d in all && d.key.platform == p && !Cooling(now, d) && w.open(d) ensures Leq(c, d) {
      assert d in bucket;
      var j :| 0 <= j < |bucket| && bucket[j] == d;
      if j == i { LexReflexive(d.key.name); }
    }
  }

  lemma LexReflexive(name: string)
    ensures LexLeq(name, name)
  {
    LexTotal(name, name);
  }

  /** And it leaves a site out only if the limit is used up or none of its candidates could be retried. */
  lemma {:induction false} RunLeavesNoneOut(w: World, limit: nat, now: int, items: seq<Missing>, d: Candidate)
    requires d in Grouped(items) && !Cooling(now, d) && w.open(d)
    ensures var all := Grouped(items);
            var t := Chosen(w, limit, Bucket(Cn, now, all), Bucket(Global, now, all));
            |t.started| == limit || exists c :: c in t.started && c.key.platform == d.key.platform
  {
    var all := Grouped(items);
    var cn, global := Bucket(Cn, now, all), Bucket(Global, now, all);
    TurnFacts(w, NOTHING, cn);
    TurnFacts(w, Turn(w, NOTHING, cn), global);
    BucketFacts(d.key.platform, now, all);
    assert d in Bucket(d.key.platform, now, all);
    if FirstOpen(w, cn).Some? { FirstOpenIsOldest(w, now, all, Cn); }
    if FirstOpen(w, global).Some? { FirstOpenIsOldest(w, now, all, Global); }
  }

  /** How many of the started models were answered so. */
  function Answered(w: World, started: seq<Candidate>, answer: Answer): nat {
    if started == [] then 0 else (if w.answer(started[0]) == answer then 1 else 0) + Answered(w, started[1..], answer)
  }

  /** How many candidates stand before the first that is open. */
  function Passed(w: World, bucket: seq<Candidate>): nat {
    if bucket == [] || w.open(bucket[0]) then 0 else 1 + Passed(w, bucket[1..])
  }

  lemma {:induction false} PassedIs(w: World, bucket: seq<Candidate>)
    ensures Passed(w, bucket) == (if FirstOpen(w, bucket).Some? then FirstOpen(w, bucket).value else |bucket|)
    decreases |bucket|
  {
    if bucket != [] && !w.open(bucket[0]) { PassedIs(w, bucket[1..]); }
  }

  /** The run counts each start under its answer, and the candidates it passed over. */
  lemma RunCountsAnswers(w: World, limit: nat, cn: seq<Candidate>, global: seq<Candidate>)
    ensures var t := Chosen(w, limit, cn, global);
            && t.accepted == Answered(w, t.started, Accepted)
            && t.queued == Answered(w, t.started, Merged)
            && t.failed == Answered(w, t.started, Refused)
            && t.gated == (if limit == 0 then 0 else Passed(w, cn))
                          + (if limit == 0 || (limit == 1 && Passed(w, cn) < |cn|) then 0 else Passed(w, global))
  {
    TurnFacts(w, NOTHING, cn);
    TurnFacts(w, Turn(w, NOTHING, cn), global);
    PassedIs(w, cn);
    PassedIs(w, global);
    TurnCounts(w, NOTHING, cn);
    TurnCounts(w, Turn(w, NOTHING, cn), global);
  }

  /** The tally counts each start under its answer. */
  predicate CountsAnswers(w: World, t: Tally) {
    && t.accepted == Answered(w, t.started, Accepted) && t.queued == Answered(w, t.started, Merged)
    && t.failed == Answered(w, t.started, Refused)
  }

  lemma {:induction false} TurnCounts(w: World, t: Tally, bucket: seq<Candidate>)
    requires CountsAnswers(w, t)
    ensures CountsAnswers(w, Turn(w, t, bucket))
    decreases |bucket|
  {
    if bucket != [] {
      if w.open(bucket[0]) {
        OneMoreAnswer(w, t.started, bucket[0]);
      } else {
        TurnCounts(w, t.(gated := t.gated + 1), bucket[1..]);
      }
    }
  }

  lemma {:induction false} OneMoreAnswer(w: World, started: seq<Candidate>, c: Candidate)
    ensures forall a :: Answered(w, started + [c], a) == Answered(w, started, a) + (if w.answer(c) == a then 1 else 0)
    decreases |started|
  {
    if started == [] {
      assert [] + [c] == [c] && [c][1..] == [];
    } else {
      assert (started + [c])[1..] == started[1..] + [c];
      OneMoreAnswer(w, started[1..], c);
    }
  }

  // ---------------------------------------------------------------------------------------------
  // The loops of the source

  /** The inner loop: take candidates off the front until one is started. */
  method Visit(w: World, bucket: seq<Candidate>, before: Tally)
      returns (rest: seq<Candidate>, t: Tally, found: bool)
    ensures t == Turn(w, before, bucket) && |t.started| == |before.started| + (if found then 1 else 0)
    ensures |rest| <= |bucket| && (!found ==> rest == [])
  {
    rest, t, found := bucket, before, false;
    while rest != []
      invariant Turn(w, t, rest) == Turn(w, before, bucket)
      invariant |rest| <= |bucket| && t.started == before.started
      decreases |rest|
    {
      var candidate := rest[0];
      rest := rest[1..];
      if w.open(candidate) {
        t := Counted(w, t, candidate);
        found := true;
        return;
      }
      t := t.(gated := t.gated + 1);
    }
  }

  /** The outer loop. Its second round never starts anything: a site has been served or is empty by then. */
  method StartRetries(w: World, limit: nat, cnBucket: seq<Candidate>, globalBucket: seq<Candidate>) returns (t: Tally)
    ensures t == Chosen(w, limit, cnBucket, globalBucket)
  {
    t := NOTHING;
    var cn, global := cnBucket, globalBucket;
    var served: set<Platform> := {};
    while |t.started| < limit && (cn != [] || global != [])
      invariant if served == {} && cn == cnBucket && global == globalBucket then t == NOTHING
                else t == Chosen(w, limit, cnBucket, globalBucket)
                     && (|t.started| >= limit || ((Cn in served || cn == []) && (Global in served || global == [])))
      decreases 2 - |served|
    {
      var selected := false;
      ghost var before := served;
      if Cn !in served {
        cn, t, selected := Visit(w, cn, t);
        if selected { served := served + {Cn}; }
      }
      if |t.started| < limit && Global !in served {
        var found;
        global, t, found := Visit(w, global, t);
        if found { served := served + {Global}; }
        selected := selected || found;
      }
      if !selected { break; }
    }
  }

  /** The whole call: refused while the queue is busy or when no retry is allowed. */
  method RetryIdleMissing(w: World, queuedCount: nat, runningCount: nat, limit: Option<int>, concurrency: int,
                          items: seq<Missing>, now: int)
      returns (reason: Reason, accepted: bool, t: Tally, cooling: nat)
    ensures reason == Busy <==> queuedCount > 0 || runningCount > 0
    ensures reason == Disabled <==> reason != Busy && Allowed(limit, concurrency) == 0
    ensures reason in {Busy, Disabled} ==> t == Tally([], 0, 0, 0, 0) && !accepted
    ensures reason !in {Busy, Disabled} ==>
              && cooling == CoolingCount(now, Grouped(items))
              && t == Chosen(w, Allowed(limit, concurrency),
                             Bucket(Cn, now, Grouped(items)), Bucket(Global, now, Grouped(items)))
              && (reason == Scheduled <==> t.started != [])
              && (accepted <==> t.accepted > 0 || t.queued > 0)
  {
    reason, accepted, t, cooling := Busy, false, NOTHING, 0;
    if queuedCount > 0 || runningCount > 0 { return; }
    var allowed := Allowed(limit, concurrency);
    if allowed == 0 {
      reason := Disabled;
      return;
    }
    var cn, global;
    cn, global, cooling := RetryBuckets(items, now);
    t := StartRetries(w, allowed, cn, global);
    reason := if t.started != [] then Scheduled else NothingEligible;
    accepted := t.accepted > 0 || t.queued > 0;
  }

  /** A limit that is given counts between none and four; without one the worker's concurrency counts. */
  function Allowed(limit: Option<int>, concurrency: int): (allowed: nat)
    ensures limit.None? && concurrency >= 0 ==> allowed == concurrency
    ensures limit.Some? && 0 <= limit.value <= 4 ==> allowed == limit.value
    ensures limit.Some? ==> allowed <= 4 && (limit.value > 4 ==> allowed == 4)
    ensures (if limit.Some? then limit.value else concurrency) < 0 ==> allowed == 0
  {
    match limit
    case None => if concurrency <= 0 then 0 else concurrency
    case Some(n) => if n <= 0 then 0 else if n >= 4 then 4 else n
  }
}
