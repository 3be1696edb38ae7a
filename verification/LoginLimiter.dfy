/** The login-failure limiter (app/services/auth.py). Times are seconds as real numbers. */
module LoginLimiter {
  import opened Wrappers

  const WINDOW := 900.0
  const LOCK := 300.0
  const LIMIT := 5
  const MAX_KEYS := 2048
  const FALLBACK_TTL := 1800.0

  datatype Item = Item(firstSeen: real, lastSeen: real, count: nat, lockedUntil: real)

  type Items = map<string, Item>

  datatype Reservation = Reservation(allowed: bool, retryAfter: int)

  function Lookup(items: Items, key: string): Option<Item> {
    if key in items then Some(items[key]) else None
  }

  /** Conversion of a float to an integer: towards zero. */
  function Truncate(x: real): int {
    if x >= 0.0 then x.Floor else -(-x).Floor
  }

  function Max(x: int, y: int): int {
    if x >= y then x else y
  }

  function Backoff(item: Option<Item>, now: real): int {
    if item.None? || item.value.lockedUntil <= now then 0
    else Max(Truncate(item.value.lockedUntil - now), 1)
  }

  /** A zero timestamp reads as absent. */
  function LastSeen(item: Item): real {
    if item.lastSeen != 0.0 then item.lastSeen else item.firstSeen
  }

  predicate Stale(item: Item, now: real) {
    item.lockedUntil <= now && now - LastSeen(item) > FALLBACK_TTL
  }

  function Pruned(items: Items, now: real): Items {
    map k | k in items && !Stale(items[k], now) :: items[k]
  }

  function Recorded(item: Option<Item>, now: real): Item {
    var first := if item.Some? && item.value.firstSeen != 0.0 then item.value.firstSeen else now;
    var expired := now - first > WINDOW;
    var count := (if item.None? || expired then 0 else item.value.count) + 1;
    var locked := if item.None? then 0.0 else item.value.lockedUntil;
    Item(if expired then now else first, now, count, if count >= LIMIT then now + LOCK else locked)
  }

  /** One reservation while the number of keys stays under the cap. */
  function Reserve(items: Items, key: string, now: real, prune: bool): (Items, Reservation) {
    var kept := if prune then Pruned(items, now) else items;
    var wait := Backoff(Lookup(kept, key), now);
    if wait > 0 then (kept, Reservation(false, wait))
    else
      var item := Recorded(Lookup(kept, key), now);
      (kept[key := item], Reservation(true, Max(Truncate(item.lockedUntil - now), 0)))
  }

  datatype Request = Request(key: string, now: real)

  function Run(items: Items, requests: seq<Request>, prune: bool): (Items, seq<Reservation>)
    decreases |requests|
  {
    if requests == [] then (items, [])
    else
      var (items1, first) := Reserve(items, requests[0].key, requests[0].now, prune);
      var (items2, rest) := Run(items1, requests[1..], prune);
      (items2, [first] + rest)
  }

  /** Requests come in time order, from a positive time on. */
  predicate InOrder(requests: seq<Request>, now: real)
    decreases |requests|
  {
    now > 0.0 && (requests != [] ==> requests[0].now >= now && InOrder(requests[1..], requests[0].now))
  }

  predicate EndsBy(requests: seq<Request>, end: real) {
    forall r | r in requests :: r.now <= end
  }

  /** How many requests for the key were allowed. */
  function Admitted(items: Items, requests: seq<Request>, key: string): nat
    decreases |requests|
  {
    if requests == [] then 0
    else
      var (items1, first) := Reserve(items, requests[0].key, requests[0].now, true);
      (if requests[0].key == key && first.allowed then 1 else 0) + Admitted(items1, requests[1..], key)
  }

  /** What every reachable entry satisfies: each attempt from the fifth on locks the key for the lock
      period, so successive ones are that far apart, and all fall inside the entry's window. */
  ghost predicate WellTimed(item: Item, now: real) {
    && 0.0 < item.firstSeen <= item.lastSeen <= now
    && item.lastSeen - item.firstSeen <= WINDOW
    && 1 <= item.count <= 8
    && (item.count < LIMIT ==> item.lockedUntil <= item.lastSeen)
    && (item.count >= LIMIT ==> item.lockedUntil == item.lastSeen + LOCK
                                && item.lastSeen - item.firstSeen >= (item.count - LIMIT) as real * LOCK)
  }

  ghost predicate Valid(items: Items, now: real) {
    forall k | k in items :: WellTimed(items[k], now)
  }

  lemma RecordedIsWellTimed(item: Option<Item>, now: real)
    requires now > 0.0 && (item.Some? ==> WellTimed(item.value, now)) && Backoff(item, now) == 0
    ensures WellTimed(Recorded(item, now), now)
  {}

  lemma ReserveKeepsValid(items: Items, key: string, from: real, now: real, prune: bool)
    requires 0.0 < from <= now && Valid(items, from)
    ensures Valid(Reserve(items, key, now, prune).0, now)
  {
    var kept := if prune then Pruned(items, now) else items;
    if Backoff(Lookup(kept, key), now) == 0 {
      RecordedIsWellTimed(Lookup(kept, key), now);
    }
  }

  // ---------------------------------------------------------------------------------------------
  // The bound on allowed attempts

  /** How many lock periods that do not overlap can begin from one time to another. */
  function Locks(from: real, end: real): int {
    if from > end then 0 else ((end - from) / LOCK).Floor + 1
  }

  /** How many windows fit between two times. */
  function Windows(start: real, end: real): int {
    ((end - start) / WINDOW).Floor
  }

  lemma LocksShrink(early: real, late: real, end: real)
    requires early <= late
    ensures 0 <= Locks(late, end) <= Locks(early, end)
    ensures early <= end && late - early >= LOCK ==> Locks(late, end) + 1 <= Locks(early, end)
  {
    if late <= end {
      assert (end - early) / LOCK - (end - late) / LOCK == (late - early) / LOCK;
      assert late - early >= LOCK ==> (late - early) / LOCK >= 1.0;
    }
  }

  lemma WindowsShrink(early: real, late: real, end: real)
    requires early <= late <= end
    ensures 0 <= Windows(late, end) <= Windows(early, end)
    ensures late - early > WINDOW ==> Windows(late, end) + 1 <= Windows(early, end)
    ensures late - early <= WINDOW ==> Windows(early, end) <= Windows(late, end) + 1
  {
    assert (end - early) / WINDOW - (end - late) / WINDOW == (late - early) / WINDOW;
    assert late - early > WINDOW ==> (late - early) / WINDOW > 1.0;
  }

  predicate IsOpen(item: Option<Item>, now: real) {
    item.Some? && now - item.value.firstSeen <= WINDOW
  }

  /** When the next attempt can be allowed. */
  function Unlocked(item: Option<Item>, now: real): real {
    if item.Some? && item.value.lockedUntil > now then item.value.lockedUntil else now
  }

  /** Attempts that can still be allowed without a lock: the first four of each window. */
  ghost function Free(item: Option<Item>, now: real, end: real): int {
    if IsOpen(item, now)
    then Max(LIMIT - 1 - item.value.count, 0) + 4 * Windows(item.value.firstSeen, end)
    else 4 * (Windows(now, end) + 1)
  }

  /** Attempts that can still be allowed up to time end. */
  ghost function Budget(item: Option<Item>, now: real, end: real): int {
    Locks(Unlocked(item, now), end) + Free(item, now, end)
  }

  lemma BudgetShrinks(item: Option<Item>, now: real, later: real, end: real)
    requires now <= later <= end && (item.Some? ==> WellTimed(item.value, now))
    ensures 0 <= Budget(item, later, end) <= Budget(item, now, end)
    ensures item.Some? && Stale(item.value, later) ==> Budget(None, later, end) <= Budget(item, now, end)
  {
    LocksShrink(Unlocked(item, now), Unlocked(item, later), end);
    WindowsShrink(now, later, end);
    if item.Some? { WindowsShrink(item.value.firstSeen, later, end); }
  }

  lemma AttemptSpendsBudget(item: Option<Item>, now: real, end: real)
    requires 0.0 < now <= end && (item.Some? ==> WellTimed(item.value, now)) && Backoff(item, now) == 0
    ensures Budget(Some(Recorded(item, now)), now, end) + 1 <= Budget(item, now, end)
  {
    RecordedIsWellTimed(item, now);
    LocksShrink(now, now + LOCK, end);
  }

  lemma {:induction false} AdmittedWithinBudget(items: Items, requests: seq<Request>, key: string, now: real, end: real)
    requires InOrder(requests, now) && EndsBy(requests, end) && now <= end && Valid(items, now)
    ensures Admitted(items, requests, key) <= Budget(Lookup(items, key), now, end)
    decreases |requests|
  {
    if requests == [] {
      BudgetShrinks(Lookup(items, key), now, now, end);
    } else {
      var r := requests[0];
      assert r in requests && forall q | q in requests[1..] :: q in requests;
      ReserveKeepsValid(items, r.key, now, r.now, true);
      AdmittedWithinBudget(Reserve(items, r.key, r.now, true).0, requests[1..], key, r.now, end);
      RequestWithinBudget(items, r, key, now, end);
    }
  }

  lemma RequestWithinBudget(items: Items, r: Request, key: string, now: real, end: real)
    requires 0.0 < now <= r.now <= end && Valid(items, now)
    ensures var (after, reservation) := Reserve(items, r.key, r.now, true);
            Budget(Lookup(after, key), r.now, end) + (if r.key == key && reservation.allowed then 1 else 0)
            <= Budget(Lookup(items, key), now, end)
  {
    var before, kept := Lookup(items, key), Lookup(Pruned(items, r.now), key);
    BudgetShrinks(before, now, r.now, end);
    assert kept == before || (kept.None? && before.Some? && Stale(before.value, r.now));
    if r.key == key && Backoff(kept, r.now) == 0 { AttemptSpendsBudget(kept, r.now, end); }
  }

  lemma ThreeLocksAWindow(span: real)
    requires span >= 0.0
    ensures 3 * (span / WINDOW).Floor <= (span / LOCK).Floor <= 3 * (span / WINDOW).Floor + 2
  {
    assert span / LOCK == 3.0 * (span / WINDOW);
  }

  lemma BudgetAtMost(item: Option<Item>, start: real, end: real)
    requires start <= end && (item.Some? ==> WellTimed(item.value, start))
    ensures var locks, windows := ((end - start) / LOCK).Floor, Windows(start, end);
            && Budget(item, start, end) <= locks + 1 + 4 * windows + (if IsOpen(item, start) then 7 else 4)
            && (IsOpen(item, start) ==>
                  Budget(item, start, end) <= locks + 1 + 4 * (windows + 1) + Max(LIMIT - 1 - item.value.count, 0))
  {
    LocksShrink(start, Unlocked(item, start), end);
    if IsOpen(item, start) { WindowsShrink(item.value.firstSeen, start, end); }
  }

  /** Main result: from the first attempt on a fresh key, at most eight attempts are allowed for each
      window's length that has begun. */
  lemma FreshKeyBound(requests: seq<Request>, key: string, start: real, end: real)
    requires InOrder(requests, start) && EndsBy(requests, end) && start <= end
    ensures Admitted(map[], requests, key) <= 8 * (((end - start) / WINDOW).Floor + 1)
  {
    AdmittedWithinBudget(map[], requests, key, start, end);
    BudgetAtMost(None, start, end);
    ThreeLocksAWindow(end - start);
  }

  /** From any reachable state: a lock period each 300 seconds, four more attempts each window, and eight;
      or eight for each window begun and what is left of the open window's eight. */
  lemma {:induction false} AnySpanBound(items: Items, requests: seq<Request>, key: string, start: real, end: real)
    requires InOrder(requests, start) && EndsBy(requests, end) && start <= end && Valid(items, start)
    ensures Admitted(items, requests, key) <= ((end - start) / LOCK).Floor + 4 * ((end - start) / WINDOW).Floor + 8
    ensures Admitted(items, requests, key) <=
            8 * (((end - start) / WINDOW).Floor + 1)
            + (if key in items && start - items[key].firstSeen <= WINDOW then 8 - items[key].count else 0)
  {
    AdmittedWithinBudget(items, requests, key, start, end);
    BudgetAtMost(Lookup(items, key), start, end);
    ThreeLocksAWindow(end - start);
  }

  // ---------------------------------------------------------------------------------------------
  // Exactly which spans keep to eight attempts for each window begun

  /** Requests of the past: in order, and none later than start. */
  predicate IsPast(past: seq<Request>, start: real) {
    start > 0.0 && EndsBy(past, start) && (past != [] ==> InOrder(past, past[0].now))
  }

  predicate InSpan(requests: seq<Request>, start: real, span: real) {
    InOrder(requests, start) && EndsBy(requests, start + span)
  }

  /** Whatever was requested before, at most eight attempts of a key are allowed in the span for each
      window's length that has begun in it. */
  ghost predicate SpanBounded(span: real) {
    forall past, requests, key, start | IsPast(past, start) && InSpan(requests, start, span) ::
      Admitted(Run(map[], past, true).0, requests, key) <= 8 * ((span / WINDOW).Floor + 1)
  }

  /** Main result: the spans for which eight attempts per window begun is a bound are those under 300 seconds,
      those from 900 to under 1500, and those from 1800 on. */
  lemma {:induction false} SpanBoundedExactlyWhen(span: real)
    requires span >= 0.0
    ensures SpanBounded(span) <==> span < 300.0 || 900.0 <= span < 1500.0 || span >= 1800.0
  {
    if span < 300.0 || 900.0 <= span < 1500.0 || span >= 1800.0 {
      forall past, requests, key, start | IsPast(past, start) && InSpan(requests, start, span)
        ensures Admitted(Run(map[], past, true).0, requests, key) <= 8 * ((span / WINDOW).Floor + 1)
      {
        RunKeepsValid(map[], past, start);
        AnySpanBound(Run(map[], past, true).0, requests, key, start, start + span);
        ThreeLocksAWindow(span);
        FewLocksOften(span);
      }
    } else if span < 900.0 {
      var requests := NineInOneLock("k", 1601.0 + span);
      assert (span / WINDOW).Floor == 0;
      ExceedsAfterOne(requests, span);
    } else {
      var requests := SeventeenInFiveLocks("k", 1601.0 + span);
      assert (span / WINDOW).Floor == 1;
      ExceedsAfterOne(requests, span);
    }
  }

  lemma FewLocksOften(span: real)
    requires 0.0 <= span < 300.0 || 900.0 <= span < 1500.0 || span >= 1800.0
    ensures (span / LOCK).Floor <= 4 * (span / WINDOW).Floor
  {
    ThreeLocksAWindow(span);
    if span < 300.0 {
      assert span / LOCK < 1.0;
    } else if span < 1500.0 {
      assert span / LOCK < 5.0 && span / WINDOW >= 1.0;
    } else {
      assert span / WINDOW >= 2.0;
    }
  }

  lemma {:induction false} RunKeepsValid(items: Items, requests: seq<Request>, end: real)
    requires end > 0.0 && EndsBy(requests, end)
    requires if requests == [] then Valid(items, end)
             else InOrder(requests, requests[0].now) && Valid(items, requests[0].now)
    ensures Valid(Run(items, requests, true).0, end)
    decreases |requests|
  {
    if requests != [] {
      var r := requests[0];
      assert r in requests && forall q | q in requests[1..] :: q in requests;
      ReserveKeepsValid(items, r.key, r.now, r.now, true);
      RunKeepsValid(Reserve(items, r.key, r.now, true).0, requests[1..], end);
    }
  }

  /** The key was requested once, 601 seconds before the span. */
  lemma ExceedsAfterOne(requests: seq<Request>, span: real)
    requires span >= 0.0 && AllAdmitted("k", Item(1000.0, 1000.0, 1, 0.0), 1601.0, requests, 1601.0 + span)
    requires |requests| > 8 * ((span / WINDOW).Floor + 1)
    ensures !SpanBounded(span)
  {
    var past := [Request("k", 1000.0)];
    assert past[1..] == [] && Pruned(map[], 1000.0) == map[];
    assert Run(map[], past, true).0 == map["k" := Item(1000.0, 1000.0, 1, 0.0)];
    assert IsPast(past, 1601.0) && InSpan(requests, 1601.0, span);
  }

  /** Three attempts left in the open window and the one that locks, then five in the next: nine in the
      300 seconds of one lock. */
  lemma NineInOneLock(key: string, end: real) returns (requests: seq<Request>)
    requires end >= 1901.0
    ensures AllAdmitted(key, Item(1000.0, 1000.0, 1, 0.0), 1601.0, requests, end) && |requests| == 9
  {
    requests := NineThen(key, [], end);
  }

  lemma NineThen(key: string, rest: seq<Request>, end: real) returns (requests: seq<Request>)
    requires end >= 1901.0 && AllAdmitted(key, Item(1901.0, 1901.0, 5, 2201.0), 1901.0, rest, end)
    ensures AllAdmitted(key, Item(1000.0, 1000.0, 1, 0.0), 1601.0, requests, end) && |requests| == |rest| + 9
  {
    requests := FiveThen(key, Item(1000.0, 1601.0, 5, 1901.0), 1901.0, rest, 1601.0, end);
    requests := UpToLock(key, Item(1000.0, 1000.0, 1, 0.0), 1601.0, requests, 1601.0, end);
  }

  /** The same nine and one after the lock: ten within ten minutes, from a state that one request reaches. */
  lemma TenAttemptsInTenMinutes(key: string) returns (requests: seq<Request>)
    ensures Reserve(map[], key, 1000.0, true).0 == map[key := Item(1000.0, 1000.0, 1, 0.0)]
    ensures AllAdmitted(key, Item(1000.0, 1000.0, 1, 0.0), 1601.0, requests, 2201.0) && |requests| == 10
  {
    assert Pruned(map[], 1000.0) == map[];
    requests := AdmitOne(key, Item(1901.0, 1901.0, 5, 2201.0), 2201.0, [], 1901.0, 2201.0);
    requests := NineThen(key, requests, 2201.0);
  }

  /** The same nine, one more after each of three locks, and five in the window after that: seventeen in 1500
      seconds. */
  lemma SeventeenInFiveLocks(key: string, end: real) returns (requests: seq<Request>)
    requires end >= 3101.0
    ensures AllAdmitted(key, Item(1000.0, 1000.0, 1, 0.0), 1601.0, requests, end) && |requests| == 17
  {
    requests := FiveThen(key, Item(1901.0, 2801.0, 8, 3101.0), 3101.0, [], 2801.0, end);
    requests := AdmitOne(key, Item(1901.0, 2501.0, 7, 2801.0), 2801.0, requests, 2501.0, end);
    requests := AdmitOne(key, Item(1901.0, 2201.0, 6, 2501.0), 2501.0, requests, 2201.0, end);
    requests := AdmitOne(key, Item(1901.0, 1901.0, 5, 2201.0), 2201.0, requests, 1901.0, end);
    requests := NineThen(key, requests, end);
  }

  /** Attempts at one time in an open window, up to the fifth, which locks. */
  lemma {:induction false} UpToLock(key: string, item: Item, now: real, rest: seq<Request>, start: real, end: real)
      returns (requests: seq<Request>)
    requires 0.0 < item.firstSeen <= item.lastSeen <= now <= item.firstSeen + WINDOW
    requires 0.0 < start <= now <= end && item.lockedUntil <= now && 1 <= item.count <= 4
    requires AllAdmitted(key, Item(item.firstSeen, now, 5, now + LOCK), now, rest, end)
    ensures AllAdmitted(key, item, start, requests, end) && |requests| == |rest| + 5 - item.count
    decreases 5 - item.count
  {
    var more := rest;
    if item.count < 4 { more := UpToLock(key, Recorded(Some(item), now), now, rest, now, end); }
    requests := AdmitOne(key, item, now, more, start, end);
  }

  /** Five attempts at one time after the window of an entry has closed. */
  lemma FiveThen(key: string, item: Item, now: real, rest: seq<Request>, start: real, end: real)
      returns (requests: seq<Request>)
    requires 0.0 < item.firstSeen <= item.lastSeen && now > item.firstSeen + WINDOW && !Stale(item, now)
    requires 0.0 < start <= now <= end && item.lockedUntil <= now
    requires AllAdmitted(key, Item(now, now, 5, now + LOCK), now, rest, end)
    ensures AllAdmitted(key, item, start, requests, end) && |requests| == |rest| + 5
  {
    requests := UpToLock(key, Recorded(Some(item), now), now, rest, now, end);
    requests := AdmitOne(key, item, now, requests, start, end);
  }

  /** Every one of the requests, all for this key and all between two times, is allowed. */
  ghost predicate AllAdmitted(key: string, item: Item, start: real, requests: seq<Request>, end: real) {
    InOrder(requests, start) && EndsBy(requests, end) && Admitted(map[key := item], requests, key) == |requests|
  }

  lemma AdmitOne(key: string, item: Item, now: real, rest: seq<Request>, start: real, end: real)
      returns (requests: seq<Request>)
    requires !Stale(item, now) && item.lockedUntil <= now && 0.0 < start <= now <= end
    requires AllAdmitted(key, Recorded(Some(item), now), now, rest, end)
    ensures requests == [Request(key, now)] + rest && AllAdmitted(key, item, start, requests, end)
  {
    requests := [Request(key, now)] + rest;
    var items := map[key := item];
    assert Pruned(items, now) == items;
    assert items[key := Recorded(Some(item), now)] == map[key := Recorded(Some(item), now)];
    assert requests[1..] == rest;
  }

  // ---------------------------------------------------------------------------------------------
  // The time to wait is true, and the table forgets what it may

  predicate NoneFor(requests: seq<Request>, key: string) {
    forall r | r in requests :: r.key != key
  }

  /** Requests for other keys leave an entry alone, or sweep it once its lock is over. */
  lemma {:induction false} OthersLeaveEntry(items: Items, others: seq<Request>, key: string, end: real)
    requires NoneFor(others, key) && EndsBy(others, end)
    ensures var before, after := Lookup(items, key), Lookup(Run(items, others, true).0, key);
            after == before || (after.None? && before.Some? && before.value.lockedUntil <= end)
    decreases |others|
  {
    if others != [] {
      var r := others[0];
      assert r in others && forall q | q in others[1..] :: q in others;
      OthersLeaveEntry(Reserve(items, r.key, r.now, true).0, others[1..], key, end);
    }
  }

  /** What the answer says of the key's next request, if that comes at this time and is decided so. */
  predicate AnswerHolds(answer: Reservation, now: real, later: real, next: Reservation) {
    && (!answer.allowed ==> answer.retryAfter >= 1)
    && (answer.allowed ==> answer.retryAfter == 0 || answer.retryAfter == 300)
    && (later >= now + (answer.retryAfter + 1) as real ==> next.allowed)
    && (later < now + answer.retryAfter as real && answer.retryAfter > 1 ==> !next.allowed)
    && (answer.allowed && answer.retryAfter == 0 ==> next.allowed)
  }

  /** Main result: an answer's time to wait is true. From any past, and whatever other keys request in between, the
      key's next attempt is allowed at every time from a second after the wait on, and refused at every time before
      its end if it is of more than one second; without a wait it is allowed at any time. A refusal names at least
      one second, and an attempt that locks its key names 300. */
  lemma {:induction false} TimeToWaitIsTrue(past: seq<Request>, key: string, now: real, others: seq<Request>,
                                            later: real)
    requires IsPast(past, now) && InOrder(others, now) && NoneFor(others, key) && EndsBy(others, later) && now <= later
    ensures var (items, answer) := Reserve(Run(map[], past, true).0, key, now, true);
            AnswerHolds(answer, now, later, Reserve(Run(items, others, true).0, key, later, true).1)
  {
    var before := Run(map[], past, true).0;
    RunKeepsValid(map[], past, now);
    ReserveKeepsValid(before, key, now, now, true);
    var (items, answer) := Reserve(before, key, now, true);
    OthersLeaveEntry(items, others, key, later);
    WaitFitsLock(before, key, now);
    RefusedWhileLocked(items, Run(items, others, true).0, key, later);
  }

  /** The answer's wait is what is left of the lock, in whole seconds. */
  lemma WaitFitsLock(items: Items, key: string, now: real)
    requires Valid(items, now) && now > 0.0
    ensures var (after, answer) := Reserve(items, key, now, true);
            && key in after
            && (if answer.allowed then answer.retryAfter == 0 || answer.retryAfter == 300 else answer.retryAfter >= 1)
            && after[key].lockedUntil < now + (answer.retryAfter + 1) as real
            && (answer.retryAfter > 1 ==> after[key].lockedUntil >= now + answer.retryAfter as real)
            && (answer.allowed && answer.retryAfter == 0 ==> after[key].lockedUntil <= now)
  {
    if key in items { assert WellTimed(items[key], now); }
  }

  /** The next attempt is decided by the lock the key has now. */
  lemma RefusedWhileLocked(items: Items, after: Items, key: string, later: real)
    requires key in items
    requires Lookup(after, key) == Some(items[key]) || (key !in after && items[key].lockedUntil <= later)
    ensures Reserve(after, key, later, true).1.allowed <==> items[key].lockedUntil <= later
  {}

  /** When an entry was seen last; a zero time counts as none. */
  function SeenAt(item: Item): real {
    if item.lastSeen == 0.0 then item.firstSeen else item.lastSeen
  }

  /** A reservation that sweeps removes exactly the entries of other keys that are not locked and were not seen for
      more than half an hour; one that does not sweep removes none. */
  lemma SweptExactly(items: Items, key: string, now: real, other: string)
    requires other != key
    ensures var after := Reserve(items, key, now, true).0;
            && (other in after <==> other in items
                                    && (items[other].lockedUntil > now || now - SeenAt(items[other]) <= 1800.0))
            && (other in after ==> after[other] == items[other])
    ensures Lookup(Reserve(items, key, now, false).0, other) == Lookup(items, other)
  {}

  /** The first attempt of a window, or of a key. */
  predicate OpensWindow(item: Option<Item>, now: real) {
    item.None? || (item.value.firstSeen != 0.0 && now - item.value.firstSeen > 900.0)
  }

  /** What an allowed attempt leaves of its key: one more attempt in its window, or the first of a new one; from the
      fifth on the key is locked for 300 seconds. */
  lemma AttemptIsRecorded(items: Items, key: string, now: real, prune: bool)
    requires Reserve(items, key, now, prune).1.allowed
    ensures var before, after := items, Reserve(items, key, now, prune).0;
            && key in after && after[key].lastSeen == now
            && (key in before && (!prune || before[key].lockedUntil > now || now - SeenAt(before[key]) <= 1800.0)
                && !OpensWindow(Some(before[key]), now) ==>
                  && after[key].count == before[key].count + 1
                  && after[key].firstSeen == (if before[key].firstSeen == 0.0 then now else before[key].firstSeen)
                  && after[key].lockedUntil ==
                     (if after[key].count >= 5 then now + 300.0 else before[key].lockedUntil))
            && (OpensWindow(Lookup(before, key), now) ==> after[key].count == 1 && after[key].firstSeen == now)
            && (key !in before ==> after[key].lockedUntil == 0.0)
  {}

  // ---------------------------------------------------------------------------------------------
  // Pruning cannot be observed

  /** An entry of the pruning limiter against the same entry of a limiter that never prunes. */
  ghost predicate Alike(pruned: Option<Item>, kept: Option<Item>, now: real) {
    || pruned == kept
    || (pruned.None? && kept.Some? && Stale(kept.value, now))
    || (pruned.Some? && kept.Some? && pruned.value == kept.value.(lockedUntil := pruned.value.lockedUntil)
        && pruned.value.lockedUntil <= now && kept.value.lockedUntil <= now)
  }

  ghost predicate AlikeEverywhere(pruned: Items, kept: Items, now: real) {
    && Valid(pruned, now) && Valid(kept, now)
    && forall k :: Alike(Lookup(pruned, k), Lookup(kept, k), now)
  }

  lemma ReserveAlike(pruned: Items, kept: Items, key: string, from: real, now: real)
    requires 0.0 < from <= now && AlikeEverywhere(pruned, kept, from)
    ensures Reserve(pruned, key, now, true).1 == Reserve(kept, key, now, false).1
    ensures AlikeEverywhere(Reserve(pruned, key, now, true).0, Reserve(kept, key, now, false).0, now)
  {
    ReserveKeepsValid(pruned, key, from, now, true);
    ReserveKeepsValid(kept, key, from, now, false);
    var swept := Pruned(pruned, now);
    SweptAlike(pruned, kept, from, now);
    assert Alike(Lookup(swept, key), Lookup(kept, key), now);
    BackoffAlike(Lookup(swept, key), Lookup(kept, key), now);
    if Backoff(Lookup(swept, key), now) == 0 { StoredAlike(swept, kept, key, now); }
  }

  lemma BackoffAlike(pruned: Option<Item>, kept: Option<Item>, now: real)
    requires Alike(pruned, kept, now)
    ensures Backoff(pruned, now) == Backoff(kept, now)
  {}

  /** An allowed attempt is recorded alike in both. */
  lemma StoredAlike(swept: Items, kept: Items, key: string, now: real)
    requires now > 0.0 && Backoff(Lookup(swept, key), now) == 0
    requires forall k :: Alike(Lookup(swept, k), Lookup(kept, k), now)
    requires key in swept ==> WellTimed(swept[key], now)
    requires key in kept ==> WellTimed(kept[key], now)
    ensures var a, b := Recorded(Lookup(swept, key), now), Recorded(Lookup(kept, key), now);
            var swept1, kept1 := swept[key := a], kept[key := b];
            && Max(Truncate(a.lockedUntil - now), 0) == Max(Truncate(b.lockedUntil - now), 0)
            && forall k :: Alike(Lookup(swept1, k), Lookup(kept1, k), now)
  {
    assert Alike(Lookup(swept, key), Lookup(kept, key), now);
    RecordedAlike(Lookup(swept, key), Lookup(kept, key), now);
    var a, b := Recorded(Lookup(swept, key), now), Recorded(Lookup(kept, key), now);
    var swept1, kept1 := swept[key := a], kept[key := b];
    forall k ensures Alike(Lookup(swept1, k), Lookup(kept1, k), now) {
      assert Alike(Lookup(swept, k), Lookup(kept, k), now);
    }
  }

  lemma SweptAlike(pruned: Items, kept: Items, from: real, now: real)
    requires 0.0 < from <= now && AlikeEverywhere(pruned, kept, from)
    ensures forall k :: Alike(Lookup(Pruned(pruned, now), k), Lookup(kept, k), now)
  {
    forall k ensures Alike(Lookup(Pruned(pruned, now), k), Lookup(kept, k), now) {
      assert Alike(Lookup(pruned, k), Lookup(kept, k), from);
    }
  }

  lemma RecordedAlike(pruned: Option<Item>, kept: Option<Item>, now: real)
    requires now > 0.0 && Alike(pruned, kept, now) && Backoff(pruned, now) == 0
    requires pruned.Some? ==> WellTimed(pruned.value, now)
    requires kept.Some? ==> WellTimed(kept.value, now)
    ensures Backoff(kept, now) == 0
    ensures Alike(Some(Recorded(pruned, now)), Some(Recorded(kept, now)), now)
    ensures Max(Truncate(Recorded(pruned, now).lockedUntil - now), 0)
            == Max(Truncate(Recorded(kept, now).lockedUntil - now), 0)
  {}

  /** Main result: with time in order, the limiter answers every sequence of requests, whatever their
      keys, exactly as it would if it never removed an entry. */
  lemma {:induction false} PruningUnobservable(pruned: Items, kept: Items, requests: seq<Request>, now: real)
    requires InOrder(requests, now) && AlikeEverywhere(pruned, kept, now)
    ensures Run(pruned, requests, true).1 == Run(kept, requests, false).1
    decreases |requests|
  {
    if requests != [] {
      var r := requests[0];
      ReserveAlike(pruned, kept, r.key, now, r.now);
      PruningUnobservable(Reserve(pruned, r.key, r.now, true).0, Reserve(kept, r.key, r.now, false).0,
                          requests[1..], r.now);
    }
  }

  lemma SubsetSize(a: set<string>, b: set<string>)
    requires a <= b
    ensures |a| <= |b|
  {
    assert b == a + (b - a);
  }

  /** The cap never acts while at most MAX_KEYS different keys have been requested. */
  lemma {:induction false} KeysUnderCap(items: Items, requests: seq<Request>, prune: bool, keys: set<string>)
    requires items.Keys <= keys && (forall r | r in requests :: r.key in keys) && |keys| <= MAX_KEYS
    ensures Run(items, requests, prune).0.Keys <= keys
    ensures |Run(items, requests, prune).0| <= MAX_KEYS
    decreases |requests|
  {
    if requests == [] {
      SubsetSize(items.Keys, keys);
    } else {
      var r := requests[0];
      assert r in requests && forall q | q in requests[1..] :: q in requests;
      KeysUnderCap(Reserve(items, r.key, r.now, prune).0, requests[1..], prune, keys);
    }
  }

  /** The result of evicting down to the cap: no evicted entry was seen after a kept one, other than
      the preserved key. */
  ghost predicate Capped(before: Items, after: Items, preserve: string) {
    && after.Keys <= before.Keys && (forall k | k in after :: after[k] == before[k])
    && |after| == (if |before| <= 2048 then |before| else 2048)
    && (preserve in before ==> preserve in after)
    && forall gone, k | gone in before && gone !in after && k in after && k != preserve ::
         LastSeen(before[gone]) <= LastSeen(before[k])
  }

  /** One reservation of the limiter with its cap: only an allowed attempt evicts. */
  ghost predicate CappedStep(before: Items, r: Request, after: Items, answer: Reservation) {
    var (full, reservation) := Reserve(before, r.key, r.now, true);
    answer == reservation && if answer.allowed then Capped(full, after, r.key) else after == full
  }

  /** A run of the limiter with its cap, through any choice among entries seen equally long ago. */
  ghost predicate CappedRun(items: Items, requests: seq<Request>, states: seq<Items>, answers: seq<Reservation>) {
    && |states| == |requests| + 1 && |answers| == |requests| && states[0] == items
    && forall i | 0 <= i < |requests| :: CappedStep(states[i], requests[i], states[i + 1], answers[i])
  }

  /** Main result: while no more keys are requested than the cap allows, the limiter with its cap answers, and
      ends, as the one without; so the bounds above are bounds on it. */
  lemma {:induction false} CapUnobservable(items: Items, requests: seq<Request>, states: seq<Items>,
                                           answers: seq<Reservation>, keys: set<string>)
    requires CappedRun(items, requests, states, answers)
    requires items.Keys <= keys && (forall r | r in requests :: r.key in keys) && |keys| <= MAX_KEYS
    ensures Run(items, requests, true) == (states[|requests|], answers)
    decreases |requests|
  {
    if requests != [] {
      var r := requests[0];
      assert r in requests && forall q | q in requests[1..] :: q in requests;
      assert CappedStep(states[0], r, states[1], answers[0]);
      var full := Reserve(items, r.key, r.now, true).0;
      SubsetSize(full.Keys, keys);
      if answers[0].allowed { NothingEvicted(full, states[1], r.key); }
      forall i | 0 <= i < |requests| - 1
        ensures CappedStep(states[1..][i], requests[1..][i], states[1..][i + 1], answers[1..][i])
      {
        assert CappedStep(states[i + 1], requests[i + 1], states[i + 1 + 1], answers[i + 1]);
      }
      CapUnobservable(full, requests[1..], states[1..], answers[1..], keys);
      assert answers == [answers[0]] + answers[1..];
    }
  }

  lemma NothingEvicted(before: Items, after: Items, preserve: string)
    requires Capped(before, after, preserve) && |before| <= MAX_KEYS
    ensures after == before
  {
    assert before.Keys == after.Keys + (before.Keys - after.Keys);
    assert |before.Keys - after.Keys| == 0;
  }

  // ---------------------------------------------------------------------------------------------
  // The limiter as the source runs it

  method OldestKey(items: Items, candidates: set<string>) returns (oldest: string)
    requires candidates != {} && candidates <= items.Keys
    ensures oldest in candidates
    ensures forall k | k in candidates :: LastSeen(items[oldest]) <= LastSeen(items[k])
  {
    oldest :| oldest in candidates;
    var rest := candidates - {oldest};
    while rest != {}
      invariant rest <= candidates && oldest in candidates
      invariant forall k | k in candidates - rest :: LastSeen(items[oldest]) <= LastSeen(items[k])
      decreases |rest|
    {
      var k :| k in rest;
      if LastSeen(items[k]) < LastSeen(items[oldest]) { oldest := k; }
      rest := rest - {k};
    }
  }

  class Limiter {
    var items: Items

    constructor ()
      ensures items == map[]
    {
      items := map[];
    }

    method Prune(now: real)
      modifies this
      ensures items == Pruned(old(items), now)
    {
      var expired: set<string> := {};
      var rest := items.Keys;
      while rest != {}
        invariant rest <= items.Keys && items == old(items)
        invariant expired == set k | k in items && k !in rest && Stale(items[k], now)
        decreases |rest|
      {
        var k :| k in rest;
        if Stale(items[k], now) { expired := expired + {k}; }
        rest := rest - {k};
      }
      items := items - expired;
    }

    method Cap(preserve: string)
      modifies this
      ensures Capped(old(items), items, preserve)
      ensures |old(items)| <= MAX_KEYS ==> items == old(items)
    {
      while |items| > MAX_KEYS
        invariant |old(items)| <= MAX_KEYS ==> items == old(items)
        invariant items.Keys <= old(items).Keys && forall k | k in items :: items[k] == old(items)[k]
        invariant |items| >= (if |old(items)| <= MAX_KEYS then |old(items)| else MAX_KEYS)
        invariant |items| <= |old(items)|
        invariant preserve in old(items) ==> preserve in items
        invariant forall gone, k | gone in old(items) && gone !in items && k in items && k != preserve ::
                    LastSeen(old(items)[gone]) <= LastSeen(old(items)[k])
        decreases |items|
      {
        var candidates := items.Keys - {preserve};
        if candidates == {} {
          SubsetSize(items.Keys, {preserve});
        }
        var oldest := OldestKey(items, candidates);
        assert items.Keys == (items - {oldest}).Keys + {oldest};
        items := items - {oldest};
      }
    }

    /** Decides one attempt and records it when it is allowed. */
    method ReserveAttempt(key: string, now: real) returns (r: Reservation)
      modifies this
      ensures var (after, reservation) := Reserve(old(items), key, now, true);
              && r == reservation
              && (|after| <= MAX_KEYS || !r.allowed ==> items == after)
              && CappedStep(old(items), Request(key, now), items, r)
    {
      Prune(now);
      var wait := Backoff(Lookup(items, key), now);
      if wait > 0 {
        return Reservation(false, wait);
      }
      var item := Recorded(Lookup(items, key), now);
      items := items[key := item];
      Cap(key);
      r := Reservation(true, Max(Truncate(item.lockedUntil - now), 0));
    }

    method Clear(key: string)
      modifies this
      ensures items == old(items) - {key}
    {
      items := items - {key};
    }
  }
}
