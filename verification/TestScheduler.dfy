/** The background test of an online account's cookie (app/api/config.py): any number of callers, worker
    threads, and a lock around three shared tables. Cookies are the sanitized ones. A worker's test may
    itself schedule again, like any other caller. */
module TestScheduler {
  import opened Platforms
  import opened Wrappers

  type Cookie = string
  type WorkerId = nat

  /** What the three tables hold for one platform. */
  datatype Tables = Tables(running: bool, pending: Option<Cookie>, active: Option<Cookie>)

  /** A worker thread: what it tests, and whether that test is over. */
  datatype Worker = Worker(target: Cookie, tested: bool)

  /** One platform: its tables, its threads, and, for the theorems, the cookie last requested and last
      tested, the number of requests and the number of tests begun. */
  datatype Lane = Lane(
    tables: Tables, workers: map<WorkerId, Worker>, nextWorker: WorkerId,
    requested: Option<Cookie>, lastTested: Option<Cookie>, requests: nat, tests: nat)

  datatype Event =
    | Schedule(cookie: Cookie)
    | TestDone(worker: WorkerId)
    | TakeNext(worker: WorkerId)

  /** The cookie a new request is compared with. An empty pending cookie counts as none. */
  function Compared(t: Tables): Cookie {
    if t.pending.Some? && t.pending.value != "" then t.pending.value
    else if t.active.Some? then t.active.value else ""
  }

  /** The locked part of scheduling: the tables after it, and whether a worker is to be started. */
  function Scheduled(t: Tables, cookie: Cookie): (Tables, bool) {
    if !t.running then (Tables(true, None, Some(cookie)), true)
    else if cookie == Compared(t) then (t, false)
    else (t.(pending := Some(cookie)), false)
  }

  /** The locked part of the worker's loop: the tables after it, and the next target, if any. */
  function Taken(t: Tables): (Tables, Option<Cookie>) {
    if t.pending.Some? then (t.(pending := None, active := t.pending), t.pending)
    else (t.(running := false, active := None), None)
  }

  function LaneStep(l: Lane, e: Event): Lane {
    match e
    case Schedule(cookie) =>
      var (tables, start) := Scheduled(l.tables, cookie);
      var asked := l.(tables := tables, requested := Some(cookie), requests := l.requests + 1);
      if !start then asked
      else asked.(workers := l.workers[l.nextWorker := Worker(cookie, false)], nextWorker := l.nextWorker + 1,
                  tests := l.tests + 1)
    case TestDone(w) =>
      if w !in l.workers || l.workers[w].tested then l
      else l.(workers := l.workers[w := l.workers[w].(tested := true)], lastTested := Some(l.workers[w].target))
    case TakeNext(w) =>
      if w !in l.workers || !l.workers[w].tested then l
      else
        var (tables, next) := Taken(l.tables);
        if next.None? then l.(tables := tables, workers := l.workers - {w})
        else l.(tables := tables, workers := l.workers[w := Worker(next.value, false)], tests := l.tests + 1)
  }

  const IDLE := Lane(Tables(false, None, None), map[], 0, None, None, 0, 0)

  type State = Platform -> Lane

  function Step(s: State, p: Platform, e: Event): State {
    var lane := LaneStep(s(p), e);
    q => if q == p then lane else s(q)
  }

  /** Any interleaving: each event says on which platform it happens. */
  function Run(s: State, events: seq<(Platform, Event)>): State
    decreases |events|
  {
    if events == [] then s else Run(Step(s, events[0].0, events[0].1), events[1..])
  }

  /** The cookie a running platform will have tested when its worker comes to rest. */
  function Due(t: Tables): Option<Cookie> {
    if t.pending.Some? then t.pending else t.active
  }

  /** A platform is marked running exactly while one thread lives, and only then has it an active or a
      pending cookie; that thread tests the active one; every test begun, and the one pending, was asked
      for by a request of its own. */
  ghost predicate OneWorker(l: Lane) {
    && (forall w | w in l.workers :: w < l.nextWorker && l.tables.active == Some(l.workers[w].target))
    && (forall w, v | w in l.workers && v in l.workers :: w == v)
    && (l.tables.running <==> l.workers != map[])
    && (l.tables.running <==> l.tables.active.Some?)
    && (l.tables.pending.Some? ==> l.tables.running)
    && l.tests + (if l.tables.pending.Some? then 1 else 0) <= l.requests
  }

  /** What was requested last is due, or, at rest, was tested last. */
  ghost predicate LatestDue(l: Lane) {
    && (l.tables.running ==> l.requested == Due(l.tables))
    && (!l.tables.running ==> l.lastTested == l.requested)
    && (forall w | w in l.workers && l.workers[w].tested :: l.lastTested == Some(l.workers[w].target))
    && l.tables.pending != Some("")
  }

  lemma LaneKeepsOneWorker(l: Lane, e: Event)
    requires OneWorker(l)
    ensures OneWorker(LaneStep(l, e))
  {
    var m := LaneStep(l, e);
    if l.tables.running {
      var w :| w in l.workers;
      assert l.workers == map[w := l.workers[w]];
      assert m.tables.running ==> w in m.workers;
    } else if e.Schedule? {
      assert l.nextWorker in m.workers;
    }
  }

  lemma LaneKeepsLatestDue(l: Lane, e: Event)
    requires OneWorker(l) && LatestDue(l)
    requires e.Schedule? ==> e.cookie != ""
    ensures LatestDue(LaneStep(l, e))
  {}

  /** Main result: in every interleaving of callers and workers, each platform has at most one worker,
      only running platforms have a pending cookie, and tests never outnumber requests. */
  lemma {:induction false} AlwaysOneWorker(s: State, events: seq<(Platform, Event)>, p: Platform)
    requires forall q :: OneWorker(s(q))
    ensures OneWorker(Run(s, events)(p))
    decreases |events|
  {
    if events != [] {
      var (q, e) := events[0];
      LaneKeepsOneWorker(s(q), e);
      AlwaysOneWorker(Step(s, q, e), events[1..], p);
    }
  }

  lemma {:induction false} AlwaysLatestDue(s: State, events: seq<(Platform, Event)>, p: Platform)
    requires forall q :: OneWorker(s(q)) && LatestDue(s(q))
    requires forall e | e in events && e.1.Schedule? :: e.1.cookie != ""
    ensures LatestDue(Run(s, events)(p))
    decreases |events|
  {
    if events != [] {
      var (q, e) := events[0];
      assert (q, e) in events && forall x | x in events[1..] :: x in events;
      LaneKeepsOneWorker(s(q), e);
      LaneKeepsLatestDue(s(q), e);
      AlwaysLatestDue(Step(s, q, e), events[1..], p);
    }
  }

  /** Main result: when every requested cookie is non-empty, the one requested last is always due, and once
      a platform has come to rest the cookie tested last is the one requested last. */
  lemma LastRequestedIsLastTested(events: seq<(Platform, Event)>, p: Platform)
    requires forall e | e in events && e.1.Schedule? :: e.1.cookie != ""
    ensures var l := Run(_ => IDLE, events)(p);
            if l.tables.running then l.requested == Due(l.tables) else l.lastTested == l.requested
  {
    AlwaysLatestDue(_ => IDLE, events, p);
  }

  lemma RunFirst(s: State, p: Platform, e: Event, rest: seq<(Platform, Event)>)
    ensures Run(s, [(p, e)] + rest) == Run(Step(s, p, e), rest)
  {
    assert ([(p, e)] + rest)[1..] == rest;
  }

  /** What a worker does when nobody asks for anything: its test, and a second one if a cookie is pending. */
  function LeftAlone(p: Platform, w: WorkerId): seq<(Platform, Event)> {
    [(p, TestDone(w))] + ([(p, TakeNext(w))] + ([(p, TestDone(w))] + ([(p, TakeNext(w))] + [])))
  }

  /** Main result: left alone, a platform that is running comes to rest after at most one more test, with the cookie
      requested last as the one tested last; the other platform does not notice. */
  lemma ComesToRest(s: State, p: Platform, w: WorkerId, q: Platform)
    requires OneWorker(s(p)) && LatestDue(s(p)) && w in s(p).workers
    ensures var after := Run(s, LeftAlone(p, w))(p);
            && !after.tables.running && after.workers == map[] && after.tables.pending == None
            && after.lastTested == after.requested == s(p).requested
            && after.tests == s(p).tests + (if s(p).tables.pending.Some? then 1 else 0)
    ensures q != p ==> Run(s, LeftAlone(p, w))(q) == s(q)
  {
    var s1 := Step(s, p, TestDone(w));
    var s2 := Step(s1, p, TakeNext(w));
    var s3 := Step(s2, p, TestDone(w));
    RunFirst(s, p, TestDone(w), [(p, TakeNext(w))] + ([(p, TestDone(w))] + ([(p, TakeNext(w))] + [])));
    RunFirst(s1, p, TakeNext(w), [(p, TestDone(w))] + ([(p, TakeNext(w))] + []));
    RunFirst(s2, p, TestDone(w), [(p, TakeNext(w))] + []);
    RunFirst(s3, p, TakeNext(w), []);
    assert s(p).workers == map[w := s(p).workers[w]];
    TestedOrNot(s(p), w);
    WorkerTakesWhatIsPending(s1(p), w);
    if s(p).tables.pending.Some? {
      TestedOrNot(s2(p), w);
      WorkerTakesWhatIsPending(s3(p), w);
    }
  }

  lemma TestedOrNot(l: Lane, w: WorkerId)
    requires OneWorker(l) && w in l.workers
    ensures var after := LaneStep(l, TestDone(w));
            && OneWorker(after) && w in after.workers && after.workers[w].tested
            && after == l.(workers := after.workers, lastTested := after.lastTested)
            && (!l.workers[w].tested ==> after.lastTested == l.tables.active)
            && (l.workers[w].tested ==> after == l)
  {
    LaneKeepsOneWorker(l, TestDone(w));
  }

  /** Exactly which request escapes: one for the active cookie while the pending cookie is empty. It is
      dropped, and the empty cookie stays due. */
  lemma RequestDroppedExactlyWhen(t: Tables, cookie: Cookie)
    requires t.running <==> t.active.Some?
    ensures Due(Scheduled(t, cookie).0) == Some(cookie) <==>
            !(t.running && t.pending == Some("") && t.active == Some(cookie) && cookie != "")
  {}

  /** A request for the cookie that is due already begins no test and leaves none to begin: the lane only notes
      that it was asked. Any other request makes its cookie the one that is due, unless it is dropped as above. */
  lemma DueRequestAddsNoTest(l: Lane, cookie: Cookie)
    requires OneWorker(l) && cookie != ""
    ensures var after := LaneStep(l, Schedule(cookie));
            && (Due(l.tables) == Some(cookie) ==>
                  after == l.(requested := Some(cookie), requests := l.requests + 1))
            && (Due(l.tables) != Some(cookie) && l.tables.pending != Some("") ==>
                  Due(after.tables) == Some(cookie)
                  && after.tests == l.tests + (if l.tables.running then 0 else 1)
                  && (l.tables.running ==> after.tables.active == l.tables.active && after.workers == l.workers))
  {}

  /** A worker whose test is over takes the pending cookie, or ends. */
  lemma WorkerTakesWhatIsPending(l: Lane, w: WorkerId)
    requires OneWorker(l) && w in l.workers && l.workers[w].tested
    ensures var after := LaneStep(l, TakeNext(w));
            if l.tables.pending.Some?
            then after.tables == Tables(true, None, l.tables.pending) && after.tests == l.tests + 1
                 && after.workers == map[w := Worker(l.tables.pending.value, false)]
            else after.tables == Tables(false, None, None) && after.tests == l.tests && after.workers == map[]
  {
    assert l.workers == map[w := l.workers[w]];
  }

  // ---------------------------------------------------------------------------------------------
  // The tables as the source keeps them

  class OnlineAccountTests {
    var running: set<Platform>
    var pending: map<Platform, Cookie>
    var active: map<Platform, Cookie>

    constructor ()
      ensures forall p :: View(p) == IDLE.tables
    {
      running, pending, active := {}, map[], map[];
    }

    ghost function View(p: Platform): Tables
      reads this
    {
      Tables(p in running, if p in pending then Some(pending[p]) else None,
             if p in active then Some(active[p]) else None)
    }

    method Schedule(platform: Platform, cookie: Cookie) returns (start: bool)
      modifies this
      ensures (View(platform), start) == Scheduled(old(View(platform)), cookie)
      ensures forall p | p != platform :: View(p) == old(View(p))
    {
      if platform in running {
        var pendingCookie := if platform in pending then pending[platform] else "";
        var activeCookie := if platform in active then active[platform] else "";
        if cookie != (if pendingCookie != "" then pendingCookie else activeCookie) {
          pending := pending[platform := cookie];
        }
        return false;
      }
      running := running + {platform};
      pending := pending - {platform};
      active := active[platform := cookie];
      start := true;
    }

    method TakeNext(platform: Platform) returns (target: Option<Cookie>)
      modifies this
      ensures (View(platform), target) == Taken(old(View(platform)))
      ensures forall p | p != platform :: View(p) == old(View(p))
    {
      if platform !in pending {
        running := running - {platform};
        active := active - {platform};
        return None;
      }
      target := Some(pending[platform]);
      pending := pending - {platform};
      active := active[platform := target.value];
    }
  }
}
