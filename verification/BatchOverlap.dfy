/** The third recovery pass beside other users of the queue (app/services/archive_worker.py): it reads the queue,
    and if it found duplicates saves the whole of it later, over whatever has happened in between. */
module BatchOverlap {
  import opened Wrappers
  import opened BatchItems
  import opened BatchQueue
  import opened BatchRestore
  import opened BatchMerge
  import opened BatchRecovery

  /** What the pass will save, decided on the queue it read; nothing when there are no duplicates. */
  function MergePlan(detect: Url -> Mode, read: Queue): Option<Queue> {
    if Duplicates(detect, All(read)) == [] then None else Some(MergeDuplicates(detect, read))
  }

  /** The stored queue after the pass, when it was `now` at the save. */
  function AfterMerge(detect: Url -> Mode, read: Queue, now: Queue): Queue {
    var plan := MergePlan(detect, read);
    if plan.Some? then plan.value else now
  }

  // ---------------------------------------------------------------------------------------------
  // What may happen to the queue meanwhile

  datatype QueueEvent =
    | Enqueue(task: Task)
    | Lease(id: Id)
    | Leave(id: Id)
    | Fail(id: Id)

  function Pick(tasks: seq<Task>, id: Id): seq<Task> {
    if tasks == [] then [] else (if tasks[0].id == id then [tasks[0]] else []) + Pick(tasks[1..], id)
  }

  function Drop(tasks: seq<Task>, id: Id): seq<Task> {
    if tasks == [] then [] else (if tasks[0].id == id then [] else [tasks[0]]) + Drop(tasks[1..], id)
  }

  function Happened(q: Queue, e: QueueEvent): Queue {
    match e
    case Enqueue(t) => q.(queued := q.queued + [t])
    case Lease(id) => q.(active := q.active + Pick(q.queued, id), queued := Drop(q.queued, id))
    case Leave(id) => q.(active := Drop(q.active, id))
    case Fail(id) => q.(active := Drop(q.active, id), failed := q.failed + Pick(q.active, id))
  }

  function AllHappened(q: Queue, events: seq<QueueEvent>): Queue
    decreases |events|
  {
    if events == [] then q else AllHappened(Happened(q, events[0]), events[1..])
  }

  lemma {:induction false} PickFacts(tasks: seq<Task>, id: Id)
    ensures forall t :: t in Pick(tasks, id) <==> t in tasks && t.id == id
    ensures forall t :: t in Drop(tasks, id) <==> t in tasks && t.id != id
    decreases |tasks|
  {
    if tasks != [] {
      assert tasks == [tasks[0]] + tasks[1..];
      PickFacts(tasks[1..], id);
    }
  }

  // ---------------------------------------------------------------------------------------------
  // What the save undoes

  /** The merge keeps the ids of a section, but for the duplicates'. */
  lemma MergedIds(detect: Url -> Mode, read: Queue, tasks: seq<Task>, id: Id)
    requires forall t | t in All(read) :: ParentOk(t)
    requires forall t | t in tasks :: t in All(read)
    ensures HasId(MergedSection(detect, read, tasks), id) <==>
        HasId(tasks, id) && !HasId(Duplicates(detect, All(read)), id)
  {
    SectionFacts(detect, read, tasks);
    if HasId(MergedSection(detect, read, tasks), id) {
      var u :| u in MergedSection(detect, read, tasks) && u.id == id;
      assert CameFrom(detect, read, tasks, u);
      var t :| t in tasks && !HasId(Duplicates(detect, All(read)), t.id) && u == Became(detect, read, t);
      BecameFacts(detect, read, t);
    }
    if HasId(tasks, id) && !HasId(Duplicates(detect, All(read)), id) {
      var t :| t in tasks && t.id == id;
      BecameFacts(detect, read, t);
      assert Became(detect, read, t).id == id;
    }
  }

  lemma DuplicateIdsAmong(detect: Url -> Mode, all: seq<Task>, id: Id)
    requires HasId(Duplicates(detect, all), id)
    ensures HasId(all, id)
  {
    DuplicatesAmong(detect, all);
  }

  /** Main result: once the pass saves, a section holds the ids it held when it was read, without the
      duplicates', whatever has happened to the queue since; without duplicates the queue is left as it is. */
  lemma SavedExactly(detect: Url -> Mode, read: Queue, now: Queue, id: Id)
    requires WellFormed(detect, read)
    ensures var after, dropped := AfterMerge(detect, read, now), Duplicates(detect, All(read));
            if dropped == [] then after == now
            else
              && (HasId(after.active, id) <==> HasId(read.active, id) && !HasId(dropped, id))
              && (HasId(after.queued, id) <==> HasId(read.queued, id) && !HasId(dropped, id))
              && (HasId(after.failed, id) <==> HasId(read.failed, id) && !HasId(dropped, id))
  {
    if Duplicates(detect, All(read)) != [] {
      MergedIds(detect, read, read.active, id);
      MergedIds(detect, read, read.queued, id);
      MergedIds(detect, read, read.failed, id);
    }
  }

  /** A task enqueued between the read and the save, and not gone again, is lost exactly when the pass found
      duplicates. */
  lemma EnqueuedIsLostExactlyWhen(detect: Url -> Mode, read: Queue, events: seq<QueueEvent>, t: Task)
    requires WellFormed(detect, read) && !HasId(All(read), t.id)
    requires HasId(All(AllHappened(read, events)), t.id)
    ensures !HasId(All(AfterMerge(detect, read, AllHappened(read, events))), t.id) <==>
        Duplicates(detect, All(read)) != []
  {
    SavedExactly(detect, read, AllHappened(read, events), t.id);
  }

  /** A task leased in between, and still active, waits in the queue again exactly when the pass found
      duplicates and it is none; it is then in the queue only, while its worker runs it. */
  lemma LeaseIsUndoneExactlyWhen(detect: Url -> Mode, read: Queue, events: seq<QueueEvent>, t: Task)
    requires WellFormed(detect, read) && t in read.queued && !HasId(Duplicates(detect, All(read)), t.id)
    requires var now := AllHappened(read, events); HasId(now.active, t.id) && !HasId(now.queued, t.id)
    ensures var after := AfterMerge(detect, read, AllHappened(read, events));
            && (HasId(after.queued, t.id) <==> Duplicates(detect, All(read)) != [])
            && (HasId(after.active, t.id) <==> Duplicates(detect, All(read)) == [])
  {
    SavedExactly(detect, read, AllHappened(read, events), t.id);
    QueuedIsNotActive(read, t);
  }

  lemma QueuedIsNotActive(read: Queue, t: Task)
    requires UniqueIds(All(read)) && t in read.queued
    ensures !HasId(read.active, t.id)
  {
    AllIds(read);
    IdsFacts(read.active);
    IdsFacts(read.queued);
    assert Ids(All(read))[t.id] <= 1;
  }

  /** A task that has left in between is back exactly when the pass found duplicates and it is none. */
  lemma LeftIsBackExactlyWhen(detect: Url -> Mode, read: Queue, events: seq<QueueEvent>, t: Task)
    requires WellFormed(detect, read) && t in read.active && !HasId(All(AllHappened(read, events)), t.id)
    ensures HasId(AfterMerge(detect, read, AllHappened(read, events)).active, t.id) <==>
            Duplicates(detect, All(read)) != [] && !HasId(Duplicates(detect, All(read)), t.id)
  {
    SavedExactly(detect, read, AllHappened(read, events), t.id);
  }

  /** Enqueueing, leasing and leaving do so happen to a task. */
  lemma EventsReachTasks(q: Queue, t: Task, u: Task, v: Task)
    requires UniqueIds(All(q)) && !HasId(All(q), t.id) && u in q.queued && v in q.active
    ensures HasId(Happened(q, Enqueue(t)).queued, t.id)
    ensures HasId(Happened(q, Lease(u.id)).active, u.id) && !HasId(Happened(q, Lease(u.id)).queued, u.id)
    ensures !HasId(All(Happened(q, Leave(v.id))), v.id)
    ensures HasId(Happened(q, Fail(v.id)).failed, v.id) && !HasId(Live(Happened(q, Fail(v.id))), v.id)
    ensures AllHappened(q, [Enqueue(t)] + [Lease(u.id)]) == Happened(Happened(q, Enqueue(t)), Lease(u.id))
  {
    var events := [Enqueue(t)] + [Lease(u.id)];
    assert events[1..] == [Lease(u.id)] && [Lease(u.id)][1..] == [];
    assert AllHappened(Happened(q, Enqueue(t)), [Lease(u.id)])
        == AllHappened(Happened(Happened(q, Enqueue(t)), Lease(u.id)), []);
    assert v in Pick(q.active, v.id) by { PickFacts(q.active, v.id); }
    PickFacts(q.queued, u.id);
    PickFacts(q.active, v.id);
    assert t in q.queued + [t] && u in Pick(q.queued, u.id);
    AllIds(q);
    IdsFacts(q.active);
    IdsFacts(q.queued);
    IdsFacts(q.failed);
    assert Ids(All(q))[v.id] <= 1;
  }
}
