/**
 What the steps of the pool do, each on the fields of the pool before and after it, and the order of its
 queue in every run.
 */
module PoolSteps {
  import opened ThreadPools
  import opened PoolRuns

  // ---------------------------------------------------------------- workers

  /** What a worker brings to the mutex. */
  lemma EnteringMeans(s: Pool, e: Entry)
    ensures var s' := Enter(s, e);
            && s'.tasks == (if e.Finish? then s.tasks - 1 else s.tasks)
            && s'.starting == (if e.Fresh? then s.starting - 1 else s.starting)
            && s'.releasing == (if e.Release? then s.releasing - 1 else s.releasing)
            && s'.idle == (if e.Wake? then s.idle - 1 else s.idle)
            && s'.signalled == (if e.Wake? then s.signalled - 1 else s.signalled)
            && s'.places.queue == (if e.Requeue? then s.places.queue + [e.t] else s.places.queue)
            && s'.places.held == (if e.Requeue? || e.Finish? then s.places.held - multiset{e.t} else s.places.held)
            && s'.places.queued == s.places.queued && s'.places.parked == s.places.parked
            && s'.places.hands == s.places.hands && s'.status == s.status
            && s'.threads == s.threads && s'.size == s.size && s'.closer == s.closer && s'.book == s.book
  {
  }

  lemma TurnRest(s: Pool, wake: nat)
    ensures var s' := WorkerTurn(s, wake);
            && s'.tasks == s.tasks && s'.starting == s.starting && s'.releasing == s.releasing
            && s'.places.queued == s.places.queued && s'.places.parked == s.places.parked
            && s'.places.hands == s.places.hands && s'.status == s.status && s'.book.failed == s.book.failed
  {
  }

  /** Whatever the worker then decides (to leave, to take or to sleep), the rest is as it brought it. */
  lemma SectionMeans(s: Pool, e: Entry, wake: nat)
    requires WakeInv(s) && Enabled(s, Worker(e, wake))
    ensures var s' := Next(s, Worker(e, wake));
            && s'.tasks == (if e.Finish? then s.tasks - 1 else s.tasks)
            && s'.starting == (if e.Fresh? then s.starting - 1 else s.starting)
            && s'.releasing == (if e.Release? then s.releasing - 1 else s.releasing)
            && s'.places.queued == s.places.queued && s'.places.parked == s.places.parked
            && s'.places.hands == s.places.hands && s'.status == s.status
            && s'.running == |s'.places.held| + s'.releasing && s'.pending == |s'.places.queue|
            && s'.book.failed == s.book.failed
  {
    EnteringMeans(s, e);
    TurnRest(Enter(s, e), wake);
    WorkerIs(s, e, wake);
    WakeStep(s, Worker(e, wake));
  }

  /** It leaves exactly if it is one too many, or finds a closing pool out of work: one thread less. */
  lemma LeavingMeans(s: Pool, e: Entry, wake: nat)
    requires WakeInv(s) && Enabled(s, Worker(e, wake))
    ensures var s', queue := Next(s, Worker(e, wake)), if e.Requeue? then s.places.queue + [e.t] else s.places.queue;
            var leaves := s.threads > s.size
                          || (queue == [] && s.status == Closing && (if e.Finish? then s.tasks - 1 else s.tasks) == 0);
            if leaves then
              && s'.threads == s.threads - 1 && s'.places.queue == queue
              && s'.places.held == (if e.Requeue? || e.Finish? then s.places.held - multiset{e.t} else s.places.held)
              && s'.idle == (if e.Wake? then s.idle - 1 else s.idle)
            else s'.threads == s.threads
  {
    EnterKeeps(s, e);
    EnteringMeans(s, e);
    WorkerIs(s, e, wake);
    TurnThreads(Enter(s, e), wake);
  }

  lemma TurnThreads(s: Pool, wake: nat)
    requires Counts(s, 1)
    ensures var s' := WorkerTurn(s, wake);
            if s.threads > s.size || (s.places.queue == [] && s.status == Closing && s.tasks == 0)
            then s'.threads == s.threads - 1 && s'.places == s.places && s'.idle == s.idle
            else s'.threads == s.threads
  {
  }

  /** It takes a task exactly if it stays and one is queued: the first. */
  lemma TakingMeans(s: Pool, e: Entry, wake: nat)
    requires WakeInv(s) && Enabled(s, Worker(e, wake))
    requires s.threads <= s.size
    ensures var s', queue := Next(s, Worker(e, wake)), if e.Requeue? then s.places.queue + [e.t] else s.places.queue;
            var held := if e.Requeue? || e.Finish? then s.places.held - multiset{e.t} else s.places.held;
            if queue != [] then
              && s'.places.queue == queue[1..] && s'.places.held == held + multiset{queue[0]}
              && s'.idle == (if e.Wake? then s.idle - 1 else s.idle)
            else s'.places.queue == [] && s'.places.held == held
  {
    EnterKeeps(s, e);
  }

  /** And otherwise it joins the sleepers; it wakes nobody if it does not leave. */
  lemma SleepingMeans(s: Pool, e: Entry, wake: nat)
    requires WakeInv(s) && Enabled(s, Worker(e, wake))
    ensures var s', queue := Next(s, Worker(e, wake)), if e.Requeue? then s.places.queue + [e.t] else s.places.queue;
            s.threads <= s.size ==>
              && (queue == [] && !(s.status == Closing && (if e.Finish? then s.tasks - 1 else s.tasks) == 0) ==>
                    s'.idle == (if e.Wake? then s.idle - 1 else s.idle) + 1)
              && (queue != [] || s.status != Closing ==>
                    && s'.size == s.size && s'.signalled == (if e.Wake? then s.signalled - 1 else s.signalled)
                    && s'.closer == s.closer && s'.book == s.book)
  {
    EnterKeeps(s, e);
  }

  /** What a leaving worker does for others: it wakes one more to leave if the pool is still too large;
      in a closing pool, being the last, it wakes the closer, and else sees to it that all others leave
      if there is no task.  And it joins the one that left before. */
  lemma FarewellMeans(s: Pool, wake: nat)
    requires 0 <= s.signalled <= s.idle
    ensures var s', threads := ThreadEnd(s, wake), s.threads - 1;
            && s'.threads == threads && s'.idle == s.idle
            && (threads > s.size && s.idle > 0 ==>
                  && s'.size == s.size && s'.closer == s.closer
                  && s.signalled <= s'.signalled <= s.idle && (s.signalled < s.idle ==> s'.signalled > s.signalled))
            && (!(threads > s.size && s.idle > 0) ==>
                  && s'.closer == (if s.status == Closing && threads == 0 && s.closer == Asleep then Woken else s.closer)
                  && (if s.status == Closing && threads != 0 && s.tasks == 0 && s.size > 0
                      then s'.size == 0 && s'.signalled == s.idle
                      else s'.size == s.size && s'.signalled == s.signalled))
            && s'.book.joinPending && s'.book.created == s.book.created && s'.book.destroyed == s.book.destroyed
            && s'.book.failed == s.book.failed
            && s'.book.joined == (if s.book.joinPending then s.book.joined + 1 else s.book.joined)
  {
  }

  /** Leaving is all of that, with the size at 0 if it was for want of work. */
  lemma LeavingIsFarewell(s: Pool, e: Entry, wake: nat)
    requires WakeInv(s) && Enabled(s, Worker(e, wake)) && Next(s, Worker(e, wake)).threads < s.threads
    ensures Next(s, Worker(e, wake)) == ThreadEnd(Enter(s, e).(size := if s.threads > s.size then s.size else 0), wake)
  {
    WorkerIs(s, e, wake);
    EnteringMeans(s, e);
    TurnLeaves(Enter(s, e), wake);
  }

  lemma TurnLeaves(s: Pool, wake: nat)
    requires WorkerTurn(s, wake).threads < s.threads
    ensures WorkerTurn(s, wake) == ThreadEnd(s.(size := if s.threads > s.size then s.size else 0), wake)
  {
    assert s.threads > s.size ==> s == s.(size := s.size);
  }

  // ---------------------------------------------------------------- callers

  /** A task that is added or comes back goes to the end of the queue.  If fewer workers are on their way
      than tasks wait, one sleeper is woken, or for want of one a thread is created up to the size. */
  lemma AddingMeans(s: Pool, e: Event)
    requires WakeInv(s) && Enabled(s, e) && (e.AddTask? || e.Resume?)
    ensures var s', few := Next(s, e), s.threads - s.running - s.idle <= s.pending;
            && (s.status != Closed ==> s'.places.queue == s.places.queue + [e.t] && s'.pending == s.pending + 1)
            && (s.status == Closed ==> s'.places == s.places && s'.pending == s.pending)
            && s'.tasks == (if e.AddTask? then s.tasks + 1 else s.tasks)
            && s'.places.hands == (if e.Resume? && s.status != Closed then s.places.hands - multiset{e.t} else s.places.hands)
            && s'.places.held == s.places.held && s'.places.queued == s.places.queued && s'.places.parked == s.places.parked
            && s'.idle == s.idle && s'.size == s.size && s'.running == s.running && s'.closer == s.closer && s'.status == s.status
            && s'.threads == s.threads + (if few && s.idle == 0 && s.threads < s.size && e.creates then 1 else 0)
            && s'.starting - s.starting == s'.threads - s.threads == s'.book.created - s.book.created
            && s.signalled <= s'.signalled <= s.idle
            && (s'.signalled > s.signalled <==> few && s.signalled < s.idle)
            && s'.book.failed == (s.book.failed || (few && s.idle == 0 && s.threads < s.size && !e.creates))
  {
  }

  /** A grown pool gets as many threads at once as it grew by, or if told so only as many as tasks are
      pending, up to the first creation that fails; a pool too large by now wakes a worker to leave. */
  lemma ResizingMeans(s: Pool, n: int, create: bool, fails: int, wake: nat)
    requires WakeInv(s) && Enabled(s, Resize(n, create, fails, wake))
    ensures var s', grow := Next(s, Resize(n, create, fails, wake)), n - s.size;
            var wanted := if grow <= 0 then 0 else if !create && grow > s.pending then s.pending else grow;
            && s'.size == n && s'.places == s.places && s'.tasks == s.tasks && s'.idle == s.idle
            && s'.threads == s.threads + (if 0 <= fails < wanted then fails else wanted)
            && s'.starting - s.starting == s'.threads - s.threads == s'.book.created - s.book.created
            && (s'.signalled > s.signalled <==> grow <= 0 && s.threads > n && s.signalled < s.idle)
            && s'.book.failed == (s.book.failed || 0 <= fails < wanted)
            && s.signalled <= s'.signalled <= s.idle
  {
  }

  // ---------------------------------------------------------------- closing

  /** A turn of the closer: while threads are left it sends workers without tasks away and sleeps; then it
      takes the queue, closes the pool, and destroys it if no task is left. */
  lemma ClosingMeans(s: Pool, e: Event)
    requires Enabled(s, e) && (e.Close? || e.CloserRuns?) && (e.CloserRuns? ==> s.status == Closing)
    ensures var s' := Next(s, e);
            && s'.tasks == s.tasks && s'.threads == s.threads && s'.idle == s.idle && s'.book.failed == s.book.failed
            && s'.places.held == s.places.held && s'.places.queued == s.places.queued && s'.places.parked == s.places.parked
            && (s.threads > 0 ==>
                  && s'.status == Closing && s'.closer == Asleep && s'.places == s.places && s'.book == s.book
                  && (if s.tasks == 0 && s.size > 0 then s'.size == 0 && s'.signalled == s.idle
                      else s'.size == s.size && s'.signalled == s.signalled))
            && (s.threads <= 0 ==>
                  && s'.status == Closed && s'.closer == Done && s'.size == s.size
                  && s'.places.queue == [] && s'.pending == 0
                  && s'.places.hands == s.places.hands + multiset(s.places.queue)
                  && s'.book.destroyed == s.book.destroyed + (if s.tasks == 0 then 1 else 0)
                  && s'.book.joined == s.book.joined + (if s.tasks == 0 && s.book.joinPending then 1 else 0))
  {
  }

  /** The finalizer of a task's state: one task less; a closed pool is destroyed with its last. */
  lemma CollectingMeans(s: Pool, t: Task)
    requires Enabled(s, Collect(t))
    ensures var s' := Next(s, Collect(t));
            && s'.tasks == s.tasks - 1 && s'.places.queue == s.places.queue && s'.places.held == s.places.held
            && s'.places.parked == s.places.parked
            && s'.places.hands == (if t in s.places.hands then s.places.hands - multiset{t} else s.places.hands)
            && s'.places.queued == (if t in s.places.hands then s.places.queued else s.places.queued - multiset{t})
            && s'.threads == s.threads && s'.idle == s.idle && s'.signalled == s.signalled && s'.closer == s.closer
            && s'.size == s.size && s'.status == s.status && s'.book.failed == s.book.failed
            && s'.book.destroyed == s.book.destroyed + (if s.status == Closed && s.tasks == 1 then 1 else 0)
  {
  }

  /** The movements of tasks and the wake-ups outside the mutex. */
  lemma OutsideMeans(s: Pool, e: Event)
    requires Enabled(s, e)
    requires e.ToChannel? || e.ToParked? || e.FromChannel? || e.FromParked? || e.Spurious? || e.CloserSpurious?
    ensures var s' := Next(s, e);
            && s'.places.queue == s.places.queue && s'.tasks == s.tasks && s'.threads == s.threads && s'.pending == s.pending
            && s'.running == s.running && s'.idle == s.idle && s'.size == s.size && s'.status == s.status
            && s'.book == s.book && s'.starting == s.starting
            && (e.ToChannel? ==> s'.places.held == s.places.held - multiset{e.t} && s'.places.queued == s.places.queued + multiset{e.t})
            && (e.ToParked? ==> s'.places.held == s.places.held - multiset{e.t} && s'.places.parked == s.places.parked + multiset{e.t})
            && (e.FromChannel? ==> s'.places.queued == s.places.queued - multiset{e.t} && s'.places.hands == s.places.hands + multiset{e.t})
            && (e.FromParked? ==> s'.places.parked == s.places.parked - multiset{e.t} && s'.places.hands == s.places.hands + multiset{e.t})
            && s'.releasing == (if e.ToChannel? || e.ToParked? then s.releasing + 1 else s.releasing)
            && s'.signalled == (if e.Spurious? then s.signalled + 1 else s.signalled)
            && s'.closer == (if e.CloserSpurious? then Woken else s.closer)
  {
  }

  /** Which steps are possible, in a pool that was not destroyed. */
  lemma Possible(s: Pool, e: Event)
    requires Inv(s) && s.book.destroyed == 0
    ensures e.Worker? && e.entry.Fresh? ==> (Enabled(s, e) <==> s.starting > 0)
    ensures e.Worker? && e.entry.Wake? ==> (Enabled(s, e) <==> s.signalled > 0)
    ensures e.Worker? && e.entry.Release? ==> (Enabled(s, e) <==> s.releasing > 0)
    ensures e.Worker? && (e.entry.Requeue? || e.entry.Finish?) ==> (Enabled(s, e) <==> e.entry.t in s.places.held)
    ensures e.AddTask? && (s.status == Open || (s.status == Closing && s.places.held != multiset{})) ==>
              (Enabled(s, e) <==> && e.t !in s.places.held && e.t !in s.places.queue && e.t !in s.places.queued
                                  && e.t !in s.places.parked && e.t !in s.places.hands)
    ensures e.Resume? ==> (Enabled(s, e) <==> e.t in s.places.hands)
    ensures e.Resize? && (s.status == Open || (s.status == Closing && s.places.held != multiset{})) ==> (Enabled(s, e) <==> e.n >= 0)
    ensures (e.AddTask? || e.Resize?) && s.status != Open && s.places.held == multiset{} ==> !Enabled(s, e)
    ensures e.Close? ==> (Enabled(s, e) <==> s.status == Open)
    ensures e.CloserRuns? ==> (Enabled(s, e) <==> s.closer == Woken)
    ensures e.Collect? ==> (Enabled(s, e) <==> e.t in s.places.hands || e.t in s.places.queued)
    ensures e.Spurious? ==> (Enabled(s, e) <==> s.signalled < s.idle)
    ensures e.CloserSpurious? ==> (Enabled(s, e) <==> s.closer == Asleep)
    ensures e.ToChannel? || e.ToParked? ==> (Enabled(s, e) <==> e.t in s.places.held)
    ensures e.FromChannel? ==> (Enabled(s, e) <==> e.t in s.places.queued)
    ensures e.FromParked? ==> (Enabled(s, e) <==> e.t in s.places.parked)
  {
  }

  // ---------------------------------------------------------------- first come, first served

  /** What a step adds to the queue. */
  function Queued(s: Pool, e: Event): seq<Task> {
    if e.AddTask? || (e.Resume? && s.status != Closed) then [e.t]
    else if e.Worker? && e.entry.Requeue? then [e.entry.t]
    else []
  }

  /** What a step takes: what a worker holds after it and did not before, or all that the closer takes. */
  ghost function Taken(s: Pool, e: Event): seq<Task>
    requires Enabled(s, e)
  {
    var s' := Next(s, e);
    if e.Worker? then
      var left := if e.entry.Requeue? || e.entry.Finish? then s.places.held - multiset{e.entry.t} else s.places.held;
      if exists t :: s'.places.held == left + multiset{t} then
        var t :| s'.places.held == left + multiset{t};
        [t]
      else []
    else if s'.status == Closed && s.status != Closed then s.places.queue
    else []
  }

  ghost function AllQueued(s: Pool, es: seq<Event>, s': Pool): seq<Task>
    requires Run(s, es, s')
    decreases |es|
  {
    if es == [] then [] else Queued(s, es[0]) + AllQueued(Next(s, es[0]), es[1..], s')
  }

  ghost function AllTaken(s: Pool, es: seq<Event>, s': Pool): seq<Task>
    requires Run(s, es, s')
    decreases |es|
  {
    if es == [] then [] else Taken(s, es[0]) + AllTaken(Next(s, es[0]), es[1..], s')
  }

  lemma OneMore(a: multiset<Task>, t: Task, x: Task)
    requires a + multiset{t} == a + multiset{x}
    ensures t == x
  {
    assert (a + multiset{t})[t] == a[t] + 1;
    assert (a + multiset{x})[t] == if t == x then a[t] + 1 else a[t];
  }

  lemma TakenIs(s: Pool, e: Entry, wake: nat, left: multiset<Task>, x: Task)
    requires Enabled(s, Worker(e, wake)) && Next(s, Worker(e, wake)).places.held == left + multiset{x}
    requires left == if e.Requeue? || e.Finish? then s.places.held - multiset{e.t} else s.places.held
    ensures Taken(s, Worker(e, wake)) == [x]
  {
    var t :| left + multiset{x} == left + multiset{t} && Taken(s, Worker(e, wake)) == [t];
    OneMore(left, t, x);
  }

  lemma TakenNone(s: Pool, e: Entry, wake: nat, left: multiset<Task>)
    requires Enabled(s, Worker(e, wake)) && Next(s, Worker(e, wake)).places.held == left
    requires left == if e.Requeue? || e.Finish? then s.places.held - multiset{e.t} else s.places.held
    ensures Taken(s, Worker(e, wake)) == []
  {
    forall t ensures left != left + multiset{t} {
      assert |left + multiset{t}| == |left| + 1;
    }
  }

  lemma TakerOrder(s: Pool, e: Entry, wake: nat)
    requires WakeInv(s) && Enabled(s, Worker(e, wake)) && s.threads <= s.size
    requires s.places.queue + Queued(s, Worker(e, wake)) != []
    ensures Taken(s, Worker(e, wake)) + Next(s, Worker(e, wake)).places.queue
         == s.places.queue + Queued(s, Worker(e, wake))
  {
    var left := if e.Requeue? || e.Finish? then s.places.held - multiset{e.t} else s.places.held;
    var queue := if e.Requeue? then s.places.queue + [e.t] else s.places.queue;
    assert queue == s.places.queue + Queued(s, Worker(e, wake));
    TakingMeans(s, e, wake);
    TakenIs(s, e, wake, left, queue[0]);
    assert queue == [queue[0]] + queue[1..];
  }

  lemma OtherOrder(s: Pool, e: Entry, wake: nat)
    requires WakeInv(s) && Enabled(s, Worker(e, wake))
    requires s.threads > s.size || s.places.queue + Queued(s, Worker(e, wake)) == []
    ensures Taken(s, Worker(e, wake)) + Next(s, Worker(e, wake)).places.queue
         == s.places.queue + Queued(s, Worker(e, wake))
  {
    var left := if e.Requeue? || e.Finish? then s.places.held - multiset{e.t} else s.places.held;
    var queue := if e.Requeue? then s.places.queue + [e.t] else s.places.queue;
    assert queue == s.places.queue + Queued(s, Worker(e, wake));
    if s.threads > s.size {
      LeavingMeans(s, e, wake);
    } else {
      TakingMeans(s, e, wake);
    }
    TakenNone(s, e, wake, left);
  }

  lemma StepOrder(s: Pool, e: Event)
    requires Inv(s) && Enabled(s, e)
    ensures Taken(s, e) + Next(s, e).places.queue == s.places.queue + Queued(s, e)
  {
    if e.Worker? {
      if s.threads > s.size || s.places.queue + Queued(s, e) == [] {
        OtherOrder(s, e.entry, e.wake);
      } else {
        TakerOrder(s, e.entry, e.wake);
      }
    } else {
      CallerOrder(s, e);
    }
  }

  lemma CallerOrder(s: Pool, e: Event)
    requires Inv(s) && Enabled(s, e) && !e.Worker?
    ensures Taken(s, e) + Next(s, e).places.queue == s.places.queue + Queued(s, e)
  {
    if e.AddTask? || e.Resume? {
      AddingMeans(s, e);
    } else if e.Close? || e.CloserRuns? {
      ClosingMeans(s, e);
    }
  }

  /** First come, first served: in every run of a pool, the tasks taken so far, followed by those in the
      queue, are the tasks queued so far, in the order they were queued. */
  lemma FirstQueuedFirstTaken(s: Pool, es: seq<Event>, s': Pool)
    requires Created(s) && Run(s, es, s')
    ensures AllTaken(s, es, s') + s'.places.queue == AllQueued(s, es, s')
  {
    CreatedInv(s);
    OrderKept(s, es, s');
  }

  lemma {:induction false} OrderKept(s: Pool, es: seq<Event>, s': Pool)
    requires Inv(s) && Run(s, es, s')
    ensures AllTaken(s, es, s') + s'.places.queue == s.places.queue + AllQueued(s, es, s')
    decreases |es|
  {
    if es != [] {
      var s1 := Next(s, es[0]);
      StepOrder(s, es[0]);
      StepKeeps(s, es[0]);
      OrderKept(s1, es[1..], s');
      Splice(Taken(s, es[0]), AllTaken(s1, es[1..], s'), s.places.queue, s1.places.queue, s'.places.queue,
             Queued(s, es[0]), AllQueued(s1, es[1..], s'));
    }
  }

  lemma Splice(a: seq<Task>, b: seq<Task>, q: seq<Task>, q1: seq<Task>, q2: seq<Task>, c: seq<Task>, d: seq<Task>)
    requires a + q1 == q + c && b + q2 == q1 + d
    ensures (a + b) + q2 == q + (c + d)
  {
    assert (a + b) + q2 == a + (b + q2);
    assert a + (q1 + d) == (a + q1) + d;
    assert (q + c) + d == q + (c + d);
  }
}
