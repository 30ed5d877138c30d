/**
 The code of src/lthpool.c: one method per critical section, updating the fields of the pool in place.

 The ghost fields follow what the code does not store.  Every method is proved to take the step of the
 transition system it is named after, so what holds in every run of that system holds of this code.
 `creates` and `fails` are the outcomes of `uv_thread_create`, `wake` that of `uv_cond_signal`.
 */
module PoolCode {
  import opened ThreadPools
  import opened PoolRuns

  /** How a worker leaves the mutex: with a task, asleep on `onwork`, or for good. */
  datatype Turn = Runs(t: Task) | Waits | Ends

  class ThreadPool {
    var status: Status
    var joinPending: bool
    var size: int
    var threads: int
    var idle: int
    var tasks: int
    var running: int
    var pending: int
    var queue: seq<Task>

    ghost var starting: int
    ghost var signalled: int
    ghost var releasing: int
    ghost var closer: Closer
    ghost var held: multiset<Task>
    ghost var queued: multiset<Task>
    ghost var parked: multiset<Task>
    ghost var hands: multiset<Task>
    ghost var created: int
    ghost var joined: int
    ghost var failed: bool
    ghost var destroyed: int

    ghost function View(): Pool
      reads this
    {
      Pool(status, size, threads, idle, tasks, running, pending, starting, signalled, releasing, closer,
           Places(held, queue, queued, parked, hands), Book(joinPending, created, joined, failed, destroyed))
    }

    constructor ()
      ensures Created(View())
    {
      status, joinPending := Open, false;
      size, threads, idle, tasks, running, pending, queue := 0, 0, 0, 0, 0, 0, [];
      starting, signalled, releasing, closer := 0, 0, 0, Absent;
      held, queued, parked, hands := multiset{}, multiset{}, multiset{}, multiset{};
      created, joined, failed, destroyed := 0, 0, false, 0;
    }

    // -------------------------------------------------------------- under the mutex

    method SignalWork(ghost wake: nat)
      modifies this`signalled
      ensures View() == Signal(old(View()), wake)
    {
      signalled := signalled + Woke(View(), wake);
    }

    predicate HasExtraIdleMx()
      reads this
    {
      threads > size && idle > 0
    }

    method CheckHaltedMx()
      modifies this`size, this`signalled
      ensures View() == CheckHalted(old(View()))
    {
      if tasks == 0 && size > 0 {
        size := 0;
        signalled := idle;  // uv_cond_broadcast
      }
    }

    method CreateThread(ok: bool) returns (err: bool)
      modifies this`threads, this`starting, this`created, this`failed
      ensures err == !ok
      ensures View() == CreateThreads(old(View()), 1, if ok then 1 else 0)
    {
      err := !ok;
      if !err {
        threads := threads + 1;
        starting, created := starting + 1, created + 1;
      } else {
        failed := true;
      }
    }

    method AddThreadMx(t: Task, creates: bool, ghost wake: nat) returns (added: bool)
      modifies this
      ensures added <==> old(status) != Closed
      ensures queue == old(queue) + (if added then [t] else []) && pending == old(pending) + (if added then 1 else 0)
      ensures var few := old(threads - running - idle <= pending);
              && threads == old(threads) + (if few && old(idle <= 0 && threads < size) && creates then 1 else 0)
              && signalled >= old(signalled) && (signalled > old(signalled) <==> few && old(idle > 0 && signalled < idle))
      ensures View() == AddThread(old(View()), t, creates, wake)
    {
      if threads - running - idle <= pending {
        if idle > 0 {
          SignalWork(wake);
        } else if threads < size {
          var _ := CreateThread(creates);
        }
      }
      if status == Closed { return false; }
      PutMx(t);
      return true;
    }

    // -------------------------------------------------------------- workers

    /** `thread_end`. */
    method EndThread(ghost wake: nat)
      modifies this
      ensures View() == ThreadEnd(old(View()), wake)
    {
      threads := threads - 1;
      WakeOthersMx(wake);
      JoinLastMx();
    }

    method WakeOthersMx(ghost wake: nat)
      modifies this`size, this`signalled, this`closer
      ensures View() == WakeOthers(old(View()), wake)
    {
      if HasExtraIdleMx() {
        SignalWork(wake);
      } else if status == Closing {
        if threads == 0 {
          closer := if closer == Asleep then Woken else closer;  // uv_cond_signal on `onterm`
        } else {
          CheckHaltedMx();
        }
      }
    }

    method JoinLastMx()
      modifies this`joinPending, this`joined
      ensures View() == old(View()).(book := Join(old(View()).book))
    {
      if joinPending {
        joined := joined + 1;  // uv_thread_join
      } else {
        joinPending := true;
      }
    }

    /** After the wait on `onwork`. */
    method WakeUpMx()
      requires signalled > 0
      modifies this`idle, this`signalled
      ensures View() == Enter(old(View()), Wake)
    {
      idle := idle - 1;
      signalled := signalled - 1;
    }

    /** The worker has no task any more. */
    method LetGoMx(t: Task)
      modifies this`running, this`held
      ensures View() == old(View()).(running := old(running) - 1, places := Unhold(old(View()).places, t))
    {
      running := running - 1;
      held := held - multiset{t};
    }

    method PutMx(t: Task)
      modifies this`pending, this`queue
      ensures View() == old(View()).(pending := old(pending) + 1, places := Put(old(View()).places, t))
    {
      pending := pending + 1;
      queue := queue + [t];
    }

    method RequeueMx(t: Task)
      requires t in held
      modifies this`running, this`pending, this`queue, this`held
      ensures View() == Enter(old(View()), Requeue(t))
    {
      LetGoMx(t);
      PutMx(t);
    }

    /** After a task that is over. */
    method FinishMx(t: Task)
      requires t in held
      modifies this`running, this`tasks, this`held
      ensures View() == Enter(old(View()), Finish(t))
    {
      LetGoMx(t);
      tasks := tasks - 1;
    }

    /** After a task that somebody else has by now. */
    method ReleaseMx()
      modifies this`running, this`releasing
      ensures View() == Enter(old(View()), Release)
    {
      running := running - 1;
      releasing := releasing - 1;
    }

    method TakeMx() returns (t: Task)
      requires queue != []
      modifies this`running, this`pending, this`queue, this`held
      ensures t == old(queue)[0]
      ensures View() == old(View()).(pending := old(pending) - 1, running := old(running) + 1, places := Take(old(View()).places))
    {
      pending := pending - 1;
      t := queue[0];
      queue := queue[1..];
      held := held + multiset{t};
      running := running + 1;
    }

    /** Before the wait on `onwork`. */
    method FallAsleepMx()
      modifies this`idle
      ensures View() == old(View()).(idle := old(idle) + 1)
    {
      idle := idle + 1;
    }

    /** The inner loop of `threadmain`, until the worker leaves the mutex. */
    method WorkerLoop(ghost wake: nat) returns (turn: Turn)
      requires Counts(View(), 1) && running >= 0
      modifies this
      ensures View() == WorkerTurn(old(View()), wake)
      ensures turn.Runs? <==> old(threads) <= old(size) && old(queue) != []
      ensures turn.Runs? ==> turn.t == old(queue)[0] && queue == old(queue)[1..] && held == old(held) + multiset{turn.t}
      ensures turn.Ends? <==> old(threads) > old(size) || (old(queue) == [] && old(status) == Closing && old(tasks) == 0)
      ensures threads == old(threads) - (if turn.Ends? then 1 else 0)
      ensures idle == old(idle) + (if turn.Waits? then 1 else 0)
      ensures !turn.Runs? ==> queue == old(queue) && held == old(held)
    {
      ghost var inside := View();
      while true
        invariant View() == inside ||
                  (View() == inside.(size := 0) && status == Closing && tasks == 0 && pending == 0 && inside.threads <= inside.size)
        decreases if threads > size then 0 else 1
      {
        if threads > size {
          EndThread(wake);
          return Ends;
        } else if pending != 0 {
          var t := TakeMx();
          return Runs(t);
        } else if status == Closing && tasks == 0 {
          size := 0;
          assert View() == inside.(size := 0);
        } else {
          FallAsleepMx();
          return Waits;
        }
      }
    }

    method EnterMx(entry: Entry)
      requires EntryEnabled(View(), entry)
      modifies this
      ensures View() == Enter(old(View()), entry)
    {
      match entry {
        case Fresh => starting := starting - 1;
        case Wake => WakeUpMx();
        case Requeue(t) => RequeueMx(t);
        case Finish(t) => FinishMx(t);
        case Release => ReleaseMx();
      }
    }

    /** From taking the mutex, after its start, its wait or its task, to leaving it again. */
    method ThreadMain(entry: Entry, ghost wake: nat) returns (turn: Turn)
      requires WakeInv(View()) && Enabled(View(), Worker(entry, wake))
      modifies this
      ensures View() == Next(old(View()), Worker(entry, wake))
      // the worker takes the first of the queue, to which it may have returned its own task
      ensures var queued := old(queue) + (if entry.Requeue? then [entry.t] else []);
              && (turn.Runs? <==> old(threads) <= old(size) && queued != [])
              && (turn.Runs? ==> turn.t == queued[0] && queue == queued[1..])
              && (!turn.Runs? ==> queue == queued)
              && (turn.Ends? <==> old(threads) > old(size)
                                  || (queued == [] && old(status) == Closing
                                      && old(tasks) - (if entry.Finish? then 1 else 0) == 0))
      ensures var left := if entry.Requeue? || entry.Finish? then old(held) - multiset{entry.t} else old(held);
              held == if turn.Runs? then left + multiset{turn.t} else left
      ensures threads == old(threads) - (if turn.Ends? then 1 else 0)
      ensures idle == old(idle) - (if entry.Wake? then 1 else 0) + (if turn.Waits? then 1 else 0)
      ensures tasks == old(tasks) - (if entry.Finish? then 1 else 0)
    {
      EnterKeeps(View(), entry);
      EnterStatus(View(), entry);
      EnterMx(entry);
      turn := WorkerLoop(wake);
    }

    // -------------------------------------------------------------- callers

    method ResumeTask(t: Task, creates: bool, ghost wake: nat) returns (added: bool)
      requires Enabled(View(), Resume(t, creates, wake))
      modifies this
      ensures View() == Next(old(View()), Resume(t, creates, wake))
      ensures added <==> old(status) != Closed
      ensures queue == old(queue) + (if added then [t] else []) && tasks == old(tasks)
    {
      added := AddThreadMx(t, creates, wake);
      if added {
        hands := hands - multiset{t};
      }
    }

    method AddPoolTask(t: Task, creates: bool, ghost wake: nat)
      requires Enabled(View(), AddTask(t, creates, wake))
      modifies this
      ensures View() == Next(old(View()), AddTask(t, creates, wake))
      ensures queue == old(queue) + [t] && pending == old(pending) + 1 && tasks == old(tasks) + 1
    {
      var added := AddThreadMx(t, creates, wake);
      assert added;
      tasks := tasks + 1;
    }

    method ResizePool(n: int, create: bool, fails: int, ghost wake: nat) returns (err: bool)
      requires Counts(View(), 0) && Enabled(View(), Resize(n, create, fails, wake))
      modifies this
      ensures View() == Next(old(View()), Resize(n, create, fails, wake))
      ensures var grow := n - old(size);
              var wanted := if grow <= 0 then 0 else if !create && grow > old(pending) then old(pending) else grow;
              && (err <==> 0 <= fails < wanted)
              && threads == old(threads) + (if err then fails else wanted)
      ensures size == n && queue == old(queue)
    {
      err := false;
      var newthreads := n - size;
      size := n;
      ghost var s1 := View();
      if newthreads > 0 {
        if !create && newthreads > pending {
          newthreads := pending;
        }
        ghost var wanted := newthreads;
        var made := 0;
        while newthreads > 0
          invariant 0 <= made && 0 <= newthreads && made + newthreads == wanted
          invariant 0 <= fails < wanted ==> made <= fails
          invariant View() == CreateThreads(s1, made, made) && !err
          decreases newthreads
        {
          newthreads := newthreads - 1;
          err := CreateThread(!(0 <= fails && fails == made));
          if err {
            assert View() == CreateThreads(s1, wanted, made);
            break;
          }
          made := made + 1;
        }
      } else if HasExtraIdleMx() {
        SignalWork(wake);
      }
    }

    // -------------------------------------------------------------- closing

    method DestroyPool()
      requires status == Closed && threads == 0 && idle == 0 && tasks == 0 && running == 0 && pending == 0 && queue == []
      modifies this`joinPending, this`joined, this`destroyed
      ensures View() == Destroy(old(View()))
      ensures destroyed == old(destroyed) + 1 && !joinPending && joined == old(joined) + (if old(joinPending) then 1 else 0)
    {
      if joinPending {
        joined := joined + 1;
      }
      joinPending, destroyed := false, destroyed + 1;  // the memory is released
    }

    method EmptyQueue()
      modifies this`hands, this`pending, this`queue
      ensures View() == old(View()).(pending := 0, places := Empty(old(View()).places))
    {
      hands := hands + multiset(queue);
      pending, queue := 0, [];
    }

    /** The end of `lcuTP_closetpool`: the queue is taken away, to be closed task by task. */
    method ShutPool() returns (taken: seq<Task>)
      requires threads == idle == running == 0
      modifies this
      ensures View() == CloserTurn(old(View()))
      ensures taken == old(queue) && queue == [] && pending == 0 && status == Closed
      ensures destroyed == old(destroyed) + (if old(tasks) == 0 then 1 else 0)
    {
      taken := queue;
      EmptyQueue();
      status, closer := Closed, Done;
      assert View() == old(View()).(status := Closed, closer := Done, pending := 0, places := Empty(old(View()).places));
      if tasks == 0 {
        DestroyPool();
      }
    }

    /** From the closer's first or a later turn with the mutex to its next wait or its end. */
    method ClosePool(first: bool) returns (done: bool, taken: seq<Task>)
      requires Counts(View(), 0) && Enabled(View(), if first then Close else CloserRuns)
      modifies this
      ensures View() == Next(old(View()), if first then Close else CloserRuns)
      ensures done <==> old(threads) == 0
      ensures taken == if done then old(queue) else []
      ensures status == (if done then Closed else if first then Closing else old(status))
      ensures closer == (if done then Done else Asleep)
    {
      if first {
        status := Closing;
      }
      done, taken := threads == 0, [];
      if !done {
        CheckHaltedMx();
        closer := Asleep;  // uv_cond_wait on `onterm`
      } else {
        assert |held| >= 0;
        taken := ShutPool();
      }
    }

    /** The state is closed where it is. */
    method DropTask(t: Task)
      modifies this`hands, this`queued
      ensures View() == old(View()).(places := Drop(old(View()).places, t))
    {
      if t in hands {
        hands := hands - multiset{t};
      } else {
        queued := queued - multiset{t};
      }
    }

    /** `collectthreadpool`: the finalizer of a task's state. */
    method CollectThreadPool(t: Task)
      requires Counts(View(), 0) && ClosedInv(View()) && CloseInv(View()) && Enabled(View(), Collect(t))
      modifies this
      ensures View() == Next(old(View()), Collect(t))
      ensures tasks == old(tasks) - 1
      ensures destroyed == old(destroyed) + (if old(status) == Closed && tasks == 0 then 1 else 0)
    {
      assert status == Closed ==> |held| == 0;
      var s := status;
      tasks := tasks - 1;
      DropTask(t);
      if s == Closed && tasks == 0 {
        DestroyPool();
      }
    }
  }
}
