/**
 What holds in every run of the thread pool of src/lthpool.c, and what holds only in runs that close
 the pool with care.
 */
module PoolRuns {
  import opened ThreadPools

  // ---------------------------------------------------------------- every run

  /** No wake-up is lost: as many workers are awake as the queue and an oversized pool call for, or all
      of them; so no worker sleeps next to a pending task unless others are coming for it. */
  lemma NoLostWakeUp(s: Pool)
    requires Reachable(s)
    ensures s.threads == s.running + s.idle + s.starting
    ensures var awake, wanted := s.signalled + s.starting, s.pending + (if s.threads > s.size then 1 else 0);
            awake >= (if wanted < s.starting + s.idle then wanted else s.starting + s.idle)
    ensures s.threads > s.size && s.idle > 0 ==> s.signalled >= 1
    ensures s.pending > 0 && s.signalled < s.idle ==> s.signalled + s.starting >= s.pending
  {
    ReachableInv(s);
  }

  /** Unless thread creation failed, a pool of positive size never leaves a task pending with nobody up:
      some worker is running, starting or woken. */
  lemma PendingIsServed(s: Pool)
    requires Reachable(s)
    requires !s.book.failed && s.pending > 0 && s.size > 0
    ensures s.running > 0 || s.starting > 0 || s.signalled > 0
  {
    ReachableInv(s);
  }

  /** Every task is in exactly one place; `tasks`, `pending` and `running` count what they say. */
  lemma SingleOwnership(s: Pool, t: Task)
    requires Reachable(s)
    ensures s.places.held[t] + multiset(s.places.queue)[t] + s.places.queued[t] + s.places.parked[t] + s.places.hands[t] <= 1
    ensures s.tasks == |s.places.held| + |s.places.queue| + |s.places.queued| + |s.places.parked| + |s.places.hands|
    ensures s.pending == |s.places.queue|
    ensures s.running == |s.places.held| + s.releasing
  {
    ReachableInv(s);
    assert All(s.places)[t] <= 1;
  }

  /** What `lcuTP_counttpool` reports as suspended is the tasks outside the pool, less the workers that
      have not yet noticed theirs is gone. */
  lemma SuspendedCount(s: Pool)
    requires Reachable(s)
    ensures s.tasks - s.running - s.pending ==
            |s.places.queued| + |s.places.parked| + |s.places.hands| - s.releasing
  {
    SingleOwnership(s, 0);
  }

  /** The pool is destroyed exactly when it is closed and the last task is gone, and only once. */
  lemma DestroyedOnce(s: Pool)
    requires Reachable(s)
    ensures s.book.destroyed == (if s.status == Closed && s.tasks == 0 then 1 else 0)
    ensures s.book.created == s.threads + s.book.joined + (if s.book.joinPending then 1 else 0)
    ensures s.book.destroyed == 1 ==>
              && s.running == 0 && s.pending == 0 && s.places.queue == []
              && s.book.created - s.book.joined == s.threads
  {
    ReachableInv(s);
    if s.book.destroyed == 1 {
      assert |s.places.held| == 0;
    }
  }

  // ---------------------------------------------------------------- closing with care

  /** Some worker is up, or there is none. */
  predicate Up(s: Pool) {
    s.threads == 0 || s.running > 0 || s.starting > 0 || s.signalled > 0
  }

  /** The two cares: a pool shut with tasks left has size 0, and no finalizer takes the last task of a
      closing pool whose workers all sleep. */
  predicate Careful(s: Pool, e: Event) {
    && ((e.Close? || e.CloserRuns?) && s.threads == 0 ==> s.tasks == 0 || s.size == 0)
    && (e.Collect? && s.status == Closing && s.tasks == 1 ==> Up(s))
  }

  ghost predicate CarefulRun(s: Pool, es: seq<Event>, s': Pool)
    decreases |es|
  {
    if es == [] then s == s'
    else Enabled(s, es[0]) && Careful(s, es[0]) && CarefulRun(Next(s, es[0]), es[1..], s')
  }

  ghost predicate CloseInv(s: Pool) {
    && (s.status == Closed ==> s.threads == 0 && (s.size == 0 || s.tasks == 0))
    && (s.status == Closing && s.tasks == 0 ==> Up(s))
  }

  /** With `tasks` at 0 nothing is queued, held, parked or in anybody's hands. */
  lemma TasksGone(s: Pool)
    requires |All(s.places)| == 0
    ensures s.places.queue == [] && s.places.held == multiset{} && s.places.hands == multiset{}
    ensures s.places.queued == multiset{} && s.places.parked == multiset{}
  {
    assert |multiset(s.places.queue)| == 0;
  }

  /** A worker that leaves a closing pool without tasks leaves somebody up, or nobody at all. */
  lemma EndUp(s: Pool, wake: nat)
    requires InsideInv(s) && s.running >= 0
    requires s.threads > s.size && s.status == Closing && s.tasks == 0
    ensures Up(ThreadEnd(s, wake))
  {
    SignalWakes(s.(threads := s.threads - 1), wake);
  }

  /** And in such a pool leaving is all a worker can do. */
  lemma TurnUp(s: Pool, wake: nat)
    requires InsideInv(s) && s.running >= 0
    requires s.status == Closing && s.tasks == 0 && s.pending == 0
    ensures Up(WorkerTurn(s, wake))
    ensures WorkerTurn(s, wake).threads == s.threads - 1
  {
    if s.threads > s.size {
      EndUp(s, wake);
    } else {
      EndUp(s.(size := 0), wake);
    }
  }

  lemma NoWorkerInClosed(s: Pool, e: Entry)
    requires Inv(s) && CloseInv(s) && s.status == Closed
    ensures !EntryEnabled(s, e)
  {
    assert |s.places.held| == 0;
  }

  lemma TurnStatus(s: Pool, wake: nat)
    ensures WorkerTurn(s, wake).status == s.status && WorkerTurn(s, wake).tasks == s.tasks
  {
  }

  lemma EnterStatus(s: Pool, e: Entry)
    requires EntryEnabled(s, e)
    ensures Enter(s, e).status == s.status && Enter(s, e).threads == s.threads
  {
  }

  lemma EnterEmpty(s: Pool, e: Entry)
    requires Inv(s) && EntryEnabled(s, e) && Enter(s, e).tasks == 0
    ensures Enter(s, e).pending == 0 && Enter(s, e).running >= 0
  {
    var s1 := Enter(s, e);
    EnterKeeps(s, e);
    EnterPlaces(s, e);
    var all := All(s.places);
    if e.Finish? {
      assert e.t in all;
    }
    assert |All(s1.places)| == 0;
    TasksGone(s1);
  }

  lemma WorkerCloses(s: Pool, e: Entry, wake: nat)
    requires Inv(s) && CloseInv(s) && Enabled(s, Worker(e, wake))
    ensures CloseInv(Next(s, Worker(e, wake)))
  {
    var s1 := Enter(s, e);
    EnterStatus(s, e);
    TurnStatus(s1, wake);
    if s.status == Closed {
      NoWorkerInClosed(s, e);
    } else if s1.status == Closing && s1.tasks == 0 {
      EnterKeeps(s, e);
      EnterEmpty(s, e);
      TurnUp(s1, wake);
    }
  }

  /** With tasks left to run or to close, everything but a worker's turn keeps its cares. */
  lemma CallerCloses(s: Pool, e: Event)
    requires Inv(s) && CloseInv(s) && Enabled(s, e) && (e.AddTask? || e.Resume? || e.Resize?)
    ensures CloseInv(Next(s, e))
  {
    if s.tasks == 0 {
      TasksGone(s);
    }
  }

  lemma CloserCloses(s: Pool)
    requires Counts(s, 0) && (HasExtraIdle(s) ==> s.signalled >= 1)
    requires s.status == Closing && (s.threads == 0 ==> s.tasks == 0 || s.size == 0)
    ensures CloseInv(CloserTurn(s))
  {
  }

  lemma OthersClose(s: Pool, e: Event)
    requires Inv(s) && CloseInv(s) && Enabled(s, e) && Careful(s, e)
    requires !e.Worker? && !e.AddTask? && !e.Resume? && !e.Resize? && !e.Close? && !e.CloserRuns?
    ensures CloseInv(Next(s, e))
  {
    if s.status == Closing && s.tasks == 0 {
      TasksGone(s);
    }
  }

  lemma CarefulStep(s: Pool, e: Event)
    requires Inv(s) && CloseInv(s) && Enabled(s, e) && Careful(s, e)
    ensures Inv(Next(s, e)) && CloseInv(Next(s, e))
  {
    StepKeeps(s, e);
    match e
    case Worker(entry, wake) => WorkerCloses(s, entry, wake);
    case AddTask(t, creates, wake) => CallerCloses(s, e);
    case Resume(t, creates, wake) => CallerCloses(s, e);
    case Resize(n, create, fails, wake) => CallerCloses(s, e);
    case Close => CloserCloses(s.(status := Closing));
    case CloserRuns => CloserCloses(s);
    case _ => OthersClose(s, e);
  }

  lemma {:induction false} CarefulRunKeeps(s: Pool, es: seq<Event>, s': Pool)
    requires Inv(s) && CloseInv(s) && CarefulRun(s, es, s')
    ensures Inv(s') && CloseInv(s')
    decreases |es|
  {
    if es == [] {
    } else {
      CarefulStep(s, es[0]);
      CarefulRunKeeps(Next(s, es[0]), es[1..], s');
    }
  }

  /** What the cares are, and that careful runs go on by every careful step. */
  lemma CareMeans(s: Pool, e: Event)
    requires Inv(s) && s.status != Closed
    ensures e.Close? || e.CloserRuns? ==> (Careful(s, e) <==> s.threads != 0 || s.tasks == 0 || s.size == 0)
    ensures e.Collect? ==> (Careful(s, e) <==> s.status != Closing || s.tasks != 1 || s.threads == 0
                                               || s.running > 0 || s.starting > 0 || s.signalled > 0)
    ensures !e.Close? && !e.CloserRuns? && !e.Collect? ==> Careful(s, e)
  {
  }

  lemma CarefullyNext(s: Pool, e: Event)
    requires CarefullyReachable(s) && Enabled(s, e) && Careful(s, e)
    ensures CarefullyReachable(Next(s, e))
  {
    var s0, es :| Created(s0) && CarefulRun(s0, es, s);
    CarefullyOn(s0, es, s, e);
  }

  lemma {:induction false} CarefullyOn(s: Pool, es: seq<Event>, s': Pool, e: Event)
    requires CarefulRun(s, es, s') && Enabled(s', e) && Careful(s', e)
    ensures CarefulRun(s, es + [e], Next(s', e))
    decreases |es|
  {
    var all := es + [e];
    if es == [] {
      assert CarefulRun(Next(s, e), [], Next(s, e));
      assert all[0] == e && all[1..] == [];
    } else {
      CarefullyOn(Next(s, es[0]), es[1..], s', e);
      assert all[0] == es[0] && all[1..] == es[1..] + [e];
    }
  }

  lemma CarefullyCreated(s: Pool)
    requires Created(s)
    ensures CarefullyReachable(s)
  {
    assert CarefulRun(s, [], s);
  }

  ghost predicate CarefullyReachable(s: Pool) {
    exists s0, es :: Created(s0) && CarefulRun(s0, es, s)
  }

  lemma CarefullyReachableInv(s: Pool)
    requires CarefullyReachable(s)
    ensures Inv(s) && CloseInv(s)
  {
    var s0, es :| Created(s0) && CarefulRun(s0, es, s);
    CreatedInv(s0);
    CarefulRunKeeps(s0, es, s);
  }

  /** What `lcuTP_destroytpool` asserts holds whenever it is called, and every thread ever created has
      been joined by then. */
  lemma DestroyFindsAllZero(s: Pool)
    requires CarefullyReachable(s) && s.book.destroyed > 0
    ensures s.status == Closed && s.threads == 0 && s.idle == 0 && s.tasks == 0 && s.running == 0 && s.pending == 0
    ensures s.places.queue == []
    ensures s.book.destroyed == 1 && s.book.created == s.book.joined
  {
    CarefullyReachableInv(s);
    assert |s.places.held| == 0;
  }

  // ---------------------------------------------------------------- draining

  /** Sections of workers in a run. */
  function WorkerSections(es: seq<Event>): nat {
    if es == [] then 0 else (if es[0].Worker? then 1 else 0) + WorkerSections(es[1..])
  }

  /** A closing pool without tasks: every worker section ends a thread, and nothing else changes their
      number or brings a task. */
  lemma DrainStep(s: Pool, e: Event)
    requires Inv(s) && Enabled(s, e) && s.status == Closing && s.tasks == 0
    ensures Next(s, e).tasks == 0
    ensures Next(s, e).status == Closing || (e == CloserRuns && s.threads == 0 && Next(s, e).book.destroyed == 1)
    ensures Next(s, e).threads == s.threads - (if e.Worker? then 1 else 0)
  {
    TasksGone(s);
    if e.Worker? {
      EnterKeeps(s, e.entry);
      EnterStatus(s, e.entry);
      TurnStatus(Enter(s, e.entry), e.wake);
      TurnUp(Enter(s, e.entry), e.wake);
    }
  }

  /** So `threads` measures what is left to do: a run that stays closing has used up exactly one thread
      per worker section. */
  lemma {:induction false} DrainMeasure(s: Pool, es: seq<Event>, s': Pool)
    requires Inv(s) && s.status == Closing && s.tasks == 0
    requires Run(s, es, s') && s'.status == Closing
    ensures s'.threads == s.threads - WorkerSections(es)
    decreases |es|
  {
    if es == [] {
    } else {
      var s1 := Next(s, es[0]);
      DrainStep(s, es[0]);
      StepKeeps(s, es[0]);
      if s1.status == Closing {
        DrainMeasure(s1, es[1..], s');
      }
    }
  }

  /** And it does get done: while a thread is left some worker is up (and its section is enabled); when
      none is left the closer has been woken, and its next turn destroys the pool. */
  lemma DrainProgress(s: Pool)
    requires CarefullyReachable(s) && s.status == Closing && s.tasks == 0
    ensures s.threads > 0 ==> s.starting > 0 || s.signalled > 0 || s.releasing > 0
    ensures s.threads > 0 ==> exists e :: EntryEnabled(s, e)
    ensures s.threads == 0 ==> Enabled(s, CloserRuns) && Next(s, CloserRuns).book.destroyed == 1
  {
    CarefullyReachableInv(s);
    TasksGone(s);
    if s.threads > 0 {
      assert EntryEnabled(s, Fresh) || EntryEnabled(s, Wake) || EntryEnabled(s, Release);
    }
  }

  // ---------------------------------------------------------------- closing without care

  lemma RunCons(s: Pool, e: Event, es: seq<Event>, s': Pool)
    requires Enabled(s, e) && Run(Next(s, e), es, s')
    ensures Run(s, [e] + es, s')
  {
    assert ([e] + es)[1..] == es;
  }

  lemma RunOne(s: Pool, e: Event)
    requires Enabled(s, e)
    ensures Run(s, [e], Next(s, e))
  {
    assert Run(Next(s, e), [], Next(s, e));
    RunCons(s, e, [], Next(s, e));
    assert [e] + [] == [e];
  }

  lemma {:induction false} RunAppend(s: Pool, es: seq<Event>, s': Pool, e: Event)
    requires Run(s, es, s') && Enabled(s', e)
    ensures Run(s, es + [e], Next(s', e))
    decreases |es|
  {
    if es == [] {
      RunOne(s, e);
      assert es + [e] == [e];
    } else {
      RunAppend(Next(s, es[0]), es[1..], s', e);
      RunCons(s, es[0], es[1..] + [e], Next(s', e));
      assert es + [e] == [es[0]] + (es[1..] + [e]);
    }
  }

  lemma ReachableNext(s: Pool, e: Event)
    requires Reachable(s) && Enabled(s, e)
    ensures Reachable(Next(s, e))
  {
    var s0, es :| Created(s0) && Run(s0, es, s);
    RunAppend(s0, es, s, e);
  }

  lemma EmptyPoolStep(s: Pool, e: Event)
    requires Inv(s) && Enabled(s, e)
    requires s.status == Closed && s.threads == 0 && s.size == 0
    ensures Next(s, e).status == Closed && Next(s, e).threads == 0 && Next(s, e).size == 0
  {
    assert |s.places.held| == 0;
  }

  lemma {:induction false} EmptyPoolStays(s: Pool, es: seq<Event>, s': Pool)
    requires Inv(s) && Run(s, es, s')
    requires s.status == Closed && s.threads == 0 && s.size == 0
    ensures s'.threads == 0
    decreases |es|
  {
    if es == [] {
    } else {
      StepKeeps(s, es[0]);
      EmptyPoolStep(s, es[0]);
      EmptyPoolStays(Next(s, es[0]), es[1..], s');
    }
  }

  /** A task of a closed pool that comes back for a worker gets one, if the pool's size allows it. */
  lemma ClosedPoolStaffs(s: Pool, t: Task)
    requires Inv(s) && s.status == Closed && s.threads == 0 && s.size > 0 && s.book.destroyed == 0
    requires t in s.places.hands
    ensures Enabled(s, Resume(t, true, 0)) && Next(s, Resume(t, true, 0)).threads == 1
  {
  }

  /** `addthread_mx` provides a worker before it looks at the status.  So a pool shut with tasks left
      can get a thread again, which nobody will end or join, exactly when its size was not 0. */
  lemma ClosedPoolGrowsIffSized(s: Pool)
    requires Reachable(s) && s.status == Closed && s.threads == 0 && s.book.destroyed == 0
    ensures (exists es, s' :: Run(s, es, s') && s'.threads > 0) <==> s.size > 0
  {
    ReachableInv(s);
    if s.size > 0 {
      var t :| t in All(s.places);
      assert t in s.places.hands || t in s.places.queued || t in s.places.parked;
      if t in s.places.hands {
        GrowsBy(s, [], s, t);
      } else {
        var e := if t in s.places.queued then FromChannel(t) else FromParked(t);
        var s1 := Next(s, e);
        StepKeeps(s, e);
        RunOne(s, e);
        GrowsBy(s, [e], s1, t);
      }
    } else {
      forall es, s' | Run(s, es, s') ensures s'.threads == 0 {
        EmptyPoolStays(s, es, s');
      }
    }
  }

  lemma GrowsBy(s: Pool, es: seq<Event>, s1: Pool, t: Task)
    requires Run(s, es, s1)
    requires Inv(s1) && s1.status == Closed && s1.threads == 0 && s1.size > 0 && s1.book.destroyed == 0
    requires t in s1.places.hands
    ensures exists es', s' :: Run(s, es', s') && s'.threads > 0
  {
    ClosedPoolStaffs(s1, t);
    RunAppend(s, es, s1, Resume(t, true, 0));
  }

  /** No step but a spurious wake-up is possible: the closer sleeps, and so does every worker. */
  ghost predicate Stranded(s: Pool) {
    && s.status == Closing && s.threads > 0 && s.closer == Asleep
    && forall e :: Enabled(s, e) ==> e.Spurious? || e.CloserSpurious?
  }

  /** A finalizer signals nobody.  The closing pool whose last task it takes is stranded exactly when
      its workers all sleep. */
  lemma FinalizerStrandsIffAsleep(s: Pool, t: Task)
    requires CarefullyReachable(s) && Enabled(s, Collect(t))
    requires s.status == Closing && s.closer == Asleep && s.tasks == 1
    ensures Stranded(Next(s, Collect(t))) <==> s.threads > 0 && s.running == s.starting == s.signalled == 0
    ensures Stranded(Next(s, Collect(t))) ==>
              forall e :: Enabled(Next(s, Collect(t)), e) ==> e.Spurious? || e.CloserSpurious?
  {
    CarefullyReachableInv(s);
    var s' := Next(s, Collect(t));
    StepKeeps(s, Collect(t));
    TasksGone(s');
    if Up(s) {
      assert s.threads > 0 ==> EntryEnabled(s', Fresh) || EntryEnabled(s', Wake) || EntryEnabled(s', Release);
      assert s.threads > 0 ==> exists e :: EntryEnabled(s', e) && Enabled(s', Worker(e, 0));
    }
  }

  /** An open pool where nobody idles, with one task `t`. */
  ghost predicate OneTask(s: Pool, t: Task, size: int, threads: int, running: int, starting: int, releasing: int) {
    && Reachable(s) && s.status == Open && s.book.destroyed == 0 && s.tasks == 1
    && s.size == size && s.threads == threads && s.running == running && s.starting == starting
    && s.idle == 0 && s.signalled == 0 && s.releasing == releasing
  }

  lemma FirstTask(t: Task) returns (s: Pool)
    ensures OneTask(s, t, 0, 0, 0, 0, 0) && s.places.queue == [t] && s.pending == 1 && s.places.held == multiset{}
  {
    var s0 := Pool(Open, 0, 0, 0, 0, 0, 0, 0, 0, 0, Absent,
                   Places(multiset{}, [], multiset{}, multiset{}, multiset{}), Book(false, 0, 0, false, 0));
    assert Created(s0) && Run(s0, [], s0);
    s := Next(s0, AddTask(t, true, 0));
    ReachableNext(s0, AddTask(t, true, 0));
  }

  lemma TaskWaits(t: Task) returns (s: Pool)
    ensures OneTask(s, t, 1, 1, 1, 0, 1) && t in s.places.queued && s.places.queue == [] && s.pending == 0
  {
    s := FirstTask(t);
    var s1 := Next(s, Resize(1, true, 9, 0));
    ReachableNext(s, Resize(1, true, 9, 0));
    assert OneTask(s1, t, 1, 1, 0, 1, 0) && s1.places == s.places && s1.pending == 1;
    var s2 := Next(s1, Worker(Fresh, 0));
    ReachableNext(s1, Worker(Fresh, 0));
    assert OneTask(s2, t, 1, 1, 1, 0, 0) && s2.places.queue == [] && t in s2.places.held && s2.pending == 0;
    s := Next(s2, ToChannel(t));
    ReachableNext(s2, ToChannel(t));
  }

  /** The pool is shrunk to 0 under its waiting task, and then enlarged without creating workers. */
  lemma SizedWithoutThreads(t: Task) returns (s: Pool)
    ensures OneTask(s, t, 3, 0, 0, 0, 0) && t in s.places.queued && s.places.queue == [] && s.pending == 0
  {
    s := TaskWaits(t);
    var s1 := Next(s, Resize(0, false, 9, 0));
    ReachableNext(s, Resize(0, false, 9, 0));
    assert OneTask(s1, t, 0, 1, 1, 0, 1) && s1.places == s.places && s1.pending == 0;
    var s2 := Next(s1, Worker(Release, 0));
    ReachableNext(s1, Worker(Release, 0));
    assert OneTask(s2, t, 0, 0, 0, 0, 0) && s2.places == s.places && s2.pending == 0;
    s := Next(s2, Resize(3, false, 9, 0));
    ReachableNext(s2, Resize(3, false, 9, 0));
  }

  /** The trap is real: closed in that state, the pool gets a thread when the task comes back, and is
      destroyed with that thread in it when the task is closed. */
  lemma DestroyedWithThread(t: Task) returns (s: Pool)
    ensures Reachable(s) && s.book.destroyed == 1 && s.threads == 1
  {
    s := SizedWithoutThreads(t);
    var s1 := Next(s, Close);
    ReachableNext(s, Close);
    assert s1.status == Closed && s1.book.destroyed == 0 && s1.size == 3 && s1.tasks == 1 && t in s1.places.queued;
    assert s1.threads == s1.running == s1.idle == s1.pending == 0;
    var s2 := Next(s1, FromChannel(t));
    ReachableNext(s1, FromChannel(t));
    assert s2 == s1.(places := s2.places) && t in s2.places.hands;
    var s3 := Next(s2, Resume(t, true, 0));
    ReachableNext(s2, Resume(t, true, 0));
    assert s3.status == Closed && s3.threads == 1 && s3.tasks == 1 && s3.book.destroyed == 0 && t in s3.places.hands;
    s := Next(s3, Collect(t));
    ReachableNext(s3, Collect(t));
  }

  /** The other trap is real too: a closing pool whose only worker sleeps, and whose waiting task is closed. */
  lemma StrandedCloser(t: Task) returns (s: Pool)
    ensures Reachable(s) && Stranded(s)
  {
    s := TaskWaits(t);
    var s1 := Next(s, Worker(Release, 0));
    ReachableNext(s, Worker(Release, 0));
    assert s1 == s.(running := 0, releasing := 0, idle := 1);
    var s2 := Next(s1, Close);
    ReachableNext(s1, Close);
    assert s2 == s1.(status := Closing, closer := Asleep);
    s := Next(s2, Collect(t));
    ReachableNext(s2, Collect(t));
    ReachableInv(s);
    TasksGone(s);
  }
}
