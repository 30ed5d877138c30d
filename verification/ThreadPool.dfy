/**
 The thread pool of src/lthpool.c as a transition system.

 A step is one critical section of the pool's mutex, or one movement of a task outside it; the states
 between steps are those where nobody holds the mutex.  Besides the fields of `lcu_ThreadPool` a state
 records what the code does not store: which workers are starting or woken, and where the tasks are.
 A condition signal wakes at least one sleeper if there is one, and wake-ups may be spurious.
 */
module ThreadPools {

  type Task = nat

  datatype Status = Open | Closing | Closed

  /** The thread in `lcuTP_closetpool`: not there yet, waiting on `onterm` (asleep or woken), or done. */
  datatype Closer = Absent | Asleep | Woken | Done

  /** Where tasks are: held by a worker, in the pool's queue, in a channel's queue, in a ChannelTask, or in
      the hands of some other thread. */
  datatype Places = Places(
    held: multiset<Task>, queue: seq<Task>, queued: multiset<Task>, parked: multiset<Task>, hands: multiset<Task>)

  /** Threads created and joined, whether a creation failed, and how often the pool was destroyed. */
  datatype Book = Book(joinPending: bool, created: int, joined: int, failed: bool, destroyed: int)

  datatype Pool = Pool(
    status: Status, size: int, threads: int, idle: int, tasks: int, running: int, pending: int,
    // workers: created and never yet locked; idle and woken; task given away, `running` not yet reduced
    starting: int, signalled: int, releasing: int,
    closer: Closer, places: Places, book: Book)

  /** What `lcuTP_createtpool` makes. */
  ghost predicate Created(s: Pool) {
    && s.status == Open && s.closer == Absent
    && s.size == s.threads == s.idle == s.tasks == s.running == s.pending == 0
    && s.starting == s.signalled == s.releasing == 0
    && s.places.held == s.places.queued == s.places.parked == s.places.hands == multiset{}
    && s.places.queue == []
    && s.book.created == s.book.joined == s.book.destroyed == 0 && !s.book.joinPending && !s.book.failed
  }

  /** How a worker comes (back) to the mutex. */
  datatype Entry =
    | Fresh               // its thread starts
    | Wake                // it was woken from its wait on `onwork`
    | Requeue(t: Task)    // its task yielded and shall run again
    | Finish(t: Task)     // its task ended and its state was closed
    | Release             // its task was left to somebody else

  /** `wake` is how many sleepers a signal wakes (at least one, if any sleeps). */
  datatype Event =
    | AddTask(t: Task, creates: bool, wake: nat)      // lcuTP_addtpooltask
    | Resume(t: Task, creates: bool, wake: nat)       // lcuTP_resumetask
    | Worker(entry: Entry, wake: nat)                 // threadmain, from lock to unlock or wait
    | Resize(n: int, create: bool, fails: int, wake: nat)  // lcuTP_resizetpool; `fails` creations succeed
    | Close                                           // lcuTP_closetpool, up to its first wait or its end
    | CloserRuns                                      // the same, after a wait
    | Collect(t: Task)                                // a task's state is closed: collectthreadpool
    | Spurious                                        // a sleeping worker wakes by itself
    | CloserSpurious
    | ToChannel(t: Task)                              // the running task waits in a channel's queue
    | ToParked(t: Task)                               // ... in its ChannelTask
    | FromChannel(t: Task)                            // a matcher takes a waiting task
    | FromParked(t: Task)

  // ---------------------------------------------------------------- steps

  /** Sleepers woken by one signal. */
  function Woke(s: Pool, wake: nat): int {
    var sleepers := s.idle - s.signalled;
    if sleepers <= 0 then 0 else if wake < 1 then 1 else if wake > sleepers then sleepers else wake
  }

  function Signal(s: Pool, wake: nat): Pool {
    s.(signalled := s.signalled + Woke(s, wake))
  }

  predicate HasExtraIdle(s: Pool) {
    s.threads > s.size && s.idle > 0
  }

  function CheckHalted(s: Pool): (r: Pool)
    ensures r.places == s.places && r.book == s.book && r.tasks == s.tasks
  {
    if s.tasks == 0 && s.size > 0 then s.(size := 0, signalled := s.idle) else s
  }

  function CreateThreads(s: Pool, wanted: int, made: int): Pool {
    s.(threads := s.threads + made, starting := s.starting + made,
       book := s.book.(created := s.book.created + made, failed := s.book.failed || made < wanted))
  }

  /** `addthread_mx` up to its test of the status. */
  function Provide(s: Pool, creates: bool, wake: nat): (r: Pool)
    ensures r.places == s.places && r.tasks == s.tasks && r.pending == s.pending
  {
    if s.threads - s.running - s.idle <= s.pending then
      if s.idle > 0 then Signal(s, wake)
      else if s.threads < s.size then CreateThreads(s, 1, if creates then 1 else 0)
      else s
    else s
  }

  function Put(p: Places, t: Task): Places {
    p.(queue := p.queue + [t])
  }

  function AddThread(s: Pool, t: Task, creates: bool, wake: nat): Pool {
    var s1 := Provide(s, creates, wake);
    if s.status == Closed then s1
    else s1.(places := Put(s1.places, t), pending := s1.pending + 1)
  }

  function Enter(s: Pool, e: Entry): Pool {
    match e
    case Fresh => s.(starting := s.starting - 1)
    case Wake => s.(signalled := s.signalled - 1, idle := s.idle - 1)
    case Requeue(t) =>
      s.(running := s.running - 1, pending := s.pending + 1, places := Put(Unhold(s.places, t), t))
    case Finish(t) =>
      s.(running := s.running - 1, tasks := s.tasks - 1, places := Unhold(s.places, t))
    case Release => s.(running := s.running - 1, releasing := s.releasing - 1)
  }

  function Unhold(p: Places, t: Task): Places {
    p.(held := p.held - multiset{t})
  }

  /** What a leaving worker does for those that stay, or for the closer. */
  function WakeOthers(s: Pool, wake: nat): (r: Pool)
    ensures r.places == s.places && r.book == s.book && r.tasks == s.tasks
  {
    if HasExtraIdle(s) then Signal(s, wake)
    else if s.status == Closing then
      if s.threads == 0 then s.(closer := if s.closer == Asleep then Woken else s.closer)
      else CheckHalted(s)
    else s
  }

  function Join(b: Book): Book {
    b.(joined := if b.joinPending then b.joined + 1 else b.joined, joinPending := true)
  }

  /** `thread_end`: the worker leaves, and joins the one that left before it. */
  function ThreadEnd(s: Pool, wake: nat): (r: Pool)
    ensures r.places == s.places && r.tasks == s.tasks
  {
    WakeOthers(s.(threads := s.threads - 1), wake).(book := Join(s.book))
  }

  function Take(p: Places): Places
    requires p.queue != []
  {
    p.(queue := p.queue[1..], held := p.held + multiset{p.queue[0]})
  }

  /** What the worker does with the mutex once it is in. */
  function WorkerTurn(s: Pool, wake: nat): Pool {
    if s.threads > s.size then ThreadEnd(s, wake)
    else if s.pending != 0 && s.places.queue != [] then
      s.(pending := s.pending - 1, running := s.running + 1, places := Take(s.places))
    else if s.status == Closing && s.tasks == 0 then ThreadEnd(s.(size := 0), wake)
    else s.(idle := s.idle + 1)
  }

  function ResizeTo(s: Pool, n: int, create: bool, fails: int, wake: nat): (r: Pool)
    ensures r.places == s.places && r.tasks == s.tasks && r.status == s.status && r.closer == s.closer
  {
    var grow := n - s.size;
    var s1 := s.(size := n);
    if grow > 0 then
      var wanted := if !create && grow > s.pending then s.pending else grow;
      CreateThreads(s1, wanted, if 0 <= fails < wanted then fails else wanted)
    else if HasExtraIdle(s1) then Signal(s1, wake)
    else s1
  }

  /** The loop of `lcuTP_closetpool`: wait again, or shut the pool with whatever tasks are left. */
  function CloserTurn(s: Pool): (r: Pool)
    ensures r.tasks == s.tasks && (r.places == s.places || r.places == Empty(s.places))
  {
    if s.threads > 0 then CheckHalted(s).(closer := Asleep)
    else
      var s1 := s.(status := Closed, closer := Done, pending := 0, places := Empty(s.places));
      if s1.tasks == 0 then Destroy(s1) else s1
  }

  /** The closer takes the whole queue, to close its tasks one by one. */
  function Empty(p: Places): Places {
    p.(queue := [], hands := p.hands + multiset(p.queue))
  }

  function Destroy(s: Pool): Pool {
    s.(book := s.book.(destroyed := s.book.destroyed + 1, joinPending := false,
                       joined := if s.book.joinPending then s.book.joined + 1 else s.book.joined))
  }

  /** A state is closed by whoever has it, or straight from a channel's queue. */
  function Drop(p: Places, t: Task): Places {
    if t in p.hands then p.(hands := p.hands - multiset{t}) else p.(queued := p.queued - multiset{t})
  }

  function CollectTask(s: Pool, t: Task): (r: Pool)
    ensures r.tasks == s.tasks - 1 && r.places == Drop(s.places, t)
  {
    var s1 := s.(tasks := s.tasks - 1, places := Drop(s.places, t));
    if s1.status == Closed && s1.tasks == 0 then Destroy(s1) else s1
  }

  /** All tasks, with the number of places each is in. */
  function All(p: Places): multiset<Task> {
    Total(p.held, multiset(p.queue), p.queued, p.parked, p.hands)
  }

  function Total(a: multiset<Task>, b: multiset<Task>, c: multiset<Task>, d: multiset<Task>, e: multiset<Task>): multiset<Task> {
    a + b + c + d + e
  }

  predicate EntryEnabled(s: Pool, e: Entry) {
    match e
    case Fresh => s.starting > 0
    case Wake => s.signalled > 0
    case Requeue(t) => t in s.places.held
    case Finish(t) => t in s.places.held
    case Release => s.releasing > 0
  }

  /** A reference to the pool is valid until it is closed, and afterwards only in tasks that still run. */
  predicate Referenced(s: Pool) {
    s.status == Open || (s.status == Closing && s.places.held != multiset{})
  }

  predicate Enabled(s: Pool, e: Event) {
    s.book.destroyed == 0 &&
    match e
    case AddTask(t, creates, wake) => Referenced(s) && t !in All(s.places)
    case Resume(t, creates, wake) => t in s.places.hands
    case Worker(entry, wake) => EntryEnabled(s, entry)
    case Resize(n, create, fails, wake) => Referenced(s) && n >= 0
    case Close => s.status == Open
    case CloserRuns => s.closer == Woken
    case Collect(t) => t in s.places.hands || t in s.places.queued
    case Spurious => s.signalled < s.idle
    case CloserSpurious => s.closer == Asleep
    case ToChannel(t) => t in s.places.held
    case ToParked(t) => t in s.places.held
    case FromChannel(t) => t in s.places.queued
    case FromParked(t) => t in s.places.parked
  }

  /** The movements of tasks outside the mutex. */
  function Moved(p: Places, e: Event): Places {
    match e
    case ToChannel(t) => p.(held := p.held - multiset{t}, queued := p.queued + multiset{t})
    case ToParked(t) => p.(held := p.held - multiset{t}, parked := p.parked + multiset{t})
    case FromChannel(t) => p.(queued := p.queued - multiset{t}, hands := p.hands + multiset{t})
    case FromParked(t) => p.(parked := p.parked - multiset{t}, hands := p.hands + multiset{t})
    case _ => p
  }

  function Next(s: Pool, e: Event): Pool
    requires Enabled(s, e)
  {
    match e
    case AddTask(t, creates, wake) =>
      var s1 := AddThread(s, t, creates, wake);
      s1.(tasks := s1.tasks + 1)
    case Resume(t, creates, wake) =>
      var s1 := AddThread(s, t, creates, wake);
      if s.status == Closed then s1
      else s1.(places := s1.places.(hands := s1.places.hands - multiset{t}))
    case Worker(entry, wake) => WorkerTurn(Enter(s, entry), wake)
    case Resize(n, create, fails, wake) => ResizeTo(s, n, create, fails, wake)
    case Close => CloserTurn(s.(status := Closing))
    case CloserRuns => CloserTurn(s)
    case Collect(t) => CollectTask(s, t)
    case Spurious => s.(signalled := s.signalled + 1)
    case CloserSpurious => s.(closer := Woken)
    case ToChannel(t) => s.(releasing := s.releasing + 1, places := Moved(s.places, e))
    case ToParked(t) => s.(releasing := s.releasing + 1, places := Moved(s.places, e))
    case FromChannel(t) => s.(places := Moved(s.places, e))
    case FromParked(t) => s.(places := Moved(s.places, e))
  }

  ghost predicate Run(s: Pool, es: seq<Event>, s': Pool)
    decreases |es|
  {
    if es == [] then s == s'
    else Enabled(s, es[0]) && Run(Next(s, es[0]), es[1..], s')
  }

  // ---------------------------------------------------------------- counters and wake-ups

  /** `inside` workers (0 or 1) hold the mutex. */
  ghost predicate Counts(s: Pool, inside: int) {
    && s.threads == s.running + s.idle + s.starting + inside
    && 0 <= s.signalled <= s.idle && 0 <= s.starting && 0 <= s.releasing && 0 <= s.size
    && s.running == |s.places.held| + s.releasing
    && s.pending == |s.places.queue|
  }

  function Extra(s: Pool): int {
    if s.threads > s.size then 1 else 0
  }

  /** Enough workers are awake (or everybody is) for the queue, and one more to leave an oversized pool. */
  ghost predicate Enough(s: Pool, inside: int) {
    s.signalled == s.idle || s.signalled + s.starting + inside >= s.pending + Extra(s)
  }

  ghost predicate WakeInv(s: Pool) {
    Counts(s, 0) && Enough(s, 0) && (HasExtraIdle(s) ==> s.signalled >= 1)
  }

  ghost predicate InsideInv(s: Pool) {
    Counts(s, 1) && Enough(s, 1)
  }

  lemma SignalWakes(s: Pool, wake: nat)
    requires 0 <= s.signalled <= s.idle
    ensures var w := Woke(s, wake); 0 <= w <= s.idle - s.signalled && (s.signalled < s.idle ==> w >= 1)
  {
  }

  lemma EnterKeeps(s: Pool, e: Entry)
    requires WakeInv(s) && EntryEnabled(s, e)
    ensures InsideInv(Enter(s, e))
  {
    match e
    case Requeue(t) => assert |Unhold(s.places, t).held| == |s.places.held| - 1;
    case Finish(t) => assert |Unhold(s.places, t).held| == |s.places.held| - 1;
    case _ =>
  }

  lemma EndKeeps(s: Pool, wake: nat)
    requires InsideInv(s) && s.threads > s.size
    ensures WakeInv(ThreadEnd(s, wake))
  {
    SignalWakes(s.(threads := s.threads - 1), wake);
  }

  lemma TurnKeeps(s: Pool, wake: nat)
    requires InsideInv(s)
    ensures WakeInv(WorkerTurn(s, wake))
  {
    if s.threads > s.size {
      EndKeeps(s, wake);
    } else if s.pending != 0 {
      assert |Take(s.places).held| == |s.places.held| + 1;
    } else if s.status == Closing && s.tasks == 0 {
      EndKeeps(s.(size := 0), wake);
    }
  }

  lemma ProvideKeeps(s: Pool, creates: bool, wake: nat)
    requires WakeInv(s)
    ensures var p := Provide(s, creates, wake);
            && WakeInv(p)
            && (p.signalled == p.idle || p.signalled + p.starting >= p.pending + 1 + Extra(p))
  {
    SignalWakes(s, wake);
  }

  lemma AddThreadKeeps(s: Pool, t: Task, creates: bool, wake: nat)
    requires WakeInv(s)
    ensures WakeInv(AddThread(s, t, creates, wake))
  {
    ProvideKeeps(s, creates, wake);
  }

  lemma ResizeKeeps(s: Pool, n: int, create: bool, fails: int, wake: nat)
    requires WakeInv(s) && n >= 0
    ensures WakeInv(ResizeTo(s, n, create, fails, wake))
  {
    SignalWakes(s.(size := n), wake);
  }

  lemma CloserKeeps(s: Pool)
    requires WakeInv(s)
    ensures WakeInv(CloserTurn(s))
  {
  }

  lemma MoveKeeps(s: Pool, e: Event)
    requires WakeInv(s) && Enabled(s, e)
    requires e.ToChannel? || e.ToParked? || e.FromChannel? || e.FromParked? || e.Spurious? || e.CloserSpurious?
    ensures WakeInv(Next(s, e))
  {
    if e.ToChannel? || e.ToParked? {
      assert |Moved(s.places, e).held| == |s.places.held| - 1;
    }
  }

  lemma WakeStep(s: Pool, e: Event)
    requires WakeInv(s) && Enabled(s, e)
    ensures WakeInv(Next(s, e))
  {
    match e
    case Worker(entry, wake) =>
      EnterKeeps(s, entry);
      TurnKeeps(Enter(s, entry), wake);
    case AddTask(t, creates, wake) => AddThreadKeeps(s, t, creates, wake);
    case Resume(t, creates, wake) => AddThreadKeeps(s, t, creates, wake);
    case Resize(n, create, fails, wake) => ResizeKeeps(s, n, create, fails, wake);
    case Close => CloserKeeps(s.(status := Closing));
    case CloserRuns => CloserKeeps(s);
    case Collect(t) =>
    case _ => MoveKeeps(s, e);
  }

  // ---------------------------------------------------------------- ownership of tasks

  lemma QueueHead(q: seq<Task>)
    requires q != []
    ensures multiset(q) == multiset{q[0]} + multiset(q[1..])
  {
    assert q == [q[0]] + q[1..];
  }

  /** Moving one task from one place to another keeps the total, wherever the two places are. */
  lemma TotalMoves(a: multiset<Task>, b: multiset<Task>, c: multiset<Task>, d: multiset<Task>, e: multiset<Task>, x: multiset<Task>)
    ensures x <= a ==> Total(a - x, b + x, c, d, e) == Total(a, b, c, d, e)
    ensures x <= a ==> Total(a - x, b, c + x, d, e) == Total(a, b, c, d, e)
    ensures x <= a ==> Total(a - x, b, c, d + x, e) == Total(a, b, c, d, e)
    ensures x <= b ==> Total(a + x, b - x, c, d, e) == Total(a, b, c, d, e)
    ensures x <= e ==> Total(a, b + x, c, d, e - x) == Total(a, b, c, d, e)
    ensures x <= c ==> Total(a, b, c - x, d, e + x) == Total(a, b, c, d, e)
    ensures x <= d ==> Total(a, b, c, d - x, e + x) == Total(a, b, c, d, e)
  {
  }

  lemma TotalChanges(a: multiset<Task>, b: multiset<Task>, c: multiset<Task>, d: multiset<Task>, e: multiset<Task>, x: multiset<Task>)
    ensures Total(a, b + x, c, d, e) == Total(a, b, c, d, e) + x
    ensures x <= a ==> Total(a - x, b, c, d, e) == Total(a, b, c, d, e) - x
    ensures x <= c ==> Total(a, b, c - x, d, e) == Total(a, b, c, d, e) - x
    ensures x <= e ==> Total(a, b, c, d, e - x) == Total(a, b, c, d, e) - x
    ensures Total(a, multiset{}, c, d, e + b) == Total(a, b, c, d, e)
  {
  }

  lemma RequeueConserves(p: Places, t: Task)
    requires t in p.held
    ensures All(Put(Unhold(p, t), t)) == All(p)
  {
    assert multiset(p.queue + [t]) == multiset(p.queue) + multiset{t};
    TotalMoves(p.held, multiset(p.queue), p.queued, p.parked, p.hands, multiset{t});
  }

  lemma UnholdLoses(p: Places, t: Task)
    requires t in p.held
    ensures All(Unhold(p, t)) == All(p) - multiset{t}
  {
    TotalChanges(p.held, multiset(p.queue), p.queued, p.parked, p.hands, multiset{t});
  }

  lemma TakeConserves(p: Places)
    requires p.queue != []
    ensures All(Take(p)) == All(p)
  {
    QueueHead(p.queue);
    TotalMoves(p.held, multiset(p.queue), p.queued, p.parked, p.hands, multiset{p.queue[0]});
  }

  lemma EmptyConserves(p: Places)
    ensures All(Empty(p)) == All(p)
  {
    TotalChanges(p.held, multiset(p.queue), p.queued, p.parked, p.hands, multiset{});
  }

  lemma DropLoses(p: Places, t: Task)
    requires t in p.hands || t in p.queued
    ensures All(Drop(p, t)) == All(p) - multiset{t}
  {
    TotalChanges(p.held, multiset(p.queue), p.queued, p.parked, p.hands, multiset{t});
  }

  lemma PutGains(p: Places, t: Task)
    ensures All(Put(p, t)) == All(p) + multiset{t}
  {
    assert multiset(p.queue + [t]) == multiset(p.queue) + multiset{t};
    TotalChanges(p.held, multiset(p.queue), p.queued, p.parked, p.hands, multiset{t});
  }

  lemma HandOverConserves(p: Places, t: Task)
    requires t in p.hands
    ensures All(Put(p, t).(hands := p.hands - multiset{t})) == All(p)
  {
    assert multiset(p.queue + [t]) == multiset(p.queue) + multiset{t};
    TotalMoves(p.held, multiset(p.queue), p.queued, p.parked, p.hands, multiset{t});
  }

  lemma MovedConserves(p: Places, e: Event)
    requires e.ToChannel? || e.ToParked? ==> e.t in p.held
    requires e.FromChannel? ==> e.t in p.queued
    requires e.FromParked? ==> e.t in p.parked
    ensures All(Moved(p, e)) == All(p)
  {
    if e.ToChannel? || e.ToParked? || e.FromChannel? || e.FromParked? {
      TotalMoves(p.held, multiset(p.queue), p.queued, p.parked, p.hands, multiset{e.t});
    }
  }

  /** The tasks there are after `e`: only three kinds of step change them. */
  function After(all: multiset<Task>, e: Event): multiset<Task> {
    if e.AddTask? then all + multiset{e.t}
    else if e.Collect? then all - multiset{e.t}
    else if e.Worker? && e.entry.Finish? then all - multiset{e.entry.t}
    else all
  }

  function TasksAfter(tasks: int, e: Event): int {
    if e.AddTask? then tasks + 1
    else if e.Collect? || (e.Worker? && e.entry.Finish?) then tasks - 1
    else tasks
  }

  lemma TurnPlaces(s: Pool, wake: nat)
    ensures var s' := WorkerTurn(s, wake);
            s'.tasks == s.tasks && (s'.places == s.places || (s.places.queue != [] && s'.places == Take(s.places)))
  {
  }

  lemma EnterPlaces(s: Pool, e: Entry)
    ensures Enter(s, e).places ==
            if e.Requeue? then Put(Unhold(s.places, e.t), e.t) else if e.Finish? then Unhold(s.places, e.t) else s.places
    ensures Enter(s, e).tasks == TasksAfter(s.tasks, Worker(e, 0))
  {
  }

  lemma EnterConserves(s: Pool, e: Entry, wake: nat)
    requires EntryEnabled(s, e)
    ensures All(Enter(s, e).places) == After(All(s.places), Worker(e, wake))
  {
    EnterPlaces(s, e);
    if e.Requeue? {
      RequeueConserves(s.places, e.t);
    } else if e.Finish? {
      UnholdLoses(s.places, e.t);
    }
  }

  lemma TurnConserves(s: Pool, wake: nat)
    ensures All(WorkerTurn(s, wake).places) == All(s.places)
  {
    TurnPlaces(s, wake);
    if s.places.queue != [] {
      TakeConserves(s.places);
    }
  }

  lemma WorkerIs(s: Pool, e: Entry, wake: nat)
    requires Enabled(s, Worker(e, wake))
    ensures Next(s, Worker(e, wake)) == WorkerTurn(Enter(s, e), wake)
    ensures EntryEnabled(s, e)
  {
  }

  lemma WorkerConserves(s: Pool, e: Entry, wake: nat)
    requires Enabled(s, Worker(e, wake))
    ensures All(Next(s, Worker(e, wake)).places) == After(All(s.places), Worker(e, wake))
  {
    WorkerIs(s, e, wake);
    EnterConserves(s, e, wake);
    TurnConserves(Enter(s, e), wake);
  }

  lemma TasksStep(s: Pool, e: Event)
    requires Enabled(s, e)
    ensures Next(s, e).tasks == TasksAfter(s.tasks, e)
  {
    if e.Worker? {
      EnterPlaces(s, e.entry);
      TurnPlaces(Enter(s, e.entry), e.wake);
    }
  }

  lemma AddConserves(s: Pool, t: Task, creates: bool, wake: nat)
    requires Enabled(s, AddTask(t, creates, wake))
    ensures All(Next(s, AddTask(t, creates, wake)).places) == All(s.places) + multiset{t}
  {
    assert Next(s, AddTask(t, creates, wake)).places == Put(s.places, t);
    PutGains(s.places, t);
  }

  lemma ResumeConserves(s: Pool, t: Task, creates: bool, wake: nat)
    requires Enabled(s, Resume(t, creates, wake))
    ensures All(Next(s, Resume(t, creates, wake)).places) == All(s.places)
  {
    if s.status != Closed {
      assert Next(s, Resume(t, creates, wake)).places == Put(s.places, t).(hands := s.places.hands - multiset{t});
      HandOverConserves(s.places, t);
    }
  }

  lemma ClosingPlaces(s: Pool, e: Event)
    requires Enabled(s, e) && (e.Close? || e.CloserRuns?)
    ensures Next(s, e).places == s.places || Next(s, e).places == Empty(s.places)
  {
  }

  lemma ClosingConserves(s: Pool, e: Event)
    requires Enabled(s, e) && (e.Close? || e.CloserRuns?)
    ensures All(Next(s, e).places) == All(s.places)
  {
    ClosingPlaces(s, e);
    EmptyConserves(s.places);
  }

  lemma CollectLoses(s: Pool, t: Task)
    requires Enabled(s, Collect(t))
    ensures All(Next(s, Collect(t)).places) == All(s.places) - multiset{t}
  {
    assert Next(s, Collect(t)).places == Drop(s.places, t);
    DropLoses(s.places, t);
  }

  lemma MoveConserves(s: Pool, e: Event)
    requires Enabled(s, e)
    requires e.ToChannel? || e.ToParked? || e.FromChannel? || e.FromParked? || e.Spurious? || e.CloserSpurious?
    ensures All(Next(s, e).places) == All(s.places)
  {
    assert Next(s, e).places == Moved(s.places, e);
    MovedConserves(s.places, e);
  }

  /** Steps move tasks between places; only three kinds of step change which tasks there are, and they
      change `tasks` with them. */
  lemma Conservation(s: Pool, e: Event)
    requires Enabled(s, e)
    ensures All(Next(s, e).places) == After(All(s.places), e)
    ensures Next(s, e).tasks == TasksAfter(s.tasks, e)
  {
    TasksStep(s, e);
    match e
    case Worker(entry, wake) => WorkerConserves(s, entry, wake);
    case AddTask(t, creates, wake) => AddConserves(s, t, creates, wake);
    case Resume(t, creates, wake) => ResumeConserves(s, t, creates, wake);
    case Resize(n, create, fails, wake) => assert Next(s, e).places == s.places;
    case Collect(t) => CollectLoses(s, t);
    case Close => ClosingConserves(s, e);
    case CloserRuns => ClosingConserves(s, e);
    case _ => MoveConserves(s, e);
  }

  /** Every task is in exactly one place, and `tasks` is their number. */
  ghost predicate Owned(s: Pool) {
    (forall t :: All(s.places)[t] <= 1) && |All(s.places)| == s.tasks
  }

  lemma OwnedStep(s: Pool, e: Event)
    requires Owned(s) && Enabled(s, e)
    ensures Owned(Next(s, e))
  {
    Conservation(s, e);
    var all := All(s.places);
    if e.Worker? && e.entry.Finish? {
      assert e.entry.t in all;
    } else if e.Collect? {
      assert e.t in all;
    }
  }

  // ---------------------------------------------------------------- life of the pool

  /** The closer waits while the pool is closing, and is woken as soon as no thread is left. */
  ghost predicate CloserInv(s: Pool) {
    && (s.status == Open <==> s.closer == Absent)
    && (s.status == Closed <==> s.closer == Done)
    && (s.status == Closing && s.threads == 0 ==> s.closer == Woken)
  }

  /** A closed pool has no task it could run, and is destroyed as soon as it has no task at all. */
  ghost predicate ClosedInv(s: Pool) {
    && (s.status == Closed ==> s.places.held == multiset{} && s.places.queue == [] && s.releasing == 0)
    && s.book.destroyed == (if s.status == Closed && s.tasks == 0 then 1 else 0)
  }

  /** Every thread created is running, joined, or the last one that ended and is not joined yet. */
  ghost predicate BookInv(s: Pool) {
    && s.book.created == s.threads + s.book.joined + (if s.book.joinPending then 1 else 0)
    && (s.book.destroyed == 1 ==> !s.book.joinPending)
  }

  /** Unless a creation failed, tasks are pending without any thread only in a pool of size 0. */
  ghost predicate StaffedInv(s: Pool) {
    !s.book.failed && s.threads == 0 && s.pending > 0 ==> s.size == 0
  }

  ghost predicate LifeInv(s: Pool) {
    CloserInv(s) && ClosedInv(s) && BookInv(s) && StaffedInv(s)
  }

  ghost predicate Inv(s: Pool) {
    WakeInv(s) && Owned(s) && LifeInv(s)
  }

  lemma EndLife(s: Pool, wake: nat)
    requires InsideInv(s) && LifeInv(s) && s.book.destroyed == 0 && s.threads > s.size
    ensures LifeInv(ThreadEnd(s, wake))
  {
  }

  lemma EnterLife(s: Pool, e: Entry)
    requires Inv(s) && s.book.destroyed == 0 && EntryEnabled(s, e)
    ensures LifeInv(Enter(s, e)) && Enter(s, e).book.destroyed == 0 && Enter(s, e).running >= 0
  {
  }

  /** The worker that finds a closing pool without tasks leaves it, after emptying the pool's size. */
  lemma HaltLife(s: Pool, wake: nat)
    requires InsideInv(s) && LifeInv(s) && s.status == Closing && s.pending == 0 && s.threads > 0
    ensures LifeInv(ThreadEnd(s.(size := 0), wake))
  {
    EndLife(s.(size := 0), wake);
  }

  lemma TurnLife(s: Pool, wake: nat)
    requires InsideInv(s) && LifeInv(s) && s.book.destroyed == 0
    requires s.running >= 0
    ensures LifeInv(WorkerTurn(s, wake))
  {
    if s.threads > s.size {
      EndLife(s, wake);
    } else if s.pending != 0 {
    } else if s.status == Closing && s.tasks == 0 {
      HaltLife(s, wake);
    }
  }

  lemma WorkerLife(s: Pool, e: Entry, wake: nat)
    requires Inv(s) && s.book.destroyed == 0 && EntryEnabled(s, e)
    ensures LifeInv(Next(s, Worker(e, wake)))
  {
    WorkerIs(s, e, wake);
    EnterKeeps(s, e);
    EnterLife(s, e);
    TurnLife(Enter(s, e), wake);
  }

  lemma AddLife(s: Pool, t: Task, creates: bool, wake: nat)
    requires Inv(s) && Enabled(s, AddTask(t, creates, wake))
    ensures LifeInv(Next(s, AddTask(t, creates, wake)))
  {
    assert |All(s.places)| == s.tasks;
    ProvideLife(s, creates, wake);
  }

  lemma ProvideLife(s: Pool, creates: bool, wake: nat)
    requires WakeInv(s) && LifeInv(s)
    ensures var s1 := Provide(s, creates, wake);
            && CloserInv(s1) && BookInv(s1) && s1.status == s.status
            && s1.book.destroyed == s.book.destroyed && s1.releasing == s.releasing
            && (!s1.book.failed && s1.threads == 0 ==> s1.size == 0)
  {
    assert s.threads == 0 ==> s.running == 0 && s.idle == 0;
  }

  lemma ResumeLife(s: Pool, t: Task, creates: bool, wake: nat)
    requires Inv(s) && Enabled(s, Resume(t, creates, wake))
    ensures LifeInv(Next(s, Resume(t, creates, wake)))
  {
    ProvideLife(s, creates, wake);
  }

  lemma ResizeLife(s: Pool, n: int, create: bool, fails: int, wake: nat)
    requires Inv(s) && Enabled(s, Resize(n, create, fails, wake))
    ensures LifeInv(Next(s, Resize(n, create, fails, wake)))
  {
  }

  lemma CloserLife(s: Pool)
    requires Counts(s, 0) && ClosedInv(s) && BookInv(s) && StaffedInv(s)
    requires s.book.destroyed == 0 && s.status == Closing
    ensures LifeInv(CloserTurn(s))
  {
    if s.threads == 0 {
      assert s.running == 0 && |s.places.held| == 0 && s.releasing == 0;
    }
  }

  lemma ClosingLife(s: Pool, e: Event)
    requires Inv(s) && Enabled(s, e) && (e.Close? || e.CloserRuns? || e.Collect?)
    ensures LifeInv(Next(s, e))
  {
    match e
    case Close => CloserLife(s.(status := Closing));
    case CloserRuns => CloserLife(s);
    case _ =>
  }

  lemma MovesLife(s: Pool, e: Event)
    requires Inv(s) && Enabled(s, e)
    requires e.ToChannel? || e.ToParked? || e.FromChannel? || e.FromParked? || e.Spurious? || e.CloserSpurious?
    ensures LifeInv(Next(s, e))
  {
  }

  lemma LifeStep(s: Pool, e: Event)
    requires Inv(s) && Enabled(s, e)
    ensures LifeInv(Next(s, e))
  {
    match e
    case Worker(entry, wake) => WorkerLife(s, entry, wake);
    case AddTask(t, creates, wake) => AddLife(s, t, creates, wake);
    case Resume(t, creates, wake) => ResumeLife(s, t, creates, wake);
    case Resize(n, create, fails, wake) => ResizeLife(s, n, create, fails, wake);
    case Close => ClosingLife(s, e);
    case CloserRuns => ClosingLife(s, e);
    case Collect(t) => ClosingLife(s, e);
    case _ => MovesLife(s, e);
  }

  lemma StepKeeps(s: Pool, e: Event)
    requires Inv(s) && Enabled(s, e)
    ensures Inv(Next(s, e))
  {
    WakeStep(s, e);
    OwnedStep(s, e);
    LifeStep(s, e);
  }

  lemma {:induction false} RunKeeps(s: Pool, es: seq<Event>, s': Pool)
    requires Inv(s) && Run(s, es, s')
    ensures Inv(s')
    decreases |es|
  {
    if es == [] {
    } else {
      StepKeeps(s, es[0]);
      RunKeeps(Next(s, es[0]), es[1..], s');
    }
  }

  /** States of some run of some pool. */
  ghost predicate Reachable(s: Pool) {
    exists s0, es :: Created(s0) && Run(s0, es, s)
  }

  lemma ReachableInv(s: Pool)
    requires Reachable(s)
    ensures Inv(s)
  {
    var s0, es :| Created(s0) && Run(s0, es, s);
    CreatedInv(s0);
    RunKeeps(s0, es, s);
  }

  lemma CreatedInv(s: Pool)
    requires Created(s)
    ensures Inv(s)
  {
    var p := s.places;
    assert All(p) == multiset{};
  }
}
