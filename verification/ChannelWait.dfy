/**
 Waiting on channels from one Lua state: src/lchannem.c (arm, cancel, callback, restore) against the
 matchers of src/lchaux.c (`getsuspendedtask`, `lcuCS_suspendedchtask`).

 The owner is the system thread that runs the state's event loop.  A matcher is any other thread: it
 takes a queued channel state, gives it values, sends the wake-up and only then, in another critical
 section, adds to `wakes` and takes the parked task.  The callbacks subtract from `wakes`; they may
 run before the matcher adds.  Every interleaving of these steps is a run.
 */
module ChannelWaits {

  type Chan = nat
  type Serial = nat  // numbers the waits

  /** Where the state of a channel is; `Sent` is matched, values given, wake-up not yet delivered. */
  datatype Place = Free | Queued | InHands | Sent

  /** `handle` is `channel->handle != NULL`; `late` is a cancellation that came after the match. */
  datatype Wait = Wait(place: Place, handle: bool, late: bool, serial: Serial)

  /** Where the task is: running its loop, yielded to its worker, in `ChannelTask.L`, or to be run again. */
  datatype Loop = Running | Parking | Parked | Handed

  /** How often the owner removed the state of a wait, a matcher took it, gave it values, its callback
      ran, and its channel's `handle` was cleared. */
  datatype Tally = Tally(removed: nat, taken: nat, given: nat, called: nat, cleared: nat)

  /** What a step adds to a tally; clearing `handle` ends a wait either way. */
  datatype Mark = Nothing | Removed | Taken | Given | Called

  function Add(t: Tally, m: Mark): Tally {
    match m
    case Nothing => t
    case Removed => t.(removed := t.removed + 1, cleared := t.cleared + 1)
    case Taken => t.(taken := t.taken + 1)
    case Given => t.(given := t.given + 1)
    case Called => t.(called := t.called + 1, cleared := t.cleared + 1)
  }

  /** `task` is whether the state is a task of a thread pool, and so has a `ChannelTask`; `log` holds the
      tally of every wait so far. */
  datatype State = State(
    task: bool, chans: map<Chan, Wait>, wakes: int, parked: bool, loop: Loop,
    between: nat, parks: nat, unparks: nat, log: seq<Tally>)

  function Start(task: bool): State {
    State(task, map[], 0, false, Running, 0, 0, 0, [])
  }

  datatype Event =
    | Create(c: Chan)    // channel.create
    | Arm(c: Chan)       // awaitch that finds no partner
    | Cancel(c: Chan)    // the waiting coroutine is resumed explicitly
    | Callback(c: Chan)  // uv_onsynced
    | Take(c: Chan)      // a matcher dequeues the channel's state
    | Give(c: Chan)      // the matcher swaps values and sends the wake-up
    | Count              // the matcher's critical section on the ChannelTask
    | Yield              // system.run yields the ChannelTask to the worker
    | Decide             // lcuCS_suspendedchtask
    | Rerun              // a worker runs the task again

  predicate Enabled(s: State, e: Event) {
    match e
    case Create(c) => c !in s.chans && s.loop == Running
    case Arm(c) => c in s.chans && s.loop == Running && !s.chans[c].handle
    case Cancel(c) => c in s.chans && s.loop == Running && s.chans[c].handle && !s.chans[c].late
    case Callback(c) => c in s.chans && s.loop == Running && s.chans[c].place == Sent
    case Take(c) => c in s.chans && s.chans[c].place == Queued
    case Give(c) => c in s.chans && s.chans[c].place == InHands
    case Count => s.between > 0
    case Yield => s.loop == Running && s.task
    case Decide => s.loop == Parking
    case Rerun => s.loop == Handed
  }

  /** Channel `c` becomes `w`, and `m` is added to the tally of its wait. */
  function Move(s: State, c: Chan, w: Wait, m: Mark): State {
    s.(chans := s.chans[c := w],
       log := if w.serial < |s.log| then s.log[w.serial := Add(s.log[w.serial], m)] else s.log)
  }

  function Next(s: State, e: Event): State
    requires Enabled(s, e)
  {
    match e
    case Create(c) => s.(chans := s.chans[c := Wait(Free, false, false, 0)])
    case Arm(c) =>
      s.(chans := s.chans[c := Wait(Queued, true, false, |s.log|)], log := s.log + [SoFar(Queued)])
    case Cancel(c) =>
      var w := s.chans[c];
      if w.place == Queued then Move(s, c, w.(place := Free, handle := false), Removed)
      else Move(s, c, w.(late := true), Nothing)
    case Callback(c) =>
      Move(s, c, s.chans[c].(place := Free, handle := false, late := false), Called)
      .(wakes := if s.task then s.wakes - 1 else s.wakes)
    case Take(c) => Move(s, c, s.chans[c].(place := InHands), Taken)
    case Give(c) =>
      Move(s, c, s.chans[c].(place := Sent), Given)
      .(between := if s.task then s.between + 1 else s.between)
    case Count =>
      s.(between := s.between - 1, wakes := s.wakes + 1, parked := false,
         loop := if s.parked then Handed else s.loop,
         unparks := if s.parked then s.unparks + 1 else s.unparks)
    case Yield => s.(loop := Parking)
    case Decide =>
      if s.wakes == 0 then s.(parked := true, loop := Parked, parks := s.parks + 1)
      else s.(loop := Handed)
    case Rerun => s.(loop := Running)
  }

  ghost predicate Run(s: State, es: seq<Event>, s': State)
    decreases |es|
  {
    if es == [] then s == s'
    else Enabled(s, es[0]) && Run(Next(s, es[0]), es[1..], s')
  }

  // ---------------------------------------------------------------- invariants

  /** Channels whose wake-up was sent and whose callback has not run. */
  function Undelivered(chans: map<Chan, Wait>): set<Chan> {
    set c | c in chans && chans[c].place == Sent
  }

  ghost predicate WakesInv(s: State) {
    && s.wakes == (if s.task then |Undelivered(s.chans)| - s.between else 0)
    && (!s.task ==> s.between == 0 && s.loop == Running)
    && (s.parked <==> s.loop == Parked)
    && (s.parked ==> s.wakes == 0)
    && s.parks == s.unparks + (if s.parked then 1 else 0)
  }

  ghost predicate Current(chans: map<Chan, Wait>, n: Serial) {
    exists c :: c in chans && chans[c].place != Free && chans[c].serial == n
  }

  /** The tally of a wait under way. */
  function SoFar(p: Place): Tally {
    match p
    case Free => Tally(0, 0, 0, 0, 0)
    case Queued => Tally(0, 0, 0, 0, 0)
    case InHands => Tally(0, 1, 0, 0, 0)
    case Sent => Tally(0, 1, 1, 0, 0)
  }

  ghost predicate UnderWay(w: Wait, log: seq<Tally>) {
    && (w.handle <==> w.place != Free)
    && (w.late ==> w.place == InHands || w.place == Sent)
    && (w.place != Free ==> w.serial < |log| && log[w.serial] == SoFar(w.place))
  }

  ghost predicate Settled(log: seq<Tally>, n: Serial) {
    n < |log| && Over(log[n])
  }

  /** Won by the owner: removed, and nothing else ever happened. */
  function ByOwner(): Tally {
    Tally(1, 0, 0, 0, 1)
  }

  /** Won by a matcher: taken once, given values once, called back once. */
  function ByMatcher(): Tally {
    Tally(0, 1, 1, 1, 1)
  }

  /** A wait that is over: removed by its owner, or taken, given values and called back. */
  ghost predicate Over(t: Tally) {
    t == ByOwner() || t == ByMatcher()
  }

  ghost predicate WaitsInv(chans: map<Chan, Wait>, log: seq<Tally>) {
    && (forall c :: c in chans ==> UnderWay(chans[c], log))
    && Unique(chans)
    && (forall n: nat :: n < |log| ==> Current(chans, n) || Settled(log, n))
  }

  ghost predicate Inv(s: State) {
    WakesInv(s) && WaitsInv(s.chans, s.log)
  }

  lemma UndeliveredUpdate(chans: map<Chan, Wait>, c: Chan, w: Wait)
    ensures w.place == Sent ==> Undelivered(chans[c := w]) == Undelivered(chans) + {c}
    ensures w.place != Sent ==> Undelivered(chans[c := w]) == Undelivered(chans) - {c}
  {
    var after := chans[c := w];
    forall d ensures d in Undelivered(after) <==> if d == c then w.place == Sent else d in Undelivered(chans) {
    }
  }

  lemma UndeliveredCount(chans: map<Chan, Wait>, c: Chan, w: Wait)
    ensures |Undelivered(chans[c := w])| == |Undelivered(chans)| + (if w.place == Sent then 1 else 0)
                                            - (if c in chans && chans[c].place == Sent then 1 else 0)
  {
    UndeliveredUpdate(chans, c, w);
    var u := Undelivered(chans);
    assert c in u <==> c in chans && chans[c].place == Sent;
    assert c in u ==> u + {c} == u;
    assert c !in u ==> u - {c} == u;
  }

  lemma WakesStep(s: State, e: Event)
    requires Inv(s) && Enabled(s, e)
    ensures WakesInv(Next(s, e))
  {
    if !(e.Count? || e.Yield? || e.Decide? || e.Rerun?) {
      var c, s' := e.c, Next(s, e);
      assert s'.chans == s.chans[c := s'.chans[c]];
      UndeliveredCount(s.chans, c, s'.chans[c]);
      if c in s.chans {
        assert UnderWay(s.chans[c], s.log);
      }
    }
  }

  lemma StillCurrent(chans: map<Chan, Wait>, c: Chan, w: Wait, n: Serial)
    requires Current(chans, n)
    requires c in chans && chans[c].place != Free && chans[c].serial == n ==> w.place != Free && w.serial == n
    ensures Current(chans[c := w], n)
  {
    var d :| d in chans && chans[d].place != Free && chans[d].serial == n;
    assert d in chans[c := w];
  }

  ghost predicate Unique(chans: map<Chan, Wait>) {
    forall c, d :: c in chans && d in chans && c != d && chans[c].place != Free && chans[d].place != Free
      ==> chans[c].serial != chans[d].serial
  }

  /** Whether `w`, with tally `t`, is a further stage or the end of the wait of channel `c`. */
  ghost predicate Advances(chans: map<Chan, Wait>, c: Chan, w: Wait, t: Tally) {
    && c in chans && chans[c].place != Free && chans[c].serial == w.serial
    && (w.handle <==> w.place != Free)
    && (w.late ==> w.place == InHands || w.place == Sent)
    && (if w.place == Free then Over(t) else t == SoFar(w.place))
  }

  lemma MoveKeepsUnderWay(chans: map<Chan, Wait>, log: seq<Tally>, c: Chan, w: Wait, t: Tally, d: Chan)
    requires WaitsInv(chans, log) && Advances(chans, c, w, t)
    requires w.serial < |log| && d in chans
    ensures UnderWay(chans[c := w][d], log[w.serial := t])
  {
    assert UnderWay(chans[d], log);
  }

  lemma MoveKeepsOver(chans: map<Chan, Wait>, log: seq<Tally>, c: Chan, w: Wait, t: Tally, n: Serial)
    requires WaitsInv(chans, log) && Advances(chans, c, w, t)
    requires w.serial < |log| && n < |log|
    ensures Current(chans[c := w], n) || Settled(log[w.serial := t], n)
  {
    assert Current(chans, n) || Settled(log, n);
    if n == w.serial {
      assert c in chans[c := w];
    } else if Current(chans, n) {
      StillCurrent(chans, c, w, n);
    }
  }

  /** One wait goes one stage further, or ends; the others are as they were. */
  lemma MoveKeeps(chans: map<Chan, Wait>, log: seq<Tally>, c: Chan, w: Wait, t: Tally)
    requires WaitsInv(chans, log) && Advances(chans, c, w, t) && w.serial < |log|
    ensures WaitsInv(chans[c := w], log[w.serial := t])
  {
    var chans', log' := chans[c := w], log[w.serial := t];
    forall d | d in chans ensures UnderWay(chans'[d], log') {
      MoveKeepsUnderWay(chans, log, c, w, t, d);
    }
    forall n: nat | n < |log'| ensures Current(chans', n) || Settled(log', n) {
      MoveKeepsOver(chans, log, c, w, t, n);
    }
    assert Unique(chans');
  }

  lemma ArmKeeps(s: State, c: Chan)
    requires WaitsInv(s.chans, s.log) && Enabled(s, Arm(c))
    ensures WaitsInv(Next(s, Arm(c)).chans, Next(s, Arm(c)).log)
  {
    var s' := Next(s, Arm(c));
    assert UnderWay(s.chans[c], s.log);
    assert s'.chans[c].serial == |s.log|;
    assert forall d :: d in s'.chans ==> d == c || UnderWay(s.chans[d], s.log);
    assert Unique(s'.chans);
    forall n: nat | n < |s.log| && Current(s.chans, n) ensures Current(s'.chans, n) {
      StillCurrent(s.chans, c, s'.chans[c], n);
    }
  }

  lemma CreateKeeps(s: State, c: Chan)
    requires WaitsInv(s.chans, s.log) && Enabled(s, Create(c))
    ensures WaitsInv(Next(s, Create(c)).chans, s.log)
  {
    var s' := Next(s, Create(c));
    forall n: nat | n < |s.log| && Current(s.chans, n) ensures Current(s'.chans, n) {
      StillCurrent(s.chans, c, s'.chans[c], n);
    }
  }

  /** Every step of a matcher, a callback or a cancellation is one move of one wait. */
  lemma StepIsMove(s: State, e: Event) returns (w: Wait, t: Tally)
    requires Enabled(s, e) && (e.Take? || e.Give? || e.Cancel? || e.Callback?)
    requires UnderWay(s.chans[e.c], s.log)
    ensures w.serial < |s.log| && Advances(s.chans, e.c, w, t)
    ensures Next(s, e).chans == s.chans[e.c := w]
    ensures Next(s, e).log == s.log[w.serial := t]
  {
    var was := s.chans[e.c];
    w := Next(s, e).chans[e.c];
    t := Next(s, e).log[w.serial];
    assert was.place != Free && s.log[was.serial] == SoFar(was.place);
  }

  lemma MovesKeep(s: State, e: Event)
    requires WaitsInv(s.chans, s.log) && Enabled(s, e) && (e.Take? || e.Give? || e.Cancel? || e.Callback?)
    ensures WaitsInv(Next(s, e).chans, Next(s, e).log)
  {
    assert UnderWay(s.chans[e.c], s.log);
    var w, t := StepIsMove(s, e);
    MoveKeeps(s.chans, s.log, e.c, w, t);
  }

  lemma WaitsStep(s: State, e: Event)
    requires WaitsInv(s.chans, s.log) && Enabled(s, e)
    ensures WaitsInv(Next(s, e).chans, Next(s, e).log)
  {
    match e
    case Create(c) => CreateKeeps(s, c);
    case Arm(c) => ArmKeeps(s, c);
    case Cancel(c) => MovesKeep(s, e);
    case Callback(c) => MovesKeep(s, e);
    case Take(c) => MovesKeep(s, e);
    case Give(c) => MovesKeep(s, e);
    case _ =>
  }

  lemma {:induction false} RunKeeps(s: State, es: seq<Event>, s': State)
    requires Inv(s) && Run(s, es, s')
    ensures Inv(s')
    decreases |es|
  {
    if es == [] {
    } else {
      WakesStep(s, es[0]);
      WaitsStep(s, es[0]);
      RunKeeps(Next(s, es[0]), es[1..], s');
    }
  }

  // ---------------------------------------------------------------- theorems

  /** `wakes` is the callbacks not yet run minus the matchers not yet counted; a parked task has none. */
  lemma WakesBalance(task: bool, es: seq<Event>, s: State)
    requires Run(Start(task), es, s)
    ensures s.task ==> s.wakes == |Undelivered(s.chans)| - s.between
    ensures s.parked ==> s.wakes == 0 && |Undelivered(s.chans)| == s.between
    ensures forall c :: c in Undelivered(s.chans) <==> c in s.chans && s.chans[c].place == Sent
  {
    assert Undelivered(map[]) == {};
    RunKeeps(Start(task), es, s);
  }

  /** A parked task with an undelivered wake-up is never forgotten: a matcher is still to count,
      and the count takes the task out and hands it over. */
  lemma NoLostWakeUp(task: bool, es: seq<Event>, s: State, c: Chan)
    requires Run(Start(task), es, s)
    requires s.parked && c in Undelivered(s.chans)
    ensures Enabled(s, Count)
    ensures Next(s, Count).loop == Handed && !Next(s, Count).parked
  {
    WakesBalance(task, es, s);
  }

  /** The worker refuses to park the task only while some wake-up is really under way. */
  lemma ParkRefusedForCause(task: bool, es: seq<Event>, s: State)
    requires Run(Start(task), es, s) && s.task && s.loop == Parking
    ensures Next(s, Decide).loop == Handed <==> |Undelivered(s.chans)| != s.between
    ensures Undelivered(s.chans) == {} && s.between == 0 ==> Next(s, Decide).parked
  {
    WakesBalance(task, es, s);
  }

  /** Each suspension is ended by one matcher at most, and only a suspended task is taken. */
  lemma ResumedOncePerPark(task: bool, es: seq<Event>, s: State)
    requires Run(Start(task), es, s)
    ensures s.unparks <= s.parks <= s.unparks + 1
    ensures s.parks == s.unparks + 1 <==> s.loop == Parked
  {
    assert Undelivered(map[]) == {};
    RunKeeps(Start(task), es, s);
  }

  /** Cancel against match: every wait that is over has exactly one winner.  Removed by its owner, it
      was never taken nor given values nor called back; otherwise it was so exactly once.  Either way
      `handle` was cleared exactly once.  A wait not over is that of one channel in use. */
  lemma OneWinner(task: bool, es: seq<Event>, s: State, n: Serial)
    requires Run(Start(task), es, s) && n < |s.log|
    ensures s.log[n] == Tally(1, 0, 0, 0, 1)
         || s.log[n] == Tally(0, 1, 1, 1, 1)
         || exists c :: c in s.chans && s.chans[c].handle && s.chans[c].serial == n && s.log[n] == SoFar(s.chans[c].place)
  {
    assert Undelivered(map[]) == {};
    RunKeeps(Start(task), es, s);
    if Current(s.chans, n) {
      var c :| c in s.chans && s.chans[c].place != Free && s.chans[c].serial == n;
      assert UnderWay(s.chans[c], s.log);
    }
  }

  /** The owner writes a channel's stack and registry when it arms the channel and when it restores it
      (after a removal, or in the callback).  It does so only while no queue and no matcher has the
      state: never between the match and the wake-up. */
  lemma OwnerTouchesOwnStateOnly(task: bool, es: seq<Event>, s: State, e: Event, c: Chan)
    requires Run(Start(task), es, s) && Enabled(s, e) && c in s.chans
    ensures e == Arm(c) ==> s.chans[c].place == Free
    ensures s.chans[c].handle && !Next(s, e).chans[c].handle ==>
              && ((e == Callback(c) && s.chans[c].place == Sent) || (e == Cancel(c) && s.chans[c].place == Queued))
              && Next(s, e).chans[c].place == Free
    ensures s.chans[c].place == InHands && Next(s, e).chans[c] != s.chans[c] ==>
              e == Give(c) || Next(s, e).chans[c] == s.chans[c].(late := true)
  {
    assert Undelivered(map[]) == {};
    RunKeeps(Start(task), es, s);
    assert UnderWay(s.chans[c], s.log);
  }

  /** And a channel is "in use" exactly while its state is elsewhere. */
  lemma InUse(task: bool, es: seq<Event>, s: State, c: Chan)
    requires Run(Start(task), es, s) && c in s.chans
    ensures s.chans[c].handle <==> s.chans[c].place != Free
  {
    assert Undelivered(map[]) == {};
    RunKeeps(Start(task), es, s);
    assert UnderWay(s.chans[c], s.log);
  }

  // ---------------------------------------------------------------- what the steps are

  /** Which steps are possible, and when. */
  lemma Possible(s: State, e: Event)
    ensures e.Create? ==> (Enabled(s, e) <==> e.c !in s.chans && s.loop == Running)
    ensures e.Arm? ==> (Enabled(s, e) <==> e.c in s.chans && s.loop == Running && !s.chans[e.c].handle)
    ensures e.Cancel? ==>
              (Enabled(s, e) <==> e.c in s.chans && s.loop == Running && s.chans[e.c].handle && !s.chans[e.c].late)
    ensures e.Callback? ==> (Enabled(s, e) <==> e.c in s.chans && s.loop == Running && s.chans[e.c].place == Sent)
    ensures e.Take? ==> (Enabled(s, e) <==> e.c in s.chans && s.chans[e.c].place == Queued)
    ensures e.Give? ==> (Enabled(s, e) <==> e.c in s.chans && s.chans[e.c].place == InHands)
    ensures e.Count? ==> (Enabled(s, e) <==> s.between > 0)
    ensures e.Yield? ==> (Enabled(s, e) <==> s.loop == Running && s.task)
    ensures e.Decide? ==> (Enabled(s, e) <==> s.loop == Parking)
    ensures e.Rerun? ==> (Enabled(s, e) <==> s.loop == Handed)
  {
  }

  lemma {:induction false} RunOn(s: State, es: seq<Event>, s': State, e: Event)
    requires Run(s, es, s') && Enabled(s', e)
    ensures Run(s, [], s) && Run(s, es + [e], Next(s', e))
    decreases |es|
  {
    if es == [] {
      assert Run(Next(s, e), [], Next(s, e));
    } else {
      RunOn(Next(s, es[0]), es[1..], s', e);
      assert (es + [e])[1..] == es[1..] + [e];
    }
  }

  lemma CreateMeans(s: State, c: Chan)
    requires Enabled(s, Create(c))
    ensures Next(s, Create(c)).chans.Keys == s.chans.Keys + {c}
    ensures Next(s, Create(c)).chans[c].place == Free && !Next(s, Create(c)).chans[c].handle && !Next(s, Create(c)).chans[c].late
    ensures forall d :: d in s.chans ==> Next(s, Create(c)).chans[d] == s.chans[d]
    ensures Next(s, Create(c)) == s.(chans := Next(s, Create(c)).chans)
  {
  }

  /** Arming puts the channel's state in the queue, and begins a wait of its own. */
  lemma ArmMeans(s: State, c: Chan)
    requires Enabled(s, Arm(c))
    ensures Next(s, Arm(c)).chans == s.chans[c := Wait(Queued, true, false, |s.log|)]
    ensures Next(s, Arm(c)).log == s.log + [Tally(0, 0, 0, 0, 0)]
    ensures Next(s, Arm(c)) == s.(chans := Next(s, Arm(c)).chans, log := Next(s, Arm(c)).log)
  {
  }

  /** In every run, what the owner's cancellation and the callback do to a wait and its tally. */
  lemma OwnerMeans(task: bool, es: seq<Event>, s: State, e: Event)
    requires Run(Start(task), es, s) && Enabled(s, e) && (e.Cancel? || e.Callback?)
    ensures var w, w' := s.chans[e.c], Next(s, e).chans[e.c];
            && w.serial == w'.serial < |s.log| && Next(s, e).chans == s.chans[e.c := w']
            && var t, t' := s.log[w.serial], Next(s, e).log[w.serial];
               && Next(s, e).log == s.log[w.serial := t']
               && (e.Cancel? && w.place == Queued ==>
                     && w'.place == Free && !w'.handle && !w'.late
                     && t' == t.(removed := t.removed + 1, cleared := t.cleared + 1))
               && (e.Cancel? && w.place != Queued ==> w'.place == w.place && w'.handle && w'.late && t' == t)
               && (e.Callback? ==>
                     && w'.place == Free && !w'.handle && !w'.late
                     && t' == t.(called := t.called + 1, cleared := t.cleared + 1))
    ensures Next(s, e).wakes == (if e.Callback? && s.task then s.wakes - 1 else s.wakes)
    ensures Next(s, e).parked == s.parked && Next(s, e).between == s.between && Next(s, e).loop == s.loop
  {
    assert Undelivered(map[]) == {};
    RunKeeps(Start(task), es, s);
    assert UnderWay(s.chans[e.c], s.log);
  }

  /** In every run, what a matcher does: take, give and send, and only then count. */
  lemma MatcherMeans(task: bool, es: seq<Event>, s: State, e: Event)
    requires Run(Start(task), es, s) && Enabled(s, e) && (e.Take? || e.Give?)
    ensures var w, w' := s.chans[e.c], Next(s, e).chans[e.c];
            && Next(s, e).chans == s.chans[e.c := w'] && w' == w.(place := if e.Take? then InHands else Sent)
            && w.serial < |s.log|
            && var t, t' := s.log[w.serial], Next(s, e).log[w.serial];
               && Next(s, e).log == s.log[w.serial := t']
               && t' == (if e.Take? then t.(taken := t.taken + 1) else t.(given := t.given + 1))
    ensures Next(s, e).between == (if e.Give? && s.task then s.between + 1 else s.between)
    ensures Next(s, e).wakes == s.wakes && Next(s, e).parked == s.parked && Next(s, e).loop == s.loop
  {
    assert Undelivered(map[]) == {};
    RunKeeps(Start(task), es, s);
    assert UnderWay(s.chans[e.c], s.log);
  }

  /** In every run, what becomes of the task: yielded, it is parked exactly if `wakes` is 0; a count takes a
      parked task out, which then runs again; and no wait is touched by any of it. */
  lemma TaskMeans(task: bool, es: seq<Event>, s: State, e: Event)
    requires Run(Start(task), es, s) && Enabled(s, e) && (e.Count? || e.Yield? || e.Decide? || e.Rerun?)
    ensures Next(s, e).chans == s.chans && Next(s, e).log == s.log
    ensures e.Count? ==> Next(s, e).wakes == s.wakes + 1 && Next(s, e).between == s.between - 1
    ensures !e.Count? ==> Next(s, e).wakes == s.wakes && Next(s, e).between == s.between
    ensures e.Yield? ==> Next(s, e).loop == Parking && !Next(s, e).parked
    ensures e.Decide? ==> Next(s, e).parked == (s.wakes == 0) && Next(s, e).loop == if s.wakes == 0 then Parked else Handed
    ensures e.Count? ==> !Next(s, e).parked && Next(s, e).loop == if s.loop == Parked then Handed else s.loop
    ensures e.Rerun? ==> Next(s, e).loop == Running && !Next(s, e).parked
  {
    assert Undelivered(map[]) == {};
    RunKeeps(Start(task), es, s);
  }

  /** A wait can go all the way, from any state where the owner runs: queued, taken, given, called back. */
  lemma WaitIsServed(s: State, c: Chan)
    requires Enabled(s, Arm(c))
    ensures Enabled(Next(s, Arm(c)), Take(c))
    ensures var s2 := Next(Next(s, Arm(c)), Take(c));
            && Enabled(s2, Give(c)) && Enabled(Next(s2, Give(c)), Callback(c))
            && var s' := Next(Next(s2, Give(c)), Callback(c));
               s'.chans[c] == Wait(Free, false, false, |s.log|) && |s'.log| == |s.log| + 1 && s'.log[|s.log|] == Tally(0, 1, 1, 1, 1)
  {
    var s1 := Next(s, Arm(c));
    assert s1.chans[c] == Wait(Queued, true, false, |s.log|) && s1.log[|s.log|] == Tally(0, 0, 0, 0, 0);
    var s2 := Next(s1, Take(c));
    assert s2.chans[c] == Wait(InHands, true, false, |s.log|) && s2.log[|s.log|] == Tally(0, 1, 0, 0, 0);
    var s3 := Next(s2, Give(c));
    assert s3.chans[c] == Wait(Sent, true, false, |s.log|) && s3.log[|s.log|] == Tally(0, 1, 1, 0, 0);
  }
}
