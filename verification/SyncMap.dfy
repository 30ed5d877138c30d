/**
 The reference-counted map from channel names to `ChannelSync`s: `lcuCS_getchsync` and
 `lcuCS_freechsync` of src/lchaux.c.

 A holder is an open channel (src/lchannem.c) or a worker between its get and its free
 (src/lthpool.c).  Holders enter and leave queues in between, in any order and interleaving.
 */
module SyncMaps {

  type Name = string
  type Holder = nat
  type Waiter = nat
  type Address = nat  // identifies the block a sync was allocated at

  datatype Sync = Sync(address: Address, refcount: int, queue: seq<Waiter>)

  /** What a holder keeps: the name it asked for and the pointer it got. */
  datatype Grip = Grip(name: Name, address: Address)

  datatype State = State(globals: map<Name, Sync>, holders: map<Holder, Grip>, issued: Address, freed: set<Address>)

  const Start := State(map[], map[], 0, {})

  datatype Event =
    | Get(h: Holder, name: Name)
    | Free(h: Holder)
    | Enqueue(h: Holder, w: Waiter)  // by lcuCS_matchchsync, on behalf of a holder
    | Dequeue(h: Holder, k: nat)     // a match (the head) or a cancellation (any place)

  predicate Enabled(s: State, e: Event) {
    match e
    case Get(h, name) => h !in s.holders
    case Free(h) => h in s.holders
    case Enqueue(h, w) => h in s.holders && s.holders[h].name in s.globals
    case Dequeue(h, k) => h in s.holders && s.holders[h].name in s.globals && k < |s.globals[s.holders[h].name].queue|
  }

  /** What `getchsync` does to the map, and the pointer it returns. */
  function GetSync(s: State, name: Name): (State, Address) {
    if name in s.globals then
      var sync := s.globals[name];
      (s.(globals := s.globals[name := sync.(refcount := sync.refcount + 1)]), sync.address)
    else
      (s.(globals := s.globals[name := Sync(s.issued, 1, [])], issued := s.issued + 1), s.issued)
  }

  /** What `freechsync` does: the sync goes when its last reference does, if nobody waits in it. */
  function FreeSync(s: State, name: Name): State {
    if name in s.globals then
      var sync := s.globals[name].(refcount := s.globals[name].refcount - 1);
      if sync.refcount == 0 && sync.queue == [] then
        s.(globals := s.globals - {name}, freed := s.freed + {sync.address})
      else
        s.(globals := s.globals[name := sync])
    else s
  }

  function Next(s: State, e: Event): State
    requires Enabled(s, e)
  {
    match e
    case Get(h, name) =>
      var (s', address) := GetSync(s, name);
      s'.(holders := s.holders[h := Grip(name, address)])
    case Free(h) =>
      FreeSync(s, s.holders[h].name).(holders := s.holders - {h})
    case Enqueue(h, w) =>
      var name := s.holders[h].name;
      var sync := s.globals[name];
      s.(globals := s.globals[name := sync.(queue := sync.queue + [w])])
    case Dequeue(h, k) =>
      var name := s.holders[h].name;
      var sync := s.globals[name];
      s.(globals := s.globals[name := sync.(queue := sync.queue[..k] + sync.queue[k + 1..])])
  }

  ghost predicate Run(s: State, es: seq<Event>, s': State)
    decreases |es|
  {
    if es == [] then s == s'
    else Enabled(s, es[0]) && Run(Next(s, es[0]), es[1..], s')
  }

  function HoldersOf(holders: map<Holder, Grip>, name: Name): set<Holder> {
    set h | h in holders && holders[h].name == name
  }

  ghost predicate Counted(s: State, name: Name) {
    name in s.globals ==>
      var sync := s.globals[name];
      && sync.refcount == |HoldersOf(s.holders, name)|
      && (sync.refcount > 0 || sync.queue != [])
      && sync.address < s.issued
      && sync.address !in s.freed
  }

  /** A holder's pointer is the one the map has for its name. */
  ghost predicate Gripped(s: State, h: Holder)
    requires h in s.holders
  {
    s.holders[h].name in s.globals && s.globals[s.holders[h].name].address == s.holders[h].address
  }

  ghost predicate Inv(s: State) {
    && (forall name :: name in s.globals ==> Counted(s, name))
    && (forall h :: h in s.holders ==> Gripped(s, h))
    && (forall a :: a in s.freed ==> a < s.issued)
    && (forall n, m :: n in s.globals && m in s.globals && n != m ==> s.globals[n].address != s.globals[m].address)
  }

  lemma HolderAdded(holders: map<Holder, Grip>, h: Holder, g: Grip, name: Name)
    requires h !in holders
    ensures HoldersOf(holders[h := g], name) == HoldersOf(holders, name) + (if g.name == name then {h} else {})
  {
    var after := holders[h := g];
    forall x ensures x in HoldersOf(after, name) <==> x in HoldersOf(holders, name) || (g.name == name && x == h) {
    }
  }

  lemma HolderRemoved(holders: map<Holder, Grip>, h: Holder, name: Name)
    requires h in holders
    ensures HoldersOf(holders - {h}, name) == HoldersOf(holders, name) - {h}
    ensures h in HoldersOf(holders, name) <==> holders[h].name == name
  {
  }

  lemma GetCounts(s: State, h: Holder, name: Name, n: Name)
    requires Inv(s) && Enabled(s, Get(h, name))
    ensures Counted(Next(s, Get(h, name)), n)
  {
    var s' := Next(s, Get(h, name));
    HolderAdded(s.holders, h, s'.holders[h], n);
    assert n in s.globals ==> Counted(s, n);
    if n !in s.globals {
      forall x | x in s.holders ensures s.holders[x].name != n { assert Gripped(s, x); }
      assert HoldersOf(s.holders, n) == {};
    }
  }

  lemma GetKeeps(s: State, h: Holder, name: Name)
    requires Inv(s) && Enabled(s, Get(h, name))
    ensures Inv(Next(s, Get(h, name)))
  {
    var s' := Next(s, Get(h, name));
    forall n | n in s'.globals ensures Counted(s', n) {
      GetCounts(s, h, name, n);
    }
    forall x | x in s'.holders ensures Gripped(s', x) {
      assert x == h || Gripped(s, x);
    }
    forall n, m | n in s'.globals && m in s'.globals && n != m
      ensures s'.globals[n].address != s'.globals[m].address
    {
      assert (n in s.globals ==> Counted(s, n)) && (m in s.globals ==> Counted(s, m));
    }
  }

  lemma FreeKeeps(s: State, h: Holder)
    requires Inv(s) && Enabled(s, Free(h))
    ensures Inv(Next(s, Free(h)))
  {
    var s', name := Next(s, Free(h)), s.holders[h].name;
    assert Gripped(s, h) && Counted(s, name);
    forall n | n in s'.globals ensures Counted(s', n) {
      HolderRemoved(s.holders, h, n);
      assert Counted(s, n);
    }
    HolderRemoved(s.holders, h, name);
    forall x | x in s'.holders ensures Gripped(s', x) {
      assert Gripped(s, x);
      if s.holders[x].name == name {
        assert s'.holders == s.holders - {h};
        assert x in HoldersOf(s'.holders, name);
        assert |HoldersOf(s'.holders, name)| == s.globals[name].refcount - 1;
        assert s.globals[name].refcount != 1;
      }
    }
  }

  lemma QueueStepKeeps(s: State, e: Event)
    requires Inv(s) && Enabled(s, e) && (e.Enqueue? || e.Dequeue?)
    ensures Inv(Next(s, e))
  {
    var s' := Next(s, e);
    var name := s.holders[e.h].name;
    assert e.h in HoldersOf(s.holders, name);
    assert Counted(s, name);
    forall n | n in s'.globals ensures Counted(s', n) {
      assert Counted(s, n);
    }
    forall x | x in s'.holders ensures Gripped(s', x) {
      assert Gripped(s, x);
    }
  }

  lemma {:induction false} RunKeeps(s: State, es: seq<Event>, s': State)
    requires Inv(s) && Run(s, es, s')
    ensures Inv(s')
    decreases |es|
  {
    if es == [] {
    } else {
      match es[0] {
        case Get(h, name) => GetKeeps(s, h, name);
        case Free(h) => FreeKeeps(s, h);
        case _ => QueueStepKeeps(s, es[0]);
      }
      RunKeeps(Next(s, es[0]), es[1..], s');
    }
  }

  /** In every run the count of a sync is the number of its holders, and a name has a sync exactly while
      somebody holds it or waits in it. */
  lemma MappedIffUsed(es: seq<Event>, s: State, name: Name)
    requires Run(Start, es, s)
    ensures name in s.globals ==> s.globals[name].refcount == |HoldersOf(s.holders, name)|
    ensures forall h :: h in HoldersOf(s.holders, name) <==> h in s.holders && s.holders[h].name == name
    ensures name in s.globals <==>
              HoldersOf(s.holders, name) != {} || (name in s.globals && s.globals[name].queue != [])
  {
    RunKeeps(Start, es, s);
    assert name in s.globals ==> Counted(s, name);
    forall h | h in HoldersOf(s.holders, name) ensures name in s.globals { assert Gripped(s, h); }
  }

  /** No holder's pointer ever dangles: it is the live sync of the holder's name, shared by all holders
      of that name and by nobody else. */
  lemma NoDanglingSync(es: seq<Event>, s: State, h: Holder, h': Holder)
    requires Run(Start, es, s) && h in s.holders && h' in s.holders
    ensures s.holders[h].address !in s.freed
    ensures s.holders[h].address == s.holders[h'].address <==> s.holders[h].name == s.holders[h'].name
  {
    RunKeeps(Start, es, s);
    assert Gripped(s, h) && Gripped(s, h');
    assert Counted(s, s.holders[h].name);
  }

  /** A sync is freed only by its last holder, with an empty queue: no waiter is ever lost with it. */
  lemma FreedOnlyUnused(es: seq<Event>, s: State, e: Event, name: Name)
    requires Run(Start, es, s) && Enabled(s, e)
    requires name in s.globals
    ensures name !in Next(s, e).globals <==>
              && s.globals[name].queue == []
              && exists h :: HoldersOf(s.holders, name) == {h} && e == Free(h)
  {
    RunKeeps(Start, es, s);
    assert Counted(s, name);
    if e.Free? && s.holders[e.h].name == name {
      assert e.h in HoldersOf(s.holders, name);
      if s.globals[name].refcount == 1 {
        forall h | h in HoldersOf(s.holders, name) ensures h == e.h {
          if h != e.h { assert |{h, e.h}| == 2; TwoOf(HoldersOf(s.holders, name), h, e.h); }
        }
        assert HoldersOf(s.holders, name) == {e.h};
      }
    }
  }

  lemma TwoOf(s: set<Holder>, a: Holder, b: Holder)
    requires a in s && b in s && a != b
    ensures |s| >= 2
  {
    assert |s - {a} - {b}| == |s| - 2;
  }

  // ---------------------------------------------------------------- what the steps are

  lemma Possible(s: State, e: Event)
    ensures e.Get? ==> (Enabled(s, e) <==> e.h !in s.holders)
    ensures e.Free? ==> (Enabled(s, e) <==> e.h in s.holders)
    ensures e.Enqueue? ==> (Enabled(s, e) <==> e.h in s.holders && s.holders[e.h].name in s.globals)
    ensures e.Dequeue? ==> (Enabled(s, e) <==> e.h in s.holders && s.holders[e.h].name in s.globals
                                               && e.k < |s.globals[s.holders[e.h].name].queue|)
  {
  }

  lemma {:induction false} RunOn(s: State, es: seq<Event>, s': State, e: Event)
    requires Run(s, es, s') && Enabled(s', e)
    ensures Run(s, [], s) && Run(s, es + [e], Next(s', e))
    decreases |es|
  {
    if es == [] {
      assert Run(Next(s, e), [], Next(s, e));
    } else {
      RunOn(Next(s, es[0]), es[1..], s', e);
      assert (es + [e])[1..] == es[1..] + [e];
    }
  }

  /** In every run: a holder can always get a sync, and use its queue while it has it; a waiter is queued at
      the end of the one queue of the holder's name, and leaves it from any place; nothing else changes. */
  lemma QueueMeans(es: seq<Event>, s: State, h: Holder, w: Waiter, k: nat)
    requires Run(Start, es, s) && h in s.holders
    ensures Enabled(s, Enqueue(h, w))
    ensures var name := s.holders[h].name;
            && name in s.globals
            && Next(s, Enqueue(h, w)) ==
               s.(globals := s.globals[name := Sync(s.globals[name].address, s.globals[name].refcount, s.globals[name].queue + [w])])
            && (k < |s.globals[name].queue| ==>
                  && Enabled(s, Dequeue(h, k))
                  && Next(s, Dequeue(h, k)) ==
                     s.(globals := s.globals[name := Sync(s.globals[name].address, s.globals[name].refcount,
                                                          s.globals[name].queue[..k] + s.globals[name].queue[k + 1..])]))
  {
    RunKeeps(Start, es, s);
    assert Gripped(s, h);
  }
}
