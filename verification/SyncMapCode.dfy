/**
 `lcuCS_getchsync` and `lcuCS_freechsync` of src/lchaux.c on the blocks themselves: a map from names to
 pointers, and counts and queues behind the pointers.
 */
module SyncMapCode {

  import opened SyncMaps

  class ChannelSync {
    var refcount: int
    var queue: seq<Waiter>
    ghost const address: Address

    constructor (ghost address: Address)
      ensures refcount == 1 && queue == [] && this.address == address
    {
      refcount, queue := 1, [];
      this.address := address;
    }

    ghost function View(): Sync
      reads this
    {
      Sync(address, refcount, queue)
    }
  }

  class ChannelMap {
    var globals: map<Name, ChannelSync>
    ghost var holders: map<Holder, Grip>
    ghost var issued: Address
    ghost var freed: set<Address>

    /** No two names share a block. */
    ghost predicate Valid()
      reads this
    {
      forall n, m :: n in globals && m in globals && n != m ==> globals[n] != globals[m]
    }

    ghost function Views(): map<Name, Sync>
      reads this, globals.Values
    {
      map n | n in globals :: globals[n].View()
    }

    ghost function View(): State
      reads this, globals.Values
    {
      State(Views(), holders, issued, freed)
    }

    constructor ()
      ensures Valid() && View() == Start
    {
      globals, holders, issued, freed := map[], map[], 0, {};
    }

    /** `lcuCS_getchsync`: the pointer it returns is to the block of that name, old or new. */
    method GetChSync(name: Name) returns (sync: ChannelSync)
      requires Valid()
      modifies this, globals.Values
      ensures Valid()
      ensures View() == GetSync(old(View()), name).0
      ensures name in globals && sync == globals[name] && sync.address == GetSync(old(View()), name).1
      ensures holders == old(holders)
      ensures forall s :: s in globals.Values ==> s in old(globals.Values) || fresh(s)
      ensures name in old(globals) ==>
                globals == old(globals) && sync.refcount == old(globals[name].refcount) + 1 && sync.queue == old(globals[name].queue)
      ensures name !in old(globals) ==>
                fresh(sync) && globals == old(globals)[name := sync] && sync.refcount == 1 && sync.queue == []
      ensures forall n :: n in old(globals) && n != name ==>
                globals[n].refcount == old(globals[n].refcount) && globals[n].queue == old(globals[n].queue)
    {
      ghost var was := View();
      if name in globals {
        sync := globals[name];
        sync.refcount := sync.refcount + 1;
        assert Views() == was.globals[name := sync.View()];
      } else {
        sync := new ChannelSync(issued);
        issued := issued + 1;
        globals := globals[name := sync];
        assert Views() == was.globals[name := sync.View()];
      }
    }

    /** `lcuCS_freechsync`. */
    method FreeChSync(name: Name)
      requires Valid()
      modifies this, globals.Values
      ensures Valid()
      ensures View() == FreeSync(old(View()), name)
      ensures holders == old(holders)
      ensures globals.Values <= old(globals.Values)
      ensures name in old(globals) && old(globals[name].refcount == 1 && globals[name].queue == []) ==>
                globals == old(globals) - {name}
      ensures name in old(globals) && !old(globals[name].refcount == 1 && globals[name].queue == []) ==>
                && globals == old(globals) && globals[name].refcount == old(globals[name].refcount) - 1
                && globals[name].queue == old(globals[name].queue)
      ensures name !in old(globals) ==> globals == old(globals)
      ensures forall n :: n in old(globals) && n != name ==>
                n in globals && globals[n].refcount == old(globals[n].refcount) && globals[n].queue == old(globals[n].queue)
    {
      ghost var was := View();
      if name in globals {
        var sync := globals[name];
        sync.refcount := sync.refcount - 1;
        if sync.refcount == 0 && sync.queue == [] {
          freed := freed + {sync.address};
          globals := globals - {name};
          assert Views() == was.globals - {name};
        } else {
          assert Views() == was.globals[name := sync.View()];
        }
      }
    }

    /** `channel.create`, or the first half of a worker's `channel.sync`: the holder keeps name and pointer. */
    method Open(ghost h: Holder, name: Name) returns (sync: ChannelSync)
      requires Valid() && Enabled(View(), Get(h, name))
      modifies this, globals.Values
      ensures Valid() && View() == Next(old(View()), Get(h, name))
      ensures name in globals && sync == globals[name] && holders[h] == Grip(name, sync.address)
    {
      ghost var was := View();
      sync := GetChSync(name);
      holders := holders[h := Grip(name, sync.address)];
      assert Views() == GetSync(was, name).0.globals;
    }

    /** `channel:close`, or the second half of a worker's `channel.sync`. */
    method Close(ghost h: Holder, name: Name)
      requires Valid() && Enabled(View(), Event.Free(h)) && holders[h].name == name
      modifies this, globals.Values
      ensures Valid() && View() == Next(old(View()), Event.Free(h)) && holders == old(holders) - {h}
    {
      ghost var was := View();
      FreeChSync(name);
      holders := holders - {h};
      assert Views() == FreeSync(was, name).globals;
    }
  }

  /** Following a pointer reaches the block the map has for the holder's name: what a holder does to the
      queue behind its pointer is done to the queue of its name. */
  lemma PointerIsMapped(m: ChannelMap, es: seq<Event>, h: Holder, sync: ChannelSync)
    requires m.Valid() && Run(Start, es, m.View()) && h in m.holders
    requires sync in m.globals.Values && sync.address == m.holders[h].address
    ensures m.holders[h].name in m.globals && m.globals[m.holders[h].name] == sync
  {
    RunKeeps(Start, es, m.View());
    assert Gripped(m.View(), h);
    var n :| n in m.globals && m.globals[n] == sync;
    assert m.View().globals[n].address == sync.address;
  }
}
