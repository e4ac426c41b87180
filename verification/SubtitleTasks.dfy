/**
 The subtitle index as it runs: two maps changed in place, and loops that erase while they walk.

 A walk takes the keys that are there when it starts and erases those that match; the loop invariants say
 that what is gone is exactly what was visited and matched.

 Cancelling is remembered in a ghost set of recordings, finishing in another; the index functions keep
 the same sets.
 */
module SubtitleTasks {
  import opened SubtitleIndex

  class SubtitleCycles {
    var cycles: map<Key, Cycle>
    var active: map<string, nat>
    var nextId: nat
    ghost var cancelled: set<nat>
    ghost var finished: set<nat>

    ghost function Model(): Index
      reads this
    {
      Index(cycles, active, nextId, cancelled, finished)
    }

    constructor ()
      ensures Model() == Empty()
    {
      cycles, active, nextId := map[], map[], 0;
      cancelled, finished := {}, {};
    }

    method ClearActiveSubtitleSession(key: Key)
      modifies `active
      ensures Model() == ClearActive(old(Model()), key)
    {
      if key.device in active && active[key.device] == key.session {
        active := active - {key.device};
      }
    }

    method CancelCycle(key: Key)
      modifies this
      ensures Model() == Cancel(old(Model()), key)
    {
      if key in cycles {
        cancelled := cancelled + {cycles[key].id};
        ClearActiveSubtitleSession(key);
        cycles := cycles - {key};
      }
    }

    method FinishCycle(key: Key)
      modifies this
      ensures Model() == Finish(old(Model()), key)
    {
      if key in cycles {
        finished := finished + {cycles[key].id};
        ClearActiveSubtitleSession(key);
        cycles := cycles - {key};
      }
    }

    method HandlePrimaryButtonDown(session: nat, device: string, canMake: bool)
      modifies this
      ensures Model() == Down(old(Model()), session, device, canMake)
    {
      var key := Key(device, session);
      if (device in active && active[device] == session) || key in cycles {
        return;
      }
      active := active - {device};
      if !canMake {
        return;
      }
      cycles := cycles[key := Cycle(nextId, device, session, 0, false, false, false, 0)];
      active := active[device := session];
      nextId := nextId + 1;
    }

    method HandlePrimaryButtonUp(device: string, long: bool, hold: bool)
      modifies this
      ensures Model() == Up(old(Model()), device, long, hold)
    {
      if device !in active || Key(device, active[device]) !in cycles {
        return;
      }
      var key := Key(device, active[device]);
      if !long {
        CancelCycle(key);
        return;
      }
      var c := cycles[key];
      if !c.waiting {
        cycles := cycles[key := c.(waiting := true, generation := c.generation + 1)];
      } else {
        assert cycles[key := c] == cycles;
      }
      if hold {
        ClearActiveSubtitleSession(key);
      }
    }

    method SendFinalChunkIfNeeded(key: Key, long: bool, startOk: bool)
      modifies this
      ensures Model() == SendFinal(old(Model()), key, long, startOk)
    {
      if key !in cycles || cycles[key].sentFinal {
        return;
      }
      var c := cycles[key];
      if !c.asrStarted && !long {
        CancelCycle(key);
        return;
      }
      if c.frames == 0 {
        CancelCycle(key);
        return;
      }
      if !c.asrStarted && !startOk {
        CancelCycle(key);
        return;
      }
      cycles := cycles[key := c.(waiting := false, generation := c.generation + 1, sentFinal := true, asrStarted := true)];
    }

    /** Walks the map and erases every cycle of a device that is not connected. */
    method CancelCyclesOfLostDevices(connected: set<string>)
      modifies this
      ensures Model() == CancelAll(old(Model()), KeysLost(old(Model()), connected))
    {
      ghost var start := Model();
      var todo := cycles.Keys;
      ghost var gone: set<Key> := {};
      while todo != {}
        invariant gone <= start.cycles.Keys && todo <= start.cycles.Keys && todo !! gone
        invariant forall k :: k in start.cycles && k.device !in connected ==> k in todo || k in gone
        invariant forall k :: k in gone ==> k.device !in connected
        invariant Model() == CancelAll(start, gone)
        decreases todo
      {
        var key :| key in todo;
        todo := todo - {key};
        if key.device !in connected {
          EraseOne(key, start, gone);
          gone := gone + {key};
        }
      }
      assert gone == KeysLost(start, connected);
    }

    method CancelCyclesForDevice(device: string)
      modifies this
      ensures Model() == CancelAll(old(Model()), KeysOf(old(Model()), device)).(active := old(active) - {device})
    {
      ghost var start := Model();
      var todo := cycles.Keys;
      ghost var gone: set<Key> := {};
      while todo != {}
        invariant gone <= start.cycles.Keys && todo <= start.cycles.Keys && todo !! gone
        invariant forall k :: k in start.cycles && k.device == device ==> k in todo || k in gone
        invariant forall k :: k in gone ==> k.device == device
        invariant Model() == CancelAll(start, gone)
        decreases todo
      {
        var key :| key in todo;
        todo := todo - {key};
        if key.device == device {
          EraseOne(key, start, gone);
          gone := gone + {key};
        }
      }
      assert gone == KeysOf(start, device);
      active := active - {device};
      assert active == start.active - {device};
    }

    /** One step of an erasing walk: the recognizer is cancelled, the device has no active cycle. */
    method EraseOne(key: Key, ghost start: Index, ghost gone: set<Key>)
      requires gone <= start.cycles.Keys && Model() == CancelAll(start, gone)
      requires key in start.cycles && key !in gone
      modifies this
      ensures Model() == CancelAll(start, gone + {key})
    {
      cancelled := cancelled + {cycles[key].id};
      active := active - {key.device};
      cycles := cycles - {key};
    }
  }

}
