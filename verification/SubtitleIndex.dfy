/** The coordinator's index of subtitle recordings: which cycles exist, which are active, and how each one goes. */
module SubtitleIndex {
  import opened Optional

  // Several cycles of one device may overlap; at most one of them is the device's active one. Chunks and
  // overlays are left out.

  datatype Key = Key(device: string, session: nat)

  datatype Cycle = Cycle(id: nat, device: string, session: nat, frames: nat, asrStarted: bool, sentFinal: bool,
                         waiting: bool, generation: nat)

  /** Cycles are numbered by nextId as they are made; cancelled and finished hold the numbers of those
      removed after their recognizer was cancelled, or by its final text. */
  datatype Index = Index(cycles: map<Key, Cycle>, active: map<string, nat>, nextId: nat,
                         cancelled: set<nat>, finished: set<nat>)

  datatype Event =
    | ButtonDown(offered: Option<nat>, device: string, canMake: bool)
    | ButtonUp(device: string, long: bool, hold: bool)
    | SecondaryClick(device: string)
    | AudioFrame(key: Key, long: bool, startOk: bool)
    | EndFrame(key: Key, long: bool, startOk: bool)
    | EndTimeout(key: Key, generation: nat, long: bool, startOk: bool)
    | AsrFinal(key: Key)
    | AsrError(key: Key)
    | ConnectionsChanged(connected: set<string>)
    | Reset

  function Empty(): Index {
    Index(map[], map[], 0, {}, {})
  }

  // ---- removals ----

  function ClearActive(ix: Index, key: Key): Index {
    if key.device in ix.active && ix.active[key.device] == key.session
    then ix.(active := ix.active - {key.device}) else ix
  }

  /** The recognizer of a cycle is cancelled and the cycle forgotten. */
  function Cancel(ix: Index, key: Key): Index {
    if key !in ix.cycles then ix
    else ClearActive(ix, key).(cycles := ix.cycles - {key}, cancelled := ix.cancelled + {ix.cycles[key].id})
  }

  /** A cycle has its final text. */
  function Finish(ix: Index, key: Key): Index {
    if key !in ix.cycles then ix
    else ClearActive(ix, key).(cycles := ix.cycles - {key}, finished := ix.finished + {ix.cycles[key].id})
  }

  /** All cycles with the given keys are cancelled, and their devices have no active one. */
  ghost function CancelAll(ix: Index, keys: set<Key>): Index
    requires keys <= ix.cycles.Keys
  {
    Index(ix.cycles - keys, ix.active - (set k | k in keys :: k.device), ix.nextId,
          ix.cancelled + (set k | k in keys :: ix.cycles[k].id), ix.finished)
  }

  ghost function KeysOf(ix: Index, device: string): set<Key> {
    set k | k in ix.cycles && k.device == device
  }

  ghost function KeysLost(ix: Index, connected: set<string>): set<Key> {
    set k | k in ix.cycles && k.device !in connected
  }

  // ---- handlers ----

  function Down(ix: Index, session: nat, device: string, canMake: bool): Index {
    var key := Key(device, session);
    if (device in ix.active && ix.active[device] == session) || key in ix.cycles then ix
    else
      var quiet := ix.(active := ix.active - {device});
      if !canMake then quiet
      else quiet.(cycles := ix.cycles[key := Cycle(ix.nextId, device, session, 0, false, false, false, 0)],
                  active := ix.active[device := session], nextId := ix.nextId + 1)
  }

  function CancelActive(ix: Index, device: string): Index {
    if device in ix.active then Cancel(ix, Key(device, ix.active[device])) else ix
  }

  /** After the button the cycle waits for END; in hold mode it is no longer the active one. */
  function Up(ix: Index, device: string, long: bool, hold: bool): Index {
    if device !in ix.active || Key(device, ix.active[device]) !in ix.cycles then ix
    else
      var key := Key(device, ix.active[device]);
      if !long then CancelActive(ix, device)
      else
        var more := ix.(cycles := ix.cycles[key := AwaitingEnd(ix.cycles[key])]);
        if hold then ClearActive(more, key) else more
  }

  function AwaitingEnd(c: Cycle): Cycle {
    if c.waiting then c else c.(waiting := true, generation := c.generation + 1)
  }

  function Audio(ix: Index, key: Key, long: bool, startOk: bool): Index {
    if key !in ix.cycles then ix
    else
      var c := ix.cycles[key];
      var starts := !c.asrStarted && long && !c.waiting;
      if starts && !startOk then Cancel(ix, key)
      else ix.(cycles := ix.cycles[key := Fed(c, starts)])
  }

  function Fed(c: Cycle, starts: bool): Cycle {
    c.(frames := c.frames + 1, asrStarted := c.asrStarted || starts)
  }

  function Closed(c: Cycle): Cycle {
    c.(waiting := false, generation := c.generation + 1)
  }

  function SendFinal(ix: Index, key: Key, long: bool, startOk: bool): Index {
    if key !in ix.cycles || ix.cycles[key].sentFinal then ix
    else
      var c := ix.cycles[key];
      if (!c.asrStarted && !long) || c.frames == 0 || (!c.asrStarted && !startOk) then Cancel(ix, key)
      else ix.(cycles := ix.cycles[key := Closed(c).(sentFinal := true, asrStarted := true)])
  }

  function End(ix: Index, key: Key, long: bool, startOk: bool): Index {
    if key !in ix.cycles then ix
    else SendFinal(ix.(cycles := ix.cycles[key := Closed(ix.cycles[key])]), key, long, startOk)
  }

  ghost function Step(ix: Index, e: Event): Index {
    match e
    case ButtonDown(offered, device, canMake) =>
      if offered.None? || offered.value == 0 then ix else Down(ix, offered.value, device, canMake)
    case ButtonUp(device, long, hold) => Up(ix, device, long, hold)
    case SecondaryClick(device) =>
      if device in ix.active then CancelActive(ix, device) else CancelAll(ix, KeysOf(ix, device))
    case AudioFrame(key, long, startOk) => Audio(ix, key, long, startOk)
    case EndFrame(key, long, startOk) => End(ix, key, long, startOk)
    case EndTimeout(key, generation, long, startOk) =>
      if key in ix.cycles && ix.cycles[key].waiting && ix.cycles[key].generation == generation
      then SendFinal(ix, key, long, startOk) else ix
    case AsrFinal(key) => Finish(ix, key)
    case AsrError(key) => Cancel(ix, key)
    case ConnectionsChanged(connected) => CancelAll(ix, KeysLost(ix, connected))
    case Reset => CancelAll(ix, ix.cycles.Keys).(active := map[])
  }

  ghost function Run(ix: Index, events: seq<Event>): Index
    decreases events
  {
    if events == [] then ix else Run(Step(ix, events[0]), events[1..])
  }

  // ---- what every run keeps ----

  /** Every cycle is stored under its own device and session, and every active entry names a live cycle. */
  ghost predicate Consistent(ix: Index) {
    && (forall k :: k in ix.cycles ==> ix.cycles[k].device == k.device && ix.cycles[k].session == k.session)
    && (forall d :: d in ix.active ==> Key(d, ix.active[d]) in ix.cycles)
  }

  ghost predicate IsLive(ix: Index, id: nat) {
    exists k :: k in ix.cycles && ix.cycles[k].id == id
  }

  /** Each cycle ever made is in exactly one place: live under one key, cancelled, or finished. */
  ghost predicate Accounted(ix: Index) {
    && (forall k :: k in ix.cycles ==>
          ix.cycles[k].id < ix.nextId && ix.cycles[k].id !in ix.cancelled && ix.cycles[k].id !in ix.finished)
    && (forall k, l :: k in ix.cycles && l in ix.cycles && k != l ==> ix.cycles[k].id != ix.cycles[l].id)
    && (forall id: nat :: id < ix.nextId ==> IsLive(ix, id) || id in ix.cancelled || id in ix.finished)
    && ix.cancelled !! ix.finished
    && (forall id :: id in ix.cancelled || id in ix.finished ==> id < ix.nextId)
  }

  ghost predicate Inv(ix: Index) {
    Consistent(ix) && Accounted(ix)
  }

  lemma {:induction false} StillLive(ix: Index, t: Index, id: nat, gone: set<Key>)
    requires IsLive(ix, id)
    requires forall k :: k in ix.cycles && k !in gone ==> k in t.cycles && t.cycles[k].id == ix.cycles[k].id
    ensures IsLive(t, id) || exists k :: k in gone && k in ix.cycles && ix.cycles[k].id == id
  {
    var k :| k in ix.cycles && ix.cycles[k].id == id;
    if k !in gone {
      assert k in t.cycles && t.cycles[k].id == id;
    }
  }

  lemma {:induction false} CancelKeeps(ix: Index, key: Key)
    requires Inv(ix)
    ensures Inv(Cancel(ix, key)) && Inv(Finish(ix, key))
  {
    if key in ix.cycles {
      RemovalKeeps(ix, Cancel(ix, key), key);
      RemovalKeeps(ix, Finish(ix, key), key);
    }
  }

  lemma {:induction false} RemovalKeeps(ix: Index, t: Index, key: Key)
    requires Inv(ix) && key in ix.cycles
    requires t.cycles == ix.cycles - {key} && t.active == ClearActive(ix, key).active && t.nextId == ix.nextId
    requires var id := ix.cycles[key].id;
      || (t.cancelled == ix.cancelled + {id} && t.finished == ix.finished)
      || (t.cancelled == ix.cancelled && t.finished == ix.finished + {id})
    ensures Inv(t)
  {
    forall id: nat | id < t.nextId
      ensures IsLive(t, id) || id in t.cancelled || id in t.finished
    {
      if IsLive(ix, id) {
        StillLive(ix, t, id, {key});
      }
    }
  }

  lemma {:induction false} CancelAllKeeps(ix: Index, keys: set<Key>)
    requires Inv(ix) && keys <= ix.cycles.Keys
    requires forall k :: k in ix.cycles && (exists l :: l in keys && l.device == k.device) ==> k in keys
    ensures Inv(CancelAll(ix, keys))
  {
    var t := CancelAll(ix, keys);
    forall id: nat | id < t.nextId
      ensures IsLive(t, id) || id in t.cancelled || id in t.finished
    {
      if IsLive(ix, id) {
        StillLive(ix, t, id, keys);
      }
    }
    forall d | d in t.active
      ensures Key(d, t.active[d]) in t.cycles
    {
      var k := Key(d, ix.active[d]);
      assert k in ix.cycles && k.device == d;
    }
  }

  /** A cycle's counters and flags change; the index does not. */
  lemma {:induction false} UpdateKeeps(ix: Index, key: Key, c: Cycle)
    requires Inv(ix) && key in ix.cycles
    requires c.id == ix.cycles[key].id && c.device == key.device && c.session == key.session
    ensures Inv(ix.(cycles := ix.cycles[key := c]))
  {
    UpdateConsistent(ix, key, c);
    UpdateAccounted(ix, key, c);
    hide Consistent, Accounted;
  }

  lemma {:induction false} UpdateConsistent(ix: Index, key: Key, c: Cycle)
    requires Consistent(ix) && key in ix.cycles && c.device == key.device && c.session == key.session
    ensures Consistent(ix.(cycles := ix.cycles[key := c]))
  {
  }

  lemma {:induction false} UpdateAccounted(ix: Index, key: Key, c: Cycle)
    requires Accounted(ix) && key in ix.cycles && c.id == ix.cycles[key].id
    ensures Accounted(ix.(cycles := ix.cycles[key := c]))
  {
    var t := ix.(cycles := ix.cycles[key := c]);
    forall id: nat | id < t.nextId
      ensures IsLive(t, id) || id in t.cancelled || id in t.finished
    {
      if IsLive(ix, id) {
        StillLive(ix, t, id, {});
      }
    }
  }

  lemma {:induction false} ClearKeeps(ix: Index, device: string)
    requires Inv(ix)
    ensures Inv(ix.(active := ix.active - {device}))
  {
    var t := ix.(active := ix.active - {device});
    forall id: nat | id < t.nextId
      ensures IsLive(t, id) || id in t.cancelled || id in t.finished
    {
      if IsLive(ix, id) {
        StillLive(ix, t, id, {});
      }
    }
  }

  function WithCycle(ix: Index, key: Key, c: Cycle): Index {
    ix.(cycles := ix.cycles[key := c], active := ix.active[key.device := key.session], nextId := ix.nextId + 1)
  }

  lemma {:induction false} DownKeeps(ix: Index, session: nat, device: string, canMake: bool)
    requires Inv(ix)
    ensures Inv(Down(ix, session, device, canMake))
  {
    var key, c := Key(device, session), Cycle(ix.nextId, device, session, 0, false, false, false, 0);
    ClearKeeps(ix, device);
    if key !in ix.cycles {
      NewCycleConsistent(ix, key, c);
      NewCycleAccounted(ix, key, c);
      assert Inv(WithCycle(ix, key, c));
    }
    hide Inv;
  }

  lemma {:induction false} NewCycleConsistent(ix: Index, key: Key, c: Cycle)
    requires Consistent(ix) && c.device == key.device && c.session == key.session
    ensures Consistent(WithCycle(ix, key, c))
  {
  }

  lemma {:induction false} NewCycleAccounted(ix: Index, key: Key, c: Cycle)
    requires Accounted(ix) && key !in ix.cycles && c.id == ix.nextId
    ensures Accounted(WithCycle(ix, key, c))
  {
    var t := WithCycle(ix, key, c);
    forall id: nat | id < t.nextId
      ensures IsLive(t, id) || id in t.cancelled || id in t.finished
    {
      if id == ix.nextId {
        assert t.cycles[key].id == id;
      } else if IsLive(ix, id) {
        StillLive(ix, t, id, {});
      }
    }
  }

  lemma {:induction false} UpKeeps(ix: Index, device: string, long: bool, hold: bool)
    requires Inv(ix)
    ensures Inv(Up(ix, device, long, hold))
  {
    if device in ix.active {
      var key := Key(device, ix.active[device]);
      OwnKey(ix, key);
      hide Inv, Cancel;
      CancelKeeps(ix, key);
      if key in ix.cycles {
        var waits := AwaitingEnd(ix.cycles[key]);
        UpdateKeeps(ix, key, waits);
        ClearKeeps(ix.(cycles := ix.cycles[key := waits]), device);
      }
    }
  }

  lemma {:induction false} OwnKey(ix: Index, key: Key)
    requires Inv(ix)
    ensures key in ix.cycles ==> ix.cycles[key].device == key.device && ix.cycles[key].session == key.session
  {
  }

  lemma {:induction false} SendFinalKeeps(ix: Index, key: Key, long: bool, startOk: bool)
    requires Inv(ix)
    ensures Inv(SendFinal(ix, key, long, startOk))
  {
    CancelKeeps(ix, key);
    if key in ix.cycles {
      var c := ix.cycles[key];
      UpdateKeeps(ix, key, Closed(c).(sentFinal := true, asrStarted := true));
    }
    hide Inv, Cancel;
  }

  lemma {:induction false} EndKeeps(ix: Index, key: Key, long: bool, startOk: bool)
    requires Inv(ix)
    ensures Inv(End(ix, key, long, startOk))
  {
    if key in ix.cycles {
      UpdateKeeps(ix, key, Closed(ix.cycles[key]));
      SendFinalKeeps(ix.(cycles := ix.cycles[key := Closed(ix.cycles[key])]), key, long, startOk);
    }
    hide Inv, SendFinal;
  }

  lemma {:induction false} AudioKeeps(ix: Index, key: Key, long: bool, startOk: bool)
    requires Inv(ix)
    ensures Inv(Audio(ix, key, long, startOk))
  {
    OwnKey(ix, key);
    hide Inv, Cancel;
    CancelKeeps(ix, key);
    if key in ix.cycles {
      hide Fed;
      var c := ix.cycles[key];
      UpdateKeeps(ix, key, Fed(c, !c.asrStarted && long && !c.waiting));
    }
  }

  lemma {:induction false} ResetKeeps(ix: Index)
    requires Inv(ix)
    ensures Inv(CancelAll(ix, ix.cycles.Keys).(active := map[]))
  {
    CancelAllKeeps(ix, ix.cycles.Keys);
    ActiveForgotten(CancelAll(ix, ix.cycles.Keys));
  }

  lemma {:induction false} ActiveForgotten(ix: Index)
    requires Inv(ix)
    ensures Inv(ix.(active := map[]))
  {
    var t := ix.(active := map[]);
    forall id: nat | id < t.nextId
      ensures IsLive(t, id) || id in t.cancelled || id in t.finished
    {
      if IsLive(ix, id) {
        StillLive(ix, t, id, {});
      }
    }
  }

  lemma {:induction false} StepKeeps(ix: Index, e: Event)
    requires Inv(ix)
    ensures Inv(Step(ix, e))
  {
    hide Inv, Down, Up, Audio, End, SendFinal, Finish, Cancel, CancelAll;
    match e {
      case ButtonDown(offered, device, canMake) =>
        if offered.Some? {
          DownKeeps(ix, offered.value, device, canMake);
        }
      case ButtonUp(device, long, hold) => UpKeeps(ix, device, long, hold);
      case SecondaryClick(device) =>
        if device in ix.active {
          CancelKeeps(ix, Key(device, ix.active[device]));
        } else {
          CancelAllKeeps(ix, KeysOf(ix, device));
        }
      case AudioFrame(key, long, startOk) => AudioKeeps(ix, key, long, startOk);
      case EndFrame(key, long, startOk) => EndKeeps(ix, key, long, startOk);
      case EndTimeout(key, _, long, startOk) => SendFinalKeeps(ix, key, long, startOk);
      case AsrFinal(key) => CancelKeeps(ix, key);
      case AsrError(key) => CancelKeeps(ix, key);
      case ConnectionsChanged(connected) => CancelAllKeeps(ix, KeysLost(ix, connected));
      case Reset => ResetKeeps(ix);
    }
  }

  /** Over every run: the active entries name live cycles stored under their own keys, and every cycle that
      is gone without having finished has had its recognizer cancelled. */
  lemma {:induction false} IndexStaysConsistent(ix: Index, events: seq<Event>)
    requires Inv(ix)
    ensures Inv(Run(ix, events))
    ensures var t := Run(ix, events);
      forall id: nat :: id < t.nextId && !IsLive(t, id) && id !in t.finished ==> id in t.cancelled
    decreases events
  {
    if events != [] {
      StepKeeps(ix, events[0]);
      hide Step, Inv;
      IndexStaysConsistent(Step(ix, events[0]), events[1..]);
    }
  }

  lemma {:induction false} EmptyKeeps()
    ensures Inv(Empty())
  {
  }
}
