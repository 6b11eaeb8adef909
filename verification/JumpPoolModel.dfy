/**
 The shared bastion pool as a transition system: one action per critical section of the
 pool lock, and one per event that happens outside it (a build returning, a timer firing,
 a connection ending, a close after unlock). Every interleaving is a sequence of actions.
 */
module JumpPoolModel {
  import opened Wrappers

  /** What a build of the jump chain returned to its caller. */
  datatype BuildResult = Built | NoJump | BuildFailed(msg: string, contextDone: bool)

  /** Orphaned: the chain was built, but the entry had left the pool meanwhile. */
  datatype Phase = Building | Usable | Failed(err: Option<string>, cancelled: bool) | Orphaned

  /** Ended: the connection is over and the watcher waits for the lock. */
  datatype Watch = NotWatched | Watching | Ended | Finished

  /** spent: the close-once guard was used. cleanups: calls of the chain's cleanup so far. */
  datatype Entry = Entry(
    key: string, builder: nat, phase: Phase, refs: int, riders: set<nat>,
    timer: Option<nat>, watch: Watch, spent: bool, cleanups: nat)

  /** Fired: the callback runs and waits for the lock; stopping it has no effect any more. */
  datatype TimerState = Armed | Fired | Stopped | Done
  datatype Timer = Timer(entry: nat, state: TimerState)

  /** Someone who has released the lock and is about to close an entry. */
  datatype Closer = Linger(entry: nat, timer: nat) | Watcher(entry: nat) | Stopper(entry: nat)

  datatype Return = FromBuild(entry: nat) | ContextDone
  datatype Pc = Start | Build(entry: nat) | Wait(entry: nat) | Ride(entry: nat) | Left(entry: nat)
              | Orphan(entry: nat) | Returned(ret: Return)
  datatype Acquirer = Acquirer(key: string, pc: Pc)

  datatype Pool = Pool(
    entries: map<string, nat>, ents: seq<Entry>, acq: map<nat, Acquirer>,
    timers: seq<Timer>, closing: set<Closer>, stops: nat)

  const Init := Pool(map[], [], map[], [], {}, 0)

  predicate InPool(s: Pool, e: nat) {
    e < |s.ents| && s.ents[e].key in s.entries && s.entries[s.ents[e].key] == e
  }

  predicate At(s: Pool, a: nat, pc: Pc) {
    a in s.acq && s.acq[a].pc == pc
  }

  function Goto(s: Pool, a: nat, pc: Pc): map<nat, Acquirer>
    requires a in s.acq
  {
    s.acq[a := s.acq[a].(pc := pc)]
  }

  function StopTimer(timers: seq<Timer>, t: Option<nat>): (r: seq<Timer>)
    ensures |r| == |timers|
  {
    if t.Some? && t.value < |timers| && timers[t.value].state == Armed
    then timers[t.value := timers[t.value].(state := Stopped)]
    else timers
  }

  // ---- acquire ----

  function Enter(s: Pool, a: nat, key: string): Pool {
    s.(acq := s.acq[a := Acquirer(key, Start)])
  }

  /** First look at the key: wait for its entry, or create one and build it. */
  function LookUp(s: Pool, a: nat): Pool
    requires At(s, a, Start)
  {
    var key := s.acq[a].key;
    if key in s.entries then s.(acq := Goto(s, a, Wait(s.entries[key])))
    else
      var e := |s.ents|;
      s.(entries := s.entries[key := e],
         ents := s.ents + [Entry(key, a, Building, 0, {}, None, NotWatched, false, 0)],
         acq := Goto(s, a, Build(e)))
  }

  predicate CanFinish(s: Pool, a: nat) {
    a in s.acq && s.acq[a].pc.Build? && s.acq[a].pc.entry < |s.ents|
  }

  /** The build is over. A failed one drops whatever the key holds now. */
  function FinishBuild(s: Pool, a: nat, r: BuildResult): Pool
    requires CanFinish(s, a)
  {
    var e := s.acq[a].pc.entry;
    var x := s.ents[e];
    if !r.Built? then
      var phase := if r.NoJump? then Failed(None, false) else Failed(Some(r.msg), r.contextDone);
      s.(ents := s.ents[e := x.(phase := phase)], entries := s.entries - {x.key},
         acq := Goto(s, a, Returned(FromBuild(e))))
    else if !InPool(s, e) then
      s.(ents := s.ents[e := x.(phase := Orphaned)], acq := Goto(s, a, Orphan(e)))
    else
      s.(ents := s.ents[e := x.(phase := Usable, watch := Watching, refs := x.refs + 1, riders := x.riders + {a})],
         acq := Goto(s, a, Ride(e)))
  }

  predicate CanCleanUp(s: Pool, a: nat) {
    a in s.acq && s.acq[a].pc.Orphan? && s.acq[a].pc.entry < |s.ents|
  }

  /** The builder that found its entry gone closes the chain itself. */
  function CleanUpOrphan(s: Pool, a: nat): Pool
    requires CanCleanUp(s, a)
  {
    var e := s.acq[a].pc.entry;
    s.(ents := s.ents[e := s.ents[e].(cleanups := s.ents[e].cleanups + 1)],
       acq := Goto(s, a, Returned(FromBuild(e))))
  }

  predicate CanJoin(s: Pool, a: nat) {
    && a in s.acq && s.acq[a].pc.Wait? && s.acq[a].pc.entry < |s.ents|
    && s.ents[s.acq[a].pc.entry].phase != Building
  }

  /** A waiter after the build it waited for is over. */
  function Join(s: Pool, a: nat): Pool
    requires CanJoin(s, a)
  {
    var e := s.acq[a].pc.entry;
    var x := s.ents[e];
    if x.phase != Usable then
      if x.phase.Failed? && x.phase.cancelled then s.(acq := Goto(s, a, Start))
      else s.(acq := Goto(s, a, Returned(FromBuild(e))))
    else if !InPool(s, e) then s.(acq := Goto(s, a, Start))
    else
      s.(timers := StopTimer(s.timers, x.timer),
         ents := s.ents[e := x.(timer := None, refs := x.refs + 1, riders := x.riders + {a})],
         acq := Goto(s, a, Ride(e)))
  }

  /** The waiter's own context is over. */
  function GiveUp(s: Pool, a: nat): Pool
    requires a in s.acq
  {
    s.(acq := Goto(s, a, Returned(ContextDone)))
  }

  // ---- release and the linger ----

  predicate CanRelease(s: Pool, a: nat) {
    a in s.acq && s.acq[a].pc.Ride? && s.acq[a].pc.entry < |s.ents|
  }

  function Release(s: Pool, a: nat): Pool
    requires CanRelease(s, a)
  {
    var e := s.acq[a].pc.entry;
    var x := s.ents[e].(refs := s.ents[e].refs - 1, riders := s.ents[e].riders - {a});
    var acq := Goto(s, a, Left(e));
    if x.refs > 0 || !InPool(s, e) then s.(ents := s.ents[e := x], acq := acq)
    else
      s.(ents := s.ents[e := x.(timer := Some(|s.timers|))], acq := acq,
         timers := StopTimer(s.timers, x.timer) + [Timer(e, Armed)])
  }

  predicate TimerIs(s: Pool, t: nat, state: TimerState) {
    t < |s.timers| && s.timers[t].state == state && s.timers[t].entry < |s.ents|
  }

  function Fire(s: Pool, t: nat): Pool
    requires TimerIs(s, t, Armed)
  {
    s.(timers := s.timers[t := s.timers[t].(state := Fired)])
  }

  function RunLinger(s: Pool, t: nat): Pool
    requires TimerIs(s, t, Fired)
  {
    var e := s.timers[t].entry;
    var timers := s.timers[t := s.timers[t].(state := Done)];
    if s.ents[e].refs > 0 || !InPool(s, e) then s.(timers := timers)
    else s.(timers := timers, entries := s.entries - {s.ents[e].key}, closing := s.closing + {Linger(e, t)})
  }

  // ---- watch, stopAll, close ----

  predicate WatchIs(s: Pool, e: nat, w: Watch) {
    e < |s.ents| && s.ents[e].watch == w
  }

  function EndConnection(s: Pool, e: nat): Pool
    requires WatchIs(s, e, Watching)
  {
    s.(ents := s.ents[e := s.ents[e].(watch := Ended)])
  }

  function DropEnded(s: Pool, e: nat): Pool
    requires WatchIs(s, e, Ended)
  {
    var x := s.ents[e].(watch := Finished);
    var s' := s.(closing := s.closing + {Watcher(e)});
    if InPool(s, e) then
      s'.(entries := s.entries - {x.key}, timers := StopTimer(s.timers, x.timer),
          ents := s.ents[e := x.(timer := None)])
    else s'.(ents := s.ents[e := x])
  }

  function StopAll(s: Pool): Pool {
    s.(closing := s.closing + set k | k in s.entries :: Stopper(s.entries[k]), entries := map[], stops := s.stops + 1)
  }

  predicate CanClose(s: Pool, c: Closer) {
    c in s.closing && c.entry < |s.ents|
  }

  /** jumpEntry.close after unlock: a chain the entry never got has no cleanup to run. */
  function CloseEntry(s: Pool, c: Closer): Pool
    requires CanClose(s, c)
  {
    var x := s.ents[c.entry];
    s.(closing := s.closing - {c},
       timers := if c.Stopper? then StopTimer(s.timers, x.timer) else s.timers,
       ents := s.ents[c.entry :=
         if x.spent then x
         else x.(spent := true, cleanups := x.cleanups + if x.phase == Usable then 1 else 0)])
  }

  // ---- runs ----

  datatype Action =
    | ActEnter(a: nat, key: string)
    | ActLookUp(a: nat)
    | ActFinishBuild(a: nat, r: BuildResult)
    | ActCleanUpOrphan(a: nat)
    | ActJoin(a: nat)
    | ActGiveUp(a: nat)
    | ActRelease(a: nat)
    | ActFire(t: nat)
    | ActRunLinger(t: nat)
    | ActEndConnection(e: nat)
    | ActDropEnded(e: nat)
    | ActStopAll
    | ActClose(c: Closer)

  predicate Enabled(s: Pool, act: Action) {
    match act
    case ActEnter(a, key) => a !in s.acq && key != ""
    case ActLookUp(a) => At(s, a, Start)
    case ActFinishBuild(a, r) => CanFinish(s, a)
    case ActCleanUpOrphan(a) => CanCleanUp(s, a)
    case ActJoin(a) => CanJoin(s, a)
    case ActGiveUp(a) => a in s.acq && s.acq[a].pc.Wait?
    case ActRelease(a) => CanRelease(s, a)
    case ActFire(t) => TimerIs(s, t, Armed)
    case ActRunLinger(t) => TimerIs(s, t, Fired)
    case ActEndConnection(e) => WatchIs(s, e, Watching)
    case ActDropEnded(e) => WatchIs(s, e, Ended)
    case ActStopAll => true
    case ActClose(c) => CanClose(s, c)
  }

  function Apply(s: Pool, act: Action): Pool
    requires Enabled(s, act)
  {
    match act
    case ActEnter(a, key) => Enter(s, a, key)
    case ActLookUp(a) => LookUp(s, a)
    case ActFinishBuild(a, r) => FinishBuild(s, a, r)
    case ActCleanUpOrphan(a) => CleanUpOrphan(s, a)
    case ActJoin(a) => Join(s, a)
    case ActGiveUp(a) => GiveUp(s, a)
    case ActRelease(a) => Release(s, a)
    case ActFire(t) => Fire(s, t)
    case ActRunLinger(t) => RunLinger(s, t)
    case ActEndConnection(e) => EndConnection(s, e)
    case ActDropEnded(e) => DropEnded(s, e)
    case ActStopAll => StopAll(s)
    case ActClose(c) => CloseEntry(s, c)
  }

  /** acts is an interleaving that can happen from s. */
  predicate Legal(s: Pool, acts: seq<Action>)
    decreases |acts|
  {
    acts == [] || (Enabled(s, acts[0]) && Legal(Apply(s, acts[0]), acts[1..]))
  }

  function After(s: Pool, acts: seq<Action>): Pool
    requires Legal(s, acts)
    decreases |acts|
  {
    if acts == [] then s else After(Apply(s, acts[0]), acts[1..])
  }
}
