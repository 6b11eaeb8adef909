/** The idle linger's timers over every interleaving: when one is armed, stopped, fired and done. */
module JumpPoolTimers {
  import opened Wrappers
  import opened JumpPoolModel
  import opened JumpPoolProofs

  predicate ArmedTimer(s: Pool, t: nat) {
    t < |s.timers| && s.timers[t].state == Armed
  }

  /** An armed timer is the one its entry knows, and nobody rides that entry. */
  ghost predicate TimerOk(s: Pool, t: nat) {
    ArmedTimer(s, t) ==>
      s.timers[t].entry < |s.ents| && s.ents[s.timers[t].entry].timer == Some(t) && s.ents[s.timers[t].entry].refs == 0
  }

  ghost predicate TimersOk(s: Pool) {
    forall t :: 0 <= t < |s.timers| ==> TimerOk(s, t)
  }

  /** Acquirer a is the last rider of an entry in the pool, and leaves. */
  predicate LastRiderLeaves(s: Pool, act: Action) {
    act.ActRelease? && CanRelease(s, act.a) &&
    var e := s.acq[act.a].pc.entry;
    s.ents[e].refs == 1 && InPool(s, e)
  }

  /** A waiter joins timer t's idle entry, its connection has ended, or stopAll closes it. */
  predicate Stops(s: Pool, act: Action, t: nat)
    requires t < |s.timers|
  {
    var e := s.timers[t].entry;
    && ArmedTimer(s, t) && e < |s.ents|
    && match act
       case ActJoin(a) => At(s, a, Wait(e)) && s.ents[e].phase == Usable && InPool(s, e)
       case ActDropEnded(x) => x == e && InPool(s, e)
       case ActClose(c) => c == Stopper(e)
       case _ => false
  }

  function StateAfter(s: Pool, act: Action, t: nat): TimerState
    requires t < |s.timers|
  {
    if act == ActFire(t) then Fired
    else if act == ActRunLinger(t) then Done
    else if Stops(s, act, t) then Stopped
    else s.timers[t].state
  }

  /** Timers before and after a step: t has moved as it should. */
  predicate Moves(s: Pool, act: Action, t: nat)
    requires Enabled(s, act) && t < |s.timers|
  {
    t < |Apply(s, act).timers| && Apply(s, act).timers[t] == Timer(s.timers[t].entry, StateAfter(s, act, t))
  }

  lemma EntryTimer(s: Pool, e: nat)
    requires Inv(s) && e < |s.ents|
    ensures s.ents[e].timer.Some? ==> s.ents[e].timer.value < |s.timers| && s.timers[s.ents[e].timer.value].entry == e
  {
    assert EntryOk(s, e);
  }

  lemma RiderCounts(s: Pool, a: nat)
    requires Inv(s) && CanRelease(s, a)
    ensures s.ents[s.acq[a].pc.entry].refs > 0
  {
    assert EntryOk(s, s.acq[a].pc.entry);
    assert a in s.ents[s.acq[a].pc.entry].riders;
  }

  lemma TimerEntry(s: Pool, t: nat)
    requires Inv(s) && t < |s.timers|
    ensures s.timers[t].entry < |s.ents| && s.ents[s.timers[t].entry].phase == Usable
  {
  }

  lemma JoinMoves(s: Pool, a: nat, t: nat)
    requires Inv(s) && TimersOk(s) && CanJoin(s, a) && t < |s.timers|
    ensures Moves(s, ActJoin(a), t)
  {
    EntryTimer(s, s.acq[a].pc.entry);
    assert TimerOk(s, t);
    hide Inv, TimersOk;
  }

  lemma ReleaseMoves(s: Pool, a: nat, t: nat)
    requires Inv(s) && TimersOk(s) && CanRelease(s, a) && t < |s.timers|
    ensures Moves(s, ActRelease(a), t)
  {
    RiderCounts(s, a);
    EntryTimer(s, s.acq[a].pc.entry);
    if s.ents[s.acq[a].pc.entry].timer.Some? { assert TimerOk(s, s.ents[s.acq[a].pc.entry].timer.value); }
    hide Inv, TimersOk;
  }

  lemma DropMoves(s: Pool, e: nat, t: nat)
    requires Inv(s) && TimersOk(s) && WatchIs(s, e, Ended) && t < |s.timers|
    ensures Moves(s, ActDropEnded(e), t)
  {
    EntryTimer(s, e);
    assert TimerOk(s, t);
    hide Inv, TimersOk;
  }

  lemma CloseMoves(s: Pool, c: Closer, t: nat)
    requires Inv(s) && TimersOk(s) && CanClose(s, c) && t < |s.timers|
    ensures Moves(s, ActClose(c), t)
  {
    EntryTimer(s, c.entry);
    assert TimerOk(s, t);
    hide Inv, TimersOk;
  }

  /** A step's effect on every timer: it fires or is run by its own step, is stopped exactly when its idle
      entry is joined, ends, or is closed by stopAll, and nothing else touches it. */
  lemma TimerMovesExactly(s: Pool, act: Action, t: nat)
    requires Inv(s) && TimersOk(s) && Enabled(s, act) && t < |s.timers|
    ensures Moves(s, act, t)
  {
    match act
    case ActJoin(a) => JoinMoves(s, a, t);
    case ActRelease(a) => ReleaseMoves(s, a, t);
    case ActDropEnded(e) => DropMoves(s, e, t);
    case ActClose(c) => CloseMoves(s, c, t);
    case _ => hide Inv, TimersOk;
  }

  /** A timer is started exactly when the last rider leaves an entry in the pool, for that entry. */
  lemma TimerStartsExactly(s: Pool, act: Action)
    requires Inv(s) && Enabled(s, act)
    ensures |Apply(s, act).timers| == |s.timers| + if LastRiderLeaves(s, act) then 1 else 0
    ensures LastRiderLeaves(s, act) ==> Apply(s, act).timers[|s.timers|] == Timer(s.acq[act.a].pc.entry, Armed)
  {
    if act.ActRelease? { RiderCounts(s, act.a); }
    hide Inv;
  }

  /** The entry of a timer that stays armed stays as it is. */
  lemma ArmedEntryKept(s: Pool, act: Action, t: nat)
    requires Inv(s) && TimersOk(s) && Enabled(s, act) && t < |s.timers|
    requires ArmedTimer(s, t) && !Stops(s, act, t)
    ensures var e := s.timers[t].entry;
      e < |Apply(s, act).ents| && Apply(s, act).ents[e].timer == Some(t) && Apply(s, act).ents[e].refs == 0
  {
    assert TimerOk(s, t);
    TimerEntry(s, t);
    if act.ActRelease? { RiderCounts(s, act.a); }
    if act.ActFinishBuild? { assert AcquirerOk(s, act.a); }
    hide Inv, TimersOk;
  }

  lemma TimersStep(s: Pool, act: Action)
    requires Inv(s) && TimersOk(s) && Enabled(s, act)
    ensures TimersOk(Apply(s, act))
  {
    var s' := Apply(s, act);
    TimerStartsExactly(s, act);
    forall t | 0 <= t < |s'.timers| ensures TimerOk(s', t) {
      if t < |s.timers| {
        TimerMovesExactly(s, act, t);
        if ArmedTimer(s', t) { ArmedEntryKept(s, act, t); }
      } else {
        StartedOk(s, act);
      }
    }
  }

  lemma StartedOk(s: Pool, act: Action)
    requires Inv(s) && Enabled(s, act) && LastRiderLeaves(s, act)
    ensures |Apply(s, act).timers| == |s.timers| + 1 && TimerOk(Apply(s, act), |s.timers|)
  {
    hide Inv;
  }

  lemma {:induction false} TimersRun(s: Pool, acts: seq<Action>)
    requires Inv(s) && TimersOk(s) && Legal(s, acts)
    ensures TimersOk(After(s, acts))
    decreases |acts|
  {
    if acts != [] {
      InvStep(s, acts[0]);
      TimersStep(s, acts[0]);
      TimersRun(Apply(s, acts[0]), acts[1..]);
    }
  }

  /** In every run an armed timer is its entry's own, the only one, and nobody rides that entry: whoever
      joins an idle chain stops its linger. */
  lemma NoTimerWhileRidden(acts: seq<Action>, t: nat, a: nat)
    requires Legal(Init, acts) && ArmedTimer(After(Init, acts), t)
    ensures var s := After(Init, acts); var e := s.timers[t].entry;
      e < |s.ents| && s.ents[e].timer == Some(t) && s.ents[e].riders == {} && !At(s, a, Ride(e))
  {
    var s := After(Init, acts);
    InvRun(Init, acts);
    TimersRun(Init, acts);
    assert TimerOk(s, t) && EntryOk(s, s.timers[t].entry);
  }

  /** A stopped timer stays stopped: it never fires, and its callback never runs. */
  lemma {:induction false} StoppedForGood(s: Pool, acts: seq<Action>, t: nat)
    requires Inv(s) && TimersOk(s) && Legal(s, acts)
    requires t < |s.timers| && (s.timers[t].state == Stopped || s.timers[t].state == Done)
    ensures t < |After(s, acts).timers| && After(s, acts).timers[t] == s.timers[t]
    ensures ActFire(t) !in acts && ActRunLinger(t) !in acts
    decreases |acts|
  {
    if acts != [] {
      var s' := Apply(s, acts[0]);
      assert acts[0] != ActFire(t) && acts[0] != ActRunLinger(t);
      InvStep(s, acts[0]);
      TimersStep(s, acts[0]);
      TimerMovesExactly(s, acts[0], t);
      hide Inv, TimersOk, Apply, Enabled, Moves;
      StoppedForGood(s', acts[1..], t);
    }
  }

  /** A ride on an idle chain takes its linger away for good: in no later run does a timer that was armed
      for the chain fire. Left alone again, it lingers anew. */
  lemma ReacquireCancelsLinger(s: Pool, a: nat, acts: seq<Action>, t: nat)
    requires Inv(s) && TimersOk(s) && CanJoin(s, a) && ArmedTimer(s, t) && At(s, a, Wait(s.timers[t].entry))
    requires At(Join(s, a), a, Ride(s.timers[t].entry)) && Legal(Join(s, a), acts)
    ensures ActFire(t) !in acts && ActRunLinger(t) !in acts
  {
    TimerMovesExactly(s, ActJoin(a), t);
    InvStep(s, ActJoin(a));
    TimersStep(s, ActJoin(a));
    RideMeansJoined(s, a);
    StoppedForGood(Join(s, a), acts, t);
  }

  lemma RideMeansJoined(s: Pool, a: nat)
    requires CanJoin(s, a) && At(Join(s, a), a, Ride(s.acq[a].pc.entry))
    ensures s.ents[s.acq[a].pc.entry].phase == Usable && InPool(s, s.acq[a].pc.entry)
  {
  }

  // ---- a linger callback that comes late ----

  /** A linger callback closes an entry whose own linger still runs. */
  predicate ClosesEarly(s: Pool, t: nat) {
    && TimerIs(s, t, Fired) && InPool(s, s.timers[t].entry) && s.ents[s.timers[t].entry].refs == 0
    && exists u :: 0 <= u < |s.timers| && ArmedTimer(s, u) && s.timers[u].entry == s.timers[t].entry
  }

  /** A callback that has fired cannot be stopped, and does not look whether it is still the entry's timer:
      one that waits for the lock while a rider comes and goes closes the entry at once. It closes an idle
      entry early exactly when another timer has taken its place and not fired. */
  lemma ClosesEarlyExactly(s: Pool, t: nat)
    requires Inv(s) && TimersOk(s) && TimerIs(s, t, Fired)
    requires InPool(s, s.timers[t].entry) && s.ents[s.timers[t].entry].refs == 0
    ensures var own := s.ents[s.timers[t].entry].timer;
      ClosesEarly(s, t) <==> own.Some? && own != Some(t) && !TimerIs(s, own.value, Fired)
    ensures s.timers[t].entry !in RunLinger(s, t).entries.Values
  {
    var e := s.timers[t].entry;
    var own := s.ents[e].timer;
    TimerEntry(s, t);
    assert EntryOk(s, e);
    if own.Some? && own != Some(t) && !TimerIs(s, own.value, Fired) {
      assert ArmedTimer(s, own.value) && s.timers[own.value].entry == e;
    }
    if ClosesEarly(s, t) {
      var u :| 0 <= u < |s.timers| && ArmedTimer(s, u) && s.timers[u].entry == e;
      assert TimerOk(s, u);
    }
  }

  /** A chain left idle; its linger fires just before the second acquirer joins and leaves. */
  const LateCallback := [
    ActEnter(0, "k"), ActLookUp(0), ActFinishBuild(0, Built), ActEnter(1, "k"), ActLookUp(1),
    ActRelease(0), ActFire(0), ActJoin(1), ActRelease(1)]

  const Opened := Pool(
    map["k" := 0], [Entry("k", 0, Usable, 1, {0}, None, Watching, false, 0)],
    map[0 := Acquirer("k", Ride(0)), 1 := Acquirer("k", Wait(0))], [], {}, 0)

  const Lingering := Pool(
    map["k" := 0], [Entry("k", 0, Usable, 0, {}, Some(1), Watching, false, 0)],
    map[0 := Acquirer("k", Left(0)), 1 := Acquirer("k", Left(0))],
    [Timer(0, Fired), Timer(0, Armed)], {}, 0)

  const Ridden := Opened.(acq := map[0 := Acquirer("k", Ride(0))])

  const CallbackRuns := Opened.(
    ents := [Entry("k", 0, Usable, 0, {}, Some(0), Watching, false, 0)],
    acq := map[0 := Acquirer("k", Left(0)), 1 := Acquirer("k", Wait(0))], timers := [Timer(0, Fired)])

  lemma {:induction false} RunOn(s: Pool, acts: seq<Action>, more: seq<Action>)
    requires Legal(s, acts) && Legal(After(s, acts), more)
    ensures Legal(s, acts + more) && After(s, acts + more) == After(After(s, acts), more)
    decreases |acts|
  {
    hide Apply, Enabled;
    if acts == [] {
      assert acts + more == more;
    } else {
      RunOn(Apply(s, acts[0]), acts[1..], more);
      assert (acts + more)[1..] == acts[1..] + more;
    }
  }

  lemma Two(s: Pool, a: Action, b: Action)
    requires Enabled(s, a) && Enabled(Apply(s, a), b)
    ensures Legal(s, [a, b]) && After(s, [a, b]) == Apply(Apply(s, a), b)
  {
    hide Apply, Enabled;
    Prepend(Apply(s, a), b, []);
    Prepend(s, a, [b]);
    assert [a] + [b] == [a, b];
  }

  lemma Builds()
    ensures var a := LateCallback; Legal(Init, a[..2] + [a[2]]) && After(Init, a[..2] + [a[2]]) == Ridden
  {
    var a := LateCallback;
    var s1 := Apply(Init, a[0]);
    var s2 := Apply(s1, a[1]);
    Two(Init, a[0], a[1]);
    assert a[..2] == [a[0], a[1]];
    var s3 := Apply(s2, a[2]);
    assert s3.ents[0].riders == {0} && s3 == Ridden;
    Prepend(s2, a[2], []);
    RunOn(Init, a[..2], [a[2]]);
  }

  lemma Waits()
    ensures Legal(Ridden, LateCallback[3..5]) && After(Ridden, LateCallback[3..5]) == Opened
  {
    var a := LateCallback;
    assert Apply(Apply(Ridden, a[3]), a[4]) == Opened;
    Two(Ridden, a[3], a[4]);
    assert a[3..5] == [a[3], a[4]];
  }

  lemma Fires()
    ensures Legal(Opened, LateCallback[5..7]) && After(Opened, LateCallback[5..7]) == CallbackRuns
  {
    var a := LateCallback;
    var s1 := Apply(Opened, a[5]);
    assert s1.ents[0].riders == {};
    assert Apply(s1, a[6]) == CallbackRuns;
    Two(Opened, a[5], a[6]);
    assert a[5..7] == [a[5], a[6]];
  }

  lemma Lingers()
    ensures Legal(CallbackRuns, LateCallback[7..9]) && After(CallbackRuns, LateCallback[7..9]) == Lingering
  {
    var a := LateCallback;
    var s1 := Apply(CallbackRuns, a[7]);
    assert s1.ents[0].riders == {1};
    var s2 := Apply(s1, a[8]);
    assert s2.ents[0].riders == {} && s2 == Lingering;
    Two(CallbackRuns, a[7], a[8]);
    assert a[7..9] == [a[7], a[8]];
  }

  lemma RunsToLingering()
    ensures Legal(Init, LateCallback) && After(Init, LateCallback) == Lingering
  {
    hide Legal, After;
    var a := LateCallback;
    Builds();
    Waits();
    Fires();
    Lingers();
    RunOn(Opened, a[5..7], a[7..9]);
    RunOn(Ridden, a[3..5], a[5..7] + a[7..9]);
    RunOn(Init, a[..2] + [a[2]], a[3..5] + (a[5..7] + a[7..9]));
    assert a[..2] + [a[2]] + (a[3..5] + (a[5..7] + a[7..9])) == a;
  }

  /** It happens: the chain whose second linger has only begun is closed by the first one's callback. */
  lemma LateCallbackClosesEarly()
    ensures Legal(Init, LateCallback) && ClosesEarly(After(Init, LateCallback), 0)
    ensures Linger(0, 0) in RunLinger(After(Init, LateCallback), 0).closing
  {
    RunsToLingering();
    var u := 1;
    assert ArmedTimer(Lingering, u) && Lingering.timers[u].entry == Lingering.timers[0].entry;
  }
}
