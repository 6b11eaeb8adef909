/** Who owns a session while tabs move between windows. */
module TabDragProofs {
  import opened Wrappers
  import opened TabDragModel

  /** Every session is in at most one place, and ended at most once. */
  ghost predicate Owned(s: Windows) {
    && (forall sid: Sid, p, q :: p != Main && q != Main && At(s, sid, p) && At(s, sid, q) ==> p == q)
    && (forall w :: w in s.detached ==> NoDup(s.detached[w]))
    && (forall d :: d in s.inflight ==> NoDup(s.inflight[d].sids))
    && NoDup(s.ended)
    && (DragPending(s) ==> NoDup(s.pending.value.sids))
  }

  /** An accepted drag is cancelled by nobody, and in flight, done or failed: one of the three. */
  predicate DragsSettledOnce(s: Windows) {
    && s.accepted == s.inflight.Keys + s.done + s.failed
    && s.inflight.Keys !! s.done && s.inflight.Keys !! s.failed && s.done !! s.failed
    && s.accepted !! s.cancelled
    && s.accepted + s.cancelled <= s.started
    && (DragPending(s) ==> s.pending.value.dragID in s.started && s.pending.value.dragID !in s.accepted + s.cancelled)
  }

  /** The guard accepting needs: the pending drag's sessions are still with its source, or main's. */
  ghost predicate AcceptSafe(s: Windows) {
    DragPending(s) && !StillMoving(s, s.pending.value.sids) ==>
      forall x :: x in s.pending.value.sids ==> At(s, x, Main) || At(s, x, Win(s.pending.value.source))
  }

  /** The sessions an action moves, and where to. */
  function Moved(s: Windows, act: Action): seq<Sid> {
    match act
    case ActDetachAt(_, sids) => sids
    case ActAccept => if DragPending(s) && !StillMoving(s, s.pending.value.sids) then s.pending.value.sids else []
    case ActDone(d) => if d in s.inflight then s.inflight[d].sids else []
    case ActFailed(d) => if d in s.inflight then s.inflight[d].sids else []
    case ActCloseTake(w) => ListOf(s, w)
    case ActSelfTake(w) => ListOf(s, w)
    case ActSendMove(_, _, sids) => sids
    case _ => []
  }

  function Dest(s: Windows, act: Action): Place {
    match act
    case ActDetachAt(name, _) => Win(name)
    case ActAccept => if s.pending.Some? then InFlight(s.pending.value.dragID) else Main
    case ActFailed(d) =>
      if d in s.inflight && s.inflight[d].source in s.detached then Win(s.inflight[d].source) else Ended
    case ActCloseTake(_) => Ended
    case ActSendMove(_, target, _) => if target == "main" then Main else Win(target)
    case _ => Main
  }

  lemma AcceptMoves(s: Windows, act: Action, sid: Sid, p: Place)
    requires Owned(s) && DragsSettledOnce(s) && Enabled(s, act) && p != Main && act == ActAccept && AcceptSafe(s)
    ensures At(Apply(s, act), sid, p) <==> if sid in Moved(s, act) then p == Dest(s, act) else At(s, sid, p)
  {
    var before := At(s, sid, p);
  }

  lemma SettleMoves(s: Windows, act: Action, sid: Sid, p: Place)
    requires Owned(s) && DragsSettledOnce(s) && Enabled(s, act) && p != Main && (act.ActDone? || act.ActFailed?)
    ensures At(Apply(s, act), sid, p) <==> if sid in Moved(s, act) then p == Dest(s, act) else At(s, sid, p)
  {
    var before := At(s, sid, p);
    if act.d in s.inflight && sid in s.inflight[act.d].sids { assert At(s, sid, InFlight(act.d)); }
  }

  lemma CloseMoves(s: Windows, act: Action, sid: Sid, p: Place)
    requires Owned(s) && DragsSettledOnce(s) && Enabled(s, act) && p != Main && (act.ActCloseTake? || act.ActSelfTake?)
    ensures At(Apply(s, act), sid, p) <==> if sid in Moved(s, act) then p == Dest(s, act) else At(s, sid, p)
  {
    var before := At(s, sid, p);
    if sid in ListOf(s, act.w) { assert At(s, sid, Win(act.w)); }
  }

  lemma SendMoves(s: Windows, act: Action, sid: Sid, p: Place)
    requires Owned(s) && DragsSettledOnce(s) && Enabled(s, act) && p != Main && act.ActSendMove?
    ensures At(Apply(s, act), sid, p) <==> if sid in Moved(s, act) then p == Dest(s, act) else At(s, sid, p)
  {
    var before := At(s, sid, p);
    if sid in act.sids { assert At(s, sid, if act.caller == "main" then Main else Win(act.caller)); }
  }

  /** Every action moves exactly its own sessions, to exactly one place, and no other. In
      particular a closing window ends the sessions in its list and none that is in flight. */
  lemma MovesExactly(s: Windows, act: Action, sid: Sid, p: Place)
    requires Owned(s) && DragsSettledOnce(s) && Enabled(s, act) && (act == ActAccept ==> AcceptSafe(s)) && p != Main
    ensures At(Apply(s, act), sid, p) <==> if sid in Moved(s, act) then p == Dest(s, act) else At(s, sid, p)
  {
    match act
    case ActAccept => AcceptMoves(s, act, sid, p);
    case ActDone(_) => SettleMoves(s, act, sid, p);
    case ActFailed(_) => SettleMoves(s, act, sid, p);
    case ActCloseTake(_) => CloseMoves(s, act, sid, p);
    case ActSelfTake(_) => CloseMoves(s, act, sid, p);
    case ActSendMove(_, _, _) => SendMoves(s, act, sid, p);
    case _ =>
  }

  lemma MainHoldsTheRest(s: Windows, x: Sid)
    requires !At(s, x, Main)
    ensures exists q :: q != Main && At(s, x, q)
  {
    if x in s.ended {
      assert At(s, x, Ended);
    } else if d :| d in s.inflight && x in s.inflight[d].sids {
      assert At(s, x, InFlight(d));
    } else {
      var w :| w in s.detached && x in s.detached[w];
      assert At(s, x, Win(w));
    }
  }

  /** The same for what main holds: it gains and loses exactly what moved. */
  lemma MainMovesExactly(s: Windows, act: Action, sid: Sid)
    requires Owned(s) && DragsSettledOnce(s) && Enabled(s, act) && (act == ActAccept ==> AcceptSafe(s))
    ensures At(Apply(s, act), sid, Main) <==> if sid in Moved(s, act) then Dest(s, act) == Main else At(s, sid, Main)
  {
    var s' := Apply(s, act);
    if !At(s', sid, Main) {
      MainHoldsTheRest(s', sid);
      var q :| q != Main && At(s', sid, q);
      MovesExactly(s, act, sid, q);
    } else if sid in Moved(s, act) {
      if Dest(s, act) != Main { MovesExactly(s, act, sid, Dest(s, act)); }
    } else if !At(s, sid, Main) {
      MainHoldsTheRest(s, sid);
      var q :| q != Main && At(s, sid, q);
      MovesExactly(s, act, sid, q);
    }
  }

  lemma NoDupAppend(xs: seq<Sid>, ys: seq<Sid>)
    requires NoDup(xs) && NoDup(ys) && forall x :: x in xs ==> x !in ys
    ensures NoDup(xs + ys)
  {
    forall i, j | 0 <= i < j < |xs + ys| ensures (xs + ys)[i] != (xs + ys)[j] {
      if i < |xs| <= j { assert xs[i] in xs && ys[j - |xs|] in ys; }
    }
  }

  lemma ListsStayDistinct(s: Windows, act: Action)
    requires Owned(s) && DragsSettledOnce(s) && Enabled(s, act)
    ensures var s' := Apply(s, act);
      && (forall w :: w in s'.detached ==> NoDup(s'.detached[w]))
      && (forall d :: d in s'.inflight ==> NoDup(s'.inflight[d].sids))
      && NoDup(s'.ended)
      && (DragPending(s') ==> NoDup(s'.pending.value.sids))
  {
    match act
    case ActFailed(d) =>
      if d in s.inflight {
        var f := s.inflight[d];
        forall x | x in f.sids ensures x !in s.ended && (f.source in s.detached ==> x !in s.detached[f.source]) {
          assert At(s, x, InFlight(d)) && (At(s, x, Ended) ==> InFlight(d) == Ended) &&
              (At(s, x, Win(f.source)) ==> InFlight(d) == Win(f.source));
        }
        NoDupAppend(s.ended, f.sids);
        if f.source in s.detached { NoDupAppend(s.detached[f.source], f.sids); }
      }
    case ActCloseTake(w) =>
      forall x | x in ListOf(s, w) ensures x !in s.ended {
        assert At(s, x, Win(w)) && (At(s, x, Ended) ==> Win(w) == Ended);
      }
      NoDupAppend(s.ended, ListOf(s, w));
    case ActSendMove(caller, target, sids) =>
      if sids != [] && target != "main" {
        var left := ListOf(SendMove(s, caller, "main", sids), target);
        forall x | x in left ensures x !in sids {
          assert target in s.detached && At(s, x, Win(target));
          assert x in sids ==> At(s, x, if caller == "main" then Main else Win(caller));
        }
        NoDupAppend(left, sids);
      }
    case _ =>
  }

  /** Every step, an unguarded accept included, leaves each accepted drag uncancelled and in flight,
      done or failed: exactly one of the three. */
  lemma SettledStep(s: Windows, act: Action)
    requires DragsSettledOnce(s) && Enabled(s, act)
    ensures DragsSettledOnce(Apply(s, act))
  {
  }

  /** One step keeps every session in one place; an accept needs its guard. */
  lemma OwnedStep(s: Windows, act: Action)
    requires Owned(s) && DragsSettledOnce(s) && Enabled(s, act) && (act == ActAccept ==> AcceptSafe(s))
    ensures Owned(Apply(s, act)) && DragsSettledOnce(Apply(s, act))
  {
    var s' := Apply(s, act);
    SettledStep(s, act);
    ListsStayDistinct(s, act);
    forall sid: Sid, p, q | p != Main && q != Main && At(s', sid, p) && At(s', sid, q) ensures p == q {
      MovesExactly(s, act, sid, p);
      MovesExactly(s, act, sid, q);
    }
  }

  /** Accepting a drag keeps every session in one place exactly when its guard holds. */
  lemma AcceptKeepsOwnershipExactly(s: Windows)
    requires Owned(s) && DragsSettledOnce(s)
    ensures Owned(Accept(s)) <==> AcceptSafe(s)
  {
    if AcceptSafe(s) {
      OwnedStep(s, ActAccept);
    } else {
      var p := s.pending.value;
      var x :| x in p.sids && !At(s, x, Main) && !At(s, x, Win(p.source));
      MainHoldsTheRest(s, x);
      var q :| q != Main && At(s, x, q);
      forall d | d in s.inflight ensures x !in s.inflight[d].sids {
        assert !Overlap(p.sids, s.inflight[d].sids);
      }
      assert At(Accept(s), x, InFlight(p.dragID)) && At(Accept(s), x, q);
    }
  }

  // ---- when the guard holds by itself ----

  /** The transfer left its source window behind, unless that window is closing. */
  predicate FlightsHaveSource(s: Windows) {
    forall d :: d in s.inflight && s.inflight[d].sids != [] ==>
        s.inflight[d].source in s.detached || s.inflight[d].source in s.closing
  }

  ghost predicate HeldForDrag(s: Windows, x: Sid, source: string) {
    At(s, x, Main) || At(s, x, Win(source)) || InFlightFrom(s, x, source)
  }

  /** The pending drag is of an open window, and its sessions are there, in flight from there, or main's. */
  ghost predicate DragCurrent(s: Windows) {
    DragPending(s) ==>
      var p := s.pending.value;
      && p.source !in s.closing
      && (p.sids != [] ==> p.source in s.detached)
      && forall x :: x in p.sids ==> HeldForDrag(s, x, p.source)
  }

  /** Cuts across the pending drag: sends or detaches its sessions, or takes its source's slot
      before the drag is dropped. */
  predicate CutsAcross(s: Windows, act: Action) {
    DragPending(s) &&
    match act
    case ActDetachAt(_, sids) => Overlap(sids, s.pending.value.sids)
    case ActSendMove(_, _, sids) => Overlap(sids, s.pending.value.sids)
    case ActSelfTake(w) => w == s.pending.value.source
    case _ => false
  }

  ghost predicate Quiet(s: Windows) {
    Owned(s) && DragsSettledOnce(s) && FlightsHaveSource(s) && DragCurrent(s)
  }

  lemma QuietIsSafe(s: Windows)
    requires Quiet(s)
    ensures AcceptSafe(s)
  {
    if DragPending(s) && !StillMoving(s, s.pending.value.sids) {
      forall x | x in s.pending.value.sids ensures At(s, x, Main) || At(s, x, Win(s.pending.value.source)) {
        assert forall f :: f in s.inflight && x in s.inflight[f].sids ==>
            Overlap(s.pending.value.sids, s.inflight[f].sids);
      }
    }
  }

  lemma HeldForDragKept(s: Windows, act: Action, x: Sid)
    requires Quiet(s) && Enabled(s, act) && !CutsAcross(s, act)
    requires DragPending(s) && Apply(s, act).pending == s.pending && x in s.pending.value.sids
    ensures HeldForDrag(Apply(s, act), x, s.pending.value.source)
  {
    var s' := Apply(s, act);
    var source := s.pending.value.source;
    if x in Moved(s, act) {
      assert Overlap(Moved(s, act), s.pending.value.sids);
      if act.ActCloseTake? || act.ActSelfTake? { assert At(s, x, Win(act.w)); }
      assert forall f :: f in s.inflight && x in s.inflight[f].sids ==> At(s, x, InFlight(f));
      assert act.ActDone? || act.ActFailed?;
      assert At(s, x, InFlight(act.d));
      if Dest(s, act) == Main { MainMovesExactly(s, act, x); } else { MovesExactly(s, act, x, Dest(s, act)); }
    } else if At(s, x, Main) {
      MainMovesExactly(s, act, x);
    } else if At(s, x, Win(source)) {
      MovesExactly(s, act, x, Win(source));
    } else {
      var f :| f in s.inflight && s.inflight[f].source == source && x in s.inflight[f].sids;
      assert f in s'.inflight && s'.inflight[f] == s.inflight[f];
    }
  }

  lemma FlightsKeepSource(s: Windows, act: Action)
    requires Quiet(s) && Enabled(s, act) && !CutsAcross(s, act)
    ensures FlightsHaveSource(Apply(s, act))
  {
  }

  lemma QuietStep(s: Windows, act: Action)
    requires Quiet(s) && Enabled(s, act) && !CutsAcross(s, act)
    ensures Quiet(Apply(s, act))
  {
    QuietIsSafe(s);
    OwnedStep(s, act);
    FlightsKeepSource(s, act);
    var s' := Apply(s, act);
    if DragPending(s') {
      var p := s'.pending.value;
      if act.ActStart? && p.sids != [] { assert p.sids[0] in p.sids && HeldForDrag(s, p.sids[0], p.source); }
      forall x | x in p.sids ensures HeldForDrag(s', x, p.source) {
        if s'.pending == s.pending { HeldForDragKept(s, act, x); }
      }
    }
  }

  // ---- runs ----

  ghost predicate Legal(s: Windows, acts: seq<Action>)
    decreases |acts|
  {
    acts == [] || (Enabled(s, acts[0]) && Legal(Apply(s, acts[0]), acts[1..]))
  }

  function After(s: Windows, acts: seq<Action>): Windows
    decreases |acts|
  {
    if acts == [] then s else After(Apply(s, acts[0]), acts[1..])
  }

  /** Settled is settled: a drag that is done, failed or cancelled stays so, and an accepted one is never
      cancelled later nor a cancelled one accepted. */
  ghost predicate SettledForGood(s: Windows, s': Windows) {
    && s.done <= s'.done && s.failed <= s'.failed && s.cancelled <= s'.cancelled && s.accepted <= s'.accepted
    && DragsSettledOnce(s')
  }

  lemma {:induction false} SettledRun(s: Windows, acts: seq<Action>)
    requires DragsSettledOnce(s) && Legal(s, acts)
    ensures SettledForGood(s, After(s, acts))
    decreases |acts|
  {
    if acts != [] {
      SettledStep(s, acts[0]);
      SettledRun(Apply(s, acts[0]), acts[1..]);
    }
  }

  /** In every run, drags crossing or not: accept and cancel exclude each other per drag id, every
      accepted drag is in flight, done or failed and only one of them, and what it is settled as is final. */
  lemma DragsSettleOnce(acts: seq<Action>, more: seq<Action>)
    requires Legal(Init, acts) && Legal(After(Init, acts), more)
    ensures DragsSettledOnce(After(Init, acts))
    ensures SettledForGood(After(Init, acts), After(After(Init, acts), more))
  {
    SettledRun(Init, acts);
    SettledRun(After(Init, acts), more);
  }

  ghost predicate AcceptsGuarded(s: Windows, acts: seq<Action>)
    decreases |acts|
  {
    acts == [] || ((acts[0] == ActAccept ==> AcceptSafe(s)) && AcceptsGuarded(Apply(s, acts[0]), acts[1..]))
  }

  ghost predicate NothingCutsAcross(s: Windows, acts: seq<Action>)
    decreases |acts|
  {
    acts == [] || (!CutsAcross(s, acts[0]) && NothingCutsAcross(Apply(s, acts[0]), acts[1..]))
  }

  /** Every state of the run from s on has each session in one place. */
  ghost predicate OwnedThroughout(s: Windows, acts: seq<Action>)
    decreases |acts|
  {
    Owned(s) && (acts == [] || OwnedThroughout(Apply(s, acts[0]), acts[1..]))
  }

  lemma {:induction false} OwnedExactlyWhenGuarded(s: Windows, acts: seq<Action>)
    requires Owned(s) && DragsSettledOnce(s) && Legal(s, acts)
    ensures OwnedThroughout(s, acts) <==> AcceptsGuarded(s, acts)
    decreases |acts|
  {
    if acts != [] {
      var s' := Apply(s, acts[0]);
      SettledStep(s, acts[0]);
      if acts[0] == ActAccept && !AcceptSafe(s) {
        AcceptKeepsOwnershipExactly(s);
        assert !Owned(s');
      } else {
        OwnedStep(s, acts[0]);
        OwnedExactlyWhenGuarded(s', acts[1..]);
      }
    }
  }

  lemma {:induction false} OwnedRun(s: Windows, acts: seq<Action>)
    requires Owned(s) && DragsSettledOnce(s) && Legal(s, acts) && AcceptsGuarded(s, acts)
    ensures Owned(After(s, acts)) && DragsSettledOnce(After(s, acts))
    decreases |acts|
  {
    if acts != [] {
      OwnedStep(s, acts[0]);
      OwnedRun(Apply(s, acts[0]), acts[1..]);
    }
  }

  /** Each session has one owner in every state of a run exactly when all its accepts meet the guard;
      each drag has one end in any case. */
  lemma SingleOwner(acts: seq<Action>)
    requires Legal(Init, acts)
    ensures OwnedThroughout(Init, acts) <==> AcceptsGuarded(Init, acts)
    ensures AcceptsGuarded(Init, acts) ==> Owned(After(Init, acts))
    ensures DragsSettledOnce(After(Init, acts))
  {
    OwnedExactlyWhenGuarded(Init, acts);
    SettledRun(Init, acts);
    if AcceptsGuarded(Init, acts) { OwnedRun(Init, acts); }
  }

  /** The guard holds at every accept of a run in which nothing cuts across a pending drag. */
  lemma {:induction false} UndisturbedDragsAreGuarded(s: Windows, acts: seq<Action>)
    requires Quiet(s) && Legal(s, acts) && NothingCutsAcross(s, acts)
    ensures AcceptsGuarded(s, acts) && Quiet(After(s, acts))
    decreases |acts|
  {
    if acts != [] {
      QuietIsSafe(s);
      QuietStep(s, acts[0]);
      UndisturbedDragsAreGuarded(Apply(s, acts[0]), acts[1..]);
    }
  }

  /** From the start, a run in which nothing cuts across a pending drag keeps every session in one
      place, in every state. */
  lemma UndisturbedRunsAreOwned(acts: seq<Action>)
    requires Legal(Init, acts) && NothingCutsAcross(Init, acts)
    ensures OwnedThroughout(Init, acts)
  {
    UndisturbedDragsAreGuarded(Init, acts);
    OwnedExactlyWhenGuarded(Init, acts);
  }

  // ---- windows that are gone ----

  /** No session sits with a window whose close has taken its sessions already. */
  predicate GoneHoldNothing(s: Windows) {
    forall w :: w in s.gone ==> w !in s.detached
  }

  /** A tab sent to such a window: the target was looked up before its close took its sessions. */
  predicate SendsToGone(s: Windows, act: Action) {
    act.ActSendMove? && act.sids != [] && act.target != "main" && act.target in s.gone
  }

  lemma GoneExactly(s: Windows, act: Action)
    requires GoneHoldNothing(s) && Enabled(s, act)
    ensures GoneHoldNothing(Apply(s, act)) <==> !SendsToGone(s, act)
  {
    if act.ActSendMove? && act.sids != [] {
      assert act.sids[0] in act.sids && At(s, act.sids[0], if act.caller == "main" then Main else Win(act.caller));
    }
    if SendsToGone(s, act) { assert act.target in Apply(s, act).gone && act.target in Apply(s, act).detached; }
  }

  ghost predicate NeverSendsToGone(s: Windows, acts: seq<Action>)
    decreases |acts|
  {
    acts == [] || (!SendsToGone(s, acts[0]) && NeverSendsToGone(Apply(s, acts[0]), acts[1..]))
  }

  ghost predicate GoneHoldNothingThroughout(s: Windows, acts: seq<Action>)
    decreases |acts|
  {
    GoneHoldNothing(s) && (acts == [] || GoneHoldNothingThroughout(Apply(s, acts[0]), acts[1..]))
  }

  /** In every state of a run no session sits with a window that is gone, exactly when no tab is sent
      to one. */
  lemma {:induction false} GoneRunExactly(s: Windows, acts: seq<Action>)
    requires GoneHoldNothing(s) && Legal(s, acts)
    ensures GoneHoldNothingThroughout(s, acts) <==> NeverSendsToGone(s, acts)
    decreases |acts|
  {
    if acts != [] {
      GoneExactly(s, acts[0]);
      if !SendsToGone(s, acts[0]) { GoneRunExactly(Apply(s, acts[0]), acts[1..]); }
    }
  }

  const ClosedW := Windows(map[], None, map[], ["a"], {"w"}, {"w"}, {}, {}, {}, {}, {})

  const OpenW := Init.(detached := map["w" := ["a"]])

  lemma OpensW()
    ensures Enabled(Init, ActDetachAt("w", ["a"])) && Apply(Init, ActDetachAt("w", ["a"])) == OpenW
  {
    assert Init.gone - {"w"} == {} && Init.closing - {"w"} == {};
  }

  lemma ClosesW()
    ensures Enabled(OpenW, ActCloseDrop("w"))
    ensures
      var s := Apply(OpenW, ActCloseDrop("w"));
      Enabled(s, ActCloseTake("w")) && Apply(s, ActCloseTake("w")) == ClosedW
  {
    var s := Apply(OpenW, ActCloseDrop("w"));
    assert s == OpenW.(closing := {"w"});
    var t := Apply(s, ActCloseTake("w"));
    assert t.detached == map[] && t.ended == ["a"] && t.gone == {"w"};
  }

  lemma CloseW(rest: seq<Action>)
    requires Legal(ClosedW, rest)
    ensures var acts := [ActDetachAt("w", ["a"])] + ([ActCloseDrop("w")] + ([ActCloseTake("w")] + rest));
      Legal(Init, acts) && After(Init, acts) == After(ClosedW, rest)
  {
    OpensW();
    ClosesW();
    hide Enabled, Apply;
    var s := Apply(OpenW, ActCloseDrop("w"));
    Prepend(s, ActCloseTake("w"), rest);
    Prepend(OpenW, ActCloseDrop("w"), [ActCloseTake("w")] + rest);
    Prepend(Init, ActDetachAt("w", ["a"]), [ActCloseDrop("w")] + ([ActCloseTake("w")] + rest));
  }

  lemma SendToClosedW()
    ensures var s := After(ClosedW, [ActSendMove("main", "w", ["b"])]);
      Legal(ClosedW, [ActSendMove("main", "w", ["b"])]) && "w" in s.gone && At(s, "b", Win("w")) && s.ended == ["a"]
  {
    var s := Apply(ClosedW, ActSendMove("main", "w", ["b"]));
    assert s.detached["w"] == ["b"];
    Prepend(ClosedW, ActSendMove("main", "w", ["b"]), []);
    assert [ActSendMove("main", "w", ["b"])] + [] == [ActSendMove("main", "w", ["b"])];
  }

  /** A tab of main is sent to a window just after its close has taken its sessions: the session sits
      with a window that is gone. */
  lemma SentToGone()
    ensures var send := ActSendMove("main", "w", ["b"]);
      var acts := [ActDetachAt("w", ["a"]), ActCloseDrop("w"), ActCloseTake("w"), send];
      && Legal(Init, acts) && "w" in After(Init, acts).gone
      && At(After(Init, acts), "b", Win("w")) && After(Init, acts).ended == ["a"]
  {
    hide Legal, After, Apply, At;
    var send := ActSendMove("main", "w", ["b"]);
    SendToClosedW();
    CloseW([send]);
    assert [ActDetachAt("w", ["a"])] + ([ActCloseDrop("w")] + ([ActCloseTake("w")] + [send])) ==
           [ActDetachAt("w", ["a"]), ActCloseDrop("w"), ActCloseTake("w"), send];
  }

  // ---- runs that cut across a pending drag ----

  lemma Prepend(s: Windows, act: Action, acts: seq<Action>)
    requires Enabled(s, act) && Legal(Apply(s, act), acts)
    ensures Legal(s, [act] + acts) && After(s, [act] + acts) == After(Apply(s, act), acts)
  {
    assert ([act] + acts)[1..] == acts;
  }

  /** The same tab dragged again while its transfer is under way: window w shows it, session a is
      in flight, and the second drag is pending. */
  const DraggedTwice := Windows(map["w" := []], Some(Payload("d2", "w", ["a"])), map["d1" := Flight("w", ["a"])],
                                [], {}, {}, {"d1", "d2"}, {"d1"}, {}, {}, {})

  lemma DraggedTwiceIsReachable()
    ensures var acts := [ActDetachAt("w", ["a"]), ActStart("w", ["a"], "d1"), ActAccept, ActStart("w", ["a"], "d2")];
      Legal(Init, acts) && After(Init, acts) == DraggedTwice
  {
    var s1 := Apply(Init, ActDetachAt("w", ["a"]));
    var s2 := Apply(s1, ActStart("w", ["a"], "d1"));
    assert s2.started == {"d1"} && At(s2, "a", Win("w"));
    var s3 := Apply(s2, ActAccept);
    assert s3.detached == map["w" := []] && s3.inflight == map["d1" := Flight("w", ["a"])];
    assert Enabled(s3, ActStart("w", ["a"], "d2")) by { assert "d1" in s3.inflight && "a" in s3.inflight["d1"].sids; }
    assert Apply(s3, ActStart("w", ["a"], "d2")) == DraggedTwice;
    Prepend(s3, ActStart("w", ["a"], "d2"), []);
    Prepend(s2, ActAccept, [ActStart("w", ["a"], "d2")]);
    Prepend(s1, ActStart("w", ["a"], "d1"), [ActAccept, ActStart("w", ["a"], "d2")]);
    Prepend(Init, ActDetachAt("w", ["a"]), [ActStart("w", ["a"], "d1"), ActAccept, ActStart("w", ["a"], "d2")]);
  }

  /** The first transfer done, main moves the session to a new window, and the second drag is
      accepted: closing that window ends the session while it is in flight. */
  lemma ClosingEndsInFlight()
    ensures var acts := [ActDone("d1"), ActDetachAt("x", ["a"]), ActAccept, ActCloseDrop("x"), ActCloseTake("x")];
      Legal(DraggedTwice, acts) && At(After(DraggedTwice, acts), "a", Ended) &&
          At(After(DraggedTwice, acts), "a", InFlight("d2"))
  {
    var s1 := Apply(DraggedTwice, ActDone("d1"));
    var s2 := Apply(s1, ActDetachAt("x", ["a"]));
    assert s1.detached == map["w" := []] && s1.inflight == map[] && At(s1, "a", Main);
    assert s2.detached == map["w" := [], "x" := ["a"]] && s2.inflight == map[] && s2.ended == [];
    var s3 := Apply(s2, ActAccept);
    AcceptedWhileDetached(s2, s3);
    ClosedWhileInFlight(s3);
    Prepend(s2, ActAccept, [ActCloseDrop("x"), ActCloseTake("x")]);
    Prepend(s1, ActDetachAt("x", ["a"]), [ActAccept, ActCloseDrop("x"), ActCloseTake("x")]);
    Prepend(DraggedTwice, ActDone("d1"), [ActDetachAt("x", ["a"]), ActAccept, ActCloseDrop("x"), ActCloseTake("x")]);
  }

  lemma AcceptedWhileDetached(s: Windows, s': Windows)
    requires s.detached == map["w" := [], "x" := ["a"]] && s.inflight == map[] && s.ended == []
    requires s.pending == Some(Payload("d2", "w", ["a"])) && s' == Apply(s, ActAccept)
    ensures s'.inflight == map["d2" := Flight("w", ["a"])] && "x" in s'.detached && s'.detached["x"] == ["a"] &&
        s'.ended == [] && s'.pending == None
  {
  }

  lemma ClosedWhileInFlight(s: Windows)
    requires s.inflight == map["d2" := Flight("w", ["a"])] && "x" in s.detached && s.detached["x"] == ["a"] &&
        s.ended == [] && s.pending == None
    ensures var acts := [ActCloseDrop("x"), ActCloseTake("x")];
      Legal(s, acts) && After(s, acts).ended == ["a"] && After(s, acts).inflight == s.inflight
  {
    var s1 := Apply(s, ActCloseDrop("x"));
    assert Apply(s1, ActCloseTake("x")).ended == ["a"];
    Prepend(s1, ActCloseTake("x"), []);
    Prepend(s, ActCloseDrop("x"), [ActCloseTake("x")]);
  }

  /** A redocked window gives up its slot before its drag: the first transfer fails in between and
      ends the session, the second one is accepted and fails too - the session ends twice. */
  lemma EndedTwice()
    ensures var acts := [ActSelfTake("w"), ActFailed("d1"), ActAccept, ActFailed("d2")];
      Legal(DraggedTwice, acts) && After(DraggedTwice, acts).ended == ["a", "a"]
  {
    var s1 := Apply(DraggedTwice, ActSelfTake("w"));
    var s2 := Apply(s1, ActFailed("d1"));
    assert s2.ended == ["a"] && s2.inflight == map[];
    var s3 := Apply(s2, ActAccept);
    assert s3.inflight == map["d2" := Flight("w", ["a"])] && s3.detached == map[];
    var s4 := Apply(s3, ActFailed("d2"));
    Prepend(s3, ActFailed("d2"), []);
    Prepend(s2, ActAccept, [ActFailed("d2")]);
    Prepend(s1, ActFailed("d1"), [ActAccept, ActFailed("d2")]);
    Prepend(DraggedTwice, ActSelfTake("w"), [ActFailed("d1"), ActAccept, ActFailed("d2")]);
  }
}
