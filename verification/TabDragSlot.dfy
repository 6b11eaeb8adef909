/**
 The pending slot: what puts a tab there, what takes it out, and what the one who accepts it gets,
 over runs. TabDragProofs is about where the sessions are; this is about which tab is handed over.
 */
module TabDragSlot {
  import opened Wrappers
  import opened TabDragModel
  import opened TabDragProofs

  /** The action is about the pending payload p: it takes it, cancels it, or closes the window it is
      dragged out of. A tab sent through the menu has no drag of a window to lose. */
  predicate Withdraws(p: Payload, act: Action) {
    match act
    case ActAccept => true
    case ActCancel(d) => d == p.dragID
    case ActCloseDrop(w) => p.dragID != "" && w == p.source
    case ActSelfDrop(w) => p.dragID != "" && w == p.source
    case _ => false
  }

  /** A payload in the slot is replaced by the next tab dragged or sent, withdrawn, or stays as it is. */
  lemma SlotExactly(s: Windows, act: Action)
    ensures Apply(s, act).pending ==
      match act
      case ActStart(source, sids, d) => Some(Payload(d, source, sids))
      case ActSendStash(sids) => Some(Payload("", "", sids))
      case _ => if s.pending.Some? && Withdraws(s.pending.value, act) then None else s.pending
  {
  }

  /** Cancelling any other drag changes nothing at all. */
  lemma OtherCancelChangesNothing(s: Windows, d: string)
    requires s.pending.Some? ==> s.pending.value.dragID != d
    ensures Apply(s, ActCancel(d)) == s
  {
  }

  /** No action of the run touches the payload p in the slot. */
  predicate LeavesAlone(p: Payload, acts: seq<Action>) {
    forall i :: 0 <= i < |acts| ==> !acts[i].ActStart? && !acts[i].ActSendStash? && !Withdraws(p, acts[i])
  }

  lemma {:induction false} SlotKept(s: Windows, acts: seq<Action>)
    requires s.pending.Some? && LeavesAlone(s.pending.value, acts)
    ensures After(s, acts).pending == s.pending
    decreases |acts|
  {
    if acts != [] {
      SlotExactly(s, acts[0]);
      assert !acts[0].ActStart? && !acts[0].ActSendStash? && !Withdraws(s.pending.value, acts[0]);
      hide Apply;
      SlotKept(Apply(s, acts[0]), acts[1..]);
    }
  }

  /** What an accept makes of a pending drag d of source: the slot is empty, and unless a session of it is
      in flight already the transfer is on and the source's list is without the drag's sessions. */
  ghost predicate AcceptedFrom(s: Windows, s': Windows, source: string, sids: seq<Sid>, d: string) {
    && s'.pending == None && s'.ended == s.ended
    && if exists f, x :: f in s.inflight && x in s.inflight[f].sids && x in sids then
         s'.inflight == s.inflight && s'.detached == s.detached
       else
         && s'.inflight == s.inflight[d := Flight(source, sids)]
         && s'.detached.Keys == s.detached.Keys
         && (forall w :: w in s.detached && w != source ==> s'.detached[w] == s.detached[w])
         && (source in s.detached ==>
             forall x :: x in s'.detached[source] <==> x in s.detached[source] && x !in sids)
  }

  lemma AcceptTakes(s: Windows, source: string, sids: seq<Sid>, d: string)
    requires s.pending == Some(Payload(d, source, sids)) && d != ""
    ensures AcceptedFrom(s, Apply(s, ActAccept), source, sids, d)
  {
    assert forall f :: f in s.inflight ==>
        (Overlap(sids, s.inflight[f].sids) <==> exists x :: x in s.inflight[f].sids && x in sids);
  }

  /** A started drag is the one the main window's drop gets, whatever came before and whatever happens in
      between - late cancels of earlier drags of the same tab included - but for a newer tab in the slot,
      another accept, its own cancel, or the close of its source. */
  lemma DragIsHandedOver(s: Windows, source: string, sids: seq<Sid>, d: string, acts: seq<Action>)
    requires d != "" && LeavesAlone(Payload(d, source, sids), acts)
    ensures var s' := After(Apply(s, ActStart(source, sids, d)), acts);
      && s'.pending == Some(Payload(d, source, sids))
      && AcceptedFrom(s', Apply(s', ActAccept), source, sids, d)
  {
    var s1 := Apply(s, ActStart(source, sids, d));
    SlotExactly(s, ActStart(source, sids, d));
    SlotKept(s1, acts);
    AcceptTakes(After(s1, acts), source, sids, d);
  }

  // ---- a sent tab ----

  /** No action of the run moves one of these sessions. */
  ghost predicate LeavesSessions(s: Windows, sids: seq<Sid>, acts: seq<Action>)
    decreases |acts|
  {
    acts == [] ||
    ((forall x :: x in sids ==> x !in Moved(s, acts[0])) && LeavesSessions(Apply(s, acts[0]), sids, acts[1..]))
  }

  lemma PlaceKept(s: Windows, act: Action, x: Sid, p: Place)
    requires Owned(s) && DragsSettledOnce(s) && Enabled(s, act) && (act == ActAccept ==> AcceptSafe(s))
    requires At(s, x, p) && x !in Moved(s, act)
    ensures At(Apply(s, act), x, p)
  {
    hide Owned, DragsSettledOnce, Enabled, AcceptSafe, At, Moved, Dest, Apply;
    if p == Main { MainMovesExactly(s, act, x); } else { MovesExactly(s, act, x, p); }
  }

  lemma {:induction false} SessionsStay(s: Windows, sids: seq<Sid>, p: Place, acts: seq<Action>)
    requires Owned(s) && DragsSettledOnce(s) && Legal(s, acts) && AcceptsGuarded(s, acts)
    requires LeavesSessions(s, sids, acts) && forall x :: x in sids ==> At(s, x, p)
    ensures forall x :: x in sids ==> At(After(s, acts), x, p)
    decreases |acts|
  {
    if acts != [] {
      var s' := Apply(s, acts[0]);
      forall x | x in sids ensures At(s', x, p) { PlaceKept(s, acts[0], x, p); }
      OwnedStep(s, acts[0]);
      hide Owned, DragsSettledOnce, Enabled, At, Apply;
      SessionsStay(s', sids, p, acts[1..]);
    }
  }

  lemma SendsTo(s: Windows, caller: string, target: string, sids: seq<Sid>)
    requires Owned(s) && DragsSettledOnce(s) && Enabled(s, ActSendMove(caller, target, sids))
    ensures forall x :: x in sids ==>
      At(Apply(s, ActSendMove(caller, target, sids)), x, if target == "main" then Main else Win(target))
  {
    forall x | x in sids
      ensures At(Apply(s, ActSendMove(caller, target, sids)), x, if target == "main" then Main else Win(target))
    {
      if target == "main" {
        MainMovesExactly(s, ActSendMove(caller, target, sids), x);
      } else {
        MovesExactly(s, ActSendMove(caller, target, sids), x, Win(target));
      }
    }
  }

  /** A tab sent to another window is what that window's accept gets, and its sessions are there before and
      after: the accept moves nothing. Closing windows and cancelled drags in between do not touch it. */
  lemma SentTabIsHandedOver(s: Windows, caller: string, target: string, sids: seq<Sid>, acts: seq<Action>)
    requires Owned(s) && DragsSettledOnce(s) && Enabled(s, ActSendMove(caller, target, sids))
    requires var s1 := Apply(Apply(s, ActSendMove(caller, target, sids)), ActSendStash(sids));
      Legal(s1, acts) && AcceptsGuarded(s1, acts) && LeavesSessions(s1, sids, acts)
    requires LeavesAlone(Payload("", "", sids), acts)
    ensures var s' := After(Apply(Apply(s, ActSendMove(caller, target, sids)), ActSendStash(sids)), acts);
      && s'.pending == Some(Payload("", "", sids))
      && Apply(s', ActAccept) == s'.(pending := None)
      && forall x :: x in sids ==> At(s', x, if target == "main" then Main else Win(target))
  {
    var place := if target == "main" then Main else Win(target);
    var s0 := Apply(s, ActSendMove(caller, target, sids));
    var s1 := Apply(s0, ActSendStash(sids));
    OwnedStep(s, ActSendMove(caller, target, sids));
    OwnedStep(s0, ActSendStash(sids));
    SendsTo(s, caller, target, sids);
    forall x | x in sids ensures At(s1, x, place) { Stashed(s0, sids, x, place); }
    SlotExactly(s0, ActSendStash(sids));
    SlotKept(s1, acts);
    SessionsStay(s1, sids, place, acts);
  }

  lemma Stashed(s: Windows, sids: seq<Sid>, x: Sid, p: Place)
    requires At(s, x, p)
    ensures At(Apply(s, ActSendStash(sids)), x, p)
  {
  }

  // ---- a failed transfer ----

  /** Nothing settles transfer d. */
  predicate LeavesTransfer(d: string, acts: seq<Action>) {
    forall i :: 0 <= i < |acts| ==> acts[i] != ActDone(d) && acts[i] != ActFailed(d)
  }

  lemma FlightStays(s: Windows, act: Action, d: string)
    requires DragsSettledOnce(s) && d in s.inflight && act != ActDone(d) && act != ActFailed(d)
    ensures d in Apply(s, act).inflight && Apply(s, act).inflight[d] == s.inflight[d]
  {
  }

  lemma {:induction false} FlightKept(s: Windows, acts: seq<Action>, d: string)
    requires DragsSettledOnce(s) && Legal(s, acts) && d in s.inflight && LeavesTransfer(d, acts)
    ensures d in After(s, acts).inflight && After(s, acts).inflight[d] == s.inflight[d]
    decreases |acts|
  {
    if acts != [] {
      assert acts[0] != ActDone(d) && acts[0] != ActFailed(d);
      FlightStays(s, acts[0], d);
      SettledStep(s, acts[0]);
      hide Apply, Enabled, DragsSettledOnce;
      FlightKept(Apply(s, acts[0]), acts[1..], d);
    }
  }

  /** A transfer that fails, however long after its accept, gives the drag's sessions back to the window
      they were dragged out of, behind those it shows; when that has closed, exactly they end. */
  lemma FailedTransferReturns(s: Windows, source: string, sids: seq<Sid>, d: string, acts: seq<Action>)
    requires DragsSettledOnce(s) && s.pending == Some(Payload(d, source, sids)) && d != ""
    requires forall f, x :: f in s.inflight && x in s.inflight[f].sids ==> x !in sids
    requires Legal(Apply(s, ActAccept), acts) && LeavesTransfer(d, acts)
    ensures var s' := After(Apply(s, ActAccept), acts); var r := Apply(s', ActFailed(d));
      && r.inflight == s'.inflight - {d} && r.pending == s'.pending
      && if source in s'.detached then
           r.ended == s'.ended && r.detached == s'.detached[source := s'.detached[source] + sids]
         else r.detached == s'.detached && r.ended == s'.ended + sids
  {
    AcceptTakes(s, source, sids, d);
    SettledStep(s, ActAccept);
    FlightKept(Apply(s, ActAccept), acts, d);
  }

  // ---- which windows are listed ----

  /** A window has a list from the moment it opens with sessions or is sent a tab until its close takes the
      list; a list never goes in any other way, also when it is empty. */
  lemma ListedExactly(s: Windows, act: Action, w: string)
    ensures w in Apply(s, act).detached <==>
      match act
      case ActDetachAt(name, sids) => w in s.detached || (w == name && sids != [])
      case ActSendMove(caller, target, sids) =>
        w in s.detached || (sids != [] && w != "main" && (w == caller || w == target))
      case ActCloseTake(x) => w in s.detached && w != x
      case ActSelfTake(x) => w in s.detached && w != x
      case _ => w in s.detached
  {
  }
}
