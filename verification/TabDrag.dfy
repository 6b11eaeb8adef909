/**
 The tab-drag state of the app as it is held and updated in place: one method per critical
 section, each proved to take exactly the step of TabDragModel it names.
 */
module TabDrag {
  import opened Wrappers
  import M = TabDragModel

  class TabWindows {
    var detachedSessions: map<string, seq<M.Sid>>
    var pendingTabDrag: Option<M.Payload>
    var tabDragsInFlight: map<string, M.Flight>
    // History, for the model only.
    ghost var ended: seq<M.Sid>
    ghost var closing: set<string>
    ghost var gone: set<string>
    ghost var started: set<string>
    ghost var accepted: set<string>
    ghost var cancelled: set<string>
    ghost var done: set<string>
    ghost var failed: set<string>

    ghost function View(): M.Windows
      reads this
    {
      M.Windows(detachedSessions, pendingTabDrag, tabDragsInFlight, ended, closing, gone,
                started, accepted, cancelled, done, failed)
    }

    constructor ()
      ensures View() == M.Init
    {
      detachedSessions, pendingTabDrag, tabDragsInFlight := map[], None, map[];
      ended, closing, gone, started, accepted, cancelled, done, failed := [], {}, {}, {}, {}, {}, {}, {};
    }

    static method RemoveStrings(xs: seq<M.Sid>, drop: seq<M.Sid>) returns (out: seq<M.Sid>)
      ensures out == M.Remove(xs, drop)
    {
      var dropSet: set<M.Sid> := {};
      for i := 0 to |drop|
        invariant dropSet == set x | x in drop[..i]
      {
        dropSet := dropSet + {drop[i]};
      }
      assert drop[..|drop|] == drop;
      out := [];
      for i := 0 to |xs|
        invariant out + M.Remove(xs[i..], drop) == M.Remove(xs, drop)
      {
        if xs[i] !in dropSet { out := out + [xs[i]]; }
      }
    }

    /** A new window takes over the sessions of the detached tab. */
    method DetachTabAt(tabID: string, sids: seq<M.Sid>)
      modifies this`detachedSessions, this`closing, this`gone
      ensures View() == M.DetachAt(old(View()), "detached-" + tabID, sids)
      ensures detachedSessions == if sids == [] then old(detachedSessions) else
          old(detachedSessions)["detached-" + tabID := sids]
      ensures sids != [] ==> "detached-" + tabID !in closing + gone
    {
      if |sids| > 0 {
        detachedSessions := detachedSessions["detached-" + tabID := sids];
        closing, gone := closing - {"detached-" + tabID}, gone - {"detached-" + tabID};
      }
    }

    method StartTabDrag(tabID: string, sids: seq<M.Sid>, dragID: string)
      modifies this`pendingTabDrag, this`started
      ensures View() == M.Start(old(View()), "detached-" + tabID, sids, dragID)
      ensures pendingTabDrag == Some(M.Payload(dragID, "detached-" + tabID, sids))
    {
      pendingTabDrag := Some(M.Payload(dragID, "detached-" + tabID, sids));
      started := started + {dragID};
    }

    method AcceptTabDrag() returns (r: Result<M.Payload>)
      modifies this`detachedSessions, this`pendingTabDrag, this`tabDragsInFlight, this`accepted
      ensures View() == M.Accept(old(View()))
      ensures r.Ok? <==>
        (&& old(pendingTabDrag).Some?
         && (old(M.DragPending(View())) ==> !old(M.StillMoving(View(), pendingTabDrag.value.sids))))
      ensures r.Ok? ==> Some(r.value) == old(pendingTabDrag)
      ensures pendingTabDrag == None
      ensures r.Err? || r.value.dragID == "" ==>
        detachedSessions == old(detachedSessions) && tabDragsInFlight == old(tabDragsInFlight)
      ensures r.Ok? && r.value.dragID != "" ==>
        tabDragsInFlight == old(tabDragsInFlight)[r.value.dragID := M.Flight(r.value.source, r.value.sids)]
    {
      if pendingTabDrag.None? { return Err("no pending tab drag"); }
      var p := pendingTabDrag.value;
      pendingTabDrag := None;
      if p.dragID != "" {
        var ids := tabDragsInFlight.Keys;
        while ids != {}
          invariant ids <= tabDragsInFlight.Keys
          invariant forall d :: d in tabDragsInFlight.Keys - ids ==> !M.Overlap(p.sids, tabDragsInFlight[d].sids)
          invariant detachedSessions == old(detachedSessions) && tabDragsInFlight == old(tabDragsInFlight) &&
              accepted == old(accepted)
        {
          var d :| d in ids;
          if M.Overlap(p.sids, tabDragsInFlight[d].sids) { return Err("this tab is still being moved"); }
          ids := ids - {d};
        }
        if p.source in detachedSessions {
          var left := RemoveStrings(detachedSessions[p.source], p.sids);
          detachedSessions := detachedSessions[p.source := left];
        }
        tabDragsInFlight := tabDragsInFlight[p.dragID := M.Flight(p.source, p.sids)];
        accepted := accepted + {p.dragID};
      }
      return Ok(p);
    }

    /** The receiver has rebuilt the tab; ok tells the source to drop it. */
    method TabDragDone(dragID: string) returns (ok: bool)
      modifies this`tabDragsInFlight, this`done
      ensures View() == M.SettleDone(old(View()), dragID)
      ensures ok <==> dragID in old(tabDragsInFlight)
      ensures tabDragsInFlight == old(tabDragsInFlight) - {dragID}
    {
      ok := dragID in tabDragsInFlight;
      tabDragsInFlight := tabDragsInFlight - {dragID};
      if ok { done := done + {dragID}; }
    }

    /** The receiver could not rebuild the tab: toEnd are the sessions nobody shows any more. */
    method TabDragFailed(dragID: string) returns (toEnd: seq<M.Sid>)
      modifies this`detachedSessions, this`tabDragsInFlight, this`ended, this`failed
      ensures View() == M.SettleFailed(old(View()), dragID)
      ensures ended == old(ended) + toEnd
      ensures tabDragsInFlight == old(tabDragsInFlight) - {dragID}
      ensures dragID !in old(tabDragsInFlight) ==> toEnd == [] && detachedSessions == old(detachedSessions)
      ensures dragID in old(tabDragsInFlight) ==>
        var f := old(tabDragsInFlight)[dragID];
        if f.source in old(detachedSessions) then
          toEnd == [] && detachedSessions == old(detachedSessions)[f.source := old(detachedSessions)[f.source] + f.sids]
        else toEnd == f.sids && detachedSessions == old(detachedSessions)
    {
      toEnd := [];
      if dragID !in tabDragsInFlight { return; }
      var f := tabDragsInFlight[dragID];
      tabDragsInFlight := tabDragsInFlight - {dragID};
      failed := failed + {dragID};
      if f.source in detachedSessions {
        detachedSessions := detachedSessions[f.source := detachedSessions[f.source] + f.sids];
      } else {
        toEnd := f.sids;
        ended := ended + toEnd;
      }
    }

    /** Reports whether it cleared the drag. */
    method CancelTabDrag(dragID: string) returns (cleared: bool)
      modifies this`pendingTabDrag, this`cancelled
      ensures View() == M.Cancel(old(View()), dragID)
      ensures cleared <==> old(pendingTabDrag).Some? && old(pendingTabDrag).value.dragID == dragID
      ensures pendingTabDrag == if cleared then None else old(pendingTabDrag)
      ensures cleared && dragID != "" ==> dragID in cancelled
    {
      if pendingTabDrag.None? || pendingTabDrag.value.dragID != dragID { return false; }
      pendingTabDrag := None;
      if dragID != "" { cancelled := cancelled + {dragID}; }
      return true;
    }

    method DropTabDragFrom(windowName: string)
      modifies this`pendingTabDrag
      ensures View() == M.DropDragFrom(old(View()), windowName)
      ensures
        var p := old(pendingTabDrag);
        pendingTabDrag == if p.Some? && p.value.dragID != "" && p.value.source == windowName then None else p
    {
      if pendingTabDrag.Some? && pendingTabDrag.value.dragID != "" && pendingTabDrag.value.source == windowName {
        pendingTabDrag := None;
      }
    }

    /** First half of the closing handler. */
    method BeginClose(windowName: string)
      modifies this`pendingTabDrag, this`closing
      ensures View() == M.CloseDrop(old(View()), windowName)
    {
      DropTabDragFrom(windowName);
      closing := closing + {windowName};
    }

    /** Second half: the sessions still in the window's list end. */
    method TakeClosed(windowName: string) returns (ids: seq<M.Sid>)
      modifies this`detachedSessions, this`ended, this`gone
      ensures View() == M.CloseTake(old(View()), windowName)
      ensures ended == old(ended) + ids
      ensures ids == if windowName in old(detachedSessions) then old(detachedSessions)[windowName] else []
      ensures detachedSessions == old(detachedSessions) - {windowName}
    {
      ids := if windowName in detachedSessions then detachedSessions[windowName] else [];
      detachedSessions := detachedSessions - {windowName};
      ended, gone := ended + ids, gone + {windowName};
    }

    /** First half of a window closing itself after a redock; DropTabDragFrom is the second. */
    method BeginCloseSelf(windowName: string)
      modifies this`detachedSessions, this`closing
      ensures View() == M.SelfTake(old(View()), windowName)
      ensures detachedSessions == old(detachedSessions) - {windowName}
    {
      detachedSessions := detachedSessions - {windowName};
      closing := closing + {windowName};
    }

    /** First half of sending a tab to another window. */
    method SendMove(caller: string, target: string, sids: seq<M.Sid>)
      modifies this`detachedSessions
      ensures View() == M.SendMove(old(View()), caller, target, sids)
      ensures sids == [] ==> detachedSessions == old(detachedSessions)
      ensures forall w :: w == "main" || (w != caller && w != target) ==>
        Lookup(detachedSessions, w) == Lookup(old(detachedSessions), w)
      ensures sids != [] && target != "main" && target != caller ==>
        Lookup(detachedSessions, target) == Some(M.ListOf(old(View()), target) + sids)
      ensures sids != [] && caller != "main" && caller != target ==>
        Lookup(detachedSessions, caller) == Some(M.Remove(M.ListOf(old(View()), caller), sids))
    {
      if |sids| == 0 { return; }
      if caller != "main" {
        var left := RemoveStrings(if caller in detachedSessions then detachedSessions[caller] else [], sids);
        detachedSessions := detachedSessions[caller := left];
      }
      if target != "main" {
        detachedSessions := detachedSessions[target :=
            (if target in detachedSessions then detachedSessions[target] else []) + sids];
      }
    }

    /** Second half: the payload waits for the target to claim it. */
    method SendStash(sids: seq<M.Sid>)
      modifies this`pendingTabDrag
      ensures View() == M.SendStash(old(View()), sids)
      ensures pendingTabDrag == Some(M.Payload("", "", sids))
    {
      pendingTabDrag := Some(M.Payload("", "", sids));
    }
  }
}
