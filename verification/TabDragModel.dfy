/**
 Moving a tab's sessions between windows: detached windows own lists of sessions, a dragged
 tab waits in the pending slot, an accepted one is in flight until the receiver settles it,
 and the main window owns everything nobody else holds. One action per critical section.
 */
module TabDragModel {
  import opened Wrappers

  type Sid = string

  /** dragID is empty for a tab sent through the menu: its sessions have moved already. */
  datatype Payload = Payload(dragID: string, source: string, sids: seq<Sid>)
  datatype Flight = Flight(source: string, sids: seq<Sid>)
  datatype Place = Main | Win(w: string) | InFlight(d: string) | Ended

  /** ended lists every end of a session; the id sets and closing are history. closing are the
      windows whose close has begun, gone those
      whose close has taken their sessions; either until a window of that name opens with sessions. */
  datatype Windows = Windows(
    detached: map<string, seq<Sid>>, pending: Option<Payload>, inflight: map<string, Flight>,
    ended: seq<Sid>, closing: set<string>, gone: set<string>,
    started: set<string>, accepted: set<string>, cancelled: set<string>, done: set<string>, failed: set<string>)

  const Init := Windows(map[], None, map[], [], {}, {}, {}, {}, {}, {}, {})

  function Remove(xs: seq<Sid>, drop: seq<Sid>): (r: seq<Sid>)
    ensures forall x :: x in r <==> x in xs && x !in drop
    ensures NoDup(xs) ==> NoDup(r)
  {
    if xs == [] then []
    else if xs[0] in drop then Remove(xs[1..], drop)
    else [xs[0]] + Remove(xs[1..], drop)
  }

  /** What is left keeps its order. */
  lemma {:induction false} RemoveInOrder(xs: seq<Sid>, x: Sid, drop: seq<Sid>)
    ensures Remove(xs + [x], drop) == Remove(xs, drop) + if x in drop then [] else [x]
  {
    if xs == [] {
      assert [] + [x] == [x] && [x][1..] == [];
    } else {
      assert (xs + [x])[1..] == xs[1..] + [x];
      RemoveInOrder(xs[1..], x, drop);
    }
  }

  predicate NoDup(xs: seq<Sid>) {
    forall i, j :: 0 <= i < j < |xs| ==> xs[i] != xs[j]
  }

  predicate Overlap(xs: seq<Sid>, ys: seq<Sid>) {
    exists x :: x in xs && x in ys
  }

  function ListOf(s: Windows, w: string): seq<Sid> {
    if w in s.detached then s.detached[w] else []
  }

  predicate DragPending(s: Windows) {
    s.pending.Some? && s.pending.value.dragID != ""
  }

  /** A transfer of one of these sessions is not settled yet. */
  predicate StillMoving(s: Windows, sids: seq<Sid>) {
    exists d :: d in s.inflight && Overlap(sids, s.inflight[d].sids)
  }

  function DetachAt(s: Windows, name: string, sids: seq<Sid>): Windows {
    if sids == [] then s
    else s.(detached := s.detached[name := sids], closing := s.closing - {name}, gone := s.gone - {name})
  }

  function Start(s: Windows, source: string, sids: seq<Sid>, d: string): Windows {
    s.(pending := Some(Payload(d, source, sids)), started := s.started + {d})
  }

  function Accept(s: Windows): Windows {
    if s.pending.None? || s.pending.value.dragID == "" then s.(pending := None)
    else
      var p := s.pending.value;
      if StillMoving(s, p.sids) then s.(pending := None)
      else s.(
        pending := None,
        detached := if p.source in s.detached then s.detached[p.source := Remove(s.detached[p.source], p.sids)]
            else s.detached,
        inflight := s.inflight[p.dragID := Flight(p.source, p.sids)],
        accepted := s.accepted + {p.dragID})
  }

  function Cancel(s: Windows, d: string): Windows {
    if s.pending.Some? && s.pending.value.dragID == d
    then s.(pending := None, cancelled := if d == "" then s.cancelled else s.cancelled + {d}) else s
  }

  function SettleDone(s: Windows, d: string): Windows {
    if d in s.inflight then s.(inflight := s.inflight - {d}, done := s.done + {d}) else s
  }

  function SettleFailed(s: Windows, d: string): Windows {
    if d !in s.inflight then s
    else
      var f := s.inflight[d];
      var s' := s.(inflight := s.inflight - {d}, failed := s.failed + {d});
      if f.source in s.detached then s'.(detached := s.detached[f.source := s.detached[f.source] + f.sids])
      else s'.(ended := s.ended + f.sids)
  }

  function DropDragFrom(s: Windows, w: string): Windows {
    if DragPending(s) && s.pending.value.source == w then s.(pending := None) else s
  }

  /** The close of a window by hand: first its pending drag goes, then its sessions end. */
  function CloseDrop(s: Windows, w: string): Windows {
    DropDragFrom(s, w).(closing := s.closing + {w})
  }

  function CloseTake(s: Windows, w: string): Windows {
    s.(ended := s.ended + ListOf(s, w), detached := s.detached - {w}, gone := s.gone + {w})
  }

  /** The close after a redock: first the slot goes (main has claimed the sessions), then the drag. */
  function SelfTake(s: Windows, w: string): Windows {
    s.(detached := s.detached - {w}, closing := s.closing + {w})
  }

  /** Sending a tab: first the sessions change lists, then the payload is stashed. */
  function SendMove(s: Windows, caller: string, target: string, sids: seq<Sid>): Windows {
    if sids == [] then s
    else
      var d1 := if caller == "main" then s.detached else s.detached[caller := Remove(ListOf(s, caller), sids)];
      var s1 := s.(detached := d1);
      if target == "main" then s1 else s1.(detached := d1[target := ListOf(s1, target) + sids])
  }

  function SendStash(s: Windows, sids: seq<Sid>): Windows {
    s.(pending := Some(Payload("", "", sids)))
  }

  datatype Action =
    | ActDetachAt(name: string, sids: seq<Sid>)
    | ActStart(source: string, sids: seq<Sid>, d: string)
    | ActAccept
    | ActCancel(d: string)
    | ActDone(d: string)
    | ActFailed(d: string)
    | ActCloseDrop(w: string)
    | ActCloseTake(w: string)
    | ActSelfTake(w: string)
    | ActSelfDrop(w: string)
    | ActSendMove(caller: string, target: string, sids: seq<Sid>)
    | ActSendStash(sids: seq<Sid>)

  function Apply(s: Windows, act: Action): Windows {
    match act
    case ActDetachAt(name, sids) => DetachAt(s, name, sids)
    case ActStart(source, sids, d) => Start(s, source, sids, d)
    case ActAccept => Accept(s)
    case ActCancel(d) => Cancel(s, d)
    case ActDone(d) => SettleDone(s, d)
    case ActFailed(d) => SettleFailed(s, d)
    case ActCloseDrop(w) => CloseDrop(s, w)
    case ActCloseTake(w) => CloseTake(s, w)
    case ActSelfTake(w) => SelfTake(s, w)
    case ActSelfDrop(w) => DropDragFrom(s, w)
    case ActSendMove(caller, target, sids) => SendMove(s, caller, target, sids)
    case ActSendStash(sids) => SendStash(s, sids)
  }

  /** Where a session is; main holds what nobody else does. */
  ghost predicate At(s: Windows, sid: Sid, p: Place) {
    match p
    case Win(w) => w in s.detached && sid in s.detached[w]
    case InFlight(d) => d in s.inflight && sid in s.inflight[d].sids
    case Ended => sid in s.ended
    case Main =>
      && (forall w :: w in s.detached ==> sid !in s.detached[w])
      && (forall d :: d in s.inflight ==> sid !in s.inflight[d].sids)
      && sid !in s.ended
  }

  ghost predicate InFlightFrom(s: Windows, x: Sid, source: string) {
    exists f :: f in s.inflight && s.inflight[f].source == source && x in s.inflight[f].sids
  }

  /** What the windows are trusted with: drag ids are used once, a window moves only sessions it
      holds that are not in flight, drags only its own tabs - one still in flight from it
      included, as it shows that tab until the transfer is done - and a closing window starts
      no drag; a name is used again only once its window's close is over. */
  ghost predicate Enabled(s: Windows, act: Action) {
    match act
    case ActDetachAt(name, sids) =>
      && name != "main" && name !in s.detached
      && NoDup(sids) && forall x :: x in sids ==> At(s, x, Main)
    case ActStart(source, sids, d) =>
      d != "" && d !in s.started && source != "main" && source !in s.closing && NoDup(sids)
      && forall x :: x in sids ==> At(s, x, Win(source)) || InFlightFrom(s, x, source)
    case ActCloseDrop(w) => w != "main"
    case ActCloseTake(w) => w in s.closing
    case ActSelfTake(w) => w != "main"
    case ActSelfDrop(w) => w in s.closing
    case ActSendMove(caller, target, sids) =>
      NoDup(sids) && forall x :: x in sids ==> At(s, x, if caller == "main" then Main else Win(caller))
    case _ => true
  }
}
