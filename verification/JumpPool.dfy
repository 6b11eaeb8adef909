/**
 The shared bastion pool as the program holds it: entries are objects updated in place under
 the pool lock. Each method is one critical section (or one close after unlock). The ghost
 state is the pool's JumpPoolModel state; Valid ties every real field to it, and each method
 is proved to take exactly the model's step. JumpPoolProofs says what the steps keep.
 */
module JumpPool {
  import opened Wrappers
  import M = JumpPoolModel

  datatype EntryFields = EntryFields(
    key: string, ready: bool, err: Option<string>, cancelled: bool, client: Option<nat>, hasCleanup: bool,
    cleanupCalls: nat, refs: int, stopTimer: Option<nat>, closeSpent: bool)

  /** f with those fields changed that say otherwise than the model's entry x. */
  function Fitted(f: EntryFields, x: M.Entry): EntryFields {
    EntryFields(
      x.key,
      x.phase != M.Building,
      if x.phase.Failed? then x.phase.err else if x.phase.Orphaned? then Some(ShuttingDown) else f.err,
      x.phase.Failed? && x.phase.cancelled,
      if x.phase != M.Usable then None else if f.client.Some? then f.client else Some(0),
      x.phase == M.Usable,
      x.cleanups, x.refs, x.timer, x.spent)
  }

  /** The fields hold what the model's entry says. */
  predicate Agree(f: EntryFields, x: M.Entry) {
    f == Fitted(f, x)
  }

  const ShuttingDown := "jump pool: shutting down"

  /** The timers that will fire unless they are stopped. */
  ghost function ArmedSet(timers: seq<M.Timer>): set<nat> {
    set t | 0 <= t < |timers| && timers[t].state == M.Armed
  }

  function Without(armed: set<nat>, t: Option<nat>): set<nat> {
    if t.Some? then armed - {t.value} else armed
  }

  lemma StopsArmed(timers: seq<M.Timer>, t: Option<nat>)
    ensures ArmedSet(M.StopTimer(timers, t)) == Without(ArmedSet(timers), t)
  {
  }

  // ---- what the model's steps do to the one entry they are about ----

  /** From s to s' entry e alone changed and now agrees with f, and its key left the map if drop. */
  ghost predicate Changes(s: M.Pool, s': M.Pool, e: nat, f: EntryFields, drop: bool) {
    && e < |s.ents| == |s'.ents| && s'.ents == s.ents[e := s'.ents[e]] && Agree(f, s'.ents[e])
    && s'.entries == (if drop then s.entries - {f.key} else s.entries)
  }

  function FailedFields(f: EntryFields, r: M.BuildResult): EntryFields
    requires !r.Built?
  {
    f.(ready := true, err := if r.NoJump? then None else Some(r.msg), cancelled := r.BuildFailed? && r.contextDone)
  }

  lemma FailChanges(s: M.Pool, a: nat, e: nat, f: EntryFields, r: M.BuildResult)
    requires M.At(s, a, M.Build(e)) && e < |s.ents| && s.ents[e].phase == M.Building && !r.Built?
    requires Agree(f, s.ents[e])
    ensures M.CanFinish(s, a) && M.FinishBuild(s, a, r).timers == s.timers
    ensures Changes(s, M.FinishBuild(s, a, r), e, FailedFields(f, r), true)
  {
  }

  lemma PublishChanges(s: M.Pool, a: nat, e: nat, f: EntryFields, client: nat)
    requires M.At(s, a, M.Build(e)) && e < |s.ents| && s.ents[e].phase == M.Building && Agree(f, s.ents[e])
    ensures M.CanFinish(s, a) && M.FinishBuild(s, a, M.Built).timers == s.timers
    ensures M.At(M.FinishBuild(s, a, M.Built), a, M.Ride(e)) == M.InPool(s, e)
    ensures Changes(s, M.FinishBuild(s, a, M.Built), e,
                    if M.InPool(s, e)
                    then f.(client := Some(client), hasCleanup := true, refs := f.refs + 1, ready := true)
                    else f.(err := Some(ShuttingDown), ready := true),
                    false)
  {
  }

  lemma OrphanChanges(s: M.Pool, a: nat, e: nat, f: EntryFields)
    requires M.At(s, a, M.Orphan(e)) && e < |s.ents| && Agree(f, s.ents[e])
    ensures M.CanCleanUp(s, a) && M.CleanUpOrphan(s, a).timers == s.timers
    ensures Changes(s, M.CleanUpOrphan(s, a), e, f.(cleanupCalls := f.cleanupCalls + 1), false)
  {
  }

  lemma JoinChanges(s: M.Pool, a: nat, e: nat, f: EntryFields)
    requires M.CanJoin(s, a) && M.At(s, a, M.Wait(e)) && e < |s.ents| && Agree(f, s.ents[e])
    ensures var rides := f.client.Some? && M.InPool(s, e); var s' := M.Join(s, a);
      && |s'.timers| == |s.timers|
      && ArmedSet(s'.timers) == (if rides then Without(ArmedSet(s.timers), f.stopTimer) else ArmedSet(s.timers))
      && M.At(s', a, M.Ride(e)) == rides
      && M.At(s', a, M.Start) == (if f.client.None? then f.cancelled else !rides)
      && Changes(s, s', e, if rides then f.(stopTimer := None, refs := f.refs + 1) else f, false)
  {
    StopsArmed(s.timers, s.ents[e].timer);
    hide ArmedSet;
  }

  lemma OneMoreArmed(timers: seq<M.Timer>, e: nat)
    ensures ArmedSet(timers + [M.Timer(e, M.Armed)]) == ArmedSet(timers) + {|timers|}
  {
  }

  lemma LeaveChanges(s: M.Pool, a: nat, e: nat, f: EntryFields)
    requires M.At(s, a, M.Ride(e)) && e < |s.ents| && Agree(f, s.ents[e])
    ensures M.CanRelease(s, a)
    ensures var last := f.refs - 1 <= 0 && M.InPool(s, e); var s' := M.Release(s, a);
      && |s'.timers| == |s.timers| + (if last then 1 else 0)
      && ArmedSet(s'.timers) ==
         (if last then Without(ArmedSet(s.timers), f.stopTimer) + {|s.timers|} else ArmedSet(s.timers))
      && Changes(s, s', e, f.(refs := f.refs - 1, stopTimer := if last then Some(|s.timers|) else f.stopTimer), false)
  {
    StopsArmed(s.timers, s.ents[e].timer);
    OneMoreArmed(M.StopTimer(s.timers, s.ents[e].timer), e);
    hide ArmedSet;
  }

  lemma LingerChanges(s: M.Pool, t: nat, e: nat, f: EntryFields)
    requires M.TimerIs(s, t, M.Fired) && s.timers[t].entry == e && Agree(f, s.ents[e])
    ensures var close := f.refs <= 0 && M.InPool(s, e); var s' := M.RunLinger(s, t);
      && |s'.timers| == |s.timers| && ArmedSet(s'.timers) == ArmedSet(s.timers)
      && close == (s'.entries != s.entries) && Changes(s, s', e, f, close)
  {
    if M.InPool(s, e) { assert s.ents[e].key in s.entries && s.ents[e].key !in s.entries - {s.ents[e].key}; }
  }

  lemma EndedChanges(s: M.Pool, e: nat, f: EntryFields)
    requires M.WatchIs(s, e, M.Ended) && Agree(f, s.ents[e])
    ensures |M.DropEnded(s, e).timers| == |s.timers|
    ensures ArmedSet(M.DropEnded(s, e).timers) ==
        if M.InPool(s, e) then Without(ArmedSet(s.timers), f.stopTimer) else ArmedSet(s.timers)
    ensures Changes(s, M.DropEnded(s, e), e, if M.InPool(s, e) then f.(stopTimer := None) else f, M.InPool(s, e))
  {
    StopsArmed(s.timers, s.ents[e].timer);
    hide ArmedSet;
  }

  lemma CloseChanges(s: M.Pool, c: M.Closer, e: nat, f: EntryFields)
    requires M.CanClose(s, c) && c.entry == e && Agree(f, s.ents[e])
    ensures |M.CloseEntry(s, c).timers| == |s.timers|
    ensures ArmedSet(M.CloseEntry(s, c).timers) ==
        if c.Stopper? then Without(ArmedSet(s.timers), f.stopTimer) else ArmedSet(s.timers)
    ensures Changes(s, M.CloseEntry(s, c), e,
                    f.(closeSpent := true,
                       cleanupCalls := f.cleanupCalls + if !f.closeSpent && f.hasCleanup then 1 else 0),
                    false)
  {
    StopsArmed(s.timers, s.ents[e].timer);
    hide ArmedSet;
  }

  lemma FireChanges(s: M.Pool, t: nat)
    requires M.TimerIs(s, t, M.Armed)
    ensures var s' := M.Fire(s, t);
      && s'.ents == s.ents && s'.entries == s.entries
      && |s'.timers| == |s.timers| && ArmedSet(s'.timers) == ArmedSet(s.timers) - {t}
  {
  }

  lemma LookUpChanges(s: M.Pool, a: nat, key: string)
    requires M.At(s, a, M.Start) && s.acq[a].key == key
    ensures M.LookUp(s, a).timers == s.timers && a in M.LookUp(s, a).acq
    ensures var s' := M.LookUp(s, a);
      if key in s.entries then
        s'.entries == s.entries && s'.ents == s.ents && s'.acq[a].pc == M.Wait(s.entries[key])
      else
        && s'.entries == s.entries[key := |s.ents|] && s'.ents[..|s.ents|] == s.ents && |s'.ents| == |s.ents| + 1
        && s'.acq[a].pc == M.Build(|s.ents|) && Agree(NewFields(key), s'.ents[|s.ents|])
  {
  }

  /** A fresh entry's fields. */
  function NewFields(key: string): EntryFields {
    EntryFields(key, false, None, false, None, false, 0, 0, None, false)
  }

  class JumpEntry {
    ghost const id: nat
    const key: string
    var ready: bool
    var err: Option<string>
    var cancelled: bool
    var client: Option<nat>   // handle of the bastion connection
    var hasCleanup: bool
    var cleanupCalls: nat     // how often the chain was closed
    var refs: int
    var stopTimer: Option<nat>
    var closeSpent: bool

    constructor (key: string, ghost id: nat)
      ensures this.id == id && Fields() == NewFields(key)
    {
      this.key, this.id := key, id;
      ready, err, cancelled, client, hasCleanup, cleanupCalls := false, None, false, None, false, 0;
      refs, stopTimer, closeSpent := 0, None, false;
    }

    ghost function Fields(): EntryFields
      reads this
    {
      EntryFields(key, ready, err, cancelled, client, hasCleanup, cleanupCalls, refs, stopTimer, closeSpent)
    }

    /** Runs the cleanup once, whoever gets here first. */
    method Close()
      modifies this`closeSpent, this`cleanupCalls
      ensures closeSpent
      ensures cleanupCalls == old(cleanupCalls) + if old(!closeSpent && hasCleanup) then 1 else 0
    {
      if !closeSpent {
        closeSpent := true;
        if hasCleanup { cleanupCalls := cleanupCalls + 1; }
      }
    }
  }

  class JumpPool {
    var entries: map<string, JumpEntry>
    var nextTimer: nat
    var armed: set<nat>           // the timers that have neither fired nor been stopped
    ghost var all: seq<JumpEntry> // every entry ever made
    ghost var state: M.Pool

    /** e is an entry of this pool. */
    ghost predicate Known(e: JumpEntry)
      reads this`all
    {
      e.id < |all| && all[e.id] == e
    }

    ghost predicate EntriesMatch()
      reads this`all, this`state, all
    {
      && |all| == |state.ents|
      && forall i :: 0 <= i < |all| ==> all[i].id == i && Agree(all[i].Fields(), state.ents[i])
    }

    ghost predicate MapMatches()
      reads this`all, this`state, this`entries
    {
      && entries.Keys == state.entries.Keys
      && (forall k :: k in entries ==> Known(entries[k]) && entries[k].key == k && entries[k].id == state.entries[k])
    }

    ghost predicate Valid()
      reads this, all
    {
      EntriesMatch() && MapMatches() && nextTimer == |state.timers| && armed == ArmedSet(state.timers)
    }

    constructor ()
      ensures Valid() && state == M.Init
    {
      entries, nextTimer, armed, all, state := map[], 0, {}, [], M.Init;
    }

    predicate Holds(e: JumpEntry)
      reads this`entries
    {
      e.key in entries && entries[e.key] == e
    }

    /** What is known of one entry. */
    lemma About(e: JumpEntry)
      requires Valid() && Known(e)
      ensures e.id < |state.ents| && Agree(e.Fields(), state.ents[e.id])
      ensures nextTimer == |state.timers| && armed == ArmedSet(state.timers)
      ensures Holds(e) == M.InPool(state, e.id)
      ensures forall i :: 0 <= i < |all| && i != e.id ==> all[i] != e
    {
    }

    twostate lemma EntriesKept(e: JumpEntry)
      requires old(EntriesMatch()) && all == old(all) && old(Known(e))
      requires forall i :: 0 <= i < |all| && i != e.id ==> unchanged(all[i])
      requires |state.ents| == |old(state.ents)| && state.ents == old(state.ents)[e.id := state.ents[e.id]]
      requires Agree(e.Fields(), state.ents[e.id])
      ensures EntriesMatch()
    {
      hide Fitted;
      forall i | 0 <= i < |all| ensures all[i].id == i && Agree(all[i].Fields(), state.ents[i]) {
        if i != e.id { assert unchanged(all[i]) && old(Agree(all[i].Fields(), state.ents[i])); }
      }
    }

    /** The pool made the same change as the model: to entry e and the number of timers. */
    twostate lemma Changed(e: JumpEntry)
      requires old(Valid()) && all == old(all) && old(Known(e)) && entries == old(entries)
      requires forall i :: 0 <= i < |all| && i != e.id ==> unchanged(all[i])
      requires Changes(old(state), state, e.id, e.Fields(), false)
      requires nextTimer == |state.timers| && armed == ArmedSet(state.timers)
      ensures Valid()
    {
      EntriesKept(e);
    }

    /** The same, and e left the pool. */
    twostate lemma Dropped(e: JumpEntry)
      requires old(Valid()) && all == old(all) && old(Known(e)) && entries == old(entries) - {e.key}
      requires forall i :: 0 <= i < |all| && i != e.id ==> unchanged(all[i])
      requires Changes(old(state), state, e.id, e.Fields(), true)
      requires nextTimer == |state.timers| && armed == ArmedSet(state.timers)
      ensures Valid()
    {
      EntriesKept(e);
    }

    /** Entry e was added to the pool and to the model. */
    twostate lemma Added(new e: JumpEntry)
      requires old(Valid()) && all == old(all) + [e] && e.id == |old(all)|
      requires forall x :: x in old(all) ==> unchanged(x)
      requires |state.ents| == |old(state.ents)| + 1 && state.ents[..|old(state.ents)|] == old(state.ents)
      requires e.id < |state.ents| && Agree(e.Fields(), state.ents[e.id])
      requires entries == old(entries)[e.key := e] && state.entries == old(state.entries)[e.key := e.id]
      requires nextTimer == old(nextTimer) && armed == old(armed) && state.timers == old(state.timers)
      ensures Valid()
    {
      hide Fitted;
      forall i | 0 <= i < |all| ensures all[i].id == i && Agree(all[i].Fields(), state.ents[i]) {
        if i < e.id {
          assert all[i] in old(all) && state.ents[i] == state.ents[..e.id][i];
          assert old(Agree(all[i].Fields(), state.ents[i]));
        }
      }
    }

    /** First look at the key: wait for its entry, or create one to build. */
    method LookUp(ghost a: nat, key: string) returns (e: JumpEntry, build: bool)
      requires Valid() && M.At(state, a, M.Start) && state.acq[a].key == key
      modifies this
      ensures Valid() && Known(e) && forall x :: x in all ==> x in old(all) || fresh(x)
      ensures state == M.LookUp(old(state), a)
      ensures a in state.acq && state.acq[a].pc == if build then M.Build(e.id) else M.Wait(e.id)
    {
      LookUpChanges(state, a, key);
      hide M.LookUp, M.At, Agree;
      if key in entries {
        e, build := entries[key], false;
        state := M.LookUp(state, a);
      } else {
        e := new JumpEntry(key, |all|);
        build := true;
        entries := entries[key := e];
        all := all + [e];
        state := M.LookUp(state, a);
        Added(e);
      }
    }

    /** The build of e failed, or found no jump to make. */
    method FailBuild(ghost a: nat, e: JumpEntry, r: M.BuildResult)
      requires Valid() && Known(e) && M.At(state, a, M.Build(e.id)) && !r.Built?
      requires e.id < |state.ents| && state.ents[e.id].phase == M.Building
      modifies this`state, this`entries, e`ready, e`err, e`cancelled
      ensures Valid() && state == M.FinishBuild(old(state), a, r)
    {
      hide Valid, Agree, Changes, M.FinishBuild, M.At, M.CanFinish;
      About(e);
      FailChanges(state, a, e.id, e.Fields(), r);
      e.err, e.cancelled := if r.NoJump? then None else Some(r.msg), r.BuildFailed? && r.contextDone;
      entries := entries - {e.key};
      e.ready := true;
      state := M.FinishBuild(state, a, r);
      Dropped(e);
    }

    /** The chain of e is built: its builder rides it, unless e left the pool meanwhile. */
    method PublishBuild(ghost a: nat, e: JumpEntry, client: nat) returns (ok: bool)
      requires Valid() && Known(e) && M.At(state, a, M.Build(e.id))
      requires e.id < |state.ents| && state.ents[e.id].phase == M.Building
      modifies this`state, e`ready, e`err, e`client, e`hasCleanup, e`refs
      ensures Valid() && state == M.FinishBuild(old(state), a, M.Built)
      ensures ok == M.At(state, a, M.Ride(e.id)) && (ok ==> e.client == Some(client))
    {
      hide Valid, Holds, Agree, Changes, M.FinishBuild, M.At, M.CanFinish, M.InPool;
      About(e);
      PublishChanges(state, a, e.id, e.Fields(), client);
      ok := Holds(e);
      if ok {
        e.client, e.hasCleanup, e.refs, e.ready := Some(client), true, e.refs + 1, true;
      } else {
        e.err, e.ready := Some(ShuttingDown), true;
      }
      state := M.FinishBuild(state, a, M.Built);
      Changed(e);
    }

    /** The builder that found its entry gone closes the chain itself, after unlock. */
    method CleanUpOrphan(ghost a: nat, e: JumpEntry)
      requires Valid() && Known(e) && M.At(state, a, M.Orphan(e.id))
      modifies this`state, e`cleanupCalls
      ensures Valid() && state == M.CleanUpOrphan(old(state), a)
    {
      hide Valid, Agree, Changes, M.CleanUpOrphan, M.At, M.CanCleanUp;
      About(e);
      OrphanChanges(state, a, e.id, e.Fields());
      e.cleanupCalls := e.cleanupCalls + 1;
      state := M.CleanUpOrphan(state, a);
      Changed(e);
    }

    /** A waiter whose awaited build is over: client is what it gets, again means another round; else it
        returns the build's err. */
    method Join(ghost a: nat, e: JumpEntry) returns (client: Option<nat>, again: bool, err: Option<string>)
      requires Valid() && Known(e) && M.CanJoin(state, a) && M.At(state, a, M.Wait(e.id))
      modifies this`state, this`armed, e`stopTimer, e`refs
      ensures Valid() && state == M.Join(old(state), a)
      ensures again == M.At(state, a, M.Start)
      ensures client.Some? == M.At(state, a, M.Ride(e.id)) && (client.Some? ==> client == e.client)
      ensures err == if client.None? && !again then e.err else None
      ensures client.Some? ==> e.stopTimer == None && (old(e.stopTimer).Some? ==> old(e.stopTimer).value !in armed)
    {
      hide Valid, Holds, Agree, Changes, ArmedSet, M.Join, M.At, M.CanJoin, M.InPool;
      About(e);
      JoinChanges(state, a, e.id, e.Fields());
      client, again, err := None, false, None;
      if e.client.None? {
        again := e.cancelled;
        err := if again then None else e.err;
      } else if !Holds(e) {
        again := true;
      } else {
        if e.stopTimer.Some? {
          armed := armed - {e.stopTimer.value};
          e.stopTimer := None;
        }
        e.refs := e.refs + 1;
        client := e.client;
      }
      state := M.Join(state, a);
      Changed(e);
    }

    /** A rider leaves; the last one arms the linger. */
    method Leave(ghost a: nat, e: JumpEntry)
      requires Valid() && Known(e) && M.At(state, a, M.Ride(e.id))
      modifies this`state, this`nextTimer, this`armed, e`stopTimer, e`refs
      ensures Valid() && state == M.Release(old(state), a)
    {
      hide Valid, Holds, Agree, Changes, ArmedSet, M.Release, M.At, M.CanRelease, M.InPool;
      About(e);
      LeaveChanges(state, a, e.id, e.Fields());
      e.refs := e.refs - 1;
      if e.refs <= 0 && Holds(e) {
        if e.stopTimer.Some? { armed := armed - {e.stopTimer.value}; }
        armed := armed + {nextTimer};
        e.stopTimer := Some(nextTimer);
        nextTimer := nextTimer + 1;
      }
      state := M.Release(state, a);
      Changed(e);
    }

    /** What acquire hands out: called again it does nothing. */
    method Release(ghost a: nat, e: JumpEntry, released: bool) returns (after: bool)
      requires Valid() && Known(e) && M.At(state, a, if released then M.Left(e.id) else M.Ride(e.id))
      modifies this`state, this`nextTimer, this`armed, e`stopTimer, e`refs
      ensures after && Valid() && M.At(state, a, M.Left(e.id))
      ensures state == if released then old(state) else M.Release(old(state), a)
    {
      if !released { Leave(a, e); }
      after := true;
    }

    /** A timer's time is up: its callback starts and waits for the lock. */
    method Fire(t: nat)
      requires Valid() && M.TimerIs(state, t, M.Armed)
      modifies this`state, this`armed
      ensures Valid() && state == M.Fire(old(state), t)
    {
      FireChanges(state, t);
      hide Agree, ArmedSet, M.Fire, M.TimerIs;
      armed := armed - {t};
      state := M.Fire(state, t);
    }

    /** The linger callback once it has the lock; close tells it to close e after unlock. */
    method RunLinger(ghost t: nat, e: JumpEntry) returns (close: bool)
      requires Valid() && Known(e) && M.TimerIs(state, t, M.Fired) && state.timers[t].entry == e.id
      modifies this`entries, this`state
      ensures Valid() && state == M.RunLinger(old(state), t)
      ensures close == (state.entries != old(state.entries))
    {
      hide Valid, Holds, Agree, Changes, ArmedSet, M.RunLinger, M.InPool;
      About(e);
      LingerChanges(state, t, e.id, e.Fields());
      close := e.refs <= 0 && Holds(e);
      if close { entries := entries - {e.key}; }
      state := M.RunLinger(state, t);
      if close { Dropped(e); } else { Changed(e); }
    }

    /** watch, once the connection has ended and it has the lock; it closes e after unlock. */
    method DropEnded(e: JumpEntry)
      requires Valid() && Known(e) && M.WatchIs(state, e.id, M.Ended)
      modifies this`entries, this`state, this`armed, e`stopTimer
      ensures Valid() && state == M.DropEnded(old(state), e.id)
    {
      hide Valid, Holds, Agree, Changes, ArmedSet, M.DropEnded, M.InPool, M.WatchIs;
      About(e);
      EndedChanges(state, e.id, e.Fields());
      var held := Holds(e);
      if held {
        entries := entries - {e.key};
        if e.stopTimer.Some? {
          armed := armed - {e.stopTimer.value};
          e.stopTimer := None;
        }
      }
      state := M.DropEnded(state, e.id);
      if held { Dropped(e); } else { Changed(e); }
    }

    /** Swaps the map under the lock; the returned entries are closed after unlock. */
    method StopAll() returns (toClose: map<string, JumpEntry>)
      requires Valid()
      modifies this`entries, this`state
      ensures Valid() && state == M.StopAll(old(state))
      ensures toClose == old(entries)
      ensures forall k :: k in toClose ==> M.Stopper(toClose[k].id) in state.closing
    {
      toClose := entries;
      entries := map[];
      state := M.StopAll(state);
      forall k | k in toClose ensures M.Stopper(toClose[k].id) in state.closing {
        assert k in old(state.entries);
      }
    }

    /** A closer's close of e, outside the lock; stopAll stops the timer first. */
    method CloseEntry(e: JumpEntry, stopping: bool, ghost c: M.Closer)
      requires Valid() && Known(e) && M.CanClose(state, c) && c.entry == e.id && stopping == c.Stopper?
      modifies this`state, this`armed, e`closeSpent, e`cleanupCalls
      ensures Valid() && state == M.CloseEntry(old(state), c)
    {
      hide Valid, Agree, Changes, ArmedSet, M.CloseEntry, M.CanClose;
      About(e);
      CloseChanges(state, c, e.id, e.Fields());
      if stopping && e.stopTimer.Some? { armed := armed - {e.stopTimer.value}; }
      e.Close();
      state := M.CloseEntry(state, c);
      Changed(e);
    }

    /** The live bastion of a key for passive callers: no reference is counted, nothing changes. */
    method Peek(key: string) returns (client: Option<nat>)
      requires Valid()
      ensures client.Some? <==>
        (&& key != "" && key in state.entries && state.entries[key] < |state.ents|
         && state.ents[state.entries[key]].phase == M.Usable)
      ensures client.Some? ==> key in entries && client == entries[key].client
    {
      client := None;
      if key != "" && key in entries { client := entries[key].client; }
    }
  }
}
