/** What every interleaving of the shared bastion pool keeps. */
module JumpPoolProofs {
  import opened Wrappers
  import opened JumpPoolModel

  predicate HasCloser(s: Pool, e: nat) {
    exists c :: c in s.closing && c.entry == e
  }

  /** The counted references are the riders that have not released yet. */
  ghost predicate RidersCounted(s: Pool, e: nat)
    requires e < |s.ents|
  {
    && s.ents[e].refs == |s.ents[e].riders|
    && (forall a :: a in s.ents[e].riders <==> a in s.acq && s.acq[a].pc == Ride(e))
    && (s.ents[e].riders != {} ==> s.ents[e].phase == Usable)
  }

  /** Cleanup runs of the chain entry e's build made, by how far the entry got. */
  predicate CleanupsCounted(s: Pool, e: nat)
    requires e < |s.ents|
  {
    var x := s.ents[e];
    x.cleanups ==
      match x.phase
      case Building => 0
      case Failed(_, _) => 0
      case Usable => if x.spent then 1 else 0
      case Orphaned => if At(s, x.builder, Orphan(e)) then 0 else 1
  }

  /** Only a usable or building entry is in the pool, and nobody has closed it or is about to;
      idle, its linger timer is armed, or has fired and waits for the lock. */
  ghost predicate PoolEntryOk(s: Pool, e: nat)
    requires e < |s.ents|
  {
    InPool(s, e) ==>
      && (s.ents[e].phase == Building || s.ents[e].phase == Usable)
      && !s.ents[e].spent
      && (forall c :: c in s.closing ==> c.entry != e)
      && (s.ents[e].phase == Usable && s.ents[e].refs == 0 ==>
           s.ents[e].timer.Some? && (TimerIs(s, s.ents[e].timer.value, Armed) ||
               TimerIs(s, s.ents[e].timer.value, Fired)))
  }

  ghost predicate EntryOk(s: Pool, e: nat)
    requires e < |s.ents|
  {
    var x := s.ents[e];
    && RidersCounted(s, e)
    && CleanupsCounted(s, e)
    && PoolEntryOk(s, e)
    && (x.phase == Building <==> At(s, x.builder, Build(e)))
    && (x.phase != Usable ==> x.timer == None && x.watch == NotWatched)
    && (x.timer.Some? ==> x.timer.value < |s.timers| && s.timers[x.timer.value].entry == e)
  }

  predicate AcquirerOk(s: Pool, a: nat)
    requires a in s.acq
  {
    var key := s.acq[a].key;
    match s.acq[a].pc
    case Start => true
    case Build(e) => e < |s.ents| && s.ents[e].key == key && s.ents[e].phase == Building && s.ents[e].builder == a
    case Wait(e) => e < |s.ents| && s.ents[e].key == key
    case Ride(e) => e < |s.ents| && s.ents[e].key == key && s.ents[e].phase == Usable
    case Left(e) => e < |s.ents| && s.ents[e].key == key && s.ents[e].phase == Usable
    case Orphan(e) => e < |s.ents| && s.ents[e].key == key && s.ents[e].phase == Orphaned && s.ents[e].builder == a
    case Returned(ContextDone) => true
    case Returned(FromBuild(e)) =>
      && e < |s.ents| && s.ents[e].key == key
      && (s.ents[e].phase == Orphaned
          || (s.ents[e].phase.Failed? && (s.ents[e].phase.cancelled ==> s.ents[e].builder == a)))
  }

  ghost predicate Inv(s: Pool) {
    && (forall k :: k in s.entries ==> s.entries[k] < |s.ents| && s.ents[s.entries[k]].key == k)
    && (forall e :: 0 <= e < |s.ents| ==> EntryOk(s, e))
    && (forall a :: a in s.acq ==> AcquirerOk(s, a))
    && (forall t :: 0 <= t < |s.timers| ==> s.timers[t].entry < |s.ents| && s.ents[s.timers[t].entry].phase == Usable)
    && (forall c :: c in s.closing ==> c.entry < |s.ents|)
  }

  /** Nothing entry e depends on changed between s and s'. */
  ghost predicate Untouched(s: Pool, s': Pool, e: nat)
    requires e < |s.ents|
  {
    && e < |s'.ents| && s'.ents[e] == s.ents[e]
    && (InPool(s', e) ==> InPool(s, e))
    && (forall a :: At(s', a, Ride(e)) <==> At(s, a, Ride(e)))
    && (forall a :: At(s', a, Build(e)) <==> At(s, a, Build(e)))
    && (forall a :: At(s', a, Orphan(e)) <==> At(s, a, Orphan(e)))
    && (forall c :: c in s'.closing && c !in s.closing ==> c.entry != e || !InPool(s', e))
    && |s.ents| <= |s'.ents| && |s.timers| <= |s'.timers|
    && (forall t :: 0 <= t < |s.timers| && s.timers[t].entry == e ==> s'.timers[t].entry == e)
    && (InPool(s', e) ==> forall t :: 0 <= t < |s.timers| && s.timers[t].entry == e ==> s'.timers[t] == s.timers[t])
  }

  lemma UntouchedKeeps(s: Pool, s': Pool, e: nat)
    requires e < |s.ents| && EntryOk(s, e) && Untouched(s, s', e)
    ensures EntryOk(s', e)
  {
    forall a ensures a in s'.ents[e].riders <==> a in s'.acq && s'.acq[a].pc == Ride(e) {
      assert At(s', a, Ride(e)) <==> At(s, a, Ride(e));
    }
    var x := s.ents[e];
    assert At(s', x.builder, Build(e)) <==> At(s, x.builder, Build(e));
    assert At(s', x.builder, Orphan(e)) <==> At(s, x.builder, Orphan(e));
    if InPool(s', e) && x.timer.Some? {
      assert s'.timers[x.timer.value] == s.timers[x.timer.value];
    }
  }

  lemma InvEnter(s: Pool, a: nat, key: string)
    requires Inv(s) && Enabled(s, ActEnter(a, key))
    ensures Inv(Apply(s, ActEnter(a, key)))
  {
    var s' := Apply(s, ActEnter(a, key));
    forall e | 0 <= e < |s'.ents| ensures EntryOk(s', e) {
      if e < |s.ents| { assert EntryOk(s, e); UntouchedKeeps(s, s', e); }
    }
  }

  lemma LookUpEntriesOk(s: Pool, a: nat, e: nat)
    requires Inv(s) && Enabled(s, ActLookUp(a)) && e < |Apply(s, ActLookUp(a)).ents|
    ensures EntryOk(Apply(s, ActLookUp(a)), e)
  {
    if e < |s.ents| {
      assert EntryOk(s, e);
      UntouchedKeeps(s, Apply(s, ActLookUp(a)), e);
    }
  }

  lemma LookUpAcquirersOk(s: Pool, a: nat)
    requires Inv(s) && Enabled(s, ActLookUp(a))
    ensures var s' := Apply(s, ActLookUp(a)); forall b :: b in s'.acq ==> AcquirerOk(s', b)
  {
    hide EntryOk;
  }

  lemma InvLookUp(s: Pool, a: nat)
    requires Inv(s) && Enabled(s, ActLookUp(a))
    ensures Inv(Apply(s, ActLookUp(a)))
  {
    hide EntryOk, AcquirerOk;
    LookUpAcquirersOk(s, a);
    forall e | 0 <= e < |Apply(s, ActLookUp(a)).ents| ensures EntryOk(Apply(s, ActLookUp(a)), e) {
      LookUpEntriesOk(s, a, e);
    }
  }

  lemma FinishBuildEntryOk(s: Pool, a: nat, r: BuildResult)
    requires Inv(s) && Enabled(s, ActFinishBuild(a, r))
    ensures EntryOk(Apply(s, ActFinishBuild(a, r)), s.acq[a].pc.entry)
  {
    assert EntryOk(s, s.acq[a].pc.entry);
  }

  lemma FinishBuildOthersOk(s: Pool, a: nat, r: BuildResult, e: nat)
    requires Inv(s) && Enabled(s, ActFinishBuild(a, r)) && e < |s.ents| && e != s.acq[a].pc.entry
    ensures e < |Apply(s, ActFinishBuild(a, r)).ents| && EntryOk(Apply(s, ActFinishBuild(a, r)), e)
  {
    assert EntryOk(s, e);
    FinishBuildSpares(s, a, r, e);
    hide Inv, EntryOk, AcquirerOk, Untouched, FinishBuild;
    UntouchedKeeps(s, FinishBuild(s, a, r), e);
  }

  lemma FinishBuildSpares(s: Pool, a: nat, r: BuildResult, e: nat)
    requires CanFinish(s, a) && e < |s.ents| && e != s.acq[a].pc.entry
    ensures Untouched(s, FinishBuild(s, a, r), e)
  {
  }

  lemma FinishBuildAcquirersOk(s: Pool, a: nat, r: BuildResult)
    requires Inv(s) && Enabled(s, ActFinishBuild(a, r))
    ensures var s' := Apply(s, ActFinishBuild(a, r)); forall b :: b in s'.acq ==> AcquirerOk(s', b)
  {
    assert EntryOk(s, s.acq[a].pc.entry);
  }

  lemma FinishBuildRefersToEntries(s: Pool, a: nat, r: BuildResult)
    requires Inv(s) && Enabled(s, ActFinishBuild(a, r))
    ensures var s' := FinishBuild(s, a, r);
      && |s'.ents| == |s.ents|
      && (forall k :: k in s'.entries ==> s'.entries[k] < |s'.ents| && s'.ents[s'.entries[k]].key == k)
      && (forall t :: 0 <= t < |s'.timers| ==>
          s'.timers[t].entry < |s'.ents| && s'.ents[s'.timers[t].entry].phase == Usable)
      && (forall c :: c in s'.closing ==> c.entry < |s'.ents|)
  {
    assert s.ents[s.acq[a].pc.entry].phase == Building by { assert AcquirerOk(s, a); }
    hide EntryOk, AcquirerOk;
  }

  lemma InvFinishBuild(s: Pool, a: nat, r: BuildResult)
    requires Inv(s) && Enabled(s, ActFinishBuild(a, r))
    ensures Inv(Apply(s, ActFinishBuild(a, r)))
  {
    FinishBuildRefersToEntries(s, a, r);
    FinishBuildEntryOk(s, a, r);
    FinishBuildAcquirersOk(s, a, r);
    hide EntryOk, AcquirerOk, FinishBuild;
    forall e | 0 <= e < |s.ents| ensures e < |FinishBuild(s, a, r).ents| && EntryOk(FinishBuild(s, a, r), e) {
      if e != s.acq[a].pc.entry { FinishBuildOthersOk(s, a, r, e); }
    }
  }

  lemma CleanUpOrphanEntriesOk(s: Pool, a: nat, e: nat)
    requires Inv(s) && Enabled(s, ActCleanUpOrphan(a)) && e < |s.ents|
    ensures EntryOk(CleanUpOrphan(s, a), e)
  {
    assert EntryOk(s, e);
    hide Inv, AcquirerOk;
    if e != s.acq[a].pc.entry { UntouchedKeeps(s, CleanUpOrphan(s, a), e); }
  }

  lemma InvCleanUpOrphan(s: Pool, a: nat)
    requires Inv(s) && Enabled(s, ActCleanUpOrphan(a))
    ensures Inv(Apply(s, ActCleanUpOrphan(a)))
  {
    hide EntryOk;
    forall e | 0 <= e < |s.ents| ensures EntryOk(CleanUpOrphan(s, a), e) { CleanUpOrphanEntriesOk(s, a, e); }
  }

  lemma JoinEntryOk(s: Pool, a: nat)
    requires Inv(s) && Enabled(s, ActJoin(a))
    ensures EntryOk(Apply(s, ActJoin(a)), s.acq[a].pc.entry)
  {
    assert EntryOk(s, s.acq[a].pc.entry);
    hide Inv, AcquirerOk;
  }

  lemma JoinOthersOk(s: Pool, a: nat, e: nat)
    requires Inv(s) && Enabled(s, ActJoin(a)) && e < |s.ents| && e != s.acq[a].pc.entry
    ensures e < |Apply(s, ActJoin(a)).ents| && EntryOk(Apply(s, ActJoin(a)), e)
  {
    assert EntryOk(s, s.acq[a].pc.entry) && EntryOk(s, e);
    JoinSpares(s, a, e);
    hide Inv, EntryOk, AcquirerOk, Untouched, Join;
    UntouchedKeeps(s, Apply(s, ActJoin(a)), e);
  }

  lemma JoinSpares(s: Pool, a: nat, e: nat)
    requires CanJoin(s, a) && e < |s.ents| && e != s.acq[a].pc.entry
    requires var t := s.ents[s.acq[a].pc.entry].timer; t.Some? && t.value < |s.timers| ==> s.timers[t.value].entry != e
    ensures Untouched(s, Join(s, a), e)
  {
  }

  lemma JoinAcquirersOk(s: Pool, a: nat)
    requires Inv(s) && Enabled(s, ActJoin(a))
    ensures var s' := Apply(s, ActJoin(a)); forall b :: b in s'.acq ==> AcquirerOk(s', b)
  {
    assert EntryOk(s, s.acq[a].pc.entry);
  }

  lemma InvJoin(s: Pool, a: nat)
    requires Inv(s) && Enabled(s, ActJoin(a))
    ensures Inv(Apply(s, ActJoin(a)))
  {
    hide EntryOk, AcquirerOk;
    JoinEntryOk(s, a);
    JoinAcquirersOk(s, a);
    var s' := Apply(s, ActJoin(a));
    forall e | 0 <= e < |s'.ents| ensures EntryOk(s', e) {
      if e != s.acq[a].pc.entry { JoinOthersOk(s, a, e); }
    }
  }

  lemma InvGiveUp(s: Pool, a: nat)
    requires Inv(s) && Enabled(s, ActGiveUp(a))
    ensures Inv(Apply(s, ActGiveUp(a)))
  {
    var s' := Apply(s, ActGiveUp(a));
    forall e | 0 <= e < |s'.ents| ensures EntryOk(s', e) {
      if e < |s.ents| { assert EntryOk(s, e); UntouchedKeeps(s, s', e); }
    }
  }

  lemma ReleaseEntryOk(s: Pool, a: nat)
    requires Inv(s) && Enabled(s, ActRelease(a))
    ensures EntryOk(Apply(s, ActRelease(a)), s.acq[a].pc.entry)
  {
    assert EntryOk(s, s.acq[a].pc.entry);
  }

  lemma ReleaseOthersOk(s: Pool, a: nat, e: nat)
    requires Inv(s) && Enabled(s, ActRelease(a)) && e < |s.ents| && e != s.acq[a].pc.entry
    ensures e < |Apply(s, ActRelease(a)).ents| && EntryOk(Apply(s, ActRelease(a)), e)
  {
    assert EntryOk(s, s.acq[a].pc.entry) && EntryOk(s, e);
    var x := s.ents[s.acq[a].pc.entry];
    assert x.timer.Some? ==> s.timers[x.timer.value].entry != e;
    hide Inv, EntryOk, AcquirerOk;
    UntouchedKeeps(s, Apply(s, ActRelease(a)), e);
  }

  lemma ReleaseAcquirersOk(s: Pool, a: nat)
    requires Inv(s) && Enabled(s, ActRelease(a))
    ensures var s' := Apply(s, ActRelease(a)); forall b :: b in s'.acq ==> AcquirerOk(s', b)
  {
    assert EntryOk(s, s.acq[a].pc.entry);
  }

  lemma InvRelease(s: Pool, a: nat)
    requires Inv(s) && Enabled(s, ActRelease(a))
    ensures Inv(Apply(s, ActRelease(a)))
  {
    hide EntryOk, AcquirerOk;
    ReleaseEntryOk(s, a);
    ReleaseAcquirersOk(s, a);
    var s' := Apply(s, ActRelease(a));
    forall e | 0 <= e < |s'.ents| ensures EntryOk(s', e) {
      if e != s.acq[a].pc.entry { ReleaseOthersOk(s, a, e); }
    }
  }

  lemma InvFire(s: Pool, t: nat)
    requires Inv(s) && Enabled(s, ActFire(t))
    ensures Inv(Apply(s, ActFire(t)))
  {
    var s' := Apply(s, ActFire(t));
    forall e | 0 <= e < |s'.ents| ensures EntryOk(s', e) {
      if e < |s.ents| { assert EntryOk(s, e); }
      if e < |s.ents| && e != s.timers[t].entry { UntouchedKeeps(s, s', e); }
    }
  }

  /** Acquirers depend on nothing of an entry but its key, its builder and its phase. */
  lemma AcquirersKept(s: Pool, s': Pool)
    requires (forall a :: a in s.acq ==> AcquirerOk(s, a)) && s'.acq == s.acq && |s'.ents| == |s.ents|
    requires forall e :: 0 <= e < |s.ents| ==>
      s'.ents[e].key == s.ents[e].key && s'.ents[e].builder == s.ents[e].builder && s'.ents[e].phase == s.ents[e].phase
    ensures forall a :: a in s'.acq ==> AcquirerOk(s', a)
  {
    forall a | a in s.acq ensures AcquirerOk(s', a) { assert AcquirerOk(s, a); }
  }

  lemma RunLingerEntriesOk(s: Pool, t: nat, e: nat)
    requires Inv(s) && Enabled(s, ActRunLinger(t)) && e < |s.ents|
    ensures EntryOk(RunLinger(s, t), e)
  {
    assert EntryOk(s, e);
    hide AcquirerOk;
    if e != s.timers[t].entry { UntouchedKeeps(s, RunLinger(s, t), e); }
  }

  lemma InvRunLinger(s: Pool, t: nat)
    requires Inv(s) && Enabled(s, ActRunLinger(t))
    ensures Inv(Apply(s, ActRunLinger(t)))
  {
    hide EntryOk, AcquirerOk;
    AcquirersKept(s, RunLinger(s, t));
    forall e | 0 <= e < |s.ents| ensures EntryOk(RunLinger(s, t), e) { RunLingerEntriesOk(s, t, e); }
  }

  lemma InvEndConnection(s: Pool, e0: nat)
    requires Inv(s) && Enabled(s, ActEndConnection(e0))
    ensures Inv(Apply(s, ActEndConnection(e0)))
  {
    var s' := Apply(s, ActEndConnection(e0));
    forall e | 0 <= e < |s'.ents| ensures EntryOk(s', e) {
      if e < |s.ents| { assert EntryOk(s, e); }
      if e < |s.ents| && e != e0 { UntouchedKeeps(s, s', e); }
    }
  }

  lemma DropEndedEntryOk(s: Pool, e0: nat)
    requires Inv(s) && Enabled(s, ActDropEnded(e0))
    ensures EntryOk(Apply(s, ActDropEnded(e0)), e0)
  {
    assert EntryOk(s, e0);
  }

  lemma DropEndedOthersOk(s: Pool, e0: nat, e: nat)
    requires Inv(s) && Enabled(s, ActDropEnded(e0)) && e < |s.ents| && e != e0
    ensures EntryOk(Apply(s, ActDropEnded(e0)), e)
  {
    assert EntryOk(s, e0) && EntryOk(s, e);
    UntouchedKeeps(s, Apply(s, ActDropEnded(e0)), e);
  }

  lemma InvDropEnded(s: Pool, e0: nat)
    requires Inv(s) && Enabled(s, ActDropEnded(e0))
    ensures Inv(Apply(s, ActDropEnded(e0)))
  {
    hide EntryOk, AcquirerOk;
    var s' := DropEnded(s, e0);
    AcquirersKept(s, s');
    forall e | 0 <= e < |s.ents| ensures EntryOk(s', e) {
      if e == e0 { DropEndedEntryOk(s, e0); } else { DropEndedOthersOk(s, e0, e); }
    }
  }

  lemma InvStopAll(s: Pool)
    requires Inv(s) && Enabled(s, ActStopAll)
    ensures Inv(Apply(s, ActStopAll))
  {
    var s' := Apply(s, ActStopAll);
    forall e | 0 <= e < |s'.ents| ensures EntryOk(s', e) {
      if e < |s.ents| { assert EntryOk(s, e); UntouchedKeeps(s, s', e); }
    }
  }

  lemma CloseEntryOk(s: Pool, c: Closer)
    requires Inv(s) && Enabled(s, ActClose(c))
    ensures EntryOk(Apply(s, ActClose(c)), c.entry)
  {
    assert EntryOk(s, c.entry);
  }

  lemma CloseOthersOk(s: Pool, c: Closer, e: nat)
    requires Inv(s) && Enabled(s, ActClose(c)) && e < |s.ents| && e != c.entry
    ensures EntryOk(Apply(s, ActClose(c)), e)
  {
    assert EntryOk(s, c.entry) && EntryOk(s, e);
    UntouchedKeeps(s, Apply(s, ActClose(c)), e);
  }

  lemma CloseAcquirersOk(s: Pool, c: Closer)
    requires Inv(s) && Enabled(s, ActClose(c))
    ensures var s' := Apply(s, ActClose(c)); forall b :: b in s'.acq ==> AcquirerOk(s', b)
  {
    hide EntryOk;
    forall b | b in s.acq ensures AcquirerOk(Apply(s, ActClose(c)), b) { assert AcquirerOk(s, b); }
  }

  lemma InvClose(s: Pool, c: Closer)
    requires Inv(s) && Enabled(s, ActClose(c))
    ensures Inv(Apply(s, ActClose(c)))
  {
    hide EntryOk, AcquirerOk;
    CloseEntryOk(s, c);
    CloseAcquirersOk(s, c);
    forall e | 0 <= e < |s.ents| ensures EntryOk(Apply(s, ActClose(c)), e) {
      if e != c.entry { CloseOthersOk(s, c, e); }
    }
  }

  lemma InvStep(s: Pool, act: Action)
    requires Inv(s) && Enabled(s, act)
    ensures Inv(Apply(s, act))
  {
    match act
    case ActEnter(a, key) => InvEnter(s, a, key);
    case ActLookUp(a) => InvLookUp(s, a);
    case ActFinishBuild(a, r) => InvFinishBuild(s, a, r);
    case ActCleanUpOrphan(a) => InvCleanUpOrphan(s, a);
    case ActJoin(a) => InvJoin(s, a);
    case ActGiveUp(a) => InvGiveUp(s, a);
    case ActRelease(a) => InvRelease(s, a);
    case ActFire(t) => InvFire(s, t);
    case ActRunLinger(t) => InvRunLinger(s, t);
    case ActEndConnection(e) => InvEndConnection(s, e);
    case ActDropEnded(e) => InvDropEnded(s, e);
    case ActStopAll => InvStopAll(s);
    case ActClose(c) => InvClose(s, c);
  }

  /** The invariant holds in every reachable state, stopAll at any point included. */
  lemma {:induction false} InvRun(s: Pool, acts: seq<Action>)
    requires Inv(s) && Legal(s, acts)
    ensures Inv(After(s, acts))
    decreases |acts|
  {
    if acts != [] {
      InvStep(s, acts[0]);
      InvRun(Apply(s, acts[0]), acts[1..]);
    }
  }

  /** Whatever happens in whatever order, no chain is cleaned up twice and every count of
      references is the number of riders that have not released. */
  lemma CleanupAtMostOnce(acts: seq<Action>, e: nat)
    requires Legal(Init, acts) && e < |After(Init, acts).ents|
    ensures var x := After(Init, acts).ents[e];
      && x.cleanups <= 1
      && (x.cleanups == 1 ==> x.phase == Usable || x.phase == Orphaned)
      && x.refs == |x.riders|
      && forall a :: a in x.riders <==> At(After(Init, acts), a, Ride(e))
  {
    InvRun(Init, acts);
    var s := After(Init, acts);
    assert EntryOk(s, e);
    forall a ensures a in s.ents[e].riders <==> At(s, a, Ride(e)) {
      assert a in s.ents[e].riders <==> a in s.acq && s.acq[a].pc == Ride(e);
    }
  }

  // ---- what lasts ----

  /** A finished build's outcome never changes, an entry that left the pool never comes back,
      and from then on it only loses riders. */
  ghost predicate Lasts(s: Pool, s': Pool) {
    && |s.ents| <= |s'.ents|
    && s.stops <= s'.stops
    && forall e :: 0 <= e < |s.ents| ==>
         && s'.ents[e].key == s.ents[e].key && s'.ents[e].builder == s.ents[e].builder
         && (s.ents[e].phase != Building ==> s'.ents[e].phase == s.ents[e].phase)
         && s.ents[e].cleanups <= s'.ents[e].cleanups
         && (!InPool(s, e) ==> !InPool(s', e) && s'.ents[e].riders <= s.ents[e].riders)
  }

  lemma LastsFinish(s: Pool, a: nat, r: BuildResult)
    requires Inv(s) && CanFinish(s, a)
    ensures Lasts(s, FinishBuild(s, a, r))
  {
    assert AcquirerOk(s, a) && EntryOk(s, s.acq[a].pc.entry);
  }

  /** The steps of riders, timers and closers. */
  lemma LastsRiders(s: Pool, act: Action)
    requires Inv(s) && Enabled(s, act) && (act.ActCleanUpOrphan? || act.ActJoin? || act.ActRelease? || act.ActClose?)
    ensures Lasts(s, Apply(s, act))
  {
    hide Inv;
  }

  lemma LastsDrops(s: Pool, act: Action)
    requires Inv(s) && Enabled(s, act) &&
        (act.ActRunLinger? || act.ActEndConnection? || act.ActDropEnded? || act == ActStopAll)
    ensures Lasts(s, Apply(s, act))
  {
    hide Inv;
  }

  lemma LastsStep(s: Pool, act: Action)
    requires Inv(s) && Enabled(s, act)
    ensures Lasts(s, Apply(s, act))
  {
    if act.ActFinishBuild? {
      LastsFinish(s, act.a, act.r);
    } else if act.ActCleanUpOrphan? || act.ActJoin? || act.ActRelease? || act.ActClose? {
      LastsRiders(s, act);
    } else if act.ActRunLinger? || act.ActEndConnection? || act.ActDropEnded? || act == ActStopAll {
      LastsDrops(s, act);
    } else {
      hide Inv;
    }
  }

  lemma {:induction false} LastsRun(s: Pool, acts: seq<Action>)
    requires Inv(s) && Legal(s, acts)
    ensures Lasts(s, After(s, acts))
    decreases |acts|
  {
    if acts != [] {
      LastsStep(s, acts[0]);
      InvStep(s, acts[0]);
      LastsRun(Apply(s, acts[0]), acts[1..]);
    }
  }

  /** A linger callback, stale or not, that goes on to close an entry finds no rider, and
      whatever happens afterwards nobody rides that entry again. */
  lemma LingerCloseIsFinal(s: Pool, t: nat, acts: seq<Action>, a: nat)
    requires Inv(s) && TimerIs(s, t, Fired)
    requires RunLinger(s, t).entries != s.entries
    requires Legal(RunLinger(s, t), acts)
    ensures !At(s, a, Ride(s.timers[t].entry))
    ensures !At(After(RunLinger(s, t), acts), a, Ride(s.timers[t].entry))
  {
    var e := s.timers[t].entry;
    var s1 := RunLinger(s, t);
    InvStep(s, ActRunLinger(t));
    LastsRun(s1, acts);
    InvRun(s1, acts);
    assert EntryOk(s, e) && EntryOk(s1, e) && EntryOk(After(s1, acts), e);
    assert s.ents[e].riders == {};
    assert a !in After(s1, acts).ents[e].riders;
  }

  // ---- what an acquirer gets ----

  /** The only ways out of waiting: a ride on an entry that is in the pool at that moment, the
      outcome of the awaited build, the acquirer's own context, or another round - and that
      only after a cancelled build, or when the built entry has left the pool meanwhile. */
  lemma WaiterOutcome(s: Pool, act: Action, a: nat, e: nat)
    requires Inv(s) && Enabled(s, act) && At(s, a, Wait(e)) && !At(Apply(s, act), a, Wait(e))
    ensures var s' := Apply(s, act);
      || (At(s', a, Ride(e)) && s.ents[e].phase == Usable && InPool(s, e) && InPool(s', e) && a in s'.ents[e].riders)
      || (At(s', a, Returned(FromBuild(e))) &&
          (s.ents[e].phase == Orphaned || (s.ents[e].phase.Failed? && !s.ents[e].phase.cancelled)))
      || (At(s', a, Returned(ContextDone)) && act == ActGiveUp(a))
      || (At(s', a, Start) && ((s.ents[e].phase.Failed? && s.ents[e].phase.cancelled) ||
          (s.ents[e].phase == Usable && !InPool(s, e))))
  {
    assert AcquirerOk(s, a);
  }

  /** What the build returned is what its builder and everyone who waited for it get, however
      much later they look: riders only ever ride a built chain, a failure reaches them with
      its own error, and a cancelled one ends nobody but its builder. */
  lemma BuildOutcomeReachesAll(s: Pool, b: nat, r: BuildResult, acts: seq<Action>, w: nat)
    requires Inv(s) && CanFinish(s, b) && Legal(FinishBuild(s, b, r), acts)
    ensures var e := s.acq[b].pc.entry; var s' := After(FinishBuild(s, b, r), acts);
      && e < |s'.ents|
      && (At(s', w, Ride(e)) ==> r == Built && InPool(s, e))
      && (At(s', w, Returned(FromBuild(e))) ==>
            match r
            case NoJump => s'.ents[e].phase == Failed(None, false)
            case BuildFailed(msg, done) => s'.ents[e].phase == Failed(Some(msg), done) && (done ==> w == b)
            case Built => s'.ents[e].phase == Orphaned && !InPool(s, e))
  {
    var e := s.acq[b].pc.entry;
    var s1 := FinishBuild(s, b, r);
    assert AcquirerOk(s, b);
    InvStep(s, ActFinishBuild(b, r));
    LastsRun(s1, acts);
    InvRun(s1, acts);
    var s' := After(s1, acts);
    assert s'.ents[e].phase == s1.ents[e].phase;
    if At(s', w, Ride(e)) || At(s', w, Returned(FromBuild(e))) { assert AcquirerOk(s', w); }
  }

  // ---- before stopAll ----

  /** Every open chain outside the pool is about to be closed: none stays open for as long as its
      connection lasts, when its watcher would close it. */
  ghost predicate NoLeak(s: Pool) {
    forall e :: 0 <= e < |s.ents| && s.ents[e].phase == Usable && !InPool(s, e) ==> s.ents[e].spent || HasCloser(s, e)
  }

  predicate OneBuildPerKey(s: Pool) {
    forall d, e ::
      && 0 <= d < |s.ents| && 0 <= e < |s.ents|
      && s.ents[d].phase == Building && s.ents[e].phase == Building && s.ents[d].key == s.ents[e].key
      ==> d == e
  }

  predicate BuildsInPool(s: Pool) {
    forall e :: 0 <= e < |s.ents| && s.ents[e].phase == Building ==> InPool(s, e)
  }

  /** A failed build about to delete an entry that is not its own and is in use. */
  predicate DropsForeignEntry(s: Pool, act: Action) {
    act.ActFinishBuild? && !act.r.Built? && CanFinish(s, act.a) &&
    var e := s.acq[act.a].pc.entry;
    var key := s.ents[e].key;
    key in s.entries && s.entries[key] != e && s.entries[key] < |s.ents| && s.ents[s.entries[key]].phase == Usable
  }

  lemma CloserKept(s: Pool, act: Action, e: nat)
    requires Inv(s) && Enabled(s, act) && e < |s.ents|
    requires s.ents[e].phase == Usable && !InPool(s, e) && !s.ents[e].spent && HasCloser(s, e)
    ensures Apply(s, act).ents[e].spent || HasCloser(Apply(s, act), e)
  {
    var s' := Apply(s, act);
    var c :| c in s.closing && c.entry == e;
    if act != ActClose(c) { assert c in s'.closing; }
  }

  /** A failed build that drops no other build's entry takes no usable entry out of the pool. */
  lemma FinishBuildKeepsUsable(s: Pool, a: nat, r: BuildResult, e: nat)
    requires Inv(s) && CanFinish(s, a) && !DropsForeignEntry(s, ActFinishBuild(a, r)) && e < |s.ents|
    requires InPool(s, e) && FinishBuild(s, a, r).ents[e].phase == Usable
    ensures InPool(FinishBuild(s, a, r), e)
  {
    hide Inv, EntryOk, AcquirerOk;
  }

  lemma StopAllHasClosers(s: Pool, e: nat)
    requires e < |s.ents| && InPool(s, e)
    ensures HasCloser(StopAll(s), e)
  {
    assert Stopper(s.entries[s.ents[e].key]) in StopAll(s).closing;
  }

  lemma LingerHasCloser(s: Pool, t: nat, e: nat)
    requires TimerIs(s, t, Fired) && InPool(s, e) && !InPool(RunLinger(s, t), e)
    ensures HasCloser(RunLinger(s, t), e)
  {
    assert Linger(e, t) in RunLinger(s, t).closing;
  }

  lemma EndedHasCloser(s: Pool, x: nat, e: nat)
    requires WatchIs(s, x, Ended) && InPool(s, e) && !InPool(DropEnded(s, x), e)
    ensures HasCloser(DropEnded(s, x), e)
  {
    assert Watcher(x) in DropEnded(s, x).closing;
  }

  /** The other steps take nothing out of the pool. */
  lemma OthersStayInPool(s: Pool, act: Action, e: nat)
    requires Inv(s) && Enabled(s, act) && InPool(s, e)
    requires !act.ActFinishBuild? && act != ActStopAll && !act.ActRunLinger? && !act.ActDropEnded?
    ensures InPool(Apply(s, act), e)
  {
    hide EntryOk, AcquirerOk, StopTimer;
  }

  /** An entry leaves the pool only with somebody about to close it, a foreign drop aside. */
  lemma LeaversHaveClosers(s: Pool, act: Action, e: nat)
    requires Inv(s) && Enabled(s, act) && !DropsForeignEntry(s, act) && e < |s.ents|
    requires InPool(s, e) && !InPool(Apply(s, act), e) && Apply(s, act).ents[e].phase == Usable
    ensures HasCloser(Apply(s, act), e)
  {
    hide Inv, InPool, HasCloser, DropsForeignEntry, FinishBuild, StopAll, RunLinger, DropEnded;
    match act
    case ActFinishBuild(a, r) => FinishBuildKeepsUsable(s, a, r, e);
    case ActStopAll => StopAllHasClosers(s, e);
    case ActRunLinger(t) => LingerHasCloser(s, t, e);
    case ActDropEnded(x) => EndedHasCloser(s, x, e);
    case _ => OthersStayInPool(s, act, e);
  }

  /** A chain outside the pool was there before, built and outside, or has just left it. */
  lemma UsableOutside(s: Pool, act: Action, e: nat)
    requires Inv(s) && Enabled(s, act) && e < |Apply(s, act).ents|
    requires Apply(s, act).ents[e].phase == Usable && !InPool(Apply(s, act), e)
    ensures e < |s.ents| && (InPool(s, e) || s.ents[e].phase == Usable)
    ensures s.ents[e].spent ==> Apply(s, act).ents[e].spent
  {
    hide Inv, EntryOk;
  }

  lemma NoLeakKept(s: Pool, act: Action)
    requires Inv(s) && NoLeak(s) && Enabled(s, act) && !DropsForeignEntry(s, act)
    ensures NoLeak(Apply(s, act))
  {
    hide Inv, InPool, Apply, DropsForeignEntry, Enabled, HasCloser;
    var s' := Apply(s, act);
    forall e | 0 <= e < |s'.ents| && s'.ents[e].phase == Usable && !InPool(s', e)
      ensures s'.ents[e].spent || HasCloser(s', e)
    {
      UsableOutside(s, act, e);
      if InPool(s, e) {
        LeaversHaveClosers(s, act, e);
      } else if !s.ents[e].spent {
        CloserKept(s, act, e);
      }
    }
  }

  /** No built chain outside the pool is left open until its connection ends by itself, exactly as long
      as no failed build deletes another build's entry: the branch deletes by key and not by entry. */
  lemma LeaksExactlyByForeignDrop(s: Pool, act: Action)
    requires Inv(s) && NoLeak(s) && Enabled(s, act)
    ensures NoLeak(Apply(s, act)) <==> !DropsForeignEntry(s, act)
  {
    if DropsForeignEntry(s, act) {
      var e := s.acq[act.a].pc.entry;
      var f := s.entries[s.ents[e].key];
      var s' := Apply(s, act);
      assert EntryOk(s, f) && EntryOk(s, e);
      assert s'.ents[f].phase == Usable && !InPool(s', f) && !s'.ents[f].spent && !HasCloser(s', f);
    } else {
      NoLeakKept(s, act);
    }
  }

  /** With every build's entry in the pool, a failed build drops its own. */
  lemma OwnEntryDropped(s: Pool, act: Action)
    requires Inv(s) && BuildsInPool(s) && Enabled(s, act)
    ensures !DropsForeignEntry(s, act)
  {
    if act.ActFinishBuild? { assert AcquirerOk(s, act.a); }
  }

  lemma FinishBuildKeepsBuild(s: Pool, a: nat, r: BuildResult, e: nat)
    requires CanFinish(s, a) && InPool(s, s.acq[a].pc.entry)
    requires e < |s.ents| && InPool(s, e) && FinishBuild(s, a, r).ents[e].phase == Building
    ensures InPool(FinishBuild(s, a, r), e)
  {
  }

  lemma LingerKeepsBuild(s: Pool, t: nat, e: nat)
    requires Inv(s) && TimerIs(s, t, Fired) && e < |s.ents| && InPool(s, e) && s.ents[e].phase == Building
    ensures InPool(RunLinger(s, t), e)
  {
    hide EntryOk, AcquirerOk;
  }

  lemma EndedKeepsBuild(s: Pool, x: nat, e: nat)
    requires Inv(s) && WatchIs(s, x, Ended) && e < |s.ents| && InPool(s, e) && s.ents[e].phase == Building
    ensures InPool(DropEnded(s, x), e)
  {
    assert s.ents[x].phase == Usable by { assert EntryOk(s, x); }
    hide Inv, EntryOk, AcquirerOk;
  }

  lemma BuildStays(s: Pool, act: Action, e: nat)
    requires Inv(s) && Enabled(s, act) && act != ActStopAll
    requires e < |s.ents| && InPool(s, e) && Apply(s, act).ents[e].phase == Building
    requires !act.ActFinishBuild? || InPool(s, s.acq[act.a].pc.entry)
    ensures InPool(Apply(s, act), e)
  {
    hide Inv, InPool;
    match act
    case ActFinishBuild(a, r) => FinishBuildKeepsBuild(s, a, r, e);
    case ActRunLinger(t) => LingerKeepsBuild(s, t, e);
    case ActDropEnded(x) => EndedKeepsBuild(s, x, e);
    case _ => OthersStayInPool(s, act, e);
  }

  lemma BuildsInPoolKept(s: Pool, act: Action)
    requires Inv(s) && BuildsInPool(s) && Enabled(s, act) && act != ActStopAll
    ensures !DropsForeignEntry(s, act) && BuildsInPool(Apply(s, act))
  {
    OwnEntryDropped(s, act);
    var s' := Apply(s, act);
    if act.ActFinishBuild? { assert AcquirerOk(s, act.a); }
    forall e | 0 <= e < |s'.ents| && s'.ents[e].phase == Building ensures InPool(s', e) {
      if e < |s.ents| { assert InPool(s, e) by { assert s.ents[e].phase == Building; } BuildStays(s, act, e); }
    }
  }

  /** Until stopAll runs a failed build never deletes another's entry, because at most one
      build of a key is in flight and its entry is in the pool. */
  lemma {:induction false} BeforeStopAll(s: Pool, acts: seq<Action>)
    requires Inv(s) && NoLeak(s) && BuildsInPool(s) && Legal(s, acts) && After(s, acts).stops == 0
    ensures NoLeak(After(s, acts)) && BuildsInPool(After(s, acts)) && OneBuildPerKey(After(s, acts))
    decreases |acts|
  {
    if acts != [] {
      var s1 := Apply(s, acts[0]);
      InvStep(s, acts[0]);
      LastsRun(s1, acts[1..]);
      NoLeakKept(s, acts[0]);
      BuildsInPoolKept(s, acts[0]);
      BeforeStopAll(s1, acts[1..]);
    }
  }

  /** Every built entry of a pool that was not stopped yet: in the pool with riders, in the pool
      idle with its linger timer pending, or out of the pool and closed or about to be. */
  lemma EveryChainAccountedFor(acts: seq<Action>, e: nat)
    requires Legal(Init, acts) && After(Init, acts).stops == 0
    requires e < |After(Init, acts).ents| && After(Init, acts).ents[e].phase == Usable
    ensures var s := After(Init, acts); var x := s.ents[e];
      if InPool(s, e) then
        x.cleanups == 0 && !HasCloser(s, e)
        && (x.refs > 0 || (x.refs == 0 && x.timer.Some? &&
            (TimerIs(s, x.timer.value, Armed) || TimerIs(s, x.timer.value, Fired))))
      else x.cleanups == 1 || HasCloser(s, e)
  {
    InvRun(Init, acts);
    BeforeStopAll(Init, acts);
    assert EntryOk(After(Init, acts), e);
  }

  // ---- with stopAll anywhere ----

  ghost predicate NeverDropsForeignEntry(s: Pool, acts: seq<Action>)
    requires Legal(s, acts)
    decreases |acts|
  {
    acts == [] || (!DropsForeignEntry(s, acts[0]) && NeverDropsForeignEntry(Apply(s, acts[0]), acts[1..]))
  }

  /** No state of the run from s on has a leak. */
  ghost predicate NoLeakThroughout(s: Pool, acts: seq<Action>)
    requires Legal(s, acts)
    decreases |acts|
  {
    NoLeak(s) && (acts == [] || NoLeakThroughout(Apply(s, acts[0]), acts[1..]))
  }

  /** A run is free of leaks exactly when no failed build of it deletes another build's entry. */
  lemma {:induction false} LeakFreeExactly(s: Pool, acts: seq<Action>)
    requires Inv(s) && NoLeak(s) && Legal(s, acts)
    ensures NoLeakThroughout(s, acts) <==> NeverDropsForeignEntry(s, acts)
    ensures NeverDropsForeignEntry(s, acts) ==> NoLeak(After(s, acts))
    decreases |acts|
  {
    if acts != [] {
      var s' := Apply(s, acts[0]);
      InvStep(s, acts[0]);
      LeaksExactlyByForeignDrop(s, acts[0]);
      hide Inv, NoLeak, DropsForeignEntry, Apply;
      if !DropsForeignEntry(s, acts[0]) { LeakFreeExactly(s', acts[1..]); }
    }
  }

  /** A built chain has a watcher, and once that has dropped it the chain is closed or about to be. */
  ghost predicate EntryWatched(s: Pool, e: nat)
    requires e < |s.ents|
  {
    s.ents[e].phase == Usable ==>
      s.ents[e].watch != NotWatched && (s.ents[e].watch == Finished ==> s.ents[e].spent || HasCloser(s, e))
  }

  ghost predicate Watched(s: Pool) {
    forall e :: 0 <= e < |s.ents| ==> EntryWatched(s, e)
  }

  lemma ClosedOrClosing(s: Pool, act: Action, e: nat)
    requires Enabled(s, act) && e < |s.ents| && (s.ents[e].spent || HasCloser(s, e))
    ensures e < |Apply(s, act).ents| && (Apply(s, act).ents[e].spent || HasCloser(Apply(s, act), e))
  {
    var s' := Apply(s, act);
    assert s.ents[e].spent ==> s'.ents[e].spent;
    if !s.ents[e].spent {
      var c :| c in s.closing && c.entry == e;
      if act != ActClose(c) { assert c in s'.closing; }
    }
  }

  /** A step finishes an entry's watch only with the watcher about to close it, and builds no chain
      without a watcher. */
  lemma WatchMoves(s: Pool, act: Action, e: nat)
    requires Enabled(s, act) && e < |Apply(s, act).ents| && Apply(s, act).ents[e].phase == Usable
    ensures var x' := Apply(s, act).ents[e];
      || (e < |s.ents| && s.ents[e].phase == Usable && s.ents[e].watch == x'.watch)
      || (x'.watch != NotWatched && x'.watch != Finished)
      || (x'.watch == Finished && Watcher(e) in Apply(s, act).closing)
  {
  }

  lemma WatchedStep(s: Pool, act: Action)
    requires Watched(s) && Enabled(s, act)
    ensures Watched(Apply(s, act))
  {
    hide Enabled, Apply;
    var s' := Apply(s, act);
    forall e | 0 <= e < |s'.ents| ensures EntryWatched(s', e) {
      if s'.ents[e].phase == Usable {
        WatchMoves(s, act, e);
        if Watcher(e) in s'.closing { assert HasCloser(s', e); }
        if e < |s.ents| && s.ents[e].phase == Usable && s.ents[e].watch == Finished {
          assert EntryWatched(s, e);
          ClosedOrClosing(s, act, e);
        }
      }
    }
  }

  lemma {:induction false} WatchedRun(s: Pool, acts: seq<Action>)
    requires Watched(s) && Legal(s, acts)
    ensures Watched(After(s, acts))
    decreases |acts|
  {
    if acts != [] {
      WatchedStep(s, acts[0]);
      WatchedRun(Apply(s, acts[0]), acts[1..]);
    }
  }

  /** Whatever happened before, a chain whose connection has ended and been dropped is cleaned up
      exactly once: its watcher closes even the ones a foreign delete took out of the pool. */
  lemma EndedChainsAreCleanedUp(acts: seq<Action>, e: nat)
    requires Legal(Init, acts) && e < |After(Init, acts).ents|
    ensures var s := After(Init, acts);
      s.ents[e].phase == Usable && s.ents[e].watch == Finished && !HasCloser(s, e) ==> s.ents[e].cleanups == 1
  {
    InvRun(Init, acts);
    WatchedRun(Init, acts);
    assert EntryOk(After(Init, acts), e) && EntryWatched(After(Init, acts), e);
  }

  /** Every run, stopAll and foreign deletes anywhere, once nobody is about to close anything: an
      orphaned chain was cleaned up once - also when stopAll spent the close-once guard of its entry,
      which had no cleanup yet - and so was every chain whose connection has ended; one in the pool is
      open. Without a foreign delete every chain is open in the pool or was cleaned up exactly once. */
  lemma ExactlyOneCleanup(acts: seq<Action>, e: nat)
    requires Legal(Init, acts) && e < |After(Init, acts).ents|
    requires After(Init, acts).closing == {}
    requires forall a :: a in After(Init, acts).acq ==> !After(Init, acts).acq[a].pc.Orphan?
    ensures var s := After(Init, acts); var x := s.ents[e];
      match x.phase
      case Usable =>
        && x.cleanups <= 1
        && (InPool(s, e) ==> x.cleanups == 0)
        && (x.watch == Finished ==> x.cleanups == 1)
        && (NeverDropsForeignEntry(Init, acts) ==> x.cleanups == if InPool(s, e) then 0 else 1)
      case Orphaned => x.cleanups == 1
      case Building => x.cleanups == 0
      case Failed(_, _) => x.cleanups == 0
  {
    InvRun(Init, acts);
    EndedChainsAreCleanedUp(acts, e);
    LeakFreeExactly(Init, acts);
    assert EntryOk(After(Init, acts), e);
  }

  // ---- one build per key ----

  /** A look-up that starts a build of a key another build is still in flight for. */
  predicate StartsSecondBuild(s: Pool, act: Action) {
    act.ActLookUp? && At(s, act.a, Start) && s.acq[act.a].key !in s.entries &&
    exists e :: 0 <= e < |s.ents| && s.ents[e].phase == Building && s.ents[e].key == s.acq[act.a].key
  }

  /** Builds only begin with a look-up. */
  lemma BuildsBegin(s: Pool, act: Action, e: nat)
    requires Enabled(s, act) && e < |Apply(s, act).ents| && Apply(s, act).ents[e].phase == Building
    ensures e < |s.ents| ==> s.ents[e].phase == Building && s.ents[e].key == Apply(s, act).ents[e].key
    ensures e >= |s.ents| ==>
      && e == |s.ents| && act.ActLookUp? && At(s, act.a, Start) && s.acq[act.a].key !in s.entries
      && Apply(s, act).ents[e].key == s.acq[act.a].key
  {
  }

  lemma NewBuildIsAlone(s: Pool, act: Action, d: nat, e: nat)
    requires Enabled(s, act) && !StartsSecondBuild(s, act) && d < |s.ents| <= e < |Apply(s, act).ents|
    requires Apply(s, act).ents[d].phase == Building && Apply(s, act).ents[e].phase == Building
    ensures Apply(s, act).ents[d].key != Apply(s, act).ents[e].key
  {
    hide Enabled, Apply;
    BuildsBegin(s, act, d);
    BuildsBegin(s, act, e);
  }

  lemma TwoBuildsDiffer(s: Pool, act: Action, d: nat, e: nat)
    requires OneBuildPerKey(s) && Enabled(s, act) && !StartsSecondBuild(s, act)
    requires d < |Apply(s, act).ents| && e < |Apply(s, act).ents|
    requires Apply(s, act).ents[d].phase == Building && Apply(s, act).ents[e].phase == Building
    ensures Apply(s, act).ents[d].key == Apply(s, act).ents[e].key ==> d == e
  {
    hide Enabled, Apply, StartsSecondBuild;
    BuildsBegin(s, act, d);
    BuildsBegin(s, act, e);
    if d < |s.ents| <= e { NewBuildIsAlone(s, act, d, e); }
    if e < |s.ents| <= d { NewBuildIsAlone(s, act, e, d); }
  }

  /** A step keeps at most one build per key in flight exactly when it does not start a second one. */
  lemma OneBuildExactly(s: Pool, act: Action)
    requires OneBuildPerKey(s) && Enabled(s, act)
    ensures OneBuildPerKey(Apply(s, act)) <==> !StartsSecondBuild(s, act)
  {
    var s' := Apply(s, act);
    if StartsSecondBuild(s, act) {
      var e :| 0 <= e < |s.ents| && s.ents[e].phase == Building && s.ents[e].key == s.acq[act.a].key;
      var d := |s.ents|;
      assert s'.ents[d].phase == Building && s'.ents[e].phase == Building && s'.ents[d].key == s'.ents[e].key;
    } else {
      hide Enabled, Apply;
      forall d, e |
        && 0 <= d < |s'.ents| && 0 <= e < |s'.ents|
        && s'.ents[d].phase == Building && s'.ents[e].phase == Building && s'.ents[d].key == s'.ents[e].key
        ensures d == e
      {
        TwoBuildsDiffer(s, act, d, e);
      }
    }
  }

  ghost predicate NeverStartsSecondBuild(s: Pool, acts: seq<Action>)
    requires Legal(s, acts)
    decreases |acts|
  {
    acts == [] || (!StartsSecondBuild(s, acts[0]) && NeverStartsSecondBuild(Apply(s, acts[0]), acts[1..]))
  }

  ghost predicate OneBuildThroughout(s: Pool, acts: seq<Action>)
    requires Legal(s, acts)
    decreases |acts|
  {
    OneBuildPerKey(s) && (acts == [] || OneBuildThroughout(Apply(s, acts[0]), acts[1..]))
  }

  /** And so for every run, stopAll anywhere. */
  lemma {:induction false} OneBuildRunExactly(s: Pool, acts: seq<Action>)
    requires OneBuildPerKey(s) && Legal(s, acts)
    ensures OneBuildThroughout(s, acts) <==> NeverStartsSecondBuild(s, acts)
    decreases |acts|
  {
    if acts != [] {
      OneBuildExactly(s, acts[0]);
      if !StartsSecondBuild(s, acts[0]) { OneBuildRunExactly(Apply(s, acts[0]), acts[1..]); }
    }
  }

  // ---- after stopAll ----

  lemma Prepend(s: Pool, act: Action, acts: seq<Action>)
    requires Enabled(s, act) && Legal(Apply(s, act), acts)
    ensures Legal(s, [act] + acts) && After(s, [act] + acts) == After(Apply(s, act), acts)
  {
    assert ([act] + acts)[1..] == acts;
  }

  /** stopAll while a build runs, and a second acquirer building the same key. */
  const TwoBuilds := [ActEnter(0, "k"), ActLookUp(0), ActStopAll, ActEnter(1, "k"), ActLookUp(1)]

  const TwoBuildsState := Pool(
    map["k" := 1],
    [Entry("k", 0, Building, 0, {}, None, NotWatched, false, 0),
        Entry("k", 1, Building, 0, {}, None, NotWatched, false, 0)],
    map[0 := Acquirer("k", Build(0)), 1 := Acquirer("k", Build(1))], [], {Stopper(0)}, 1)

  /** After stopAll two builds of one key can be in flight. */
  lemma TwoBuildsAfterStopAll()
    ensures Legal(Init, TwoBuilds) && After(Init, TwoBuilds) == TwoBuildsState
    ensures !OneBuildPerKey(After(Init, TwoBuilds))
  {
    var s1 := Apply(Init, TwoBuilds[0]);
    var s2 := Apply(s1, TwoBuilds[1]);
    var s3 := Apply(s2, TwoBuilds[2]);
    assert s3.closing == {Stopper(0)};
    var s4 := Apply(s3, TwoBuilds[3]);
    var s5 := Apply(s4, TwoBuilds[4]);
    assert s5 == TwoBuildsState;
    Prepend(s4, TwoBuilds[4], []);
    Prepend(s3, TwoBuilds[3], [TwoBuilds[4]]);
    Prepend(s2, TwoBuilds[2], TwoBuilds[3..]);
    Prepend(s1, TwoBuilds[1], TwoBuilds[2..]);
    Prepend(Init, TwoBuilds[0], TwoBuilds[1..]);
    var d, e := 0, 1;
    assert s5.ents[d].phase == Building && s5.ents[e].phase == Building;
  }

  const Leak := [ActFinishBuild(1, Built), ActFinishBuild(0, BuildFailed("dial", false)), ActRelease(1),
      ActClose(Stopper(0))]

  /** Both builds have returned: the second one's chain is ridden, its entry dropped by the first's failure. */
  const DroppedState := Pool(
    map[],
    [Entry("k", 0, Failed(Some("dial"), false), 0, {}, None, NotWatched, false, 0),
     Entry("k", 1, Usable, 1, {1}, None, Watching, false, 0)],
    map[0 := Acquirer("k", Returned(FromBuild(0))), 1 := Acquirer("k", Ride(1))], [], {Stopper(0)}, 1)

  lemma ForeignDrop(rest: seq<Action>)
    requires Legal(DroppedState, rest)
    ensures Legal(TwoBuildsState, [Leak[0], Leak[1]] + rest)
    ensures After(TwoBuildsState, [Leak[0], Leak[1]] + rest) == After(DroppedState, rest)
  {
    var s1 := Apply(TwoBuildsState, Leak[0]);
    var s2 := Apply(s1, Leak[1]);
    assert s2.entries == map[] && s2.acq == DroppedState.acq;
    assert s2.ents[0] == DroppedState.ents[0] && s2.ents[1] == DroppedState.ents[1];
    assert s2.ents == DroppedState.ents && s2 == DroppedState;
    Prepend(s1, Leak[1], rest);
    Prepend(TwoBuildsState, Leak[0], [Leak[1]] + rest);
    assert [Leak[0]] + ([Leak[1]] + rest) == [Leak[0], Leak[1]] + rest;
  }

  lemma LastRiderLeaves()
    ensures Legal(DroppedState, [Leak[2], Leak[3]])
    ensures var s := After(DroppedState, [Leak[2], Leak[3]]);
      && s.entries == map[] && s.closing == {} && |s.ents| == 2
      && s.ents[1] == Entry("k", 1, Usable, 0, {}, None, Watching, false, 0)
  {
    var s3 := Apply(DroppedState, Leak[2]);
    Prepend(s3, Leak[3], []);
    Prepend(DroppedState, Leak[2], [Leak[3]]);
    assert [Leak[2]] + [Leak[3]] == [Leak[2], Leak[3]];
  }

  /** From there the first build's failure drops the second's entry: an idle chain stays open that no
      timer will close and nobody is about to; only its watcher will, once its connection ends. */
  lemma LeakAfterStopAll()
    ensures Legal(TwoBuildsState, Leak)
    ensures var s := After(TwoBuildsState, Leak);
      && |s.ents| == 2 && s.ents[1].phase == Usable && s.ents[1].riders == {} && s.ents[1].timer == None
      && !InPool(s, 1) && s.ents[1].cleanups == 0 && s.closing == {} && s.ents[1].watch == Watching
  {
    LastRiderLeaves();
    ForeignDrop([Leak[2], Leak[3]]);
    assert [Leak[0], Leak[1]] + [Leak[2], Leak[3]] == Leak;
  }
}
