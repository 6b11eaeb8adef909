/**
 The VPN login hold. Profile is one profile's hold with the proxy starts of its tunnel, as a
 transition system over every interleaving of their steps with successful starts and tunnel
 losses from elsewhere. LoginHolds is the shared table, each of whose methods takes its step.
 */
module LoginHold {
  import opened Wrappers

  /** What a failed login does to a profile's hold: gen is the number of successful starts read
      before the login. */
  function HeldAfter(held: bool, ups: nat, loginError: bool, gen: nat): bool {
    held || (loginError && ups == gen)
  }

  // ---- one profile ----

  /** Where a proxy start is. since is the number of successful starts when it took the mutex, down
      whether it then found the tunnel down, gen what it read before its login. */
  datatype Pc = Waiting | Locked(since: nat) | Unheld(since: nat, down: bool) | Checking(since: nat)
              | Login(since: nat, down: bool, gen: nat) | Failing(since: nat, down: bool, gen: nat, loginError: bool)
              | Refused | Finished | Fast

  /** fails counts, since the last successful start, the serialized proxy starts that found the
      tunnel down, ran wholly since then and failed with a login error. failGens are the
      generations all login errors so far were read at. */
  datatype Profile = Profile(held: bool, ups: nat, running: bool, mutex: Option<nat>, starts: map<nat, Pc>,
                             fails: nat, failGens: set<nat>)

  const Init := Profile(false, 0, false, None, map[], 0, {})

  datatype Action =
    | Arrive(t: nat)           // a proxy client wants the tunnel
    | Lock(t: nat)
    | CheckRunning(t: nat)
    | CheckHeld(t: nat)
    | ReadGen(t: nat)
    | LoginFails(t: nat, loginError: bool)
    | LoginWorks(t: nat)       // the tunnel is up when ensureTunnel returns
    | SetHold(t: nat)
    | Started                  // any successful start of the tunnel
    | Down                     // the tunnel is lost

  predicate At(s: Profile, t: nat) {
    t in s.starts
  }

  predicate Enabled(s: Profile, act: Action) {
    match act
    case Arrive(t) => t !in s.starts
    case Lock(t) => At(s, t) && s.starts[t].Waiting? && s.mutex == None
    case CheckRunning(t) => At(s, t) && s.starts[t].Locked?
    case CheckHeld(t) => At(s, t) && s.starts[t].Checking?
    case ReadGen(t) => At(s, t) && s.starts[t].Unheld?
    case LoginFails(t, _) => At(s, t) && s.starts[t].Login?
    case LoginWorks(t) => At(s, t) && s.starts[t].Login?
    case SetHold(t) => At(s, t) && s.starts[t].Failing?
    case Started => true
    case Down => true
  }

  function Apply(s: Profile, act: Action): Profile
    requires Enabled(s, act)
  {
    match act
    case Arrive(t) => s.(starts := s.starts[t := if s.running then Fast else Waiting])
    case Lock(t) => s.(starts := s.starts[t := Locked(s.ups)], mutex := Some(t))
    case CheckRunning(t) =>
      var since := s.starts[t].since;
      s.(starts := s.starts[t := if s.running then Unheld(since, false) else Checking(since)])
    case CheckHeld(t) =>
      if s.held then s.(starts := s.starts[t := Refused], mutex := None)
      else s.(starts := s.starts[t := Unheld(s.starts[t].since, true)])
    case ReadGen(t) => s.(starts := s.starts[t := Login(s.starts[t].since, s.starts[t].down, s.ups)])
    case LoginFails(t, loginError) =>
      s.(starts := s.starts[t := Failing(s.starts[t].since, s.starts[t].down, s.starts[t].gen, loginError)])
    case LoginWorks(t) => s.(starts := s.starts[t := Finished], mutex := None)
    case SetHold(t) =>
      var p := s.starts[t];
      s.(held := HeldAfter(s.held, s.ups, p.loginError, p.gen), starts := s.starts[t := Finished], mutex := None,
         fails := if p.loginError && p.down && p.since == s.ups then s.fails + 1 else s.fails,
         failGens := if p.loginError then s.failGens + {p.gen} else s.failGens)
    case Started => s.(held := false, ups := s.ups + 1, running := true, fails := 0)
    case Down => s.(running := false)
  }

  predicate InSection(p: Pc) {
    p.Locked? || p.Checking? || p.Unheld? || p.Login? || p.Failing?
  }

  /** A login this start is about to make, is making or has made after finding the tunnel down. */
  predicate LoggingIn(p: Pc) {
    (p.Unheld? || p.Login? || p.Failing?) && p.down
  }

  ghost predicate Inv(s: Profile) {
    && (forall t :: t in s.starts && InSection(s.starts[t]) ==> s.mutex == Some(t) && s.starts[t].since <= s.ups)
    && (forall t :: t in s.starts && (s.starts[t].Login? || s.starts[t].Failing?) ==>
        s.starts[t].since <= s.starts[t].gen <= s.ups)
    && (forall g :: g in s.failGens ==> g <= s.ups)
    && (s.held <==> s.ups in s.failGens)
    && s.fails <= 1
    && (s.fails == 1 ==> s.held)
    && (forall t :: t in s.starts && LoggingIn(s.starts[t]) && s.starts[t].since == s.ups ==> s.fails == 0)
  }

  lemma InvSetHold(s: Profile, t: nat)
    requires Inv(s) && Enabled(s, SetHold(t))
    ensures Inv(Apply(s, SetHold(t)))
  {
  }

  lemma InvLock(s: Profile, act: Action)
    requires Inv(s) && Enabled(s, act) && (act.Lock? || act.CheckHeld? || act.LoginWorks?)
    ensures Inv(Apply(s, act))
  {
  }

  lemma InvWalk(s: Profile, act: Action)
    requires Inv(s) && Enabled(s, act) && (act.CheckRunning? || act.ReadGen? || act.LoginFails?)
    ensures Inv(Apply(s, act))
  {
  }

  lemma InvStep(s: Profile, act: Action)
    requires Inv(s) && Enabled(s, act)
    ensures Inv(Apply(s, act))
  {
    match act
    case SetHold(t) => InvSetHold(s, t);
    case Lock(_) => InvLock(s, act);
    case CheckHeld(_) => InvLock(s, act);
    case LoginWorks(_) => InvLock(s, act);
    case CheckRunning(_) => InvWalk(s, act);
    case ReadGen(_) => InvWalk(s, act);
    case LoginFails(_, _) => InvWalk(s, act);
    case _ =>
  }

  ghost predicate Legal(s: Profile, acts: seq<Action>)
    decreases |acts|
  {
    acts == [] || (Enabled(s, acts[0]) && Legal(Apply(s, acts[0]), acts[1..]))
  }

  ghost function After(s: Profile, acts: seq<Action>): Profile
    requires Legal(s, acts)
    decreases |acts|
  {
    if acts == [] then s else After(Apply(s, acts[0]), acts[1..])
  }

  lemma {:induction false} InvRun(s: Profile, acts: seq<Action>)
    requires Inv(s) && Legal(s, acts)
    ensures Inv(After(s, acts))
    decreases |acts|
  {
    if acts != [] {
      InvStep(s, acts[0]);
      InvRun(Apply(s, acts[0]), acts[1..]);
    }
  }

  /** Between two successful starts at most one serialized proxy start that found the tunnel down
      and ran wholly in between fails with a login error; once one has, none of the later ones is
      logging in. And the profile is held exactly when some login that failed had begun after the
      last success: a failure older than a success leaves no hold. */
  lemma OneFailedLoginPerInterval(acts: seq<Action>, t: nat)
    requires Legal(Init, acts)
    ensures var s := After(Init, acts);
      && s.fails <= 1
      && (s.held <==> s.ups in s.failGens)
      && (s.fails == 1 && t in s.starts && LoggingIn(s.starts[t]) ==> s.starts[t].since < s.ups)
  {
    InvRun(Init, acts);
  }

  /** Such a failure is counted, and holds the profile. */
  lemma FailureCounts(s: Profile, t: nat)
    requires Inv(s) && Enabled(s, SetHold(t)) && s.starts[t].loginError
    ensures Apply(s, SetHold(t)).held <==> s.held || s.starts[t].gen == s.ups
    ensures s.starts[t].down && s.starts[t].since == s.ups ==>
      s.fails == 0 && Apply(s, SetHold(t)).fails == 1 && Apply(s, SetHold(t)).held
  {
    assert LoggingIn(s.starts[t]) == s.starts[t].down;
  }

  predicate StartsTunnel(acts: seq<Action>) {
    Started in acts
  }

  /** Once the tunnel is lost, every client that comes before the next successful start takes its turn. */
  lemma {:induction false} TurnsWhileDown(s: Profile, acts: seq<Action>, t: nat)
    requires (s.running ==> acts != [] && acts[0] == Down) && Legal(s, acts) && !StartsTunnel(acts)
    requires t in s.starts ==> !s.starts[t].Fast?
    ensures !After(s, acts).running && (t in After(s, acts).starts ==> !After(s, acts).starts[t].Fast?)
    decreases |acts|
  {
    if acts != [] {
      assert acts[0] in acts;
      TurnsWhileDown(Apply(s, acts[0]), acts[1..], t);
    }
  }

  /** From a successful start on, until the tunnel is lost, every client that comes goes ahead at once. */
  lemma {:induction false} FastWhileUp(s: Profile, acts: seq<Action>, t: nat)
    requires (!s.running ==> acts != [] && acts[0] == Started) && Legal(s, acts) && Down !in acts && !At(s, t)
    ensures After(s, acts).running && (t in After(s, acts).starts ==> After(s, acts).starts[t].Fast?)
    decreases |acts|
  {
    if acts != [] {
      assert acts[0] in acts;
      var s' := Apply(s, acts[0]);
      if At(s', t) { FastStays(s', acts[1..], t); } else { FastWhileUp(s', acts[1..], t); }
    }
  }

  lemma {:induction false} FastStays(s: Profile, acts: seq<Action>, t: nat)
    requires s.running && Legal(s, acts) && Down !in acts && At(s, t) && s.starts[t].Fast?
    ensures After(s, acts).running && At(After(s, acts), t) && After(s, acts).starts[t].Fast?
    decreases |acts|
  {
    if acts != [] {
      assert acts[0] in acts;
      FastStays(Apply(s, acts[0]), acts[1..], t);
    }
  }

  /** A start that has not come past the hold check, in the right way for a held profile. */
  predicate NotLoggingIn(s: Profile, t: nat) {
    t in s.starts ==> !LoggingIn(s.starts[t])
  }

  /** Until the next successful start the profile stays held; no start that had not passed the hold
      check by now, and none still to come, logs in after finding the tunnel down; and one that has
      found it down is still before the check or has been refused. */
  lemma {:induction false} RefusedWhileHeld(s: Profile, acts: seq<Action>, t: nat)
    requires s.held && Legal(s, acts) && !StartsTunnel(acts) && NotLoggingIn(s, t)
    ensures After(s, acts).held && NotLoggingIn(After(s, acts), t)
    ensures t in s.starts && (s.starts[t].Checking? || s.starts[t].Refused?) ==>
      t in After(s, acts).starts && (After(s, acts).starts[t] == s.starts[t] || After(s, acts).starts[t].Refused?)
    decreases |acts|
  {
    if acts != [] {
      var s' := Apply(s, acts[0]);
      assert acts[0] in acts && s'.held && NotLoggingIn(s', t);
      RefusedWhileHeld(s', acts[1..], t);
    }
  }

  /** From the failure of the one login an interval allows until the next success, a start that logs
      in after finding the tunnel down had passed the hold check before that failure and belongs to an
      earlier interval. */
  lemma NoLoginAfterFailure(before: seq<Action>, acts: seq<Action>, t: nat)
    requires Legal(Init, before) && After(Init, before).fails == 1
    requires Legal(After(Init, before), acts) && !StartsTunnel(acts)
    ensures var s, s' := After(Init, before), After(After(Init, before), acts);
      s'.held && (!NotLoggingIn(s', t) ==> !NotLoggingIn(s, t) && s.starts[t].since < s.ups)
  {
    var s := After(Init, before);
    InvRun(Init, before);
    if NotLoggingIn(s, t) { RefusedWhileHeld(s, acts, t); } else { HeldStays(s, acts); }
  }

  lemma {:induction false} HeldStays(s: Profile, acts: seq<Action>)
    requires s.held && Legal(s, acts) && !StartsTunnel(acts)
    ensures After(s, acts).held
    decreases |acts|
  {
    if acts != [] {
      assert acts[0] in acts;
      HeldStays(Apply(s, acts[0]), acts[1..]);
    }
  }

  /** A hold check of start t is taken while the profile is held. */
  ghost predicate CheckedWhileHeld(s: Profile, acts: seq<Action>, t: nat)
    requires Legal(s, acts)
    decreases |acts|
  {
    acts != [] && ((acts[0] == CheckHeld(t) && s.held) || CheckedWhileHeld(Apply(s, acts[0]), acts[1..], t))
  }

  /** Start t looks at the tunnel under the mutex, finds it down, and later meets the hold. */
  ghost predicate FoundDownThenHeld(s: Profile, acts: seq<Action>, t: nat)
    requires Legal(s, acts)
    decreases |acts|
  {
    acts != [] &&
    var s' := Apply(s, acts[0]);
    (acts[0] == CheckRunning(t) && !s.running && CheckedWhileHeld(s', acts[1..], t))
    || FoundDownThenHeld(s', acts[1..], t)
  }

  predicate IsRefused(s: Profile, t: nat) {
    t in s.starts && s.starts[t].Refused?
  }

  /** A start is past the point where it looks at the tunnel again. */
  predicate PastLook(s: Profile, t: nat) {
    t in s.starts && !s.starts[t].Waiting? && !s.starts[t].Locked?
  }

  lemma {:induction false} RefusedStays(s: Profile, acts: seq<Action>, t: nat)
    requires PastLook(s, t) && Legal(s, acts)
    ensures PastLook(After(s, acts), t) && (IsRefused(s, t) ==> IsRefused(After(s, acts), t))
    ensures !s.starts[t].Checking? ==> (IsRefused(After(s, acts), t) <==> IsRefused(s, t))
    ensures !FoundDownThenHeld(s, acts, t)
    decreases |acts|
  {
    if acts != [] { RefusedStays(Apply(s, acts[0]), acts[1..], t); }
  }

  lemma {:induction false} RefusedAtCheck(s: Profile, acts: seq<Action>, t: nat)
    requires t in s.starts && s.starts[t].Checking? && Legal(s, acts)
    ensures IsRefused(After(s, acts), t) <==> CheckedWhileHeld(s, acts, t)
    decreases |acts|
  {
    if acts != [] {
      var s' := Apply(s, acts[0]);
      if acts[0] == CheckHeld(t) {
        RefusedStays(s', acts[1..], t);
        if !s.held { CheckedOnce(s', acts[1..], t); }
      } else {
        RefusedAtCheck(s', acts[1..], t);
      }
    }
  }

  lemma {:induction false} CheckedOnce(s: Profile, acts: seq<Action>, t: nat)
    requires PastLook(s, t) && !s.starts[t].Checking? && Legal(s, acts)
    ensures !CheckedWhileHeld(s, acts, t)
    decreases |acts|
  {
    if acts != [] { CheckedOnce(Apply(s, acts[0]), acts[1..], t); }
  }

  /** For every run: a proxy start is refused if and only if it found the tunnel down, under the mutex,
      and the profile held after that. One that finds the tunnel running is never refused. */
  lemma {:induction false} RefusedExactly(s: Profile, acts: seq<Action>, t: nat)
    requires Legal(s, acts) && !PastLook(s, t)
    ensures IsRefused(After(s, acts), t) <==> FoundDownThenHeld(s, acts, t)
    decreases |acts|
  {
    if acts != [] {
      var s' := Apply(s, acts[0]);
      if !PastLook(s', t) {
        RefusedExactly(s', acts[1..], t);
      } else {
        RefusedStays(s', acts[1..], t);
        if acts[0] == CheckRunning(t) && !s.running { RefusedAtCheck(s', acts[1..], t); }
      }
    }
  }

  // ---- the table of all profiles ----

  datatype Hold = Hold(refused: nat)

  /** How a start of the tunnel ends. */
  datatype Outcome = Up | LoginNotFinished | OtherError

  // The steps of a start nothing comes between.

  lemma ArriveStep(s: Profile, t: nat)
    requires t !in s.starts
    ensures Enabled(s, Arrive(t))
    ensures var s' := Apply(s, Arrive(t));
      && s'.starts == s.starts[t := if s.running then Fast else Waiting]
      && s'.held == s.held && s'.ups == s.ups && s'.mutex == s.mutex
  {
  }

  lemma DownSteps(s: Profile, t: nat)
    requires t !in s.starts && !s.running && s.mutex == None
    ensures var s1 := Apply(s, Arrive(t));
      && Enabled(s1, Lock(t))
      && Enabled(Apply(s1, Lock(t)), CheckRunning(t))
      && Enabled(Apply(Apply(s1, Lock(t)), CheckRunning(t)), CheckHeld(t))
    ensures var s' := Apply(Apply(Apply(Apply(s, Arrive(t)), Lock(t)), CheckRunning(t)), CheckHeld(t));
      && s'.starts == s.starts[t := if s.held then Refused else Unheld(s.ups, true)]
      && s'.held == s.held && s'.ups == s.ups && (s.held ==> s'.mutex == None)
  {
    var s1 := Apply(s, Arrive(t));
    var s2 := Apply(s1, Lock(t));
    var s3 := Apply(s2, CheckRunning(t));
    assert s3.starts == s.starts[t := Checking(s.ups)];
  }

  lemma ReadGenStep(s: Profile, t: nat)
    requires t in s.starts && s.starts[t].Unheld?
    ensures Enabled(s, ReadGen(t))
    ensures var s' := Apply(s, ReadGen(t));
      && s'.starts == s.starts[t := Login(s.starts[t].since, s.starts[t].down, s.ups)]
      && s'.held == s.held && s'.ups == s.ups
  {
  }

  lemma UpSteps(s: Profile, t: nat)
    requires t in s.starts && s.starts[t].Login?
    ensures Enabled(s, Started) && Enabled(Apply(s, Started), LoginWorks(t))
    ensures var s' := Apply(Apply(s, Started), LoginWorks(t));
      !s'.held && s'.ups == s.ups + 1 && s'.mutex == None && s'.starts.Keys == s.starts.Keys
  {
  }

  lemma FailedSteps(s: Profile, t: nat, loginError: bool)
    requires t in s.starts && s.starts[t].Login? && s.starts[t].gen == s.ups
    ensures Enabled(s, LoginFails(t, loginError)) && Enabled(Apply(s, LoginFails(t, loginError)), SetHold(t))
    ensures var p := Apply(s, LoginFails(t, loginError)).starts;
      t in p && p[t].Failing? && p[t].loginError == loginError && p[t].gen == s.ups
    ensures var s' := Apply(Apply(s, LoginFails(t, loginError)), SetHold(t));
      && s'.held == (s.held || loginError) && s'.ups == s.ups && s'.mutex == None
      && s'.starts.Keys == s.starts.Keys
  {
  }

  class LoginHolds {
    var m: map<string, Hold>
    var ups: map<string, nat>
    var start: map<string, nat>   // each profile's start mutex, by handle
    var nextMutex: nat
    ghost var profiles: map<string, Profile>

    /** The profile's state in the transition system above. */
    ghost function Of(id: string): Profile
      reads this`profiles
    {
      if id in profiles then profiles[id] else Init
    }

    ghost predicate Valid()
      reads this
    {
      && (forall id :: id in start ==> start[id] < nextMutex)
      && (forall i, j :: i in start && j in start && start[i] == start[j] ==> i == j)
      && (forall id :: (id in m <==> Of(id).held) && Ups(id) == Of(id).ups)
    }

    constructor ()
      ensures Valid() && m == map[] && ups == map[] && start == map[] && profiles == map[]
    {
      m, ups, start, nextMutex, profiles := map[], map[], map[], 0, map[];
    }

    function Ups(id: string): nat
      reads this`ups
    {
      if id in ups then ups[id] else 0
    }

    /** The profile's own start mutex, always the same one and no other profile's. */
    method StartMutex(id: string) returns (mu: nat)
      requires Valid()
      modifies this`start, this`nextMutex
      ensures Valid() && id in start && mu == start[id]
      ensures forall i :: i in old(start) ==> i in start && start[i] == old(start)[i]
    {
      if id !in start {
        start := start[id := nextMutex];
        nextMutex := nextMutex + 1;
      }
      mu := start[id];
    }

    /** Start t reads how many starts have succeeded. */
    method LoginUps(id: string, ghost t: nat) returns (gen: nat)
      requires Valid() && Enabled(Of(id), ReadGen(t))
      modifies this`profiles
      ensures Valid() && profiles == old(profiles)[id := Apply(old(Of(id)), ReadGen(t))]
      ensures gen == Of(id).starts[t].gen
    {
      gen := if id in ups then ups[id] else 0;
      profiles := profiles[id := Apply(Of(id), ReadGen(t))];
    }

    /** Start t, which found the tunnel down, asks whether proxy starts are held; a refusal is counted. */
    method LoginHeld(id: string, ghost t: nat) returns (held: bool)
      requires Valid() && Enabled(Of(id), CheckHeld(t))
      modifies this`m, this`profiles
      ensures Valid() && profiles == old(profiles)[id := Apply(old(Of(id)), CheckHeld(t))]
      ensures held <==> Of(id).starts[t].Refused?
      ensures m == if held then old(m)[id := Hold(old(m)[id].refused + 1)] else old(m)
    {
      held := id in m;
      if held { m := m[id := Hold(m[id].refused + 1)]; }
      profiles := profiles[id := Apply(Of(id), CheckHeld(t))];
    }

    /** Start t failed: the profile is put on hold unless a start succeeded since gen; told says
        whether the user is. */
    method HoldAfterLogin(id: string, ghost t: nat, loginError: bool, gen: nat) returns (told: bool)
      requires Valid() && Enabled(Of(id), SetHold(t))
      requires Of(id).starts[t].loginError == loginError && Of(id).starts[t].gen == gen
      modifies this`m, this`profiles
      ensures Valid() && profiles == old(profiles)[id := Apply(old(Of(id)), SetHold(t))]
      ensures told <==> loginError && gen == old(Ups(id)) && id !in old(m)
      ensures m == if told then old(m)[id := Hold(0)] else old(m)
    {
      told := false;
      if loginError && Ups(id) == gen && id !in m {
        m := m[id := Hold(0)];
        told := true;
      }
      profiles := profiles[id := Apply(Of(id), SetHold(t))];
    }

    /** A start succeeded: the hold is lifted. */
    method TunnelStarted(id: string)
      requires Valid()
      modifies this`m, this`ups, this`profiles
      ensures Valid() && profiles == old(profiles)[id := Apply(old(Of(id)), Started)]
      ensures m == old(m) - {id}
    {
      ups := ups[id := (if id in ups then ups[id] else 0) + 1];
      m := m - {id};
      profiles := profiles[id := Apply(Of(id), Started)];
      forall i ensures (i in m <==> Of(i).held) && Ups(i) == Of(i).ups {
        assert i != id ==> Of(i) == old(Of(i)) && Ups(i) == old(Ups(i));
      }
    }

    /** The steps that do not touch the table: clients arriving, mutexes, logins, lost tunnels. */
    ghost method Elsewhere(id: string, act: Action)
      requires Valid() && Enabled(Of(id), act)
      requires !act.ReadGen? && !act.CheckHeld? && !act.SetHold? && act != Started
      modifies this`profiles
      ensures Valid() && profiles == old(profiles)[id := Apply(old(Of(id)), act)]
    {
      profiles := profiles[id := Apply(Of(id), act)];
    }

    /** A client that found the tunnel down takes the mutex, looks again and asks about the hold. */
    method HoldCheck(id: string, ghost t: nat) returns (refused: bool)
      requires Valid() && t !in Of(id).starts && !Of(id).running && Of(id).mutex == None
      modifies this
      ensures Valid() && refused == (id in old(m)) == old(Of(id).held)
      ensures profiles == old(profiles)[id := Of(id)] && Of(id).held == refused && Of(id).ups == old(Of(id)).ups
      ensures id in start
      ensures refused ==> Of(id).mutex == None && Of(id).starts == old(Of(id)).starts[t := Refused]
      ensures !refused ==> Of(id).starts == old(Of(id)).starts[t := Unheld(Of(id).ups, true)]
    {
      hide Apply, Enabled, Valid;
      Table(id);
      ghost var s := Of(id);
      ArriveStep(s, t);
      DownSteps(s, t);
      Elsewhere(id, Arrive(t));
      var _ := StartMutex(id);
      Elsewhere(id, Lock(t));
      Elsewhere(id, CheckRunning(t));
      refused := LoginHeld(id, t);
    }

    /** Past the hold check: the login, and the hold when it does not finish. */
    method LogIn(id: string, ghost t: nat, outcome: Outcome)
      requires Valid() && t in Of(id).starts && Of(id).starts[t].Unheld? && !Of(id).held
      modifies this
      ensures Valid() && profiles == old(profiles)[id := Of(id)]
      ensures Of(id).mutex == None && Of(id).starts.Keys == old(Of(id)).starts.Keys && start == old(start)
      ensures Of(id).held == (outcome == LoginNotFinished)
      ensures Of(id).ups == old(Of(id)).ups + if outcome == Up then 1 else 0
    {
      hide Apply, Enabled, Valid;
      ReadGenStep(Of(id), t);
      var gen := LoginUps(id, t);
      if outcome == Up {
        UpSteps(Of(id), t);
        TunnelStarted(id);
        Elsewhere(id, LoginWorks(t));
      } else {
        FailedSteps(Of(id), t, outcome == LoginNotFinished);
        Elsewhere(id, LoginFails(t, outcome == LoginNotFinished));
        var _ := HoldAfterLogin(id, t, outcome == LoginNotFinished, gen);
      }
    }

    /** One proxy client's start of the tunnel, with no other step of the profile in between: running
        and outcome are what the tunnel says. Refused exactly when the tunnel is down and the profile is
        held; a login that does not finish leaves the profile held, one that does lifts the hold. */
    method EnsureTunnelFromProxy(id: string, ghost t: nat, running: bool, outcome: Outcome) returns (refused: bool)
      requires Valid() && Of(id).mutex == None && t !in Of(id).starts && Of(id).running == running
      modifies this
      ensures Valid() && refused == (!running && id in old(m))
      ensures Of(id).mutex == None && Of(id).starts.Keys == old(Of(id)).starts.Keys + {t}
      ensures !running ==> id in start
      ensures running || refused ==> Ups(id) == old(Ups(id)) && (id in m <==> id in old(m))
      ensures !running && !refused ==>
        && (id in m <==> outcome == LoginNotFinished)
        && Ups(id) == old(Ups(id)) + if outcome == Up then 1 else 0
      ensures forall i :: i != id ==> Of(i) == old(Of(i))
    {
      hide Apply, Enabled, Valid;
      Table(id);
      refused := false;
      if running {
        ArriveStep(Of(id), t);
        Elsewhere(id, Arrive(t));
      } else {
        refused := HoldCheck(id, t);
        if !refused { LogIn(id, t, outcome); }
      }
      Table(id);
    }

    lemma Table(id: string)
      requires Valid()
      ensures (id in m <==> Of(id).held) && Ups(id) == Of(id).ups
    {
    }
  }
}
