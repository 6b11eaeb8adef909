/** One download folder per host, with names different ignoring case. */
module FleetDirs {
  import opened FileNames
  import opened Text

  datatype Host = Host(id: string, name: string, hostname: string)

  function NameOf(h: Host): string {
    if h.name != "" then h.name else if h.hostname != "" then h.hostname else "host"
  }

  function Base(h: Host): string {
    SafeFileName(NameOf(h))
  }

  /** The base itself, then base-2, base-3 and so on. */
  function Candidate(base: string, k: nat): string {
    if k < 2 then base else base + "-" + Decimal(k)
  }

  lemma CandidateIs(base: string, k: nat)
    ensures Candidate(base, k) == if k < 2 then base else base + "-" + Decimal(k)
  {
  }

  /** strings.ToLower maps character by character; digits and the hyphen stay. */
  ghost predicate IsLower(lower: char -> char) {
    lower('-') == '-' && forall c :: '0' <= c <= '9' ==> lower(c) == c
  }

  function Lower(lower: char -> char, s: string): string {
    seq(|s|, i requires 0 <= i < |s| => lower(s[i]))
  }

  /** name is the first candidate of base not used yet. */
  ghost predicate FirstFree(lower: char -> char, base: string, used: set<string>, name: string) {
    exists k: nat :: IsFirstFree(lower, base, used, name, k)
  }

  ghost predicate IsFirstFree(lower: char -> char, base: string, used: set<string>, name: string, k: nat) {
    && k >= 1 && name == Candidate(base, k) && Lower(lower, name) !in used
    && forall j :: 1 <= j < k ==> Lower(lower, Candidate(base, j)) in used
  }

  ghost function Taken(lower: char -> char, names: seq<string>): set<string> {
    set n | n in names :: Lower(lower, n)
  }

  /** Every host in turn gets the first candidate no earlier host has, ignoring case. */
  ghost predicate Assigned(lower: char -> char, hosts: seq<Host>, names: seq<string>) {
    && |names| == |hosts|
    && forall i :: 0 <= i < |hosts| ==> FirstFree(lower, Base(hosts[i]), Taken(lower, names[..i]), names[i])
  }

  /** The folder of an id is that of its last host. */
  ghost predicate IsDirMap(hosts: seq<Host>, names: seq<string>, out: map<string, string>)
    requires |names| == |hosts|
  {
    && (forall id :: id in out ==> exists i :: 0 <= i < |hosts| && hosts[i].id == id)
    && (forall i :: 0 <= i < |hosts| && Last(hosts, i) ==> hosts[i].id in out && out[hosts[i].id] == names[i])
  }

  ghost predicate Last(hosts: seq<Host>, i: nat)
    requires i < |hosts|
  {
    forall j :: i < j < |hosts| ==> hosts[j].id != hosts[i].id
  }

  /** t is one of the first n candidates, ignoring case. */
  ghost predicate Tried(lower: char -> char, base: string, n: nat, t: string) {
    exists j: nat :: 1 <= j <= n && Lower(lower, Candidate(base, j)) == t
  }

  lemma NextIsNew(lower: char -> char, base: string, n: nat)
    requires IsLower(lower)
    ensures !Tried(lower, base, n, Lower(lower, Candidate(base, n + 1)))
  {
    hide Lower, Candidate;
    forall j: nat | 1 <= j <= n ensures Lower(lower, Candidate(base, j)) != Lower(lower, Candidate(base, n + 1)) {
      CandidatesDiffer(lower, base, j, n + 1);
    }
  }

  lemma CandidatesDiffer(lower: char -> char, base: string, j: nat, k: nat)
    requires IsLower(lower) && 1 <= j < k
    ensures Lower(lower, Candidate(base, j)) != Lower(lower, Candidate(base, k))
  {
    hide Decimal;
    var a, b := Lower(lower, Candidate(base, j)), Lower(lower, Candidate(base, k));
    if a == b {
      assert |a| == |Candidate(base, j)| && |b| == |Candidate(base, k)|;
      if j >= 2 {
        assert forall i :: 0 <= i < |Decimal(j)| ==> a[|base| + 1 + i] == Decimal(j)[i];
        assert forall i :: 0 <= i < |Decimal(k)| ==> b[|base| + 1 + i] == Decimal(k)[i];
        assert Decimal(j) == Decimal(k);
        DecimalInjective(j, k);
      }
    }
  }

  lemma MoreTried(lower: char -> char, base: string, n: nat)
    ensures forall t :: Tried(lower, base, n, t) ==> Tried(lower, base, n + 1, t)
    ensures Tried(lower, base, n + 1, Lower(lower, Candidate(base, n + 1)))
  {
  }

  method FirstFreeName(lower: char -> char, base: string, used: set<string>) returns (name: string)
    requires IsLower(lower)
    ensures FirstFree(lower, base, used, name)
  {
    hide Candidate, Lower, IsLower, Decimal, Tried;
    name := base;
    CandidateIs(base, 1);
    var n := 2;
    ghost var tried: set<string> := {};
    while Lower(lower, name) in used
      invariant n >= 2 && name == Candidate(base, n - 1)
      invariant forall j :: 1 <= j < n - 1 ==> Lower(lower, Candidate(base, j)) in used
      invariant tried <= used && forall t :: t in tried ==> Tried(lower, base, n - 2, t)
      decreases |used - tried|
    {
      NextIsNew(lower, base, n - 2);
      MoreTried(lower, base, n - 2);
      ghost var now := tried + {Lower(lower, name)};
      assert used - now == (used - tried) - {Lower(lower, name)};
      name := base + "-" + Decimal(n);
      CandidateIs(base, n);
      n := n + 1;
      tried := now;
    }
    assert IsFirstFree(lower, base, used, name, n - 1);
  }

  lemma OneMore(lower: char -> char, hosts: seq<Host>, names: seq<string>, h: Host, name: string)
    requires Assigned(lower, hosts, names) && FirstFree(lower, Base(h), Taken(lower, names), name)
    ensures Assigned(lower, hosts + [h], names + [name])
    ensures Taken(lower, names + [name]) == Taken(lower, names) + {Lower(lower, name)}
  {
    hide FirstFree, Base, Lower;
    var hs, ns := hosts + [h], names + [name];
    forall i | 0 <= i < |hs| ensures FirstFree(lower, Base(hs[i]), Taken(lower, ns[..i]), ns[i]) {
      if i < |hosts| {
        assert ns[..i] == names[..i];
      } else {
        assert ns[..i] == names;
      }
    }
    assert forall n :: n in ns <==> n in names || n == name;
  }

  lemma OneMoreInMap(hosts: seq<Host>, names: seq<string>, out: map<string, string>, h: Host, name: string)
    requires |names| == |hosts| && IsDirMap(hosts, names, out)
    ensures IsDirMap(hosts + [h], names + [name], out[h.id := name])
  {
    var hs, ns, o := hosts + [h], names + [name], out[h.id := name];
    forall id | id in o ensures exists i :: 0 <= i < |hs| && hs[i].id == id {
      if id == h.id {
        assert hs[|hosts|].id == id;
      } else {
        var i :| 0 <= i < |hosts| && hosts[i].id == id;
        assert hs[i].id == id;
      }
    }
    hide Last;
    forall i | 0 <= i < |hs| && Last(hs, i) ensures hs[i].id in o && o[hs[i].id] == ns[i] {
      if i < |hosts| { LastBefore(hosts, h, i); }
    }
  }

  lemma LastBefore(hosts: seq<Host>, h: Host, i: nat)
    requires i < |hosts| && Last(hosts + [h], i)
    ensures Last(hosts, i) && hosts[i].id != h.id
  {
    var hs := hosts + [h];
    assert hs[|hosts|] == h && forall j :: i < j < |hosts| ==> hosts[j] == hs[j];
  }

  lemma {:induction false} LastWith(hosts: seq<Host>, id: string, i: nat) returns (k: nat)
    requires i < |hosts| && hosts[i].id == id
    ensures i <= k < |hosts| && hosts[k].id == id && Last(hosts, k)
    decreases |hosts| - i
  {
    k := i;
    if j :| i < j < |hosts| && hosts[j].id == id { k := LastWith(hosts, id, j); }
  }

  /** No two names are equal ignoring case. */
  lemma AssignedDistinct(lower: char -> char, hosts: seq<Host>, names: seq<string>, i: nat, j: nat)
    requires Assigned(lower, hosts, names) && i < j < |names|
    ensures Lower(lower, names[i]) != Lower(lower, names[j])
  {
    assert FirstFree(lower, Base(hosts[j]), Taken(lower, names[..j]), names[j]);
    assert names[..j][i] == names[i];
  }

  lemma BaseIsCleaned(h: Host)
    ensures Cleaned(Base(h))
  {
    hide Cleaned;
    SafeIsCleaned(NameOf(h));
  }

  /** Every name is cleaned, the suffixed ones too. */
  lemma AssignedCleaned(lower: char -> char, hosts: seq<Host>, names: seq<string>, i: nat)
    requires Assigned(lower, hosts, names) && i < |names|
    ensures Cleaned(names[i])
  {
    hide Cleaned, Lower, Base;
    var base := Base(hosts[i]);
    BaseIsCleaned(hosts[i]);
    assert FirstFree(lower, base, Taken(lower, names[..i]), names[i]);
    var k: nat :| IsFirstFree(lower, base, Taken(lower, names[..i]), names[i], k);
    SuffixKeepsCleaned(base, k);
  }

  /** Some earlier name is t, ignoring case. */
  ghost predicate Used(lower: char -> char, names: seq<string>, i: nat, t: string)
    requires i <= |names|
  {
    exists j :: 0 <= j < i && Lower(lower, names[j]) == Lower(lower, t)
  }

  /** Which name a host gets: the cleaned connection name, else the cleaned host name, else "host" - bare when
      no earlier folder has it, otherwise with the first of -2, -3 and so on that none has. */
  lemma AssignedFor(lower: char -> char, hosts: seq<Host>, names: seq<string>, i: nat, own: string) returns (k: nat)
    requires Assigned(lower, hosts, names) && i < |names|
    requires hosts[i].name != "" ==> own == hosts[i].name
    requires hosts[i].name == "" && hosts[i].hostname != "" ==> own == hosts[i].hostname
    requires hosts[i].name == "" && hosts[i].hostname == "" ==> own == "host"
    ensures var base := SafeFileName(own);
      && k >= 1 && names[i] == (if k == 1 then base else base + "-" + Decimal(k))
      && !Used(lower, names, i, names[i])
      && (k > 1 ==> Used(lower, names, i, base))
      && forall m :: 2 <= m < k ==> Used(lower, names, i, base + "-" + Decimal(m))
  {
    hide Lower, SafeFileName, Decimal;
    var base := Base(hosts[i]);
    assert FirstFree(lower, base, Taken(lower, names[..i]), names[i]);
    k :| IsFirstFree(lower, base, Taken(lower, names[..i]), names[i], k);
    TakenIsUsed(lower, names, i);
    if k > 1 { assert Candidate(base, 1) == base; }
    forall m | 2 <= m < k ensures Used(lower, names, i, base + "-" + Decimal(m)) {
      assert Candidate(base, m) == base + "-" + Decimal(m);
    }
  }

  lemma TakenIsUsed(lower: char -> char, names: seq<string>, i: nat)
    requires i <= |names|
    ensures forall t :: Lower(lower, t) in Taken(lower, names[..i]) <==> Used(lower, names, i, t)
  {
    hide Lower;
    forall t ensures Lower(lower, t) in Taken(lower, names[..i]) <==> Used(lower, names, i, t) {
      if Lower(lower, t) in Taken(lower, names[..i]) {
        var n :| n in names[..i] && Lower(lower, n) == Lower(lower, t);
        var j :| 0 <= j < i && names[j] == n;
      }
      if j :| 0 <= j < i && Lower(lower, names[j]) == Lower(lower, t) { assert names[j] in names[..i]; }
    }
  }

  /** Windows takes an assigned name as an ordinary one exactly when the host's own name slips past no
      gap in the list of device names, or a suffix saves it. */
  lemma AssignedOnWindows(lower: char -> char, hosts: seq<Host>, names: seq<string>, i: nat)
    requires Assigned(lower, hosts, names) && i < |names|
    ensures WindowsName(names[i]) <==>
      !Unlisted(ComparedStem(NameOf(hosts[i]))) || (names[i] != Base(hosts[i]) && '.' !in Base(hosts[i]))
  {
    hide Cleaned, Lower, WindowsName, Unlisted, ComparedStem, SafeFileName;
    var base := Base(hosts[i]);
    BaseIsCleaned(hosts[i]);
    SafeOnWindows(NameOf(hosts[i]));
    assert FirstFree(lower, base, Taken(lower, names[..i]), names[i]);
    var k: nat :| IsFirstFree(lower, base, Taken(lower, names[..i]), names[i], k);
    SuffixOnWindows(base, k);
    if k >= 2 { assert |base + "-" + Decimal(k)| > |base|; }
  }

  /** The names are determined by the hosts and their order. */
  lemma {:induction false} AssignedOnce(lower: char -> char, hosts: seq<Host>, a: seq<string>, b: seq<string>)
    requires Assigned(lower, hosts, a) && Assigned(lower, hosts, b)
    ensures a == b
    decreases |hosts|
  {
    hide FirstFree, Base, Taken, Lower;
    if hosts != [] {
      var n := |hosts| - 1;
      AssignedPrefix(lower, hosts, a, n);
      AssignedPrefix(lower, hosts, b, n);
      AssignedOnce(lower, hosts[..n], a[..n], b[..n]);
      var base, used := Base(hosts[n]), Taken(lower, a[..n]);
      assert FirstFree(lower, base, used, a[n]) && FirstFree(lower, base, used, b[n]);
      FirstFreeOnce(lower, base, used, a[n], b[n]);
      assert a == a[..n] + [a[n]] && b == b[..n] + [b[n]];
    }
  }

  lemma AssignedPrefix(lower: char -> char, hosts: seq<Host>, names: seq<string>, n: nat)
    requires Assigned(lower, hosts, names) && n <= |hosts|
    ensures Assigned(lower, hosts[..n], names[..n])
  {
    hide FirstFree, Base, Taken;
    assert forall i :: 0 <= i < n ==> names[..n][..i] == names[..i];
  }

  lemma FirstFreeOnce(lower: char -> char, base: string, used: set<string>, a: string, b: string)
    requires FirstFree(lower, base, used, a) && FirstFree(lower, base, used, b)
    ensures a == b
  {
    hide Lower, Candidate;
    var j: nat :| IsFirstFree(lower, base, used, a, j);
    var k: nat :| IsFirstFree(lower, base, used, b, k);
    assert j < k || k < j || j == k;
  }

  method FleetHostDirs(lower: char -> char, hosts: seq<Host>)
      returns (out: map<string, string>, ghost names: seq<string>)
    requires IsLower(lower)
    ensures Assigned(lower, hosts, names) && IsDirMap(hosts, names, out)
    ensures forall a, b :: a in out && b in out && a != b ==> Lower(lower, out[a]) != Lower(lower, out[b])
    ensures forall id :: id in out ==> Cleaned(out[id])
  {
    hide FirstFree, Base, Lower, IsLower, Cleaned, Assigned, IsDirMap, Taken;
    out, names := map[], [];
    NoHosts(lower);
    var used: set<string> := {};
    for i := 0 to |hosts|
      invariant |names| == i && Assigned(lower, hosts[..i], names) && IsDirMap(hosts[..i], names, out)
      invariant used == Taken(lower, names)
    {
      var h := hosts[i];
      var name := FirstFreeName(lower, Base(h), used);
      used := used + {Lower(lower, name)};
      OneMore(lower, hosts[..i], names, h, name);
      OneMoreInMap(hosts[..i], names, out, h, name);
      out := out[h.id := name];
      assert hosts[..i] + [h] == hosts[..i + 1];
      names := names + [name];
    }
    assert hosts[..|hosts|] == hosts;
    DirsDiffer(lower, hosts, names, out);
  }

  lemma NoHosts(lower: char -> char)
    ensures Assigned(lower, [], []) && IsDirMap([], [], map[]) && Taken(lower, []) == {}
  {
  }

  /** What the map gives: different ids get cleaned names different ignoring case. */
  lemma DirsDiffer(lower: char -> char, hosts: seq<Host>, names: seq<string>, out: map<string, string>)
    requires Assigned(lower, hosts, names) && IsDirMap(hosts, names, out)
    ensures forall a, b :: a in out && b in out && a != b ==> Lower(lower, out[a]) != Lower(lower, out[b])
    ensures forall id :: id in out ==> Cleaned(out[id])
  {
    hide Assigned, IsDirMap, Lower, Cleaned;
    forall a | a in out ensures Cleaned(out[a]) {
      var i := IndexOf(lower, hosts, names, out, a);
      AssignedCleaned(lower, hosts, names, i);
    }
    forall a, b | a in out && b in out && a != b ensures Lower(lower, out[a]) != Lower(lower, out[b]) {
      TwoDirsDiffer(lower, hosts, names, out, a, b);
    }
  }

  lemma TwoDirsDiffer(lower: char -> char, hosts: seq<Host>, names: seq<string>, out: map<string, string>, a: string,
      b: string)
    requires Assigned(lower, hosts, names) && IsDirMap(hosts, names, out)
    requires a in out && b in out && a != b
    ensures Lower(lower, out[a]) != Lower(lower, out[b])
  {
    hide Assigned, IsDirMap, Lower;
    var i := IndexOf(lower, hosts, names, out, a);
    var j := IndexOf(lower, hosts, names, out, b);
    if i < j { AssignedDistinct(lower, hosts, names, i, j); } else { AssignedDistinct(lower, hosts, names, j, i); }
  }

  lemma IndexOf(lower: char -> char, hosts: seq<Host>, names: seq<string>, out: map<string, string>, a: string)
      returns (i: nat)
    requires Assigned(lower, hosts, names) && IsDirMap(hosts, names, out) && a in out
    ensures i < |hosts| == |names| && hosts[i].id == a && out[a] == names[i]
  {
    var k :| 0 <= k < |hosts| && hosts[k].id == a;
    i := LastWith(hosts, a, k);
  }
}
