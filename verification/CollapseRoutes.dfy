/**
 Dropping routes that another route in the list already covers. An address is its bits, 32 of
 them or 128; a prefix is an address and how many leading bits count.
 */
module CollapseRoutes {
  import opened Wrappers

  type Address = seq<bool>

  datatype Prefix = Prefix(addr: Address, bits: nat)

  predicate Valid(p: Prefix) {
    |p.addr| in {32, 128} && p.bits <= |p.addr|
  }

  predicate IsMasked(p: Prefix) {
    Valid(p) && forall i :: p.bits <= i < |p.addr| ==> !p.addr[i]
  }

  function Masked(p: Prefix): (m: Prefix)
    requires Valid(p)
    ensures IsMasked(m) && m.bits == p.bits && |m.addr| == |p.addr|
    ensures forall a :: Contains(m, a) <==> Contains(p, a)
  {
    var m := Prefix(p.addr[..p.bits] + seq(|p.addr| - p.bits, i => false), p.bits);
    assert m.addr[..m.bits] == p.addr[..p.bits];
    m
  }

  /** netip.Prefix.Contains; addresses of the other family are never contained. */
  predicate Contains(p: Prefix, a: Address) {
    Valid(p) && |a| == |p.addr| && a[..p.bits] == p.addr[..p.bits]
  }

  /** q covers all of p. */
  predicate Within(q: Prefix, p: Prefix) {
    q.bits <= p.bits && Contains(q, p.addr)
  }

  /** An address is in a prefix when it has the prefix's leading bits. */
  lemma ContainsBitwise(p: Prefix, a: Address)
    requires Valid(p)
    ensures Contains(p, a) <==> |a| == |p.addr| && forall i :: 0 <= i < p.bits ==> a[i] == p.addr[i]
  {
    if |a| == |p.addr| {
      var x, y := a[..p.bits], p.addr[..p.bits];
      assert forall i :: 0 <= i < p.bits ==> x[i] == a[i] && y[i] == p.addr[i];
      assert x == y <==> forall i :: 0 <= i < p.bits ==> x[i] == y[i];
    }
  }

  /** An address of p that q, longer, does not have: p's own with bit k flipped. */
  function Flipped(p: Prefix, k: nat): (a: Address)
    requires Valid(p) && p.bits <= k < |p.addr|
    ensures Contains(p, a) && a[k] != p.addr[k]
  {
    var a := p.addr[k := !p.addr[k]];
    assert a[..p.bits] == p.addr[..p.bits];
    a
  }

  /** The test the loop makes is the one it is for: every address of p is one of q. */
  lemma WithinMeansCovers(q: Prefix, p: Prefix)
    requires IsMasked(p) && IsMasked(q)
    ensures Within(q, p) <==> forall a :: Contains(p, a) ==> Contains(q, a)
  {
    if Within(q, p) {
      forall a | Contains(p, a) ensures Contains(q, a) { ContainsWithin(q, p, a); }
    } else if forall a :: Contains(p, a) ==> Contains(q, a) {
      SelfContained(p);
      var a := Flipped(p, q.bits - 1);
      ContainsBitwise(q, a);
      ContainsBitwise(q, p.addr);
    }
  }

  predicate AllMasked(s: set<Prefix>) {
    forall p :: p in s ==> IsMasked(p)
  }

  /** The prefixes of s no other prefix of s covers. */
  function Outermost(s: set<Prefix>): (r: set<Prefix>)
    ensures r <= s
  {
    set p | p in s && forall q :: q in s && Within(q, p) ==> q == p
  }

  predicate Covered(s: set<Prefix>, a: Address) {
    exists p :: p in s && Contains(p, a)
  }

  lemma WithinTransitive(p: Prefix, q: Prefix, r: Prefix)
    requires IsMasked(p) && IsMasked(q) && IsMasked(r) && Within(p, q) && Within(q, r)
    ensures Within(p, r)
  {
    assert r.addr[..p.bits] == r.addr[..q.bits][..p.bits] == q.addr[..q.bits][..p.bits] == q.addr[..p.bits];
  }

  lemma SameBitsSamePrefix(p: Prefix, q: Prefix)
    requires IsMasked(p) && IsMasked(q) && Within(p, q) && p.bits == q.bits
    ensures p == q
  {
    forall i | 0 <= i < |p.addr| ensures p.addr[i] == q.addr[i] {
      if i < p.bits { assert p.addr[i] == p.addr[..p.bits][i] == q.addr[..p.bits][i]; }
    }
    assert p.addr == q.addr;
  }

  /** Two prefixes that share an address are one inside the other. */
  lemma SharedAddress(p: Prefix, q: Prefix, a: Address)
    requires IsMasked(p) && IsMasked(q) && Contains(p, a) && Contains(q, a) && p.bits <= q.bits
    ensures Within(p, q)
  {
    assert q.addr[..p.bits] == q.addr[..q.bits][..p.bits] == a[..q.bits][..p.bits] == a[..p.bits];
  }

  /** Every prefix is inside an outermost one. */
  lemma {:induction false} OutermostAbove(s: set<Prefix>, p: Prefix) returns (q: Prefix)
    requires AllMasked(s) && p in s
    ensures q in Outermost(s) && Within(q, p)
    decreases p.bits
  {
    if p in Outermost(s) {
      q := p;
    } else {
      var r :| r in s && Within(r, p) && r != p;
      if r.bits == p.bits { SameBitsSamePrefix(r, p); }
      q := OutermostAbove(s, r);
      WithinTransitive(q, r, p);
    }
  }

  lemma ContainsWithin(q: Prefix, p: Prefix, a: Address)
    requires IsMasked(p) && IsMasked(q) && Within(q, p) && Contains(p, a)
    ensures Contains(q, a)
  {
    assert a[..q.bits] == a[..p.bits][..q.bits] == p.addr[..p.bits][..q.bits] == p.addr[..q.bits];
  }

  /** Collapsing covers exactly the addresses it covered before, of either family. */
  lemma SameAddresses(s: set<Prefix>, a: Address)
    requires AllMasked(s)
    ensures Covered(Outermost(s), a) <==> Covered(s, a)
  {
    if Covered(s, a) {
      var p :| p in s && Contains(p, a);
      var q := OutermostAbove(s, p);
      ContainsWithin(q, p, a);
    }
  }

  /** No two of the kept prefixes share an address. */
  lemma KeptAreApart(s: set<Prefix>, p: Prefix, q: Prefix, a: Address)
    requires AllMasked(s) && p in Outermost(s) && q in Outermost(s) && Contains(p, a) && Contains(q, a)
    ensures p == q
  {
    if p.bits <= q.bits { SharedAddress(p, q, a); } else { SharedAddress(q, p, a); }
  }

  lemma OutermostTwice(s: set<Prefix>)
    requires AllMasked(s)
    ensures Outermost(Outermost(s)) == Outermost(s)
  {
  }

  /** Any other choice of prefixes from s that covers the same addresses has at least as many. */
  lemma KeptAreFewest(s: set<Prefix>, r: set<Prefix>)
    requires AllMasked(s) && r <= s
    requires forall a :: Covered(s, a) ==> Covered(r, a)
    ensures |Outermost(s)| <= |r|
  {
    FewestFor(s, Outermost(s), r);
  }

  lemma {:induction false} FewestFor(s: set<Prefix>, kept: set<Prefix>, r: set<Prefix>)
    requires AllMasked(s) && r <= s && kept <= Outermost(s)
    requires forall p :: p in kept ==> Covered(r, p.addr)
    ensures |kept| <= |r|
    decreases |kept|
  {
    if kept != {} {
      var p :| p in kept;
      var q :| q in r && Contains(q, p.addr);
      forall o | o in kept - {p} ensures Covered(r - {q}, o.addr) {
        var x :| x in r && Contains(x, o.addr);
        if x == q {
          // q reaches into both p and o, so it lies inside p, inside o, or above one of them.
          AtMostOneInside(s, p, o, q);
        }
      }
      FewestFor(s, kept - {p}, r - {q});
    }
  }

  lemma AtMostOneInside(s: set<Prefix>, p: Prefix, o: Prefix, q: Prefix)
    requires AllMasked(s) && p in Outermost(s) && o in Outermost(s) && q in s
    requires Contains(q, p.addr) && Contains(q, o.addr)
    ensures p == o
  {
    SelfContained(p);
    SelfContained(o);
    if q.bits <= p.bits { assert Within(q, p) && q == p; SharedAddress2(s, p, o); }
    else if q.bits <= o.bits { assert Within(q, o) && q == o; SharedAddress2(s, o, p); }
    else {
      SharedAddress(p, q, p.addr);
      SharedAddress(o, q, o.addr);
      SelfContained(q);
      KeptAreApart(s, p, o, q.addr);
    }
  }

  lemma SelfContained(p: Prefix)
    requires IsMasked(p)
    ensures Contains(p, p.addr)
  {
  }

  lemma SharedAddress2(s: set<Prefix>, p: Prefix, o: Prefix)
    requires AllMasked(s) && p in Outermost(s) && o in Outermost(s) && Contains(p, o.addr)
    ensures p == o
  {
    SelfContained(o);
    KeptAreApart(s, p, o, o.addr);
  }

  // ---- the loop ----

  /** The masked prefixes of the inputs that parse. */
  function Inputs(routes: seq<Option<Prefix>>): (s: set<Prefix>)
    requires forall r :: r in routes && r.Some? ==> Valid(r.value)
    ensures AllMasked(s)
  {
    set r | r in routes && r.Some? :: Masked(r.value)
  }

  predicate SortedByBits(ps: seq<Prefix>) {
    forall i, j :: 0 <= i < j < |ps| ==> ps[i].bits <= ps[j].bits
  }

  function Length(p: Prefix): int {
    p.bits
  }

  function Elems(ps: seq<Prefix>): set<Prefix> {
    set p | p in ps
  }

  lemma ElemsPrepend(x: Prefix, xs: seq<Prefix>)
    ensures Elems([x] + xs) == {x} + Elems(xs)
  {
    assert forall y :: y in [x] + xs <==> y == x || y in xs;
  }

  function Insert(ps: seq<Prefix>, p: Prefix, key: Prefix -> int): (r: seq<Prefix>)
    ensures Elems(r) == Elems(ps) + {p}
  {
    if ps == [] || key(p) < key(ps[0]) then
      ElemsPrepend(p, ps);
      [p] + ps
    else
      ElemsPrepend(ps[0], ps[1..]);
      ElemsPrepend(ps[0], Insert(ps[1..], p, key));
      assert ps == [ps[0]] + ps[1..];
      [ps[0]] + Insert(ps[1..], p, key)
  }

  predicate SortedBy(ps: seq<Prefix>, key: Prefix -> int) {
    forall i, j :: 0 <= i < j < |ps| ==> key(ps[i]) <= key(ps[j])
  }

  lemma {:induction false} InsertKeepsSorted(ps: seq<Prefix>, p: Prefix, key: Prefix -> int)
    requires SortedBy(ps, key)
    ensures SortedBy(Insert(ps, p, key), key)
  {
    if ps != [] && key(p) >= key(ps[0]) {
      var r := Insert(ps[1..], p, key);
      InsertKeepsSorted(ps[1..], p, key);
      forall i | 0 <= i < |r| ensures key(ps[0]) <= key(r[i]) {
        assert r[i] in Elems(r);
        if r[i] != p { var k :| 0 <= k < |ps[1..]| && ps[1..][k] == r[i]; assert ps[k + 1] == r[i]; }
      }
      assert Insert(ps, p, key) == [ps[0]] + r;
    }
  }

  /** Sorts by length; the order of equally long prefixes does not matter below. */
  method SortByBits(ps: seq<Prefix>) returns (out: seq<Prefix>)
    ensures SortedByBits(out) && Elems(out) == Elems(ps)
  {
    out := [];
    for i := 0 to |ps|
      invariant SortedBy(out, Length) && Elems(out) == Elems(ps[..i])
    {
      InsertKeepsSorted(out, ps[i], Length);
      assert ps[..i + 1] == ps[..i] + [ps[i]];
      out := Insert(out, ps[i], Length);
    }
    assert ps[..|ps|] == ps;
    assert forall i, j :: 0 <= i < j < |out| ==> Length(out[i]) <= Length(out[j]);
  }

  /** A list in the order of its texts; text ranks a prefix by its text among all texts. */
  predicate Ordered(ps: seq<Prefix>, text: Prefix -> int) {
    forall i, j :: 0 <= i < j < |ps| ==> text(ps[i]) < text(ps[j])
  }

  /** Masked prefixes have different texts. */
  ghost predicate Distinguishes(text: Prefix -> int) {
    forall p, q :: IsMasked(p) && IsMasked(q) && text(p) == text(q) ==> p == q
  }

  lemma SortedIsOrdered(ps: seq<Prefix>, text: Prefix -> int)
    requires Distinguishes(text)
    requires AllMasked(Elems(ps)) && SortedBy(ps, text) && Distinct(ps)
    ensures Ordered(ps, text)
  {
  }

  predicate Distinct(ps: seq<Prefix>) {
    forall i, j :: 0 <= i < j < |ps| ==> ps[i] != ps[j]
  }

  lemma {:induction false} InsertKeepsDistinct(ps: seq<Prefix>, p: Prefix, key: Prefix -> int)
    requires Distinct(ps) && p !in ps
    ensures Distinct(Insert(ps, p, key))
  {
    if ps != [] && key(p) >= key(ps[0]) {
      var r := Insert(ps[1..], p, key);
      InsertKeepsDistinct(ps[1..], p, key);
      forall i | 0 <= i < |r| ensures ps[0] != r[i] {
        assert r[i] in Elems(r);
        if r[i] != p { var k :| 0 <= k < |ps[1..]| && ps[1..][k] == r[i]; assert ps[k + 1] == r[i]; }
      }
      assert Insert(ps, p, key) == [ps[0]] + r;
    }
  }

  method SortByText(ps: seq<Prefix>, text: Prefix -> int) returns (out: seq<Prefix>)
    requires Distinguishes(text)
    requires AllMasked(Elems(ps)) && Distinct(ps)
    ensures Ordered(out, text) && Elems(out) == Elems(ps)
  {
    out := [];
    for i := 0 to |ps|
      invariant SortedBy(out, text) && Distinct(out) && Elems(out) == Elems(ps[..i])
    {
      assert ps[i] !in Elems(ps[..i]);
      assert ps[i] !in Elems(out);
      InsertKeepsSorted(out, ps[i], text);
      InsertKeepsDistinct(out, ps[i], text);
      assert ps[..i + 1] == ps[..i] + [ps[i]];
      out := Insert(out, ps[i], text);
    }
    assert ps[..|ps|] == ps;
    SortedIsOrdered(out, text);
  }

  /** A kept prefix is at most as long as a later one, so it is not inside it. */
  lemma NothingInside(p: Prefix, keep: seq<Prefix>)
    requires IsMasked(p) && forall k :: k in keep ==> IsMasked(k) && k.bits <= p.bits && !Within(k, p)
    ensures forall k :: k in keep ==> !Within(p, k)
  {
    forall k | k in keep ensures !Within(p, k) {
      if Within(p, k) {
        SameBitsSamePrefix(p, k);
        SelfContained(p);
      }
    }
  }

  predicate InsideSome(keep: seq<Prefix>, p: Prefix) {
    exists k :: 0 <= k < |keep| && Within(keep[k], p)
  }

  predicate Apart(keep: seq<Prefix>) {
    forall j, k :: 0 <= j < |keep| && 0 <= k < |keep| && Within(keep[j], keep[k]) ==> j == k
  }

  lemma KeptExactly(ps: seq<Prefix>, keep: seq<Prefix>)
    requires AllMasked(Elems(ps)) && Elems(keep) <= Elems(ps)
    requires forall p :: p in ps ==> InsideSome(keep, p)
    requires Apart(keep)
    ensures Elems(keep) == Outermost(Elems(ps)) && Distinct(keep)
  {
    forall i, j | 0 <= i < j < |keep| ensures keep[i] != keep[j] {
      assert keep[i] in Elems(keep);
      SelfContained(keep[i]);
    }
    forall n | 0 <= n < |keep| ensures keep[n] in Outermost(Elems(ps)) {
      var p := keep[n];
      assert p in Elems(keep);
      forall q | q in Elems(ps) && Within(q, p) ensures q == p {
        var k :| 0 <= k < |keep| && Within(keep[k], q);
        assert keep[k] in Elems(keep);
        WithinTransitive(keep[k], q, p);
        assert k == n;
        SameBitsSamePrefix(p, q);
      }
    }
    forall p | p in Outermost(Elems(ps)) ensures p in keep {
      var k :| 0 <= k < |keep| && Within(keep[k], p);
      assert keep[k] in Elems(keep);
    }
  }

  lemma NonEmptyElems(b: seq<Prefix>)
    ensures b != [] ==> Elems(b) != {}
  {
    if b != [] { assert b[0] in Elems(b); }
  }

  /** The result depends on nothing but which prefixes the list names: not on their order, nor on
      duplicates, nor on host bits or entries that do not parse. */
  lemma {:induction false} OrderedUnique(a: seq<Prefix>, b: seq<Prefix>, text: Prefix -> int)
    requires Ordered(a, text) && Ordered(b, text) && Elems(a) == Elems(b)
    ensures a == b
  {
    if a == [] {
      NonEmptyElems(b);
    } else {
      assert a[0] in Elems(b) && b != [];
      assert b[0] in Elems(a);
      var i :| 0 <= i < |b| && b[i] == a[0];
      var j :| 0 <= j < |a| && a[j] == b[0];
      assert a[0] == b[0];
      assert a == [a[0]] + a[1..] && b == [b[0]] + b[1..];
      forall p ensures p in Elems(a[1..]) <==> p in Elems(b[1..]) {
        assert p in Elems(a) <==> p in Elems(b);
        assert p in a[1..] ==> p in a && text(p) > text(a[0]);
        assert p in b[1..] ==> p in b && text(p) > text(b[0]);
      }
      assert Elems(a[1..]) == Elems(b[1..]);
      OrderedUnique(a[1..], b[1..], text);
    }
  }

  lemma MaskedStays(p: Prefix)
    requires IsMasked(p)
    ensures Masked(p) == p
  {
    assert Masked(p).addr == p.addr;
  }

  /** A list of prefixes as an input of its own. */
  function AsInput(ps: seq<Prefix>): seq<Option<Prefix>> {
    seq(|ps|, i requires 0 <= i < |ps| => Some(ps[i]))
  }

  lemma InputsOf(ps: seq<Prefix>)
    requires AllMasked(Elems(ps))
    ensures forall r :: r in AsInput(ps) && r.Some? ==> Valid(r.value)
    ensures Inputs(AsInput(ps)) == Elems(ps)
  {
    forall i | 0 <= i < |ps| ensures Valid(ps[i]) && Masked(ps[i]) == ps[i] {
      assert ps[i] in Elems(ps);
      MaskedStays(ps[i]);
    }
    forall p | p in ps ensures p in Inputs(AsInput(ps)) {
      var i :| 0 <= i < |ps| && ps[i] == p;
      assert AsInput(ps)[i] == Some(p) && Some(p) in AsInput(ps);
    }
  }

  /** out is what the loop below makes of routes. */
  predicate Collapses(routes: seq<Option<Prefix>>, text: Prefix -> int, out: seq<Prefix>)
    requires forall r :: r in routes && r.Some? ==> Valid(r.value)
  {
    Elems(out) == Outermost(Inputs(routes)) && Ordered(out, text)
  }

  /** Collapsing the result of a collapse gives that result, prefix for prefix. */
  lemma CollapsingAgainChangesNothing(routes: seq<Option<Prefix>>, text: Prefix -> int, out: seq<Prefix>,
      again: seq<Prefix>)
    requires forall r :: r in routes && r.Some? ==> Valid(r.value)
    requires Collapses(routes, text, out)
    ensures forall r :: r in AsInput(out) && r.Some? ==> Valid(r.value)
    ensures Collapses(AsInput(out), text, again) ==> again == out
  {
    InputsOf(out);
    OutermostTwice(Inputs(routes));
    if Collapses(AsInput(out), text, again) { OrderedUnique(again, out, text); }
  }

  method CollapseRoutes(routes: seq<Option<Prefix>>, text: Prefix -> int) returns (out: seq<Prefix>)
    requires forall r :: r in routes && r.Some? ==> Valid(r.value)
    requires Distinguishes(text)
    ensures Collapses(routes, text, out)
  {
    var ps: seq<Prefix> := [];
    for i := 0 to |routes|
      invariant Elems(ps) == Inputs(routes[..i])
    {
      assert routes[..i + 1] == routes[..i] + [routes[i]];
      if routes[i].Some? { ps := ps + [Masked(routes[i].value)]; }
      assert Inputs(routes[..i + 1]) == Inputs(routes[..i]) + if routes[i].Some? then {Masked(routes[i].value)} else {};
    }
    assert routes[..|routes|] == routes;
    ghost var all := Elems(ps);
    ps := SortByBits(ps);
    var keep: seq<Prefix> := [];
    for i := 0 to |ps|
      invariant Elems(keep) <= Elems(ps[..i])
      invariant forall j :: 0 <= j < i ==> InsideSome(keep, ps[j])
      invariant Apart(keep)
    {
      var covered := false;
      for n := 0 to |keep|
        invariant covered <==> InsideSome(keep[..n], ps[i])
      {
        assert keep[..n + 1] == keep[..n] + [keep[n]];
        assert keep[n] in Elems(ps[..i]);
        if keep[n].bits <= ps[i].bits && Contains(keep[n], ps[i].addr) { covered := true; }
        OneMore(keep[..n], keep[n], ps[i]);
      }
      assert keep[..|keep|] == keep;
      assert ps[i] in Elems(ps) && IsMasked(ps[i]);
      if !covered {
        NotKeptYet(ps, keep, i);
        keep := keep + [ps[i]];
      }
    }
    assert forall p :: p in ps ==> exists j :: 0 <= j < |ps| && ps[j] == p;
    KeptExactly(ps, keep);
    out := SortByText(keep, text);
  }

  lemma OneMore(keep: seq<Prefix>, k: Prefix, p: Prefix)
    ensures InsideSome(keep + [k], p) <==> InsideSome(keep, p) || Within(k, p)
  {
    if InsideSome(keep, p) {
      var n :| 0 <= n < |keep| && Within(keep[n], p);
      assert (keep + [k])[n] == keep[n];
    }
    if Within(k, p) { assert (keep + [k])[|keep|] == k; }
  }

  lemma NotKeptYet(ps: seq<Prefix>, keep: seq<Prefix>, i: nat)
    requires AllMasked(Elems(ps)) && SortedByBits(ps) && i < |ps| && Elems(keep) <= Elems(ps[..i])
    requires Apart(keep) && !InsideSome(keep, ps[i])
    requires forall j :: 0 <= j < i ==> InsideSome(keep, ps[j])
    ensures Apart(keep + [ps[i]]) && Elems(keep + [ps[i]]) <= Elems(ps[..i + 1])
    ensures forall j :: 0 <= j <= i ==> InsideSome(keep + [ps[i]], ps[j])
  {
    assert ps[i] in Elems(ps);
    forall k | k in keep ensures IsMasked(k) && k.bits <= ps[i].bits && !Within(k, ps[i]) {
      assert k in Elems(keep) && k in Elems(ps[..i]);
      var n :| 0 <= n < i && ps[n] == k;
      assert k in Elems(ps);
    }
    NothingInside(ps[i], keep);
    SelfContained(ps[i]);
    forall j | 0 <= j <= i ensures InsideSome(keep + [ps[i]], ps[j]) {
      OneMore(keep, ps[i], ps[j]);
    }
    assert ps[..i + 1] == ps[..i] + [ps[i]];
    forall k | k in Elems(keep + [ps[i]]) ensures k in Elems(ps[..i + 1]) {
      assert k in Elems(keep) || k == ps[i];
      assert k in Elems(ps[..i]) || k == ps[..i + 1][i];
    }
  }
}
