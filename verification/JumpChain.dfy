/** Printing a jump chain for ssh -J and reading such hops back. */
module JumpChain {
  import opened Wrappers
  import opened Text

  /** A hop and the next one towards the target; nil pointers are None. */
  datatype Chain = End | Hop(host: string, user: Option<string>, port: Option<nat>, auth: Option<string>, via: Chain)

  // ---- printing ----

  function Piece(host: string, user: Option<string>, port: Option<nat>): string {
    (if user.Some? && user.value != "" then user.value + "@" else "") + host
    + if port.Some? && port.value != 0 && port.value != 22 then ":" + Decimal(port.value) else ""
  }

  function Pieces(c: Chain): seq<string> {
    if c.End? then [] else [Piece(c.host, c.user, c.port)] + Pieces(c.via)
  }

  /** strings.Join with commas. */
  function Join(ps: seq<string>): string {
    if ps == [] then "" else if |ps| == 1 then ps[0] else ps[0] + "," + Join(ps[1..])
  }

  method FormatJumpChain(c: Chain) returns (out: string)
    ensures out == Join(Pieces(c))
  {
    hide Join, Decimal, Piece;
    var parts: seq<string> := [];
    var cur := c;
    while cur.Hop?
      invariant parts + Pieces(cur) == Pieces(c)
      decreases cur
    {
      var piece := cur.host;
      if cur.user.Some? && cur.user.value != "" { piece := cur.user.value + "@" + piece; }
      if cur.port.Some? && cur.port.value != 0 && cur.port.value != 22 {
        piece := piece + (":" + Decimal(cur.port.value));
      }
      PieceIs(cur.host, cur.user, cur.port);
      Snoc(parts, piece, Pieces(cur.via));
      parts := parts + [piece];
      cur := cur.via;
    }
    assert parts + [] == parts;
    out := Join(parts);
  }

  lemma PieceIs(host: string, user: Option<string>, port: Option<nat>)
    ensures Piece(host, user, port) ==
      var p := if user.Some? && user.value != "" then user.value + "@" + host else host;
      if port.Some? && port.value != 0 && port.value != 22 then p + (":" + Decimal(port.value)) else p
  {
    hide Decimal;
  }

  lemma Snoc(a: seq<string>, x: string, b: seq<string>)
    ensures a + ([x] + b) == a + [x] + b
  {
  }

  // ---- parsing ----

  /** strings.Split on commas. */
  function Split(s: string): seq<string> {
    if s == "" then [""]
    else if s[0] == ',' then [""] + Split(s[1..])
    else var r := Split(s[1..]); [[s[0]] + r[0]] + r[1..]
  }

  function Index(s: string, c: char): (i: int)
    ensures i == -1 ==> c !in s
    ensures i != -1 ==> 0 <= i < |s| && s[i] == c && forall j :: 0 <= j < i ==> s[j] != c
  {
    if s == "" then -1
    else if s[0] == c then 0
    else
      var i := Index(s[1..], c);
      assert s == [s[0]] + s[1..];
      assert i >= 0 ==> forall j :: 0 < j < i + 1 ==> s[j] == s[1..][j - 1];
      if i == -1 then -1 else i + 1
  }

  function LastIndex(s: string, c: char): (i: int)
    ensures i == -1 ==> c !in s
    ensures i != -1 ==> 0 <= i < |s| && s[i] == c && forall j :: i < j < |s| ==> s[j] != c
  {
    if s == "" then -1
    else if s[|s| - 1] == c then |s| - 1
    else
      var i := LastIndex(s[..|s| - 1], c);
      assert s == s[..|s| - 1] + [s[|s| - 1]];
      i
  }

  predicate Digits(s: string) {
    s != "" && forall i :: 0 <= i < |s| ==> '0' <= s[i] <= '9'
  }

  /** strconv.Atoi; a value too large for it is large anyway. */
  function Atoi(s: string): Option<int> {
    var digits := if s != "" && (s[0] == '+' || s[0] == '-') then s[1..] else s;
    if !Digits(digits) then None
    else
      var n: int := Value(digits);
      Some(if s[0] == '-' then -n else n)
  }

  datatype ParsedHop = ParsedHop(user: string, host: string, port: nat)

  /** The port number behind the last colon; 0 without one. */
  function TailPort(s: string): (n: nat)
    ensures n != 0 ==> LastIndex(s, ':') >= 0
  {
    var colon := LastIndex(s, ':');
    var n := if colon >= 0 then Atoi(s[colon + 1..]) else None;
    if n.Some? && 0 < n.value < 65536 then n.value else 0
  }

  /** The part after the user. */
  function ParseHostPort(user: string, s: string): ParsedHop {
    ParsedHop(user, if TailPort(s) != 0 then s[..LastIndex(s, ':')] else s, TailPort(s))
  }

  function ParseHopString(s: string): ParsedHop {
    var t := TrimSpace(s);
    var at := Index(t, '@');
    if at >= 0 then ParseHostPort(t[..at], t[at + 1..]) else ParseHostPort("", t)
  }

  function FromHops(hops: seq<string>, cred: string): Chain {
    if hops == [] then End
    else
      var h := ParseHopString(hops[0]);
      Hop(h.host, if h.user != "" then Some(h.user) else None, if h.port != 0 then Some(h.port) else None,
          if cred != "" then Some(cred) else None, FromHops(hops[1..], cred))
  }

  /** Builds the chain right to left. */
  method BuildJumpChainFromHops(hops: seq<string>, cred: string) returns (c: Chain)
    ensures c == FromHops(hops, cred)
  {
    c := End;
    var i := |hops|;
    while i > 0
      invariant 0 <= i <= |hops| && c == FromHops(hops[i..], cred)
    {
      i := i - 1;
      var h := ParseHopString(hops[i]);
      assert hops[i..][1..] == hops[i + 1..];
      c := Hop(h.host, if h.user != "" then Some(h.user) else None, if h.port != 0 then Some(h.port) else None,
               if cred != "" then Some(cred) else None, c);
    }
  }

  // ---- the round trip ----

  /** What a chain is once printed and read back: no empty user, no default port, the folder's credential. */
  function Normal(c: Chain, cred: string): Chain {
    if c.End? then End
    else Hop(c.host, if c.user == Some("") then None else c.user,
             if c.port == Some(0) || c.port == Some(22) then None else c.port,
             if cred != "" then Some(cred) else None, Normal(c.via, cred))
  }

  /** Hosts and users without comma, at sign or surrounding space; 16-bit ports. */
  predicate Clean(c: Chain) {
    c.End? ||
    (&& CleanName(c.host)
     && (c.user.Some? ==> CleanName(c.user.value))
     && (c.port.Some? ==> c.port.value < 65536)
     && Clean(c.via))
  }

  predicate CleanName(s: string) {
    NoOuterSpace(s) && ',' !in s && '@' !in s
  }

  /** The port makes it into the text. */
  predicate Printed(port: Option<nat>) {
    port.Some? && port.value != 0 && port.value != 22
  }

  /** No hop leaves out its port while its host looks like host:port. */
  predicate Unambiguous(c: Chain) {
    c.End? || ((Printed(c.port) || TailPort(c.host) == 0) && Unambiguous(c.via))
  }

  lemma {:induction false} SplitJoin(ps: seq<string>)
    requires ps != [] && forall p :: p in ps ==> ',' !in p
    ensures Split(Join(ps)) == ps
  {
    if |ps| == 1 {
      SplitPiece(ps[0], "");
      assert Split("") == [""] && [ps[0]] == ps;
      assert ps[0] + "" == ps[0];
    } else {
      SplitJoin(ps[1..]);
      var rest := "," + Join(ps[1..]);
      SplitPiece(ps[0], rest);
      assert Join(ps) == ps[0] + rest;
      assert rest[0] == ',' && rest[1..] == Join(ps[1..]);
      assert Split(rest)[0] == "" && Split(rest)[1..] == ps[1..];
      assert ps[0] + "" == ps[0] && ps == [ps[0]] + ps[1..];
    }
  }

  /** A comma-free piece goes in front of the first part. */
  lemma {:induction false} SplitPiece(p: string, rest: string)
    requires ',' !in p
    ensures Split(rest) != [] && Split(p + rest) == [p + Split(rest)[0]] + Split(rest)[1..]
  {
    if p == "" {
      assert p + rest == rest && Split(rest) == [Split(rest)[0]] + Split(rest)[1..];
      assert "" + Split(rest)[0] == Split(rest)[0];
    } else {
      assert (p + rest)[1..] == p[1..] + rest;
      SplitPiece(p[1..], rest);
      assert [p[0]] + (p[1..] + Split(rest)[0]) == p + Split(rest)[0];
    }
  }

  lemma LastIndexIs(s: string, c: char, i: nat)
    requires i < |s| && s[i] == c && forall j :: i < j < |s| ==> s[j] != c
    ensures LastIndex(s, c) == i
  {
  }

  lemma IndexIs(s: string, c: char, i: nat)
    requires i < |s| && s[i] == c && forall j :: 0 <= j < i ==> s[j] != c
    ensures Index(s, c) == i
  {
  }

  lemma DecimalPort(n: nat)
    requires 0 < n < 65536
    ensures Digits(Decimal(n)) && Atoi(Decimal(n)) == Some(n)
    ensures ',' !in Decimal(n) && '@' !in Decimal(n) && ':' !in Decimal(n) && !IsSpace(Decimal(n)[|Decimal(n)| - 1])
  {
    hide Value, Decimal;
    DecimalValue(n);
    assert forall i :: 0 <= i < |Decimal(n)| ==> !IsSpace(Decimal(n)[i]);
  }

  lemma HostPortReadsBack(user: string, host: string, port: Option<nat>)
    requires port.Some? ==> port.value < 65536
    ensures ParseHostPort(user, Piece(host, None, port)) ==
      ParsedHop(user, host, if port.Some? && port.value != 22 then port.value else 0)
      <==> Printed(port) || TailPort(host) == 0
  {
    hide Value, Decimal, Digits, Atoi, LastIndex, IsSpace;
    var s := Piece(host, None, port);
    if Printed(port) {
      DecimalPort(port.value);
      assert s == host + (":" + Decimal(port.value));
      var colon := |host|;
      assert forall i :: |host| < i < |s| ==> s[i] == Decimal(port.value)[i - |host| - 1];
      LastIndexIs(s, ':', colon);
      assert s[colon + 1..] == Decimal(port.value) && s[..colon] == host;
    } else {
      assert s == host;
    }
  }

  lemma NoSpaces()
    ensures !IsSpace(':') && !IsSpace('@')
  {
  }

  lemma BarePiece(host: string, port: Option<nat>)
    requires CleanName(host) && (port.Some? ==> port.value < 65536)
    ensures CleanName(Piece(host, None, port))
  {
    hide Value, Decimal, IsSpace, Atoi;
    var p := Piece(host, None, port);
    if Printed(port) {
      DecimalPort(port.value);
      assert p == host + ":" + Decimal(port.value);
      assert p[|p| - 1] == Decimal(port.value)[|Decimal(port.value)| - 1];
      NoSpaces();
      assert p[0] == if host == "" then ':' else host[0];
    } else {
      assert p == host;
    }
  }

  lemma UserPiece(u: string, bare: string)
    requires u != "" && CleanName(u) && CleanName(bare)
    ensures ',' !in u + "@" + bare
    ensures ParseHopString(u + "@" + bare) == ParseHostPort(u, bare)
  {
    hide IsSpace, Index, ParseHostPort;
    var p := u + "@" + bare;
    assert p == u + ("@" + bare);
    assert p[0] == u[0] && p[|p| - 1] == if bare == "" then '@' else bare[|bare| - 1];
    NoSpaces();
    TrimSpaceKeeps(p);
    assert p[|u|] == '@' && forall i :: 0 <= i < |u| ==> p[i] == u[i];
    IndexIs(p, '@', |u|);
    assert p[..|u|] == u && p[|u| + 1..] == bare;
  }

  lemma BareAlone(bare: string)
    requires CleanName(bare)
    ensures ',' !in bare && ParseHopString(bare) == ParseHostPort("", bare)
  {
    hide ParseHostPort;
    TrimSpaceKeeps(bare);
  }

  lemma PieceReadsBack(c: Chain)
    requires c.Hop? && Clean(c)
    ensures ',' !in Piece(c.host, c.user, c.port)
    ensures ParseHopString(Piece(c.host, c.user, c.port)) ==
      ParsedHop(if c.user.Some? then c.user.value else "", c.host,
                if c.port.Some? && c.port.value != 22 then c.port.value else 0)
      <==> Printed(c.port) || TailPort(c.host) == 0
  {
    hide IsSpace, NoOuterSpace, Index, LastIndex, TrimSpace, Decimal, TailPort, ParseHostPort, ParseHopString,
        CleanName, Printed;
    var p := Piece(c.host, c.user, c.port);
    var bare := Piece(c.host, None, c.port);
    BarePiece(c.host, c.port);
    if c.user.Some? && c.user.value != "" {
      var u := c.user.value;
      UserPiece(u, bare);
      assert p == u + "@" + bare;
      HostPortReadsBack(u, c.host, c.port);
    } else {
      assert p == bare;
      BareAlone(bare);
      HostPortReadsBack("", c.host, c.port);
    }
  }

  lemma {:induction false} PiecesReadBack(c: Chain, cred: string)
    requires Clean(c)
    ensures FromHops(Pieces(c), cred) == Normal(c, cred) <==> Unambiguous(c)
    ensures forall p :: p in Pieces(c) ==> ',' !in p
  {
    if c.Hop? {
      PieceReadsBack(c);
      PiecesReadBack(c.via, cred);
      assert Pieces(c)[1..] == Pieces(c.via);
      var h := ParseHopString(Piece(c.host, c.user, c.port));
      HopIsItsParts(c, h);
    }
  }

  /** The optional fields of a hop hold exactly what was parsed. */
  lemma HopIsItsParts(c: Chain, h: ParsedHop)
    requires c.Hop?
    ensures
      && c.host == h.host
      && (if c.user == Some("") then None else c.user) == (if h.user != "" then Some(h.user) else None)
      && (if c.port == Some(0) || c.port == Some(22) then None else c.port) ==
          (if h.port != 0 then Some(h.port) else None)
      <==> h == ParsedHop(if c.user.Some? then c.user.value else "", c.host,
                          if c.port.Some? && c.port.value != 22 then c.port.value else 0)
  {
  }

  /** Printed, split at the commas and read back, a chain of any length has the same hops in the
      same order, exactly when no hop's host without a printed port ends like one. */
  lemma ChainRoundTrip(c: Chain, cred: string)
    requires c.Hop? && Clean(c)
    ensures FromHops(Split(Join(Pieces(c))), cred) == Normal(c, cred) <==> Unambiguous(c)
  {
    PiecesReadBack(c, cred);
    SplitJoin(Pieces(c));
  }

  // ---- hops as they are typed ----

  predicate AllSpace(s: string) {
    forall i :: 0 <= i < |s| ==> IsSpace(s[i])
  }

  lemma {:induction false} TrimAround(a: string, s: string, b: string)
    requires NoOuterSpace(s) && AllSpace(a) && AllSpace(b)
    ensures TrimSpace(a + s + b) == s
    decreases |a| + |b|
  {
    hide IsSpace;
    if a != "" {
      assert (a + s + b)[0] == a[0] && (a + s + b)[1..] == a[1..] + s + b;
      TrimAround(a[1..], s, b);
    } else {
      assert a + s + b == s + b;
      TrimRightAround(s, b);
      if s == "" {
        AllSpaces(b);
        assert s + b == b;
      } else {
        assert (s + b)[0] == s[0];
      }
    }
  }

  lemma {:induction false} TrimRightAround(s: string, b: string)
    requires (s == "" || !IsSpace(s[|s| - 1])) && AllSpace(b)
    ensures TrimRight(s + b) == s
    decreases |b|
  {
    hide IsSpace;
    if b == "" {
      assert s + b == s;
    } else {
      assert (s + b)[..|s + b| - 1] == s + b[..|b| - 1];
      TrimRightAround(s, b[..|b| - 1]);
    }
  }

  lemma {:induction false} AllSpaces(b: string)
    requires AllSpace(b)
    ensures TrimLeft(b) == ""
    decreases |b|
  {
    hide IsSpace;
    if b != "" { AllSpaces(b[1..]); }
  }

  /** Space around a hop is no part of it. */
  lemma SpaceAroundHop(a: string, s: string, b: string)
    requires NoOuterSpace(s) && AllSpace(a) && AllSpace(b)
    ensures ParseHopString(a + s + b) == ParseHopString(s)
  {
    hide IsSpace, TrimSpace, ParseHostPort;
    TrimAround(a, s, b);
    TrimAround("", s, "");
    assert "" + s + "" == s;
  }

  /** A hop as it is read: the user ends at the first at sign, and a number from 1 to 65535 behind the last
      colon is the port; any other number stays with the host. */
  lemma HopReads(user: string, host: string, n: nat)
    requires '@' !in user && NoOuterSpace(user + "@" + host + ":" + Decimal(n))
    ensures ParseHopString(user + "@" + host + ":" + Decimal(n)) ==
      if 0 < n < 65536 then ParsedHop(user, host, n) else ParsedHop(user, host + ":" + Decimal(n), 0)
  {
    hide IsSpace, Decimal, NoOuterSpace, TrimSpace, ParseHostPort;
    var tail := host + ":" + Decimal(n);
    var p := user + "@" + host + ":" + Decimal(n);
    TrimSpaceKeeps(p);
    assert p == user + ("@" + tail) && p[|user|] == '@' && forall i :: 0 <= i < |user| ==> p[i] == user[i];
    IndexIs(p, '@', |user|);
    assert p[..|user|] == user && p[|user| + 1..] == tail;
    HostAndNumber(user, host, n);
  }

  lemma HostAndNumber(user: string, host: string, n: nat)
    ensures ParseHostPort(user, host + ":" + Decimal(n)) ==
      if 0 < n < 65536 then ParsedHop(user, host, n) else ParsedHop(user, host + ":" + Decimal(n), 0)
  {
    hide Decimal, Atoi, LastIndex;
    var tail := host + ":" + Decimal(n);
    assert forall i :: |host| < i < |tail| ==> tail[i] == Decimal(n)[i - |host| - 1];
    LastIndexIs(tail, ':', |host|);
    assert tail[|host| + 1..] == Decimal(n) && tail[..|host|] == host;
    DecimalReads(n);
  }

  lemma TailPortIs(host: string, tail: string)
    requires ':' !in tail
    ensures TailPort(host + (":" + tail)) ==
      if Atoi(tail).Some? && 0 < Atoi(tail).value < 65536 then Atoi(tail).value else 0
  {
    hide Atoi, LastIndex;
    var s := host + (":" + tail);
    assert forall i :: |host| < i < |s| ==> s[i] == tail[i - |host| - 1];
    LastIndexIs(s, ':', |host|);
    assert s[|host| + 1..] == tail;
  }

  lemma SignReads(sign: char, n: nat)
    requires sign == '+' || sign == '-'
    ensures ':' !in [sign] + Decimal(n)
    ensures var i: int := if sign == '+' then n else -(n as int); Atoi([sign] + Decimal(n)) == Some(i)
  {
    hide Value, Decimal;
    DecimalValue(n);
    assert ([sign] + Decimal(n))[1..] == Decimal(n);
  }

  /** A plus sign in front of the port is read over; a negative number is no port. */
  lemma SignedPort(host: string, n: nat)
    ensures TailPort(host + (":" + (['+'] + Decimal(n)))) == if 0 < n < 65536 then n else 0
    ensures TailPort(host + (":" + (['-'] + Decimal(n)))) == 0
  {
    hide Decimal, Atoi, TailPort;
    SignReads('+', n);
    SignReads('-', n);
    TailPortIs(host, ['+'] + Decimal(n));
    TailPortIs(host, ['-'] + Decimal(n));
  }

  lemma DecimalReads(n: nat)
    ensures Atoi(Decimal(n)) == Some(n)
  {
    hide Value, Decimal;
    DecimalValue(n);
  }

  lemma ColonColonOne()
    ensures CleanName("::1") && LastIndex("::1", ':') == 1 && TailPort("::1") == 1
  {
    hide LastIndex;
    var s := "::1";
    LastIndexIs(s, ':', 1);
    assert s[2..] == "1" && Digits("1");
    assert Value("1") == 1 by { assert "1"[..0] == ""; }
  }

  /** An IPv6 host with the default port loses its last group to the port. */
  lemma BareColonHostBreaks()
    ensures FromHops(Split(Join(Pieces(Hop("::1", None, None, None, End)))), "") == Hop(":", None, Some(1), None, End)
  {
    hide Split, Join, TrimSpace, Index, LastIndex, TailPort, CleanName, Decimal;
    var s := "::1";
    var c := Hop(s, None, None, None, End);
    assert Piece(s, None, None) == s;
    assert Pieces(c) == [s] + Pieces(End) == [s];
    ColonColonOne();
    BareAlone(s);
    SplitJoin([s]);
    assert s[..1] == ":";
    assert ParseHopString(s) == ParsedHop("", ":", 1);
    assert FromHops([s][1..], "") == End;
  }
}
