/**
 The SOCKS5 server side of the local proxy: greeting, optional username/password, CONNECT
 request (RFC 1928 sections 3 to 6, RFC 1929 section 2). The handler reads a connection step
 by step; what it makes of a byte stream is the function Serve, compared with the RFC's own
 message formats.
 */
module Socks {
  import opened Wrappers

  type Byte = b: nat | b < 256
  type Bytes = seq<Byte>

  /** NoAuth: the browser proxy. Otherwise check decides about a password. */
  datatype Auth = NoAuth | Password(check: Bytes -> bool)

  datatype Address = V4(b: Bytes) | V6(b: Bytes) | Name(b: Bytes)

  /** What a stage did: stopped, or went on with a value. rest is the unread input, out the bytes
      written. */
  datatype Stage<+T> = Stop(rest: Bytes, out: Bytes) | Go(value: T, rest: Bytes, out: Bytes)

  // "ssh-tool"
  const LocalProxyUser: Bytes := [115, 115, 104, 45, 116, 111, 111, 108]

  function Wanted(auth: Auth): Byte {
    if auth.NoAuth? then 0 else 2
  }

  /** A read of n bytes; a short one uses up the input. */
  function Read(s: Bytes, n: nat): (r: Stage<Bytes>) {
    if n <= |s| then Go(s[..n], s[n..], []) else Stop([], [])
  }

  function Greeting(s: Bytes, auth: Auth): Stage<()> {
    var h := Read(s, 2);
    if h.Stop? then Stop(h.rest, [])
    else if h.value[0] != 5 then Stop(h.rest, [])
    else
      var m := Read(h.rest, h.value[1]);
      if m.Stop? then Stop(m.rest, [])
      else if Wanted(auth) !in m.value then Stop(m.rest, [5, 0xff])
      else Go((), m.rest, [5, Wanted(auth)])
  }

  function ReadAuth(s: Bytes): Stage<(Bytes, Bytes)> {
    var h := Read(s, 2);
    if h.Stop? then Stop(h.rest, [])
    else if h.value[0] != 1 then Stop(h.rest, [])
    else
      var u := Read(h.rest, h.value[1]);
      if u.Stop? then Stop(u.rest, []) else
      var l := Read(u.rest, 1);
      if l.Stop? then Stop(l.rest, []) else
      var p := Read(l.rest, l.value[0]);
      if p.Stop? then Stop(p.rest, []) else Go((u.value, p.value), p.rest, [])
  }

  function Authenticate(s: Bytes, auth: Auth): Stage<()> {
    if auth.NoAuth? then Go((), s, [])
    else
      var a := ReadAuth(s);
      if a.Stop? then Stop(a.rest, [])
      else if a.value.0 != LocalProxyUser || !auth.check(a.value.1) then Stop(a.rest, [1, 1])
      else Go((), a.rest, [1, 0])
  }

  function Reply(code: Byte): Bytes {
    [5, code, 0, 1, 0, 0, 0, 0, 0, 0]
  }

  function ReadAddress(s: Bytes, atyp: Byte): Stage<Address> {
    if atyp == 1 || atyp == 4 then
      var a := Read(s, if atyp == 4 then 16 else 4);
      if a.Stop? then Stop(a.rest, []) else Go(if atyp == 4 then V6(a.value) else V4(a.value), a.rest, [])
    else if atyp == 3 then
      var l := Read(s, 1);
      if l.Stop? then Stop(l.rest, []) else
      var a := Read(l.rest, l.value[0]);
      if a.Stop? then Stop(a.rest, []) else Go(Name(a.value), a.rest, [])
    else Stop(s, Reply(8))
  }

  /** Big-endian. */
  function PortOf(b: Bytes): nat
    requires |b| == 2
  {
    256 * (b[0] as int) + (b[1] as int)
  }

  /** The first and third byte of the request, VER and RSV, are read and not looked at. */
  function ReadRequest(s: Bytes): (r: Stage<(Address, nat)>)
    ensures r.Go? ==> r.out == []
  {
    var q := Read(s, 4);
    if q.Stop? then Stop(q.rest, [])
    else if q.value[1] != 1 then Stop(q.rest, Reply(7))
    else
      var a := ReadAddress(q.rest, q.value[3]);
      if a.Stop? then Stop(a.rest, a.out) else
      var p := Read(a.rest, 2);
      if p.Stop? then Stop(p.rest, []) else Go((a.value, PortOf(p.value)), p.rest, [])
  }

  /** The whole handshake, up to the moment the destination is known and pick is asked. */
  function Serve(s: Bytes, auth: Auth): Stage<(Address, nat)> {
    var g := Greeting(s, auth);
    if g.Stop? then Stop(g.rest, g.out) else
    var a := Authenticate(g.rest, auth);
    if a.Stop? then Stop(a.rest, g.out + a.out) else
    var q := ReadRequest(a.rest);
    if q.Stop? then Stop(q.rest, g.out + a.out + q.out) else Go(q.value, q.rest, g.out + a.out)
  }

  // ---- the messages as the RFCs define them ----

  predicate ValidAddress(a: Address) {
    match a
    case V4(b) => |b| == 4
    case V6(b) => |b| == 16
    case Name(b) => |b| < 256
  }

  function EncodeGreeting(methods: Bytes): Bytes
    requires |methods| < 256
  {
    [5, |methods|] + methods
  }

  function EncodeAuth(user: Bytes, pass: Bytes): Bytes
    requires |user| < 256 && |pass| < 256
  {
    [1, |user|] + user + [|pass|] + pass
  }

  function EncodeAddress(a: Address): Bytes
    requires ValidAddress(a)
  {
    match a
    case V4(b) => [1] + b
    case V6(b) => [4] + b
    case Name(b) => [3, |b|] + b
  }

  function EncodePort(port: nat): Bytes
    requires port < 65536
  {
    [port / 256, port % 256]
  }

  /** A CONNECT request; RFC 1928 has ver 5 and rsv 0. */
  function EncodeConnect(ver: Byte, rsv: Byte, a: Address, port: nat): Bytes
    requires ValidAddress(a) && port < 65536
  {
    [ver, 1, rsv] + EncodeAddress(a) + EncodePort(port)
  }

  /** Everything a client sends before its payload. */
  datatype Client = Client(methods: Bytes, user: Bytes, pass: Bytes, ver: Byte, rsv: Byte, addr: Address, port: nat)

  predicate WellFormed(c: Client) {
    |c.methods| < 256 && |c.user| < 256 && |c.pass| < 256 && ValidAddress(c.addr) && c.port < 65536
  }

  /** The proxy's user name, "ssh-tool". */
  predicate IsProxyUser(user: Bytes) {
    user == [115, 115, 104, 45, 116, 111, 111, 108]
  }

  /** The required method is offered - none for the browser proxy, a password otherwise - and the
      credentials are the proxy's. */
  predicate Opens(methods: Bytes, user: Bytes, pass: Bytes, auth: Auth) {
    match auth
    case NoAuth => 0 in methods
    case Password(check) => 2 in methods && IsProxyUser(user) && check(pass)
  }

  predicate Admitted(c: Client, auth: Auth) {
    Opens(c.methods, c.user, c.pass, auth)
  }

  function Login(user: Bytes, pass: Bytes, auth: Auth): Bytes
    requires |user| < 256 && |pass| < 256
  {
    if auth.NoAuth? then [] else EncodeAuth(user, pass)
  }

  /** What a client sends before its request. */
  function Opening(methods: Bytes, user: Bytes, pass: Bytes, auth: Auth): Bytes
    requires |methods| < 256 && |user| < 256 && |pass| < 256
  {
    EncodeGreeting(methods) + Login(user, pass, auth)
  }

  function Encode(c: Client, auth: Auth): Bytes
    requires WellFormed(c)
  {
    Opening(c.methods, c.user, c.pass, auth) + EncodeConnect(c.ver, c.rsv, c.addr, c.port)
  }

  /** What a client is told before its request is read: the method chosen, and the login's success. */
  function Replies(auth: Auth): Bytes {
    if auth.NoAuth? then [5, 0] else [5, 2, 1, 0]
  }

  lemma ReadExactly(a: Bytes, b: Bytes)
    ensures Read(a + b, |a|) == Go(a, b, [])
  {
  }

  lemma GreetingDecodes(methods: Bytes, rest: Bytes, auth: Auth)
    requires |methods| < 256 && Wanted(auth) in methods
    ensures Greeting(EncodeGreeting(methods) + rest, auth) == Go((), rest, [5, Wanted(auth)])
  {
    assert EncodeGreeting(methods) + rest == [5, |methods|] + (methods + rest);
    ReadExactly([5, |methods|], methods + rest);
    ReadExactly(methods, rest);
  }

  lemma AuthDecodes(user: Bytes, pass: Bytes, rest: Bytes)
    requires |user| < 256 && |pass| < 256
    ensures ReadAuth(EncodeAuth(user, pass) + rest) == Go((user, pass), rest, [])
  {
    hide Read;
    assert EncodeAuth(user, pass) + rest == [1, |user|] + (user + ([|pass|] + (pass + rest)));
    ReadExactly([1, |user|], user + ([|pass|] + (pass + rest)));
    ReadExactly(user, [|pass|] + (pass + rest));
    ReadExactly([|pass|], pass + rest);
    ReadExactly(pass, rest);
  }

  lemma AddressDecodes(a: Address, rest: Bytes)
    requires ValidAddress(a)
    ensures ReadAddress(EncodeAddress(a)[1..] + rest, EncodeAddress(a)[0]) == Go(a, rest, [])
  {
    match a
    case V4(b) => ReadExactly(b, rest); assert EncodeAddress(a)[1..] == b;
    case V6(b) => ReadExactly(b, rest); assert EncodeAddress(a)[1..] == b;
    case Name(b) =>
      assert EncodeAddress(a)[1..] + rest == [|b|] + (b + rest);
      ReadExactly([|b|], b + rest);
      ReadExactly(b, rest);
  }

  lemma RequestDecodes(ver: Byte, rsv: Byte, a: Address, port: nat, rest: Bytes)
    requires ValidAddress(a) && port < 65536
    ensures ReadRequest(EncodeConnect(ver, rsv, a, port) + rest) == Go((a, port), rest, [])
  {
    var e := EncodeAddress(a);
    assert e != [];
    hide Read, ReadAddress, EncodeAddress;
    var head := [ver, 1, rsv, e[0]];
    assert EncodeConnect(ver, rsv, a, port) + rest == head + (e[1..] + (EncodePort(port) + rest));
    ReadExactly(head, e[1..] + (EncodePort(port) + rest));
    AddressDecodes(a, EncodePort(port) + rest);
    ReadExactly(EncodePort(port), rest);
  }

  /** A well-formed, admitted client's destination is recovered exactly, and its payload is
      left unread. */
  lemma ServeDecodes(c: Client, auth: Auth, payload: Bytes)
    requires WellFormed(c) && Admitted(c, auth)
    ensures Serve(Encode(c, auth) + payload, auth) == Go((c.addr, c.port), payload, Replies(auth))
  {
    hide Greeting, ReadRequest, ReadAuth, EncodeGreeting, EncodeAuth, EncodeConnect;
    var login := Login(c.user, c.pass, auth);
    var req := EncodeConnect(c.ver, c.rsv, c.addr, c.port);
    assert Encode(c, auth) + payload == EncodeGreeting(c.methods) + (login + (req + payload));
    GreetingDecodes(c.methods, login + (req + payload), auth);
    if auth.NoAuth? {
      assert login + (req + payload) == req + payload;
    } else {
      AuthDecodes(c.user, c.pass, req + payload);
    }
    RequestDecodes(c.ver, c.rsv, c.addr, c.port, payload);
  }

  // ---- and nothing else gets through ----

  lemma ReadSplits(s: Bytes, n: nat)
    ensures var r := Read(s, n); r.Go? ==> |r.value| == n && s == r.value + r.rest
  {
  }

  lemma GreetingEncoded(s: Bytes, auth: Auth) returns (methods: Bytes)
    requires Greeting(s, auth).Go?
    ensures |methods| < 256 && Wanted(auth) in methods && s == EncodeGreeting(methods) + Greeting(s, auth).rest
  {
    ReadSplits(s, 2);
    var h := Read(s, 2);
    ReadSplits(h.rest, h.value[1]);
    methods := Read(h.rest, h.value[1]).value;
    assert h.value == [5, |methods|];
  }

  lemma AuthEncoded(s: Bytes)
    requires ReadAuth(s).Go?
    ensures
      var a := ReadAuth(s);
      |a.value.0| < 256 && |a.value.1| < 256 && s == EncodeAuth(a.value.0, a.value.1) + a.rest
  {
    var h := Read(s, 2);
    ReadSplits(s, 2);
    var u := Read(h.rest, h.value[1]);
    ReadSplits(h.rest, h.value[1]);
    var l := Read(u.rest, 1);
    ReadSplits(u.rest, 1);
    var p := Read(l.rest, l.value[0]);
    ReadSplits(l.rest, l.value[0]);
    assert h.value == [1, |u.value|] && l.value == [|p.value|];
    assert s == [1, |u.value|] + (u.value + ([|p.value|] + (p.value + p.rest)));
  }

  lemma AddressEncoded(s: Bytes, atyp: Byte)
    requires ReadAddress(s, atyp).Go?
    ensures var a := ReadAddress(s, atyp); ValidAddress(a.value) && [atyp] + s == EncodeAddress(a.value) + a.rest
  {
    if atyp == 3 {
      ReadSplits(s, 1);
      var l := Read(s, 1);
      ReadSplits(l.rest, l.value[0]);
      assert l.value == [|Read(l.rest, l.value[0]).value|];
    } else {
      ReadSplits(s, if atyp == 4 then 16 else 4);
    }
  }

  lemma RequestEncoded(s: Bytes) returns (ver: Byte, rsv: Byte)
    requires ReadRequest(s).Go?
    ensures var q := ReadRequest(s);
      ValidAddress(q.value.0) && q.value.1 < 65536 && s == EncodeConnect(ver, rsv, q.value.0, q.value.1) + q.rest
  {
    hide ReadAddress, EncodeAddress, ValidAddress;
    var q := Read(s, 4);
    ReadSplits(s, 4);
    ver, rsv := q.value[0], q.value[2];
    var a := ReadAddress(q.rest, q.value[3]);
    AddressEncoded(q.rest, q.value[3]);
    var p := Read(a.rest, 2);
    ReadSplits(a.rest, 2);
    var port := PortOf(p.value);
    assert p.value == EncodePort(port);
    assert q.value == [ver, 1, rsv] + [q.value[3]];
    assert s == [ver, 1, rsv] + ([q.value[3]] + q.rest);
    assert [q.value[3]] + q.rest == EncodeAddress(a.value) + (EncodePort(port) + p.rest);
  }

  /** pick is asked only about a stream that starts with a well-formed client's handshake - the
      required method offered, the credentials right, the command CONNECT - and about exactly
      that client's destination. */
  lemma ServeOnlyAdmitted(s: Bytes, auth: Auth) returns (c: Client)
    requires Serve(s, auth).Go?
    ensures WellFormed(c) && Admitted(c, auth)
    ensures s == Encode(c, auth) + Serve(s, auth).rest && Serve(s, auth).value == (c.addr, c.port)
  {
    hide Greeting, ReadRequest, ReadAuth, EncodeGreeting, EncodeAuth, EncodeConnect;
    var g := Greeting(s, auth);
    var methods := GreetingEncoded(s, auth);
    var a := Authenticate(g.rest, auth);
    var user, pass := LoginEncoded(g.rest, auth);
    var q := ReadRequest(a.rest);
    var ver, rsv := RequestEncoded(a.rest);
    c := Client(methods, user, pass, ver, rsv, q.value.0, q.value.1);
    Rejoin(s, EncodeGreeting(methods), Login(user, pass, auth), EncodeConnect(ver, rsv, q.value.0, q.value.1), g.rest,
        a.rest, q.rest);
  }

  lemma Rejoin(s: Bytes, x: Bytes, y: Bytes, z: Bytes, s1: Bytes, s2: Bytes, s3: Bytes)
    requires s == x + s1 && s1 == y + s2 && s2 == z + s3
    ensures s == x + y + z + s3
  {
  }

  lemma LoginEncoded(s: Bytes, auth: Auth) returns (user: Bytes, pass: Bytes)
    requires Authenticate(s, auth).Go?
    ensures |user| < 256 && |pass| < 256 && (auth.Password? ==> user == LocalProxyUser && auth.check(pass))
    ensures s == Login(user, pass, auth) + Authenticate(s, auth).rest
  {
    hide ReadAuth, EncodeAuth;
    user, pass := [], [];
    if auth.Password? {
      AuthEncoded(s);
      user, pass := ReadAuth(s).value.0, ReadAuth(s).value.1;
    }
  }

  // ---- what those who do not get through are told ----

  lemma WrongVersion(s: Bytes, auth: Auth)
    requires |s| >= 2 && s[0] != 5
    ensures Serve(s, auth) == Stop(s[2..], [])
  {
  }

  /** A client that does not offer the method is told so. */
  lemma MethodRefused(methods: Bytes, rest: Bytes, auth: Auth)
    requires |methods| < 256 && (if auth.NoAuth? then 0 else 2) !in methods
    ensures Serve(EncodeGreeting(methods) + rest, auth) == Stop(rest, [5, 0xff])
  {
    assert EncodeGreeting(methods) + rest == [5, |methods|] + (methods + rest);
    ReadExactly([5, |methods|], methods + rest);
    ReadExactly(methods, rest);
  }

  /** Wrong credentials get RFC 1929's failure and nothing more is read. */
  lemma LoginRefused(methods: Bytes, user: Bytes, pass: Bytes, rest: Bytes, check: Bytes -> bool)
    requires |methods| < 256 && |user| < 256 && |pass| < 256 && 2 in methods
    requires !IsProxyUser(user) || !check(pass)
    ensures Serve(EncodeGreeting(methods) + EncodeAuth(user, pass) + rest, Password(check)) == Stop(rest, [5, 2, 1, 1])
  {
    hide Greeting, ReadAuth;
    var login := EncodeAuth(user, pass);
    assert EncodeGreeting(methods) + login + rest == EncodeGreeting(methods) + (login + rest);
    GreetingDecodes(methods, login + rest, Password(check));
    AuthDecodes(user, pass, rest);
  }

  /** A login of another version is not answered. */
  lemma LoginVersionRefused(methods: Bytes, login: Bytes, check: Bytes -> bool)
    requires |methods| < 256 && 2 in methods && |login| >= 2 && login[0] != 1
    ensures Serve(EncodeGreeting(methods) + login, Password(check)) == Stop(login[2..], [5, 2])
  {
    hide Greeting;
    GreetingDecodes(methods, login, Password(check));
  }

  /** Who has the method and the login right is heard: what follows is its request. */
  lemma Opened(methods: Bytes, user: Bytes, pass: Bytes, rest: Bytes, auth: Auth)
    requires |methods| < 256 && |user| < 256 && |pass| < 256 && Opens(methods, user, pass, auth)
    ensures Serve(Opening(methods, user, pass, auth) + rest, auth) ==
      var q := ReadRequest(rest);
      if q.Stop? then Stop(q.rest, Replies(auth) + q.out) else Go(q.value, q.rest, Replies(auth))
  {
    hide Greeting, ReadRequest, ReadAuth;
    var login := Login(user, pass, auth);
    assert Opening(methods, user, pass, auth) + rest == EncodeGreeting(methods) + (login + rest);
    GreetingDecodes(methods, login + rest, auth);
    if auth.Password? { AuthDecodes(user, pass, rest); } else { assert login + rest == rest; }
  }

  /** Any command but CONNECT is refused with 7, before its address is read. */
  lemma CommandRefused(methods: Bytes, user: Bytes, pass: Bytes, request: Bytes, auth: Auth)
    requires |methods| < 256 && |user| < 256 && |pass| < 256 && Opens(methods, user, pass, auth)
    requires |request| >= 4 && request[1] != 1
    ensures Serve(Opening(methods, user, pass, auth) + request, auth) ==
        Stop(request[4..], Replies(auth) + [5, 7, 0, 1, 0, 0, 0, 0, 0, 0])
  {
    hide Serve;
    Opened(methods, user, pass, request, auth);
  }

  /** An address type other than IPv4, IPv6 and a name is refused with 8. */
  lemma AddressTypeRefused(methods: Bytes, user: Bytes, pass: Bytes, request: Bytes, auth: Auth)
    requires |methods| < 256 && |user| < 256 && |pass| < 256 && Opens(methods, user, pass, auth)
    requires |request| >= 4 && request[1] == 1 && request[3] !in {1, 3, 4}
    ensures Serve(Opening(methods, user, pass, auth) + request, auth) ==
        Stop(request[4..], Replies(auth) + [5, 8, 0, 1, 0, 0, 0, 0, 0, 0])
  {
    hide Serve;
    Opened(methods, user, pass, request, auth);
  }

  lemma ReadShort(s: Bytes, n: nat)
    requires |s| < n
    ensures Read(s, n) == Stop([], [])
  {
  }

  lemma GreetingCut(methods: Bytes, n: nat, auth: Auth)
    requires |methods| < 256 && n < 2 + |methods|
    ensures Greeting(EncodeGreeting(methods)[..n], auth) == Stop([], [])
  {
    hide Read;
    var s := EncodeGreeting(methods)[..n];
    if n < 2 {
      ReadShort(s, 2);
    } else {
      assert s == [5, |methods|] + methods[..n - 2];
      ReadExactly([5, |methods|], methods[..n - 2]);
      ReadShort(methods[..n - 2], |methods|);
    }
  }

  lemma AuthCut(user: Bytes, pass: Bytes, n: nat)
    requires |user| < 256 && |pass| < 256 && n < 3 + |user| + |pass|
    ensures ReadAuth(EncodeAuth(user, pass)[..n]) == Stop([], [])
  {
    hide Read;
    var s := EncodeAuth(user, pass)[..n];
    if n < 2 {
      ReadShort(s, 2);
    } else if n < 2 + |user| {
      assert s == [1, |user|] + user[..n - 2];
      ReadExactly([1, |user|], user[..n - 2]);
      ReadShort(user[..n - 2], |user|);
    } else if n < 3 + |user| {
      assert s == [1, |user|] + (user + []);
      ReadExactly([1, |user|], user + []);
      ReadExactly(user, []);
      ReadShort([], 1);
    } else {
      var k := n - 3 - |user|;
      assert s == [1, |user|] + (user + ([|pass|] + pass[..k]));
      ReadExactly([1, |user|], user + ([|pass|] + pass[..k]));
      ReadExactly(user, [|pass|] + pass[..k]);
      ReadExactly([|pass|], pass[..k]);
      ReadShort(pass[..k], |pass|);
    }
  }

  lemma AddressCut(a: Address, n: nat)
    requires ValidAddress(a) && 1 <= n < |EncodeAddress(a)|
    ensures ReadAddress(EncodeAddress(a)[1..n], EncodeAddress(a)[0]) == Stop([], [])
  {
    hide Read;
    var s := EncodeAddress(a)[1..n];
    match a
    case V4(b) => ReadShort(s, 4);
    case V6(b) => ReadShort(s, 16);
    case Name(b) =>
      if n == 1 {
        ReadShort(s, 1);
      } else {
        assert s == [|b|] + b[..n - 2];
        ReadExactly([|b|], b[..n - 2]);
        ReadShort(b[..n - 2], |b|);
      }
  }

  lemma RequestCut(ver: Byte, rsv: Byte, a: Address, port: nat, n: nat)
    requires ValidAddress(a) && port < 65536 && n < |EncodeConnect(ver, rsv, a, port)|
    ensures ReadRequest(EncodeConnect(ver, rsv, a, port)[..n]) == Stop([], [])
  {
    var e := EncodeAddress(a);
    assert e != [];
    hide Read, ReadAddress, EncodeAddress;
    var head, s := [ver, 1, rsv, e[0]], EncodeConnect(ver, rsv, a, port)[..n];
    if n < 4 {
      ReadShort(s, 4);
    } else if n < 3 + |e| {
      assert s == head + e[1..n - 3];
      ReadExactly(head, e[1..n - 3]);
      AddressCut(a, n - 3);
    } else {
      var p := EncodePort(port)[..n - 3 - |e|];
      assert s == head + (e[1..] + p);
      ReadExactly(head, e[1..] + p);
      AddressDecodes(a, p);
      ReadShort(p, 2);
    }
  }

  /** A client whose connection ends before its request is complete is told what its part so far
      earns - nothing before the greeting is whole, the method before the login is - and no more. */
  lemma CutShort(c: Client, auth: Auth, n: nat)
    requires WellFormed(c) && Admitted(c, auth) && n < |Encode(c, auth)|
    ensures Serve(Encode(c, auth)[..n], auth) ==
      Stop([], if n < 2 + |c.methods| then []
               else if auth.Password? && n < 5 + |c.methods| + |c.user| + |c.pass| then [5, 2]
               else Replies(auth))
  {
    hide Greeting, ReadRequest, ReadAuth, EncodeConnect, EncodeGreeting, EncodeAuth;
    LoginLengths(c, auth);
    var greeting, login := EncodeGreeting(c.methods), Login(c.user, c.pass, auth);
    var req := EncodeConnect(c.ver, c.rsv, c.addr, c.port);
    var s := Encode(c, auth)[..n];
    if n < |greeting| {
      assert s == greeting[..n];
      GreetingCut(c.methods, n, auth);
    } else if n < |greeting| + |login| {
      var k := n - |greeting|;
      assert s == greeting + login[..k];
      GreetingDecodes(c.methods, login[..k], auth);
      AuthCut(c.user, c.pass, k);
    } else {
      var k := n - |greeting| - |login|;
      assert s == greeting + (login + req[..k]);
      GreetingDecodes(c.methods, login + req[..k], auth);
      if auth.Password? { AuthDecodes(c.user, c.pass, req[..k]); } else { assert login + req[..k] == req[..k]; }
      RequestCut(c.ver, c.rsv, c.addr, c.port, k);
    }
  }

  lemma LoginLengths(c: Client, auth: Auth)
    requires WellFormed(c)
    ensures |EncodeGreeting(c.methods)| == 2 + |c.methods|
    ensures |Login(c.user, c.pass, auth)| == if auth.Password? then 3 + |c.user| + |c.pass| else 0
  {
  }

  // ---- the handler ----

  class Conn {
    var input: Bytes       // not read yet
    var output: Bytes

    constructor (input: Bytes)
      ensures this.input == input && output == []
    {
      this.input, output := input, [];
    }

    method ReadFull(n: nat) returns (r: Option<Bytes>)
      modifies this`input
      ensures input == Read(old(input), n).rest
      ensures r == if Read(old(input), n).Go? then Some(Read(old(input), n).value) else None
    {
      if n <= |input| {
        r := Some(input[..n]);
        input := input[n..];
      } else {
        r, input := None, [];
      }
    }

    method Write(b: Bytes)
      modifies this`output
      ensures output == old(output) + b
    {
      output := output + b;
    }

    method ReadSOCKSAuth() returns (r: Option<(Bytes, Bytes)>)
      modifies this`input
      ensures input == ReadAuth(old(input)).rest
      ensures r == if ReadAuth(old(input)).Go? then Some(ReadAuth(old(input)).value) else None
    {
      var h := ReadFull(2);
      if h.None? || h.value[0] != 1 { return None; }
      var u := ReadFull(h.value[1]);
      if u.None? { return None; }
      var l := ReadFull(1);
      if l.None? { return None; }
      var p := ReadFull(l.value[0]);
      if p.None? { return None; }
      return Some((u.value, p.value));
    }

    static method IsOffered(methods: Bytes, want: Byte) returns (offered: bool)
      ensures offered <==> want in methods
    {
      offered := false;
      for i := 0 to |methods|
        invariant offered <==> want in methods[..i]
      {
        if methods[i] == want { offered := true; }
      }
      assert methods[..|methods|] == methods;
    }

    /** The greeting and the login; ok means go on to the request. */
    method Handshake(auth: Auth) returns (ok: bool)
      modifies this
      ensures var g := Greeting(old(input), auth);
        if g.Stop? then !ok && input == g.rest && output == old(output) + g.out
        else var a := Authenticate(g.rest, auth);
          ok == a.Go? && input == a.rest && output == old(output) + (g.out + a.out)
    {
      ok := false;
      var hdr := ReadFull(2);
      if hdr.None? || hdr.value[0] != 5 { return; }
      var methods := ReadFull(hdr.value[1]);
      if methods.None? { return; }
      var want := Wanted(auth);
      var offered := IsOffered(methods.value, want);
      if !offered { Write([5, 0xff]); return; }
      Write([5, want]);
      if auth.Password? {
        var up := ReadSOCKSAuth();
        if up.None? { return; }
        if up.value.0 != LocalProxyUser || !auth.check(up.value.1) { Write([1, 1]); return; }
        Write([1, 0]);
      }
      ok := true;
    }

    /** The request's destination; on a refusal the reply is already written. */
    method Request() returns (r: Option<(Address, nat)>)
      modifies this
      ensures var q := ReadRequest(old(input));
        input == q.rest && output == old(output) + q.out && r == if q.Go? then Some(q.value) else None
    {
      r := None;
      var req := ReadFull(4);
      if req.None? { return; }
      if req.value[1] != 1 { Write(Reply(7)); return; }
      var host;
      match req.value[3] {
        case 1 => var b := ReadFull(4); if b.None? { return; } host := V4(b.value);
        case 4 => var b := ReadFull(16); if b.None? { return; } host := V6(b.value);
        case 3 =>
          var l := ReadFull(1);
          if l.None? { return; }
          var b := ReadFull(l.value[0]);
          if b.None? { return; }
          host := Name(b.value);
        case _ => Write(Reply(8)); return;
      }
      var pb := ReadFull(2);
      if pb.None? { return; }
      r := Some((host, PortOf(pb.value)));
    }

    method ServeSOCKS(auth: Auth) returns (r: Option<(Address, nat)>)
      modifies this
      ensures var s := Serve(old(input), auth);
        input == s.rest && output == old(output) + s.out && r == if s.Go? then Some(s.value) else None
    {
      hide Greeting, Authenticate, ReadRequest;
      r := None;
      var ok := Handshake(auth);
      if ok {
        ghost var sofar := output;
        r := Request();
        assert output == sofar + ReadRequest(Authenticate(Greeting(old(input), auth).rest, auth).rest).out;
      }
    }
  }
}
