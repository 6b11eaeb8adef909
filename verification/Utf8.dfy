/** Text cut inside a multi-byte character: the well-formedness test of RFC 3629 section 4 against the
    encoding of section 3, and the recovery of a capped read. */
module Utf8 {
  import opened Wrappers

  type Byte = b: int | 0 <= b < 256

  /** The characters RFC 3629 can encode: no surrogates. */
  type Scalar = c: int | 0 <= c < 0xD800 || 0xE000 <= c < 0x11_0000

  predicate Tail(b: Byte) {
    0x80 <= b <= 0xBF
  }

  /** What may follow a lead byte, by the table of section 4. */
  predicate Second(lead: Byte, b: Byte) {
    if lead == 0xE0 then 0xA0 <= b <= 0xBF
    else if lead == 0xED then 0x80 <= b <= 0x9F
    else if lead == 0xF0 then 0x90 <= b <= 0xBF
    else if lead == 0xF4 then 0x80 <= b <= 0x8F
    else Tail(b)
  }

  /** The length a lead byte announces; 0 when it cannot begin a character. */
  function Announced(lead: Byte): (n: nat)
    ensures n <= 4
  {
    if lead < 0x80 then 1
    else if 0xC2 <= lead <= 0xDF then 2
    else if 0xE0 <= lead <= 0xEF then 3
    else if 0xF0 <= lead <= 0xF4 then 4
    else 0
  }

  /** The length of the well-formed character s begins with; 0 when there is none. */
  function FirstLen(s: seq<Byte>): (n: nat)
    ensures n <= |s|
  {
    if s == [] then 0
    else
      var n := Announced(s[0]);
      if |s| < n || (n >= 2 && !Second(s[0], s[1])) || (n >= 3 && !Tail(s[2])) || (n == 4 && !Tail(s[3])) then 0 else n
  }

  /** utf8.Valid. */
  predicate Valid(s: seq<Byte>) {
    s == [] || (FirstLen(s) > 0 && Valid(s[FirstLen(s)..]))
  }

  // ---- the encoding ----

  function Encode(c: Scalar): (s: seq<Byte>)
    ensures 1 <= |s| <= 4
  {
    if c < 0x80 then [c]
    else if c < 0x800 then [0xC0 + c / 64, 0x80 + c % 64]
    else if c < 0x1_0000 then [0xE0 + c / 4096, 0x80 + c / 64 % 64, 0x80 + c % 64]
    else [0xF0 + c / 262144, 0x80 + c / 4096 % 64, 0x80 + c / 64 % 64, 0x80 + c % 64]
  }

  function Encoded(cs: seq<Scalar>): seq<Byte> {
    if cs == [] then [] else Encode(cs[0]) + Encoded(cs[1..])
  }

  /** An encoded character is read whole. */
  lemma EncodeFirst(c: Scalar, rest: seq<Byte>)
    ensures FirstLen(Encode(c) + rest) == |Encode(c)|
  {
  }

  /** No proper part of it is a character. */
  lemma EncodeCut(c: Scalar, j: nat)
    requires j < |Encode(c)|
    ensures FirstLen(Encode(c)[..j]) == 0
  {
  }

  /** A byte without its mark. */
  function Bits(b: Byte, mark: Byte): int {
    b as int - mark as int
  }

  /** Base-64 digits come apart again. */
  lemma Sextets(a: nat, b: nat, d: nat, e: nat)
    requires b < 64 && d < 64 && e < 64
    ensures var n := a * 262144 + b * 4096 + d * 64 + e;
      n / 262144 == a && n / 4096 % 64 == b && n / 64 % 64 == d && n % 64 == e
  {
    var n := a * 262144 + b * 4096 + d * 64 + e;
    assert n / 64 == a * 4096 + b * 64 + d && n / 4096 == a * 64 + b;
  }

  function Two(a: Byte, b: Byte): (c: Scalar)
    requires Announced(a) == 2 && Second(a, b)
    ensures Encode(c) == [a, b]
  {
    Sextets(0, 0, Bits(a, 0xC0), Bits(b, 0x80));
    Bits(a, 0xC0) * 64 + Bits(b, 0x80)
  }

  function Three(a: Byte, b: Byte, d: Byte): (c: Scalar)
    requires Announced(a) == 3 && Second(a, b) && Tail(d)
    ensures Encode(c) == [a, b, d]
  {
    Sextets(0, Bits(a, 0xE0), Bits(b, 0x80), Bits(d, 0x80));
    Bits(a, 0xE0) * 4096 + Bits(b, 0x80) * 64 + Bits(d, 0x80)
  }

  function Four(a: Byte, b: Byte, d: Byte, e: Byte): (c: Scalar)
    requires Announced(a) == 4 && Second(a, b) && Tail(d) && Tail(e)
    ensures Encode(c) == [a, b, d, e]
  {
    Sextets(Bits(a, 0xF0), Bits(b, 0x80), Bits(d, 0x80), Bits(e, 0x80));
    Bits(a, 0xF0) * 262144 + Bits(b, 0x80) * 4096 + Bits(d, 0x80) * 64 + Bits(e, 0x80)
  }

  function DecodeFirst(s: seq<Byte>): (c: Scalar)
    requires FirstLen(s) > 0
    ensures Encode(c) == s[..FirstLen(s)]
  {
    match FirstLen(s)
    case 1 => s[0]
    case 2 => Two(s[0], s[1])
    case 3 => Three(s[0], s[1], s[2])
    case _ => Four(s[0], s[1], s[2], s[3])
  }

  function Decode(s: seq<Byte>): (cs: seq<Scalar>)
    requires Valid(s)
  {
    if s == [] then [] else [DecodeFirst(s)] + Decode(s[FirstLen(s)..])
  }

  lemma EncodedCons(c: Scalar, cs: seq<Scalar>)
    ensures Encoded([c] + cs) == Encode(c) + Encoded(cs)
  {
    assert ([c] + cs)[1..] == cs;
  }

  lemma {:induction false} DecodeEncodes(s: seq<Byte>)
    requires Valid(s)
    ensures Encoded(Decode(s)) == s
    decreases |s|
  {
    if s != [] {
      DecodeEncodes(s[FirstLen(s)..]);
      Recombine(s, FirstLen(s));
    }
  }

  lemma DecodeUnfolds(s: seq<Byte>)
    requires s != [] && Valid(s)
    ensures FirstLen(s) > 0 && Valid(s[FirstLen(s)..])
    ensures Decode(s) == [DecodeFirst(s)] + Decode(s[FirstLen(s)..])
  {
    hide Encode, FirstLen, DecodeFirst;
  }

  lemma Recombine(s: seq<Byte>, n: nat)
    requires s != [] && Valid(s) && n == FirstLen(s) && Encoded(Decode(s[n..])) == s[n..]
    ensures Encoded(Decode(s)) == s
  {
    hide Encode, Encoded, FirstLen, DecodeFirst, Decode, Valid;
    DecodeUnfolds(s);
    EncodedCons(DecodeFirst(s), Decode(s[n..]));
    assert s == s[..n] + s[n..];
  }

  lemma {:induction false} EncodedIsValid(cs: seq<Scalar>)
    ensures Valid(Encoded(cs))
  {
    if cs != [] {
      EncodeFirst(cs[0], Encoded(cs[1..]));
      EncodedIsValid(cs[1..]);
      assert Encoded(cs)[|Encode(cs[0])|..] == Encoded(cs[1..]);
    }
  }

  /** The byte test accepts exactly the encodings of sequences of characters. */
  lemma ValidMeansEncoded(s: seq<Byte>)
    ensures Valid(s) <==> exists cs :: s == Encoded(cs)
  {
    if Valid(s) { DecodeEncodes(s); }
    if cs :| s == Encoded(cs) { EncodedIsValid(cs); }
  }

  lemma EncodeInjective(c: Scalar, d: Scalar)
    requires Encode(c) == Encode(d)
    ensures c == d
  {
    Recompose(c);
    Recompose(d);
  }

  lemma Recompose(c: nat)
    ensures c == c / 64 * 64 + c % 64
    ensures c == c / 4096 * 4096 + c / 64 % 64 * 64 + c % 64
    ensures c == c / 262144 * 262144 + c / 4096 % 64 * 4096 + c / 64 % 64 * 64 + c % 64
  {
    assert c / 4096 == c / 64 / 64 && c / 262144 == c / 4096 / 64;
  }

  lemma FirstOfEncoded(c: Scalar, rest: seq<Byte>)
    ensures var s := Encode(c) + rest;
      FirstLen(s) == |Encode(c)| && s[FirstLen(s)..] == rest && DecodeFirst(s) == c
  {
    var s := Encode(c) + rest;
    EncodeFirst(c, rest);
    hide Encode, FirstLen, DecodeFirst;
    assert s[..|Encode(c)|] == Encode(c);
    EncodeInjective(DecodeFirst(s), c);
  }

  /** Text is the encoding of one sequence of characters only. */
  lemma {:induction false} DecodeEncoded(cs: seq<Scalar>)
    ensures Valid(Encoded(cs)) && Decode(Encoded(cs)) == cs
    decreases |cs|
  {
    hide Encode, FirstLen, DecodeFirst, Decode, Valid;
    EncodedIsValid(cs);
    if cs == [] {
      NothingDecoded();
    } else {
      DecodeEncoded(cs[1..]);
      FirstOfEncoded(cs[0], Encoded(cs[1..]));
      DecodeUnfolds(Encoded(cs));
      assert cs == [cs[0]] + cs[1..];
    }
  }

  lemma NothingDecoded()
    ensures Valid([]) && Decode([]) == []
  {
  }

  // ---- the recovery ----

  /** What mcpTextPrefix promises: the data when it is text; else, for a truncated read, the longest text
      it begins with, if that is at most 3 bytes short. */
  ghost predicate IsTextPrefix(data: seq<Byte>, truncated: bool, r: Option<seq<Byte>>) {
    match r
    case Some(text) =>
      && text <= data && Valid(text) && |data| - |text| <= 3
      && (!truncated ==> text == data)
      && (forall m :: |text| < m <= |data| ==> !Valid(data[..m]))
    case None =>
      forall m :: 0 <= m <= |data| && |data| - m <= (if truncated then 3 else 0) ==> !Valid(data[..m])
  }

  method TextPrefix(data: seq<Byte>, truncated: bool) returns (r: Option<seq<Byte>>)
    ensures IsTextPrefix(data, truncated, r)
  {
    hide Valid;
    assert data[..|data|] == data;
    if Valid(data) { return Some(data); }
    if !truncated { return None; }
    var cut := 1;
    while cut <= 3 && cut <= |data|
      invariant 1 <= cut <= 4 && cut <= |data| + 1
      invariant forall m :: 0 <= m <= |data| && |data| - m < cut ==> !Valid(data[..m])
    {
      if Valid(data[..|data| - cut]) { return Some(data[..|data| - cut]); }
      cut := cut + 1;
    }
    return None;
  }

  /** How many characters are whole in the first n bytes of their encoding. */
  function Whole(cs: seq<Scalar>, n: nat): (k: nat)
    ensures k <= |cs|
  {
    if cs != [] && |Encode(cs[0])| <= n then 1 + Whole(cs[1..], n - |Encode(cs[0])|) else 0
  }

  /** The whole characters are the longest text in the first n bytes, at most 3 bytes short of them. */
  lemma {:induction false} WholeIsLongest(cs: seq<Scalar>, n: nat)
    requires n <= |Encoded(cs)|
    ensures var text := Encoded(cs[..Whole(cs, n)]);
      && |text| <= n <= |text| + 3 && text == Encoded(cs)[..|text|]
      && forall m :: |text| < m <= n ==> !Valid(Encoded(cs)[..m])
    decreases |cs|
  {
    var k := Whole(cs, n);
    if k > 0 {
      var e, rest := Encode(cs[0]), Encoded(cs[1..]);
      WholeIsLongest(cs[1..], n - |e|);
      assert cs[..k][1..] == cs[1..][..k - 1];
      var text := Encoded(cs[1..][..k - 1]);
      assert Encoded(cs[..k]) == e + text;
      forall m | |e| + |text| < m <= n ensures !Valid(Encoded(cs)[..m]) {
        assert Encoded(cs)[..m] == e + rest[..m - |e|];
        EncodeFirst(cs[0], rest[..m - |e|]);
        assert (e + rest[..m - |e|])[|e|..] == rest[..m - |e|];
      }
    } else if cs != [] {
      var e, rest := Encode(cs[0]), Encoded(cs[1..]);
      forall m | 0 < m <= n ensures !Valid(Encoded(cs)[..m]) {
        EncodeCut(cs[0], m);
        assert Encoded(cs)[..m] == e[..m];
      }
    }
  }

  /** A read of text capped at any byte gives exactly its whole characters. */
  lemma CappedReadKeepsWholeCharacters(cs: seq<Scalar>, n: nat, r: Option<seq<Byte>>)
    requires n <= |Encoded(cs)| && IsTextPrefix(Encoded(cs)[..n], true, r)
    ensures r == Some(Encoded(cs[..Whole(cs, n)]))
    ensures n <= |r.value| + 3
  {
    hide Valid, Encoded, Encode, Whole;
    var data, text := Encoded(cs)[..n], Encoded(cs[..Whole(cs, n)]);
    WholeIsLongest(cs, n);
    EncodedIsValid(cs[..Whole(cs, n)]);
    assert data[..|text|] == text;
    assert forall m :: 0 <= m <= n ==> data[..m] == Encoded(cs)[..m];
    if r.Some? {
      assert r.value == data[..|r.value|];
    }
  }
}
