// The sealed wire form of the fast-restart stamp. Its life across sessions and crashes is
// in `Restart`.

module Stamp {
  import opened Core

  // ---- the wire form: length, body, seal ----

  const U32: nat := 0x1_0000_0000
  const SEAL: nat := 32

  // With a key the seal is a keyed tag of the body, otherwise a padded checksum.
  datatype Sealer = Keyed(tag: seq<byte> -> seq<byte>) | Checksummed(crc: seq<byte> -> seq<byte>)

  ghost predicate Proper(s: Sealer) {
    match s
    case Keyed(tag) => forall b :: |tag(b)| == SEAL
    case Checksummed(crc) => forall b :: |crc(b)| == 4
  }

  const PADDING: seq<byte> := [0, 0, 0, 0, 0, 0, 0, 0, 0, 0, 0, 0, 0, 0, 0, 0, 0, 0, 0, 0, 0, 0, 0, 0, 0, 0, 0, 0]

  function Seal(s: Sealer, body: seq<byte>): seq<byte> {
    match s
    case Keyed(tag) => tag(body)
    case Checksummed(crc) => crc(body) + PADDING
  }

  lemma SealLength(s: Sealer, body: seq<byte>)
    requires Proper(s)
    ensures |Seal(s, body)| == SEAL
  {
  }

  // The low 32 bits of a length, least significant byte first.
  function ToLe32(n: nat): seq<byte> {
    var n1 := n / 0x100;
    var n2 := n1 / 0x100;
    var n3 := n2 / 0x100;
    [(n % 0x100) as byte, (n1 % 0x100) as byte, (n2 % 0x100) as byte, (n3 % 0x100) as byte]
  }

  function FromLe32(s: seq<byte>): (n: nat)
    requires |s| == 4
    ensures n < U32
  {
    s[0] as nat + s[1] as nat * 0x100 + s[2] as nat * 0x1_0000 + s[3] as nat * 0x100_0000
  }

  lemma LengthRoundTrip(n: nat)
    ensures FromLe32(ToLe32(n)) == n % U32
  {
    var n1 := n / 0x100;
    var n2 := n1 / 0x100;
    var n3 := n2 / 0x100;
    var n4 := n3 / 0x100;
    assert n == FromLe32(ToLe32(n)) + U32 * n4;
    Remainder(n, FromLe32(ToLe32(n)), n4);
  }

  lemma Remainder(n: nat, low: nat, high: nat)
    requires n == low + U32 * high && low < U32
    ensures n % U32 == low
  {
  }

  lemma BytesRoundTrip(s: seq<byte>)
    requires |s| == 4
    ensures ToLe32(FromLe32(s)) == s
  {
    var n := FromLe32(s);
    assert n / 0x100 == s[1] as nat + s[2] as nat * 0x100 + s[3] as nat * 0x1_0000;
    assert n / 0x100 / 0x100 == s[2] as nat + s[3] as nat * 0x100;
    assert n / 0x100 / 0x100 / 0x100 == s[3] as nat;
  }

  lemma BytesValue(s: seq<byte>)
    requires |s| == 4
    ensures FromLe32(s) == s[0] as nat + 0x100 * s[1] as nat + 0x1_0000 * s[2] as nat + 0x100_0000 * s[3] as nat
  {
  }

  function Wrap(body: seq<byte>, s: Sealer): seq<byte> {
    ToLe32(|body|) + body + Seal(s, body)
  }

  datatype Reject = TooSmall | LengthMismatch | SealMismatch

  function Unwrap(data: seq<byte>, s: Sealer): Result<seq<byte>, Reject> {
    if |data| < 4 + SEAL then Err(TooSmall)
    else
      var n := FromLe32(data[..4]);
      if |data| != 4 + n + SEAL then Err(LengthMismatch)
      else if data[4 + n..] != Seal(s, data[4..4 + n]) then Err(SealMismatch)
      else Ok(data[4..4 + n])
  }

  /** The bytes of a stamp: the length of the body, least significant byte first, the body,
      and its tag or its checksum filled up with zeros. */
  lemma WrapLayout(body: seq<byte>, s: Sealer)
    requires Proper(s) && |body| < U32
    ensures var b, n := Wrap(body, s), |body|;
            && |b| == 4 + n + 32
            && n == b[0] as nat + 0x100 * b[1] as nat + 0x1_0000 * b[2] as nat + 0x100_0000 * b[3] as nat
            && b[4..4 + n] == body
            && (s.Keyed? ==> b[4 + n..] == s.tag(body))
            && (s.Checksummed? ==> b[4 + n..] == s.crc(body) + Zeros(28))
  {
    hide ToLe32, FromLe32, Seal, Zeros;
    var b, n := Wrap(body, s), |body|;
    LeLength(n);
    SealLength(s, body);
    assert b[..4] == ToLe32(n) && b[4..4 + n] == body && b[4 + n..] == Seal(s, body);
    LengthRoundTrip(n);
    BytesValue(b[..4]);
    SealMeans(s, body);
  }

  function Zeros(n: nat): seq<byte> {
    seq(n, i => 0)
  }

  lemma SealMeans(s: Sealer, body: seq<byte>)
    ensures Seal(s, body) == if s.Keyed? then s.tag(body) else s.crc(body) + Zeros(28)
  {
    assert PADDING == Zeros(28);
  }

  /** Unwrapping accepts exactly the wrapped bodies below 4 GiB, and returns the body. */
  lemma UnwrapsExactlyWraps(data: seq<byte>, body: seq<byte>, s: Sealer)
    requires Proper(s)
    ensures Unwrap(data, s) == Ok(body) <==> |body| < U32 && data == Wrap(body, s)
  {
    hide ToLe32, FromLe32, Seal;
    SealLength(s, body);
    LengthRoundTrip(|body|);
    if |body| < U32 && data == Wrap(body, s) {
      assert data[..4] == ToLe32(|body|) by { LeLength(|body|); }
      LeLength(|body|);
      assert data[4..4 + |body|] == body;
      assert data[4 + |body|..] == Seal(s, body);
    }
    if Unwrap(data, s) == Ok(body) {
      BytesRoundTrip(data[..4]);
      assert data == data[..4] + data[4..4 + |body|] + data[4 + |body|..];
    }
  }

  lemma LeLength(n: nat)
    ensures |ToLe32(n)| == 4
  {
  }

  /** A body of 4 GiB or more does not survive: its length no longer fits the header. */
  lemma WrapSurvivesIff(body: seq<byte>, s: Sealer)
    requires Proper(s)
    ensures Unwrap(Wrap(body, s), s) == Ok(body) <==> |body| < U32
    ensures |body| >= U32 ==> Unwrap(Wrap(body, s), s) == Err(LengthMismatch)
  {
    hide ToLe32, FromLe32, Seal;
    UnwrapsExactlyWraps(Wrap(body, s), body, s);
    SealLength(s, body);
    LengthRoundTrip(|body|);
    LeLength(|body|);
    assert Wrap(body, s)[..4] == ToLe32(|body|);
  }
}
