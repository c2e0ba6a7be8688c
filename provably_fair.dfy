/** The provably-fair derivation of a spin's random number: the server commits
    to a secret seed by publishing its SHA-256, then derives each spin's number
    from an HMAC-SHA512 of both seeds and a per-session counter. */
module ProvablyFair {
  import opened Text
  import opened Crypto

  /** `generateServerSeed`: 32 random bytes as lowercase hex. */
  function GenerateServerSeed(random: seq<byte>): (seed: string)
    requires |random| == 32
    ensures |seed| == 64
    ensures forall i :: 0 <= i < |seed| ==> IsLowerHexChar(seed[i])
    ensures HexDecode(seed) == random
  {
    HexRoundTrip(random);
    HexEncode(random)
  }

  /** `hashSeed`: the hex SHA-256 of the seed's UTF-8 bytes. */
  function HashSeed(c: Primitives, seed: string): (h: string)
    ensures |h| == 64
    ensures forall i :: 0 <= i < |h| ==> IsLowerHexChar(h[i])
    ensures HexDecode(h) == c.sha256(Utf8(seed))
  {
    HexRoundTrip(c.sha256(Utf8(seed)));
    HexEncode(c.sha256(Utf8(seed)))
  }

  /** The MAC input `${serverSeed}-${clientSeed}-${nonce}`. */
  function CombinedSeed(serverSeed: string, clientSeed: string, nonce: nat): (r: string)
    ensures |r| == |serverSeed| + |clientSeed| + |NatToDecimal(nonce)| + 2
    ensures r[..|serverSeed|] == serverSeed && r[|serverSeed|] == '-'
    ensures r[|serverSeed| + 1..|serverSeed| + 1 + |clientSeed|] == clientSeed
    ensures r[|r| - |NatToDecimal(nonce)| - 1] == '-'
    ensures r[|r| - |NatToDecimal(nonce)|..] == NatToDecimal(nonce)
  {
    serverSeed + "-" + clientSeed + "-" + NatToDecimal(nonce)
  }

  /** Position of the last `-` in `t`, or -1. */
  function LastDash(t: string): (p: int)
    ensures -1 <= p < |t|
  {
    if t == [] then -1
    else if t[|t| - 1] == '-' then |t| - 1
    else LastDash(t[..|t| - 1])
  }

  lemma {:induction false} LastDashBeforeDigits(c: string, d: string)
    requires forall i :: 0 <= i < |d| ==> IsDigit(d[i])
    ensures LastDash(c + "-" + d) == |c|
  {
    var t := c + "-" + d;
    if d == [] {
      assert t[|t| - 1] == '-';
    } else {
      var d' := d[..|d| - 1];
      assert t[..|t| - 1] == c + "-" + d';
      assert t[|t| - 1] == d[|d| - 1];
      LastDashBeforeDigits(c, d');
    }
  }

  /** A string `c-d` with `d` all digits splits back into `c` and `d`. */
  lemma DashSplitInjective(c1: string, d1: string, c2: string, d2: string)
    requires forall i :: 0 <= i < |d1| ==> IsDigit(d1[i])
    requires forall i :: 0 <= i < |d2| ==> IsDigit(d2[i])
    requires c1 + "-" + d1 == c2 + "-" + d2
    ensures c1 == c2 && d1 == d2
  {
    var t := c1 + "-" + d1;
    LastDashBeforeDigits(c1, d1);
    LastDashBeforeDigits(c2, d2);
    assert c1 == t[..|c1|] && c2 == t[..|c2|];
    assert d1 == t[|c1| + 1..];
    assert d2 == (c2 + "-" + d2)[|c2| + 1..];
  }

  /** Different nonces (or client seeds) under one server seed give different
      MAC inputs, so no two spins of a session reuse an input. */
  lemma CombinedSeedInjective(s: string, c1: string, n1: nat, c2: string, n2: nat)
    requires CombinedSeed(s, c1, n1) == CombinedSeed(s, c2, n2)
    ensures c1 == c2 && n1 == n2
  {
    var d1, d2 := NatToDecimal(n1), NatToDecimal(n2);
    var t1, t2 := c1 + "-" + d1, c2 + "-" + d2;
    var x := CombinedSeed(s, c1, n1);
    assert x == (s + "-") + t1;
    assert x == (s + "-") + t2;
    assert t1 == x[|s| + 1..] == t2;
    DashSplitInjective(c1, d1, c2, d2);
    NatToDecimalInjective(n1, n2);
  }

  /** The MAC a spin derives its number from, keyed by the server seed. */
  function SpinMac(c: Primitives, serverSeed: string, clientSeed: string, nonce: nat): (r: Digest64)
    ensures r == c.hmacSha512(Utf8(serverSeed),
                              Utf8(serverSeed) + [0x2D] + Utf8(clientSeed) + [0x2D] + Utf8(NatToDecimal(nonce)))
  {
    var d := NatToDecimal(nonce);
    Utf8Append(serverSeed + "-" + clientSeed + "-", d);
    Utf8Append(serverSeed + "-" + clientSeed, "-");
    Utf8Append(serverSeed + "-", clientSeed);
    Utf8Append(serverSeed, "-");
    assert Utf8("-") == [0x2D];
    c.hmacSha512(Utf8(serverSeed), Utf8(CombinedSeed(serverSeed, clientSeed, nonce)))
  }

  /** `calculateResult`: `parseInt` of the first eight hex digits of the MAC,
      which is the big-endian value of its first four bytes. */
  function CalculateResult(c: Primitives, serverSeed: string, clientSeed: string, nonce: nat): (r: nat)
    ensures r == BigEndian(SpinMac(c, serverSeed, clientSeed, nonce)[..4])
    ensures r < TwoTo32
  {
    var mac := SpinMac(c, serverSeed, clientSeed, nonce);
    var hex := HexEncode(mac);
    assert hex[..8] == HexEncode(mac[..4]) by {
      assert mac == mac[..4] + mac[4..];
      HexEncodeAppend(mac[..4], mac[4..]);
    }
    HexValueOfEncode(mac[..4]);
    BigEndianBound(mac[..4]);
    assert Pow256(4) == TwoTo32;
    HexValueOf(hex[..8])
  }
}
