/** Wallet sign-in and request authentication.

    A wallet proves it owns an address by signing a `ton_proof` message
    (TON Connect's address-proof scheme) built from the address, the app
    domain, a timestamp and a server-issued payload. The server accepts the
    proof when it is at most 300 s old, names this app's domain, comes with
    the public key the wallet contract reports, has not been used in the
    last 300 s, and its Ed25519 signature verifies; accepted signatures are
    remembered for replay protection and forgotten by a sweep every 5
    minutes once older than 600 s. Times here are seconds
    (`Date.now() / 1000`, so with a fractional part).

    Address parsing, the contract's key lookup, base64 decoding, JWT
    verification, SHA-256 and Ed25519 are parameters. */
module Auth {
  import opened Wrappers
  import opened Text
  import opened Crypto

  const MaxProofAge: real := 300.0
  const ReplayWindow: real := 300.0
  const CacheLifetime: real := 600.0
  const SweepIntervalMs: nat := 300000

  const ProofPrefix: string := "ton-proof-item-v2/"
  const ConnectPrefix: string := "ton-connect"

  datatype TonProof = TonProof(timestamp: int, domainLengthBytes: int, domain: string, payload: string, signature: string)

  datatype WalletAuth = WalletAuth(address: string, publicKey: string, walletStateInit: string, proof: TonProof)

  /** A parsed TON address: workchain and 32-byte account hash. */
  datatype TonAddress = TonAddress(workchain: int, hash: Digest32)

  /** The library calls `verifyTONSignature` makes besides hashing and
      Ed25519: `Address.parse` (which throws on a malformed address) and
      `Buffer.from(s, "base64")`. */
  datatype Ton = Ton(parseAddress: string -> Option<TonAddress>, base64: string -> seq<byte>)

  // ---------------------------------------------------------- the message

  /** The two ASCII literals `createMessage` encodes (`Buffer.from` of ASCII
      text is its character codes, `Text.Utf8OfAscii`). */
  function ProofPrefixBytes(): (bs: seq<byte>)
    ensures |bs| == 18
  {
    AsciiBytes(ProofPrefix)
  }

  function ConnectPrefixBytes(): (bs: seq<byte>)
    ensures |bs| == 11
  {
    AsciiBytes(ConnectPrefix)
  }

  /** `createMessage`'s inner message: the four integers are written as
      4-byte little-endian `Uint32Array` values. */
  function ProofMessage(a: TonAddress, p: TonProof): (m: seq<byte>)
    ensures |m| == 62 + |Utf8(p.domain)| + |Utf8(p.payload)|
  {
    ProofPrefixBytes() + Uint32LE(a.workchain) + a.hash + Uint32LE(p.domainLengthBytes)
      + Utf8(p.domain) + Uint32LE(p.timestamp) + Utf8(p.payload)
  }

  /** Where each field sits in the message. */
  lemma ProofMessageLayout(a: TonAddress, p: TonProof)
    ensures var m := ProofMessage(a, p); var d := |Utf8(p.domain)|;
      && m[..18] == ProofPrefixBytes()
      && m[18..22] == Uint32LE(a.workchain)
      && m[22..54] == a.hash
      && m[54..58] == Uint32LE(p.domainLengthBytes)
      && m[58..58 + d] == Utf8(p.domain)
      && m[58 + d..62 + d] == Uint32LE(p.timestamp)
      && m[62 + d..] == Utf8(p.payload)
  {
  }

  /** Two proofs with equally long domains that give the same message agree
      on the account hash, the domain and the payload, and on the workchain,
      domain length and timestamp modulo 2^32 (the 4-byte fields wrap). */
  lemma ProofMessageDetermines(a1: TonAddress, p1: TonProof, a2: TonAddress, p2: TonProof)
    requires |Utf8(p1.domain)| == |Utf8(p2.domain)|
    requires ProofMessage(a1, p1) == ProofMessage(a2, p2)
    ensures a1.hash == a2.hash && Utf8(p1.domain) == Utf8(p2.domain) && Utf8(p1.payload) == Utf8(p2.payload)
    ensures a1.workchain % TwoTo32 == a2.workchain % TwoTo32
    ensures p1.domainLengthBytes % TwoTo32 == p2.domainLengthBytes % TwoTo32
    ensures p1.timestamp % TwoTo32 == p2.timestamp % TwoTo32
  {
    ProofMessageLayout(a1, p1);
    ProofMessageLayout(a2, p2);
    Uint32LERoundTrip(a1.workchain);
    Uint32LERoundTrip(a2.workchain);
    Uint32LERoundTrip(p1.domainLengthBytes);
    Uint32LERoundTrip(p2.domainLengthBytes);
    Uint32LERoundTrip(p1.timestamp);
    Uint32LERoundTrip(p2.timestamp);
  }

  /** What the wallet signs: 0xFF 0xFF, "ton-connect", SHA-256 of the message. */
  function SignedBuffer(c: Primitives, message: seq<byte>): (b: seq<byte>)
    ensures |b| == 45
    ensures b[..2] == [0xff, 0xff] && b[2..13] == ConnectPrefixBytes() && b[13..] == c.sha256(message)
  {
    [0xff, 0xff] + ConnectPrefixBytes() + c.sha256(message)
  }

  // ------------------------------------------------------ the check order

  datatype Verdict = Stale | DomainMismatch | BadAddress | LookupFailed | KeyMismatch | Replayed | BadSignature | Verified

  /** `Buffer.from(key.toString(16).padStart(64, "0"), "hex")`. */
  function ContractKeyBytes(key: nat): seq<byte> {
    HexDecode(PadStart(NatToHex(key), 64, '0'))
  }

  /** A 256-bit key renders as 32 bytes whose big-endian value is the key. */
  lemma ContractKeyBytesValue(key: nat)
    requires key < Pow256(32)
    ensures |ContractKeyBytes(key)| == 32 && BigEndian(ContractKeyBytes(key)) == key
  {
    var h := NatToHex(key);
    NatToHexLength(key, 32);
    NatToHexValue(key);
    var p := PadStart(h, 64, '0');
    var z := p[..64 - |h|];
    assert p == z + h;
    HexValueOfLeadingZeros(z, h);
    HexDecodeValue(p);
  }

  /** A 256-bit key from the contract matches a 32-byte public key exactly
      when the key is the public key's big-endian value. */
  lemma ContractKeyMatches(key: nat, publicKey: seq<byte>)
    requires key < Pow256(32) && |publicKey| == 32
    ensures ContractKeyBytes(key) == publicKey <==> key == BigEndian(publicKey)
  {
    ContractKeyBytesValue(key);
    if key == BigEndian(publicKey) {
      BigEndianInjective(ContractKeyBytes(key), publicKey);
    }
  }

  /** The replay test: a recorded, truthy time less than 300 s before `now`. */
  predicate IsReplay(used: map<string, real>, sig: string, now: real) {
    sig in used && used[sig] != 0.0 && now - used[sig] < ReplayWindow
  }

  /** `verifyTONSignature`'s checks in the order the source makes them.
      `startedAt` and `now` are its two clock readings (before and after the
      key lookup); `contractKey` is the key the wallet contract returned, or
      `None` when the lookup threw. */
  function Check(data: WalletAuth, appDomain: string, ton: Ton, c: Primitives, contractKey: Option<nat>,
                 used: map<string, real>, startedAt: real, now: real): (v: Verdict)
    ensures v == Stale <==> startedAt - data.proof.timestamp as real > MaxProofAge
  {
    var p := data.proof;
    if startedAt - p.timestamp as real > MaxProofAge then Stale
    else if p.domain != appDomain then DomainMismatch
    else if ton.parseAddress(data.address).None? then BadAddress
    else if contractKey.None? then LookupFailed
    else if ContractKeyBytes(contractKey.value) != HexDecode(data.publicKey) then KeyMismatch
    else if IsReplay(used, p.signature, now) then Replayed
    else if !c.verifySignature(SignedBuffer(c, ProofMessage(ton.parseAddress(data.address).value, p)),
                               ton.base64(p.signature), HexDecode(data.publicKey)) then BadSignature
    else Verified
  }

  /** A proof is accepted exactly when it passes every check. */
  lemma CheckAcceptsExactly(data: WalletAuth, appDomain: string, ton: Ton, c: Primitives, contractKey: Option<nat>,
                            used: map<string, real>, startedAt: real, now: real)
    ensures Check(data, appDomain, ton, c, contractKey, used, startedAt, now) == Verified <==>
      && startedAt - data.proof.timestamp as real <= MaxProofAge
      && data.proof.domain == appDomain
      && ton.parseAddress(data.address).Some?
      && contractKey.Some? && ContractKeyBytes(contractKey.value) == HexDecode(data.publicKey)
      && !IsReplay(used, data.proof.signature, now)
      && c.verifySignature(SignedBuffer(c, ProofMessage(ton.parseAddress(data.address).value, data.proof)),
                           ton.base64(data.proof.signature), HexDecode(data.publicKey))
  {
  }

  /** A stale proof or a foreign domain is refused whatever the network, the
      cache and the signature would say: the verdict is reached before the
      key lookup. */
  lemma EarlyRefusalIndependent(data: WalletAuth, appDomain: string, ton: Ton, c: Primitives,
                                k1: Option<nat>, k2: Option<nat>,
                                u1: map<string, real>, u2: map<string, real>, startedAt: real, n1: real, n2: real)
    requires startedAt - data.proof.timestamp as real > MaxProofAge || data.proof.domain != appDomain
    ensures Check(data, appDomain, ton, c, k1, u1, startedAt, n1) == Check(data, appDomain, ton, c, k2, u2, startedAt, n2)
    ensures Check(data, appDomain, ton, c, k1, u1, startedAt, n1) in {Stale, DomainMismatch}
  {
  }

  /** A key that differs from the contract's is refused before the signature
      is looked at. */
  lemma KeyMismatchRefused(data: WalletAuth, appDomain: string, ton: Ton, c: Primitives, key: nat,
                           used: map<string, real>, startedAt: real, now: real)
    requires startedAt - data.proof.timestamp as real <= MaxProofAge && data.proof.domain == appDomain
    requires ton.parseAddress(data.address).Some?
    requires ContractKeyBytes(key) != HexDecode(data.publicKey)
    ensures Check(data, appDomain, ton, c, Some(key), used, startedAt, now) == KeyMismatch
  {
  }

  class ProofCache {
    /** `usedProofCache`: signature (base64) to the time it was accepted. */
    var used: map<string, real>

    constructor ()
      ensures used == map[]
    {
      used := map[];
    }

    /** `verifyTONSignature`: only an accepted proof is recorded, at `now`. */
    method VerifyTonSignature(data: WalletAuth, appDomain: string, ton: Ton, c: Primitives,
                              contractKey: Option<nat>, startedAt: real, now: real) returns (ok: bool)
      modifies this
      ensures ok <==> Check(data, appDomain, ton, c, contractKey, old(used), startedAt, now) == Verified
      ensures used == if ok then old(used)[data.proof.signature := now] else old(used)
    {
      var p := data.proof;
      if startedAt - p.timestamp as real > MaxProofAge {
        return false;
      }
      if p.domain != appDomain {
        return false;
      }
      var parsed := ton.parseAddress(data.address);
      if parsed.None? || contractKey.None? {
        return false;
      }
      var publicKey := HexDecode(data.publicKey);
      if ContractKeyBytes(contractKey.value) != publicKey {
        return false;
      }
      var message := SignedBuffer(c, ProofMessage(parsed.value, p));
      var signature := ton.base64(p.signature);
      if p.signature in used && used[p.signature] != 0.0 && now - used[p.signature] < ReplayWindow {
        return false;
      }
      ok := c.verifySignature(message, signature, publicKey);
      if ok {
        used := used[p.signature := now];
      }
    }

    /** The 5-minute sweep: forget every signature accepted more than 600 s ago. */
    method Sweep(now: real)
      modifies this
      ensures used == Swept(old(used), now)
    {
      var pending := used.Keys;
      while pending != {}
        invariant pending <= used.Keys
        invariant forall k :: k in used <==> k in old(used) && (k in pending || !(now - old(used)[k] > CacheLifetime))
        invariant forall k :: k in used ==> used[k] == old(used)[k]
        decreases pending
      {
        var k :| k in pending;
        if now - used[k] > CacheLifetime {
          used := used - {k};
        }
        pending := pending - {k};
      }
    }
  }

  /** The cache after a sweep at `now`. */
  function Swept(used: map<string, real>, now: real): (r: map<string, real>)
    ensures forall k :: k in r <==> k in used && now - used[k] <= CacheLifetime
    ensures forall k :: k in r ==> r[k] == used[k]
  {
    map k | k in used && now - used[k] <= CacheLifetime :: used[k]
  }

  /** Sweeping never reopens a replay: for any check at or after the sweep
      the replay test answers as it would have on the unswept cache. */
  lemma SweepKeepsReplayDecisions(used: map<string, real>, now: real, sig: string, later: real)
    requires later >= now
    ensures IsReplay(Swept(used, now), sig, later) <==> IsReplay(used, sig, later)
  {
  }

  /** Once a proof is accepted at a positive time `t`, the same signature is
      refused for the next 300 s. */
  lemma AcceptedThenRefused(data: WalletAuth, appDomain: string, ton: Ton, c: Primitives, contractKey: Option<nat>,
                            used: map<string, real>, t: real, startedAt: real, later: real)
    requires t > 0.0 && t <= later < t + ReplayWindow
    ensures Check(data, appDomain, ton, c, contractKey, used[data.proof.signature := t], startedAt, later) != Verified
  {
    assert IsReplay(used[data.proof.signature := t], data.proof.signature, later);
  }

  /** A proof whose timestamp lies in the future stays fresh after its
      signature has left the replay window, so it is accepted again. */
  lemma FutureProofReplayable(data: WalletAuth, appDomain: string, ton: Ton, c: Primitives, key: nat, t: real)
    requires t > 0.0 && data.proof.timestamp as real >= t + ReplayWindow
    requires Check(data, appDomain, ton, c, Some(key), map[], t, t) == Verified
    ensures Check(data, appDomain, ton, c, Some(key), map[data.proof.signature := t], t + ReplayWindow, t + ReplayWindow) == Verified
  {
  }

  // ------------------------------------------------------ request tokens

  datatype AuthResult = Rejected(status: int, error: string) | Authenticated(address: string)

  /** `authHeader && authHeader.split(" ")[1]`, with a missing or empty word
      as `None`. */
  function BearerToken(header: Option<string>): (t: Option<string>)
    ensures t.Some? ==> t.value != "" && forall j :: 0 <= j < |t.value| ==> t.value[j] != ' '
  {
    if header.None? || header.value == "" then None
    else
      var words := Split(header.value, ' ');
      if |words| < 2 || words[1] == "" then None else Some(words[1])
  }

  /** `Bearer <token>` yields the token. */
  lemma BearerTokenOfHeader(scheme: string, token: string)
    requires forall j :: 0 <= j < |scheme| ==> scheme[j] != ' '
    requires token != "" && forall j :: 0 <= j < |token| ==> token[j] != ' '
    ensures BearerToken(Some(scheme + " " + token)) == Some(token)
  {
    SplitFirstField(scheme, ' ', token);
    SplitNoSeparator(token, ' ');
  }

  /** `authenticateToken`: 401 without a token, 403 when verification fails,
      otherwise the request carries the token's address. */
  function AuthenticateToken(header: Option<string>, verifyJwt: string -> Option<string>): (r: AuthResult)
    ensures r == Rejected(401, "Access token required") <==> BearerToken(header).None?
    ensures r == Rejected(403, "Invalid or expired token") <==> BearerToken(header).Some? && verifyJwt(BearerToken(header).value).None?
    ensures r.Authenticated? <==> BearerToken(header).Some? && verifyJwt(BearerToken(header).value).Some?
    ensures r.Authenticated? ==> r.address == verifyJwt(BearerToken(header).value).value
  {
    var t := BearerToken(header);
    if t.None? then Rejected(401, "Access token required")
    else
      var decoded := verifyJwt(t.value);
      if decoded.None? then Rejected(403, "Invalid or expired token") else Authenticated(decoded.value)
  }

  // ------------------------------------------------------ the challenge

  /** `generateSignaturePayload`, with the clock (ms) and 16 random bytes passed in. */
  function SignaturePayload(nowMs: nat, nonce: seq<byte>): (s: string)
    requires |nonce| == 16
    ensures |s| == 6 + |NatToDecimal(nowMs)| + 32
    ensures s[..5] == "auth-" && s[|s| - 32..] == HexEncode(nonce)
  {
    "auth-" + NatToDecimal(nowMs) + "-" + HexEncode(nonce)
  }

  /** The payload splits at `-` into "auth", the timestamp and the nonce, and
      both read back. */
  lemma SignaturePayloadParses(nowMs: nat, nonce: seq<byte>)
    requires |nonce| == 16
    ensures var fields := Split(SignaturePayload(nowMs, nonce), '-');
      && fields == ["auth", NatToDecimal(nowMs), HexEncode(nonce)]
      && DecimalValue(fields[1]) == nowMs
      && HexDecode(fields[2]) == nonce
  {
    var dec := NatToDecimal(nowMs);
    var hex := HexEncode(nonce);
    assert "auth-" + dec + "-" + hex == "auth" + ['-'] + (dec + ['-'] + hex);
    SplitFirstField("auth", '-', dec + ['-'] + hex);
    SplitFirstField(dec, '-', hex);
    SplitNoSeparator(hex, '-');
    DecimalRoundTrip(nowMs);
    HexRoundTrip(nonce);
  }
}
