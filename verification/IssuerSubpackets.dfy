/** The reader of a signature packet's issuer subpackets, from the decoded signature octets on
    (RFC 4880, sections 5.2.3 and 5.2.3.1). */
module IssuerSubpackets {
  import opened OpenPgp

  // --- identifiers -------------------------------------------------------------------------

  /** An issuer key ID or fingerprint, as the upper-case hexadecimal text the reader reports. */
  datatype IssuerId = IssuerId(hex: string)

  const HEX_DIGITS := "0123456789ABCDEF"

  /** `bytes.hex().upper()`. */
  function Hex(s: Bytes): string {
    if s == [] then "" else [HEX_DIGITS[s[0] / 16], HEX_DIGITS[s[0] % 16]] + Hex(s[1..])
  }

  lemma {:induction false} HexIsInjective(a: Bytes, b: Bytes)
    requires Hex(a) == Hex(b)
    ensures a == b
  {
    if a == [] || b == [] {
      assert |Hex(a)| == 0 && a == b;
    } else {
      assert Hex(a)[0] == HEX_DIGITS[a[0] / 16] && Hex(a)[1] == HEX_DIGITS[a[0] % 16];
      assert Hex(b)[0] == HEX_DIGITS[b[0] / 16] && Hex(b)[1] == HEX_DIGITS[b[0] % 16];
      assert a[0] == b[0] by {
        HexDigitsDiffer(a[0] / 16, b[0] / 16);
        HexDigitsDiffer(a[0] % 16, b[0] % 16);
      }
      assert Hex(a)[2..] == Hex(a[1..]) && Hex(b)[2..] == Hex(b[1..]);
      HexIsInjective(a[1..], b[1..]);
      assert a == [a[0]] + a[1..] && b == [b[0]] + b[1..];
    }
  }

  lemma {:induction false} HexDigitsDiffer(i: nat, j: nat)
    requires i < 16 && j < 16 && HEX_DIGITS[i] == HEX_DIGITS[j]
    ensures i == j
  {
  }

  /** The identifier a subpacket contributes: an 8-octet issuer key ID (type 16), or an issuer
      fingerprint (type 33) after its version octet. The type octet is compared as it stands. */
  function Issuer(kind: byte, data: Bytes): set<IssuerId> {
    if kind == 16 && |data| == 8 then {IssuerId(Hex(data))}
    else if kind == 33 && |data| >= 21 then {IssuerId(Hex(data[1..]))}
    else {}
  }

  // --- the subpacket areas -----------------------------------------------------------------

  /** `body[i:i + n]`, cut off at the body's end. */
  function Part(body: Bytes, i: nat, n: nat): Bytes
    decreases n
  {
    if n == 0 || i >= |body| then [] else [body[i]] + Part(body, i + 1, n - 1)
  }

  lemma {:induction false} PartIsSlice(body: Bytes, i: nat, n: nat)
    requires i <= |body|
    ensures Part(body, i, n) == Take(body[i..], n)
    decreases n
  {
    if n > 0 && i < |body| {
      PartIsSlice(body, i + 1, n - 1);
      assert body[i..] == [body[i]] + body[i + 1..];
      TakeCons(body[i], body[i + 1..], n);
    }
  }

  lemma {:induction false} TakeCons(x: byte, s: Bytes, n: nat)
    requires n > 0
    ensures Take([x] + s, n) == [x] + Take(s, n - 1)
  {
  }

  /** One pass over the area `body[p..end]`: what it adds to `out`; `take` says what a subpacket
      contributes. */
  function ScanArea<D>(take: (byte, Bytes) -> set<D>, body: Bytes, p: nat, end: nat, out: set<D>): set<D>
    decreases |body| - p
  {
    if p >= end || p + 1 >= |body| || body[p] == 0 then out
    else
      var sl: nat := body[p];
      ScanArea(take, body, p + 1 + sl, end, out + take(body[p + 1], Part(body, p + 2, sl - 1)))
  }

  /** Where the cursor stops. */
  function AfterArea(body: Bytes, p: nat, end: nat): nat
    decreases |body| - p
  {
    if p >= end || p >= |body| then p
    else if p + 1 == |body| || body[p] == 0 then p + 1
    else AfterArea(body, p + 1 + body[p], end)
  }

  function ScanAreas<D>(take: (byte, Bytes) -> set<D>, body: Bytes, p: nat, regions: nat, out: set<D>): set<D>
    decreases regions
  {
    if regions == 0 || p + 2 > |body| then out
    else
      var end := p + 2 + U16(body[p..p + 2]);
      ScanAreas(take, body, AfterArea(body, p + 2, end), regions - 1, ScanArea(take, body, p + 2, end, out))
  }

  /** What a signature packet's body yields; only version 4 carries subpackets. */
  function BodyIssuers<D>(take: (byte, Bytes) -> set<D>, body: Bytes): set<D> {
    if body == [] || body[0] != 4 then {} else ScanAreas(take, body, 4, 2, {})
  }

  datatype Subpacket = Subpacket(kind: byte, data: Bytes)

  /** One-octet subpacket lengths: the type octet and the data take 1..191 octets. */
  predicate OneOctet(subs: seq<Subpacket>) {
    forall i :: 0 <= i < |subs| ==> 1 + |subs[i].data| <= 191
  }

  function EncodeArea(subs: seq<Subpacket>): Bytes
    requires OneOctet(subs)
  {
    if subs == [] then []
    else [1 + |subs[0].data|, subs[0].kind] + subs[0].data + EncodeArea(subs[1..])
  }

  ghost function Issuers<D>(take: (byte, Bytes) -> set<D>, subs: seq<Subpacket>): set<D> {
    if subs == [] then {} else take(subs[0].kind, subs[0].data) + Issuers(take, subs[1..])
  }

  ghost predicate HoldsAt(body: Bytes, p: nat, part: Bytes) {
    p + |part| <= |body| && body[p..p + |part|] == part
  }

  lemma {:induction false} HoldsParts(body: Bytes, p: nat, a: Bytes, b: Bytes)
    requires HoldsAt(body, p, a + b)
    ensures HoldsAt(body, p, a) && HoldsAt(body, p + |a|, b)
  {
    assert (a + b)[..|a|] == a && (a + b)[|a|..] == b;
  }

  lemma {:induction false} HoldsOctet(body: Bytes, p: nat, part: Bytes, i: nat)
    requires HoldsAt(body, p, part) && i < |part|
    ensures body[p + i] == part[i]
  {
    assert body[p..p + |part|][i] == body[p + i];
  }

  lemma {:induction false} AreaHead(body: Bytes, p: nat, sub: Subpacket, rest: Bytes)
    requires 1 + |sub.data| <= 191 && HoldsAt(body, p, [1 + |sub.data|, sub.kind] + sub.data + rest)
    ensures p + 1 < |body| && body[p] == 1 + |sub.data| && body[p + 1] == sub.kind
    ensures Part(body, p + 2, |sub.data|) == sub.data && HoldsAt(body, p + 2 + |sub.data|, rest)
  {
    var head := [1 + |sub.data|, sub.kind];
    HoldsParts(body, p, head + sub.data, rest);
    HoldsParts(body, p, head, sub.data);
    HoldsOctet(body, p, head, 0);
    HoldsOctet(body, p, head, 1);
    assert body[p + 2..][..|sub.data|] == body[p + 2..p + 2 + |sub.data|];
    PartIsSlice(body, p + 2, |sub.data|);
  }

  lemma {:induction false} AreaStep<D>(
      take: (byte, Bytes) -> set<D>, body: Bytes, p: nat, end: nat, sub: Subpacket, rest: Bytes, out: set<D>)
    requires 1 + |sub.data| <= 191 && HoldsAt(body, p, [1 + |sub.data|, sub.kind] + sub.data + rest) && p < end
    ensures HoldsAt(body, p + 2 + |sub.data|, rest)
    ensures ScanArea(take, body, p, end, out) ==
      ScanArea(take, body, p + 2 + |sub.data|, end, out + take(sub.kind, sub.data))
    ensures AfterArea(body, p, end) == AfterArea(body, p + 2 + |sub.data|, end)
  {
    AreaHead(body, p, sub, rest);
    assert p + 1 + body[p] == p + 2 + |sub.data|;
  }

  lemma {:induction false} UnionIsAssociative<D>(a: set<D>, b: set<D>, c: set<D>)
    ensures a + b + c == a + (b + c)
  {
  }

  lemma {:induction false} EncodeAreaStep(subs: seq<Subpacket>)
    requires OneOctet(subs) && subs != []
    ensures EncodeArea(subs) == [1 + |subs[0].data|, subs[0].kind] + subs[0].data + EncodeArea(subs[1..])
    ensures |EncodeArea(subs)| == 2 + |subs[0].data| + |EncodeArea(subs[1..])|
  {
  }

  /** Past one-octet subpackets the scan has taken exactly their issuers. */
  lemma {:induction false} AreaPrefix<D>(
      take: (byte, Bytes) -> set<D>, body: Bytes, p: nat, end: nat, subs: seq<Subpacket>, out: set<D>, q: nat,
      total: set<D>)
    requires OneOctet(subs) && HoldsAt(body, p, EncodeArea(subs))
    requires q == p + |EncodeArea(subs)| <= end && total == out + Issuers(take, subs)
    ensures ScanArea(take, body, p, end, out) == ScanArea(take, body, q, end, total)
    ensures AfterArea(body, p, end) == AfterArea(body, q, end)
    decreases |subs|
  {
    if subs == [] {
      assert total == out;
    } else {
      var sub, more := subs[0], subs[1..];
      var here := take(sub.kind, sub.data);
      EncodeAreaStep(subs);
      AreaStep(take, body, p, end, sub, EncodeArea(more), out);
      UnionIsAssociative(out, here, Issuers(take, more));
      AreaPrefix(take, body, p + 2 + |sub.data|, end, more, out + here, q, total);
    }
  }

  /** An area of one-octet subpackets yields exactly its issuers, and the cursor lands on its end. */
  lemma {:induction false} AreaRoundTrip<D>(
      take: (byte, Bytes) -> set<D>, body: Bytes, p: nat, subs: seq<Subpacket>, out: set<D>)
    requires OneOctet(subs) && HoldsAt(body, p, EncodeArea(subs))
    ensures ScanArea(take, body, p, p + |EncodeArea(subs)|, out) == out + Issuers(take, subs)
    ensures AfterArea(body, p, p + |EncodeArea(subs)|) == p + |EncodeArea(subs)|
  {
    var end := p + |EncodeArea(subs)|;
    AreaPrefix(take, body, p, end, subs, out, end, out + Issuers(take, subs));
  }

  /** Where the misread subpacket starts, its first length octet is taken for the whole length. */
  lemma {:induction false} MisreadStep<D>(
      take: (byte, Bytes) -> set<D>, body: Bytes, at: nat, end: nat, l1: byte, l2: byte, out: set<D>)
    requires HoldsAt(body, at, [l1, l2]) && at < end && l1 != 0
    ensures ScanArea(take, body, at, end, out) ==
      ScanArea(take, body, at + 1 + l1, end, out + take(l2, Part(body, at + 2, l1 - 1)))
  {
    HoldsOctet(body, at, [l1, l2], 0);
    HoldsOctet(body, at, [l1, l2], 1);
  }

  /** A longer length is misread: behind any one-octet subpackets, a first length octet `l1` from 192 on
      is taken for the whole length and the octet behind it for the type. */
  lemma {:induction false} LongLengthIsMisread<D>(
      take: (byte, Bytes) -> set<D>, body: Bytes, p: nat, end: nat, pre: seq<Subpacket>, l1: byte, l2: byte,
      out: set<D>)
    requires OneOctet(pre) && l1 >= 192
    requires HoldsAt(body, p, EncodeArea(pre) + [l1, l2]) && p + |EncodeArea(pre)| < end
    ensures
      var at := p + |EncodeArea(pre)|;
      ScanArea(take, body, p, end, out) ==
        ScanArea(take, body, at + 1 + l1, end, out + Issuers(take, pre) + take(l2, Part(body, at + 2, l1 - 1)))
  {
    var at, found := p + |EncodeArea(pre)|, out + Issuers(take, pre);
    HoldsParts(body, p, EncodeArea(pre), [l1, l2]);
    AreaPrefix(take, body, p, end, pre, out, at, found);
    MisreadStep(take, body, at, end, l1, l2, found);
  }

  /** Section 5.2.3.1: the size of the type octet and the data that a two-octet length announces. */
  function TwoOctetSize(l1: byte, l2: byte): nat
    requires l1 >= 192
  {
    (l1 - 192) * 256 + l2 + 192
  }

  /** Behind a two-octet length the misread cursor never lands on the subpacket's end. */
  lemma {:induction false} TwoOctetLengthNeverLands(at: nat, l1: byte, l2: byte)
    requires 192 <= l1 < 255
    ensures at + 1 + l1 != at + 2 + TwoOctetSize(l1, l2)
  {
    assert TwoOctetSize(l1, l2) >= l1;
  }

  /** A v4 signature body (section 5.2.3): four header octets, the hashed and the unhashed area, and
      the signature proper. */
  function SignatureBody(
      sigType: byte, keyAlgo: byte, hashAlgo: byte, hashed: Bytes, unhashed: Bytes, tail: Bytes): Bytes
    requires |hashed| < 65536 && |unhashed| < 65536
  {
    [4, sigType, keyAlgo, hashAlgo] + (U16Bytes(|hashed|) + hashed + (U16Bytes(|unhashed|) + unhashed + tail))
  }

  lemma {:induction false} AreaLength(body: Bytes, p: nat, n: nat)
    requires n < 65536 && HoldsAt(body, p, U16Bytes(n))
    ensures p + 2 <= |body| && U16(body[p..p + 2]) == n
  {
  }

  lemma {:induction false} AreasRoundTrip<D>(
      take: (byte, Bytes) -> set<D>, body: Bytes, p: nat, subs: seq<Subpacket>, regions: nat, out: set<D>)
    requires OneOctet(subs) && |EncodeArea(subs)| < 65536
    requires HoldsAt(body, p, U16Bytes(|EncodeArea(subs)|) + EncodeArea(subs))
    ensures ScanAreas(take, body, p, regions + 1, out) ==
      ScanAreas(take, body, p + 2 + |EncodeArea(subs)|, regions, out + Issuers(take, subs))
  {
    HoldsParts(body, p, U16Bytes(|EncodeArea(subs)|), EncodeArea(subs));
    AreaLength(body, p, |EncodeArea(subs)|);
    AreaRoundTrip(take, body, p + 2, subs, out);
  }

  lemma {:induction false} BodyLayout(body: Bytes, head: Bytes, first: Bytes, second: Bytes, tail: Bytes)
    requires body == head + (first + (second + tail))
    ensures HoldsAt(body, |head|, first) && HoldsAt(body, |head| + |first|, second)
  {
    assert body[..|body|] == body;
    HoldsParts(body, 0, head, first + (second + tail));
    HoldsParts(body, |head|, first, second + tail);
    HoldsParts(body, |head| + |first|, second, tail);
  }

  lemma {:induction false} BodyRoundTrip<D>(
      take: (byte, Bytes) -> set<D>, sigType: byte, keyAlgo: byte, hashAlgo: byte,
      hashed: seq<Subpacket>, unhashed: seq<Subpacket>, tail: Bytes)
    requires OneOctet(hashed) && OneOctet(unhashed)
    requires |EncodeArea(hashed)| < 65536 && |EncodeArea(unhashed)| < 65536
    ensures BodyIssuers(take,
      SignatureBody(sigType, keyAlgo, hashAlgo, EncodeArea(hashed), EncodeArea(unhashed), tail)) ==
      Issuers(take, hashed) + Issuers(take, unhashed)
  {
    var h, u := EncodeArea(hashed), EncodeArea(unhashed);
    var body := SignatureBody(sigType, keyAlgo, hashAlgo, h, u, tail);
    var first, second := U16Bytes(|h|) + h, U16Bytes(|u|) + u;
    BodyLayout(body, [4, sigType, keyAlgo, hashAlgo], first, second, tail);
    AreasRoundTrip(take, body, 4, hashed, 1, {});
    AreasRoundTrip(take, body, 4 + |first|, unhashed, 0, {} + Issuers(take, hashed));
    assert {} + Issuers(take, hashed) == Issuers(take, hashed);
  }

  // --- the packet around the body ----------------------------------------------------------

  /** The header as this reader takes it: no tag check, and every new-format length octet from 224 on
      announces a four-octet length. `(at, length)` places the body. */
  function SignatureHeader(sig: Bytes): Outcome<(nat, nat)>
    requires sig != []
  {
    var t := sig[1..];
    if sig[0] / 64 % 2 == 1 then
      if t == [] then IndexError
      else if t[0] < 192 then Ok((2, t[0]))
      else if t[0] < 224 then
        if |t| < 2 then IndexError else Ok((3, (t[0] as int - 192) * 256 + t[1] + 192))
      else if |t| < 5 then StructError else Ok((6, U32(t[1..])))
    else if sig[0] % 4 == 0 then if t == [] then IndexError else Ok((2, t[0]))
    else if sig[0] % 4 == 1 then if |t| < 2 then StructError else Ok((3, U16(t)))
    else if sig[0] % 4 == 2 then if |t| < 4 then StructError else Ok((5, U32(t)))
    else Ok((1, |t|))
  }

  lemma {:induction false} SignatureHeaderRoundTrip(p: Packet, rest: Bytes)
    requires Encodable(p)
    ensures SignatureHeader(EncodeHeader(p) + rest) == Ok((|EncodeHeader(p)|, |p.body|))
  {
    var s := EncodeHeader(p) + rest;
    assert EncodeHeader(p) == s[..|EncodeHeader(p)|];
    match p.format {
      case New1 =>
      case New2 =>
      case New5 => U32Prefix(U32Bytes(|p.body|), s[2..]);
      case Old1 =>
      case Old2 => U16Prefix(U16Bytes(|p.body|), s[1..]);
      case Old4 => U32Prefix(U32Bytes(|p.body|), s[1..]);
    }
  }

  /** What the reader answers for a whole decoded signature. */
  function SignatureIssuers(sig: Bytes): Outcome<set<IssuerId>> {
    if sig == [] then Ok({})
    else
      match SignatureHeader(sig)
      case IndexError => IndexError
      case StructError => StructError
      case Ok((at, length)) => Ok(BodyIssuers(Issuer, Take(Drop(sig, at), length)))
  }

  lemma {:induction false} PlacedBody(p: Packet, rest: Bytes)
    requires Encodable(p)
    ensures SignatureIssuers(Encode(p) + rest) == Ok(BodyIssuers(Issuer, p.body))
  {
    var sig, h := Encode(p) + rest, EncodeHeader(p);
    assert sig == h + (p.body + rest);
    SignatureHeaderRoundTrip(p, p.body + rest);
    assert Drop(sig, |h|) == p.body + rest;
    assert Take(p.body + rest, |p.body|) == p.body;
  }

  /** For a definite-length v4 signature packet whose areas hold one-octet subpackets, the answer is
      exactly the key IDs and fingerprints of both areas, whatever octets follow the packet. */
  lemma {:induction false} SignatureRoundTrip(
      p: Packet, sigType: byte, keyAlgo: byte, hashAlgo: byte,
      hashed: seq<Subpacket>, unhashed: seq<Subpacket>, tail: Bytes, rest: Bytes)
    requires OneOctet(hashed) && OneOctet(unhashed)
    requires |EncodeArea(hashed)| < 65536 && |EncodeArea(unhashed)| < 65536
    requires Encodable(p)
    requires p.body == SignatureBody(sigType, keyAlgo, hashAlgo, EncodeArea(hashed), EncodeArea(unhashed), tail)
    ensures SignatureIssuers(Encode(p) + rest) == Ok(Issuers(Issuer, hashed) + Issuers(Issuer, unhashed))
  {
    PlacedBody(p, rest);
    BodyRoundTrip(Issuer, sigType, keyAlgo, hashAlgo, hashed, unhashed, tail);
  }

  // --- critical subpackets -----------------------------------------------------------------

  /** What section 5.2.3.1 lets a subpacket name: bit 7 of the type octet marks it critical and is no part
      of the type. */
  function Named(kind: byte, data: Bytes): set<IssuerId> {
    Issuer(kind % 128, data)
  }

  predicate IsCriticalIssuer(kind: byte, data: Bytes) {
    (kind == 128 + 16 && |data| == 8) || (kind == 128 + 33 && |data| >= 21)
  }

  /** The reader sees what a subpacket names exactly unless it is an issuer marked critical. */
  lemma {:induction false} CriticalIssuerIsMissed(kind: byte, data: Bytes)
    ensures Issuer(kind, data) == Named(kind, data) <==> !IsCriticalIssuer(kind, data)
    ensures IsCriticalIssuer(kind, data) ==> Issuer(kind, data) == {} && |Named(kind, data)| == 1
  {
  }

  /** Each issuer marked critical is also named by a subpacket without the mark. */
  ghost predicate CriticalAreRepeated(subs: seq<Subpacket>) {
    forall i :: 0 <= i < |subs| && IsCriticalIssuer(subs[i].kind, subs[i].data) ==>
      IsUnmarked(subs, Named(subs[i].kind, subs[i].data))
  }

  ghost predicate IsUnmarked(subs: seq<Subpacket>, ids: set<IssuerId>) {
    exists j :: 0 <= j < |subs| && Issuer(subs[j].kind, subs[j].data) == ids
  }

  lemma {:induction false} IssuersMembers<D>(take: (byte, Bytes) -> set<D>, subs: seq<Subpacket>, id: D)
    ensures id in Issuers(take, subs) <==> exists i :: 0 <= i < |subs| && id in take(subs[i].kind, subs[i].data)
  {
    if subs != [] {
      IssuersMembers(take, subs[1..], id);
      if id in Issuers(take, subs[1..]) {
        var i :| 0 <= i < |subs| - 1 && id in take(subs[1..][i].kind, subs[1..][i].data);
        assert subs[i + 1] == subs[1..][i];
      }
      assert forall i :: 0 < i < |subs| ==> subs[i] == subs[1..][i - 1];
    }
  }

  lemma {:induction false} IssuersOfConcat<D>(take: (byte, Bytes) -> set<D>, a: seq<Subpacket>, b: seq<Subpacket>)
    ensures Issuers(take, a + b) == Issuers(take, a) + Issuers(take, b)
  {
    if a == [] {
      assert a + b == b;
    } else {
      assert (a + b)[1..] == a[1..] + b;
      IssuersOfConcat(take, a[1..], b);
    }
  }

  lemma {:induction false} SingleIssuer(kind: byte, data: Bytes, id: IssuerId)
    requires id in Issuer(kind, data)
    ensures Issuer(kind, data) == {id}
  {
  }

  /** Over any subpackets the reader finds all that is named exactly when each issuer marked critical is
      named without the mark as well. */
  lemma {:induction false} AllAreFoundIff(subs: seq<Subpacket>)
    ensures Issuers(Issuer, subs) == Issuers(Named, subs) <==> CriticalAreRepeated(subs)
  {
    if Issuers(Issuer, subs) == Issuers(Named, subs) {
      forall i | 0 <= i < |subs| && IsCriticalIssuer(subs[i].kind, subs[i].data)
        ensures IsUnmarked(subs, Named(subs[i].kind, subs[i].data))
      {
        CriticalIsFound(subs, i);
      }
    }
    if CriticalAreRepeated(subs) {
      forall id ensures id in Issuers(Issuer, subs) <==> id in Issuers(Named, subs) {
        NamedIsFound(subs, id);
      }
    }
  }

  lemma {:induction false} CriticalIsFound(subs: seq<Subpacket>, i: nat)
    requires i < |subs| && IsCriticalIssuer(subs[i].kind, subs[i].data)
    requires Issuers(Issuer, subs) == Issuers(Named, subs)
    ensures IsUnmarked(subs, Named(subs[i].kind, subs[i].data))
  {
    CriticalIssuerIsMissed(subs[i].kind, subs[i].data);
    var id :| id in Named(subs[i].kind, subs[i].data);
    IssuersMembers(Named, subs, id);
    IssuersMembers(Issuer, subs, id);
    var j :| 0 <= j < |subs| && id in Issuer(subs[j].kind, subs[j].data);
    SingleIssuer(subs[j].kind, subs[j].data, id);
    SingleIssuer(subs[i].kind % 128, subs[i].data, id);
  }

  lemma {:induction false} NamedIsFound(subs: seq<Subpacket>, id: IssuerId)
    requires CriticalAreRepeated(subs)
    ensures id in Issuers(Issuer, subs) <==> id in Issuers(Named, subs)
  {
    IssuersMembers(Issuer, subs, id);
    IssuersMembers(Named, subs, id);
    forall i | 0 <= i < |subs|
      ensures id in Issuer(subs[i].kind, subs[i].data) ==> id in Named(subs[i].kind, subs[i].data)
    {
      CriticalIssuerIsMissed(subs[i].kind, subs[i].data);
    }
    if id in Issuers(Named, subs) {
      var i :| 0 <= i < |subs| && id in Named(subs[i].kind, subs[i].data);
      CriticalIssuerIsMissed(subs[i].kind, subs[i].data);
    }
  }

  /** For an encoded signature packet with one-octet subpacket lengths: the answer is all that both areas
      name, critical marks aside, exactly under that condition. */
  lemma {:induction false} SignatureNamesAllIff(
      p: Packet, sigType: byte, keyAlgo: byte, hashAlgo: byte,
      hashed: seq<Subpacket>, unhashed: seq<Subpacket>, tail: Bytes, rest: Bytes)
    requires OneOctet(hashed) && OneOctet(unhashed)
    requires |EncodeArea(hashed)| < 65536 && |EncodeArea(unhashed)| < 65536
    requires Encodable(p)
    requires p.body == SignatureBody(sigType, keyAlgo, hashAlgo, EncodeArea(hashed), EncodeArea(unhashed), tail)
    ensures SignatureIssuers(Encode(p) + rest) == Ok(Issuers(Named, hashed) + Issuers(Named, unhashed)) <==>
      CriticalAreRepeated(hashed + unhashed)
  {
    SignatureRoundTrip(p, sigType, keyAlgo, hashAlgo, hashed, unhashed, tail, rest);
    IssuersOfConcat(Issuer, hashed, unhashed);
    IssuersOfConcat(Named, hashed, unhashed);
    AllAreFoundIff(hashed + unhashed);
  }

  // --- longer subpacket lengths ------------------------------------------------------------

  /** The hashed area of a signature whose first subpacket has a two-octet length: 192 octets, the last
      one zero. Behind it stand a subpacket with the single octet zero and any others. */
  ghost predicate IsLongFirst(hashed: Bytes, kind: byte, data: Bytes, flag: byte, more: Bytes) {
    |data| == 191 && data[190] == 0 && hashed == [192, 0, kind] + data + [2, flag, 0] + more
  }

  lemma {:induction false} LongFirstOctets(body: Bytes, hashed: Bytes, kind: byte, data: Bytes, flag: byte, more: Bytes)
    requires IsLongFirst(hashed, kind, data, flag, more) && HoldsAt(body, 6, hashed)
    ensures |body| >= 203 && body[6] == 192 && body[7] == 0 && body[199] == 0 && body[202] == 0
  {
    assert hashed[0] == 192 && hashed[1] == 0 && hashed[193] == data[190] && hashed[196] == 0;
    HoldsOctet(body, 6, hashed, 0);
    HoldsOctet(body, 6, hashed, 1);
    HoldsOctet(body, 6, hashed, 193);
    HoldsOctet(body, 6, hashed, 196);
  }

  /** The scan gives up inside such a subpacket, and the second pass starts behind it and gives up too. */
  lemma {:induction false} LongFirstScan(body: Bytes, hashed: Bytes, kind: byte, data: Bytes, flag: byte, more: Bytes)
    requires IsLongFirst(hashed, kind, data, flag, more) && |hashed| < 65536
    requires HoldsAt(body, 4, U16Bytes(|hashed|) + hashed)
    ensures ScanAreas(Issuer, body, 4, 2, {}) == {}
  {
    HoldsParts(body, 4, U16Bytes(|hashed|), hashed);
    LongFirstOctets(body, hashed, kind, data, flag, more);
    assert U16(body[4..6]) == |hashed|;
    GivesUpAtZero(body, 6 + |hashed|);
    SecondPassGivesUp(body);
  }

  lemma {:induction false} GivesUpAtZero(body: Bytes, end: nat)
    requires |body| >= 200 && end >= 200 && body[6] == 192 && body[7] == 0 && body[199] == 0
    ensures ScanArea(Issuer, body, 6, end, {}) == {} && AfterArea(body, 6, end) == 200
  {
    assert ScanArea(Issuer, body, 6, end, {}) == ScanArea(Issuer, body, 199, end, {} + Issuer(0, Part(body, 8, 191)));
    assert ScanArea(Issuer, body, 199, end, {}) == {};
    assert AfterArea(body, 6, end) == AfterArea(body, 199, end) == 200;
  }

  lemma {:induction false} SecondPassGivesUp(body: Bytes)
    requires |body| >= 203 && body[202] == 0
    ensures ScanAreas(Issuer, body, 200, 1, {}) == {}
  {
    var next := 202 + U16(body[200..202]);
    assert ScanArea(Issuer, body, 202, next, {}) == {};
    assert ScanAreas(Issuer, body, 200, 1, {}) == ScanAreas(Issuer, body, AfterArea(body, 202, next), 0, {});
  }

  /** The one-octet lengths are needed: the reader names no issuer of such a signature, whatever its
      hashed area holds behind that subpacket, and whatever its unhashed area holds. */
  lemma {:induction false} TwoOctetLengthHidesIssuers(
      p: Packet, sigType: byte, keyAlgo: byte, hashAlgo: byte, hashed: Bytes, kind: byte, data: Bytes, flag: byte,
      more: Bytes,
      unhashed: Bytes, tail: Bytes, rest: Bytes)
    requires IsLongFirst(hashed, kind, data, flag, more) && |hashed| < 65536 && |unhashed| < 65536 && Encodable(p)
    requires p.body == SignatureBody(sigType, keyAlgo, hashAlgo, hashed, unhashed, tail)
    ensures SignatureIssuers(Encode(p) + rest) == Ok({})
  {
    PlacedBody(p, rest);
    BodyLayout(p.body, [4, sigType, keyAlgo, hashAlgo], U16Bytes(|hashed|) + hashed, U16Bytes(|unhashed|) + unhashed,
      tail);
    LongFirstScan(p.body, hashed, kind, data, flag, more);
  }

  /** A hashed area of that kind does name an issuer, once its lengths are read as section 5.2.3.1
      writes them: the key ID in its last subpacket. */
  lemma {:induction false} HiddenIssuer(kind: byte, data: Bytes, flag: byte, keyId: Bytes)
    requires |data| == 191 && data[190] == 0 && |keyId| == 8
    ensures
      var more := EncodeArea([Subpacket(16, keyId)]);
      var hashed := [192, 0, kind] + data + [2, flag, 0] + more;
      && IsLongFirst(hashed, kind, data, flag, more)
      && TwoOctetSize(192, 0) == 1 + |data| &&
        hashed[2 + TwoOctetSize(192, 0)..] == EncodeArea([Subpacket(flag, [0])]) + more
      && Issuer(16, keyId) == {IssuerId(Hex(keyId))}
  {
    assert EncodeArea([Subpacket(flag, [0])]) == [2, flag, 0];
  }

  // --- the reader --------------------------------------------------------------------------

  method InReleaseIssuerFprs(sig: Bytes) returns (r: Outcome<set<IssuerId>>)
    ensures r == SignatureIssuers(sig)
  {
    if sig == [] {
      return Ok({});
    }
    var header := PlaceBody(sig);
    if header.IndexError? { return IndexError; }
    if header.StructError? { return StructError; }
    var (i, length) := header.value;
    var body := Take(Drop(sig, i), length);
    if body == [] || body[0] != 4 {
      return Ok({});
    }
    var out := ReadAreas(Issuer, body);
    return Ok(out);
  }

  method PlaceBody(sig: Bytes) returns (r: Outcome<(nat, nat)>)
    requires sig != []
    ensures r == SignatureHeader(sig)
  {
    var tag, i, n := sig[0], 1, |sig|;
    if tag / 64 % 2 == 1 {
      if i >= n { return IndexError; }
      var l := sig[i];
      if l < 192 {
        return Ok((i + 1, l));
      } else if l < 224 {
        if i + 1 >= n { return IndexError; }
        return Ok((i + 2, (l as int - 192) * 256 + sig[i + 1] + 192));
      } else {
        if i + 5 > n { return StructError; }
        return Ok((i + 5, U32(sig[i + 1..i + 5])));
      }
    }
    var ltype := tag % 4;
    if ltype == 0 {
      if i >= n { return IndexError; }
      return Ok((i + 1, sig[i]));
    } else if ltype == 1 {
      if i + 2 > n { return StructError; }
      return Ok((i + 2, U16(sig[i..i + 2])));
    } else if ltype == 2 {
      if i + 4 > n { return StructError; }
      return Ok((i + 4, U32(sig[i..i + 4])));
    } else {
      return Ok((i, n - i));
    }
  }

  method ReadAreas<D>(take: (byte, Bytes) -> set<D>, body: Bytes) returns (out: set<D>)
    ensures out == ScanAreas(take, body, 4, 2, {})
  {
    out := {};
    var p: nat := 4;
    for region := 0 to 2
      invariant ScanAreas(take, body, p, 2 - region, out) == ScanAreas(take, body, 4, 2, {})
    {
      if p + 2 > |body| {
        break;
      }
      var sublen := U16(body[p..p + 2]);
      p, out := ReadArea(take, body, p + 2, p + 2 + sublen, out);
    }
  }

  /** Moves the cursor over one area, collecting what its subpackets contribute. */
  method ReadArea<D>(take: (byte, Bytes) -> set<D>, body: Bytes, start: nat, end: nat, found: set<D>)
    returns (p: nat, out: set<D>)
    requires start <= end
    ensures out == ScanArea(take, body, start, end, found)
    ensures p == AfterArea(body, start, end)
  {
    p, out := start, found;
    while p < end && p < |body|
      invariant ScanArea(take, body, p, end, out) == ScanArea(take, body, start, end, found)
      invariant AfterArea(body, p, end) == AfterArea(body, start, end)
      decreases end - p
    {
      var done;
      done, p, out := ReadSubpacket(take, body, p, end, out);
      if done {
        return;
      }
    }
  }

  method ReadSubpacket<D>(take: (byte, Bytes) -> set<D>, body: Bytes, start: nat, end: nat, found: set<D>)
    returns (done: bool, p: nat, out: set<D>)
    requires start < end && start < |body|
    ensures p > start
    ensures ScanArea(take, body, start, end, found) == if done then out else ScanArea(take, body, p, end, out)
    ensures AfterArea(body, start, end) == if done then p else AfterArea(body, p, end)
  {
    var sl: nat := body[start];
    p := start + 1;
    if sl == 0 || p >= |body| {
      return true, p, found;
    }
    var stype, val := body[p], Take(body[p + 1..], sl - 1);
    PartIsSlice(body, p + 1, sl - 1);
    return false, p + sl, found + take(stype, val);
  }
}
