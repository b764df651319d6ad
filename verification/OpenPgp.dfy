/** Octets, packet headers and the keyring walker that collects primary-key fingerprints (RFC 4880,
    sections 4.2 and 12.2). */
module OpenPgp {

  type byte = b: int | 0 <= b < 256
  type Bytes = seq<byte>

  /** The exceptions the readers can raise: an index past the end, or a struct pack or unpack failure. */
  datatype Outcome<+T> = Ok(value: T) | IndexError | StructError

  // --- numbers and slices ------------------------------------------------------------------

  function U16(s: Bytes): (n: nat)
    requires |s| >= 2
    ensures n < 65536
  {
    s[0] as int * 256 + s[1]
  }

  function U32(s: Bytes): nat
    requires |s| >= 4
  {
    ((s[0] as int * 256 + s[1]) * 256 + s[2]) * 256 + s[3]
  }

  function U16Bytes(n: nat): (s: Bytes)
    requires n < 65536
    ensures |s| == 2 && U16(s) == n
  {
    [n / 256, n % 256]
  }

  function U32Bytes(n: nat): (s: Bytes)
    requires n < 0x1_0000_0000
    ensures |s| == 4 && U32(s) == n
  {
    var hi, lo := n / 65536, n % 65536;
    [hi / 256, hi % 256, lo / 256, lo % 256]
  }

  function Pow2(n: nat): (r: nat)
    ensures r >= 1
  {
    if n == 0 then 1 else 2 * Pow2(n - 1)
  }

  /** Python's `s[n:]` and `s[:n]`, which tolerate an index past the end. */
  function Drop(s: Bytes, n: nat): Bytes {
    if n <= |s| then s[n..] else []
  }

  function Take(s: Bytes, n: nat): Bytes {
    if n <= |s| then s[..n] else s
  }

  // --- packet headers (section 4.2) --------------------------------------------------------

  /** `Header`: the packet's tag, the octets its header takes, the octets its body should take. */
  datatype Header = Header(tag: nat, size: nat, length: nat) | NotAPacket | BadIndex | BadStruct

  function ReadHeader(s: Bytes): (h: Header)
    requires s != []
    ensures h.Header? ==> 0 < h.size <= |s|
  {
    if s[0] < 128 then NotAPacket
    else if s[0] >= 192 then ReadNewHeader(s[0] - 192, s[1..])
    else ReadOldHeader((s[0] - 128) / 4, s[0] % 4, s[1..])
  }

  /** The length octets `t` of a new-format header; 224..254 announces a partial body. */
  function ReadNewHeader(tag: nat, t: Bytes): (h: Header)
    ensures h.Header? ==> 0 < h.size <= |t| + 1
  {
    if t == [] then BadIndex
    else if t[0] < 192 then Header(tag, 2, t[0])
    else if t[0] < 224 then
      if |t| < 2 then BadIndex else Header(tag, 3, (t[0] as int - 192) * 256 + t[1] + 192)
    else if t[0] == 255 then
      if |t| < 5 then BadStruct else Header(tag, 6, U32(t[1..]))
    else Header(tag, 2, Pow2(t[0] % 32))
  }

  /** The length octets `t` of an old-format header; length type 3 takes all that is left. */
  function ReadOldHeader(tag: nat, lengthType: nat, t: Bytes): (h: Header)
    ensures h.Header? ==> 0 < h.size <= |t| + 1
  {
    if lengthType == 0 then if t == [] then BadIndex else Header(tag, 2, t[0])
    else if lengthType == 1 then if |t| < 2 then BadStruct else Header(tag, 3, U16(t))
    else if lengthType == 2 then if |t| < 4 then BadStruct else Header(tag, 5, U32(t))
    else Header(tag, 1, |t|)
  }

  /** The definite-length encodings of section 4.2.1 and 4.2.2. */
  datatype Format = New1 | New2 | New5 | Old1 | Old2 | Old4

  datatype Packet = Packet(format: Format, tag: nat, body: Bytes)

  predicate Encodable(p: Packet) {
    var n := |p.body|;
    match p.format
    case New1 => p.tag < 64 && n < 192
    case New2 => p.tag < 64 && 192 <= n < 8384
    case New5 => p.tag < 64 && n < 0x1_0000_0000
    case Old1 => p.tag < 16 && n < 256
    case Old2 => p.tag < 16 && n < 65536
    case Old4 => p.tag < 16 && n < 0x1_0000_0000
  }

  function EncodeHeader(p: Packet): (s: Bytes)
    requires Encodable(p)
    ensures s != []
  {
    var n := |p.body|;
    match p.format
    case New1 => [192 + p.tag, n]
    case New2 => [192 + p.tag, (n - 192) / 256 + 192, (n - 192) % 256]
    case New5 => [192 + p.tag, 255] + U32Bytes(n)
    case Old1 => [128 + 4 * p.tag, n]
    case Old2 => [128 + 4 * p.tag + 1] + U16Bytes(n)
    case Old4 => [128 + 4 * p.tag + 2] + U32Bytes(n)
  }

  function Encode(p: Packet): Bytes
    requires Encodable(p)
  {
    EncodeHeader(p) + p.body
  }

  function EncodeAll(ps: seq<Packet>): Bytes
    requires forall p :: p in ps ==> Encodable(p)
  {
    if ps == [] then [] else Encode(ps[0]) + EncodeAll(ps[1..])
  }

  /** Every definite-length header is read back: tag, header size and body length. */
  lemma {:induction false} HeaderRoundTrip(p: Packet, rest: Bytes)
    requires Encodable(p)
    ensures ReadHeader(EncodeHeader(p) + rest) == Header(p.tag, |EncodeHeader(p)|, |p.body|)
  {
    var s := EncodeHeader(p) + rest;
    assert EncodeHeader(p) == s[..|EncodeHeader(p)|];
    match p.format {
      case New1 =>
      case New2 =>
      case New5 => U32Prefix(U32Bytes(|p.body|), s[2..]);
      case Old1 =>
      case Old2 => U16Prefix(U16Bytes(|p.body|), s[1..]);
      case Old4 => U32Prefix(U32Bytes(|p.body|), s[1..]);
    }
  }

  lemma {:induction false} U16Prefix(a: Bytes, s: Bytes)
    requires |a| == 2 && a <= s
    ensures U16(s) == U16(a)
  {
  }

  lemma {:induction false} U32Prefix(a: Bytes, s: Bytes)
    requires |a| == 4 && a <= s
    ensures U32(s) == U32(a)
  {
  }

  // --- the keyring walker ------------------------------------------------------------------

  predicate IsPrimaryV4(tag: nat, body: Bytes) {
    tag == 6 && body != [] && body[0] == 4
  }

  /** The octets a v4 fingerprint hashes (section 12.2). */
  function FingerprintInput(body: Bytes): Bytes
    requires |body| < 65536
  {
    [0x99] + U16Bytes(|body|) + body
  }

  /** The fingerprint of a v4 key; `sha1` stands for the upper-case hexadecimal SHA-1. */
  function V4Fingerprint<D>(sha1: Bytes -> D): Bytes -> D {
    (body: Bytes) => if |body| < 65536 then sha1(FingerprintInput(body)) else sha1([])
  }

  /** What the walk over `s` adds to `out`. */
  function Walk<D(==)>(fpr: Bytes -> D, s: Bytes, out: set<D>): Outcome<set<D>>
    decreases |s|
  {
    if s == [] then Ok(out)
    else
      match ReadHeader(s)
      case NotAPacket => Ok(out)
      case BadIndex => IndexError
      case BadStruct => StructError
      case Header(tag, size, length) =>
        var body, rest := Take(s[size..], length), Drop(s, size + length);
        if !IsPrimaryV4(tag, body) then Walk(fpr, rest, out)
        else if |body| >= 65536 then StructError
        else Walk(fpr, rest, out + {fpr(body)})
  }

  /** The walk over an encoded packet takes its fingerprint and goes on after it. */
  lemma {:induction false} WalkOnePacket<D>(fpr: Bytes -> D, p: Packet, rest: Bytes, out: set<D>)
    requires Encodable(p)
    ensures Walk(fpr, Encode(p) + rest, out) ==
      if !IsPrimaryV4(p.tag, p.body) then Walk(fpr, rest, out)
      else if |p.body| >= 65536 then StructError
      else Walk(fpr, rest, out + {fpr(p.body)})
  {
    var s, h := Encode(p) + rest, EncodeHeader(p);
    PacketSlices(h, p.body, rest);
    HeaderRoundTrip(p, p.body + rest);
    WalkStep(fpr, s, out);
    WalkFromIs(fpr, Header(p.tag, |h|, |p.body|), s, p.body, rest, out);
  }

  lemma {:induction false} PacketSlices(h: Bytes, body: Bytes, rest: Bytes)
    ensures var s := h + body + rest;
      s == h + (body + rest) && Take(Drop(s, |h|), |body|) == body && Drop(s, |h| + |body|) == rest
  {
    assert (h + body + rest)[|h|..] == body + rest;
  }

  ghost predicate KeysAreHashable(ps: seq<Packet>) {
    forall p :: p in ps && IsPrimaryV4(p.tag, p.body) ==> |p.body| < 65536
  }

  ghost function Fingerprints<D>(fpr: Bytes -> D, ps: seq<Packet>): set<D> {
    set p | p in ps && IsPrimaryV4(p.tag, p.body) :: fpr(p.body)
  }

  /** Over any encoded packets followed by any octets the walk yields exactly the fingerprints of the
      v4 tag-6 bodies, together with what the following octets yield. */
  lemma {:induction false} WalkYieldsFingerprints<D>(fpr: Bytes -> D, ps: seq<Packet>, rest: Bytes, out: set<D>)
    requires forall p :: p in ps ==> Encodable(p)
    ensures KeysAreHashable(ps) ==>
      Walk(fpr, EncodeAll(ps) + rest, out) == Walk(fpr, rest, out + Fingerprints(fpr, ps))
    ensures !KeysAreHashable(ps) ==> Walk(fpr, EncodeAll(ps) + rest, out) == StructError
  {
    if ps == [] {
      assert EncodeAll(ps) + rest == rest;
      assert out + Fingerprints(fpr, ps) == out;
    } else {
      var p, more := ps[0], ps[1..];
      assert ps == [p] + more;
      assert EncodeAll(ps) + rest == Encode(p) + (EncodeAll(more) + rest);
      WalkOnePacket(fpr, p, EncodeAll(more) + rest, out);
      var here := if IsPrimaryV4(p.tag, p.body) then {fpr(p.body)} else {};
      assert Fingerprints(fpr, ps) == here + Fingerprints(fpr, more);
      assert out + here + Fingerprints(fpr, more) == out + Fingerprints(fpr, ps);
      assert here == {} ==> out + here == out;
      WalkYieldsFingerprints(fpr, more, rest, out + here);
    }
  }

  /** Concatenating two keyrings unites their fingerprints. */
  lemma {:induction false} KeyringConcatenation<D>(fpr: Bytes -> D, ps: seq<Packet>, qs: seq<Packet>)
    requires forall p :: p in ps || p in qs ==> Encodable(p)
    requires KeysAreHashable(ps) && KeysAreHashable(qs)
    ensures Walk(fpr, EncodeAll(ps), {}) == Ok(Fingerprints(fpr, ps))
    ensures Walk(fpr, EncodeAll(qs), {}) == Ok(Fingerprints(fpr, qs))
    ensures Walk(fpr, EncodeAll(ps) + EncodeAll(qs), {}) == Ok(Fingerprints(fpr, ps) + Fingerprints(fpr, qs))
  {
    assert EncodeAll(ps) + [] == EncodeAll(ps) && EncodeAll(qs) + [] == EncodeAll(qs);
    WalkYieldsFingerprints(fpr, ps, [], {});
    WalkYieldsFingerprints(fpr, qs, [], {});
    WalkYieldsFingerprints(fpr, ps, EncodeAll(qs), {});
    WalkYieldsFingerprints(fpr, qs, [], Fingerprints(fpr, ps));
    assert {} + Fingerprints(fpr, ps) == Fingerprints(fpr, ps);
    assert {} + Fingerprints(fpr, qs) == Fingerprints(fpr, qs);
  }

  /** The first octet's bit fields pick the header format. */
  lemma {:induction false} HeaderOf(s: Bytes, after: Bytes)
    requires s != [] && s[1..] == after
    ensures s[0] < 128 ==> ReadHeader(s) == NotAPacket
    ensures s[0] >= 192 ==> ReadHeader(s) == ReadNewHeader(s[0] % 64, after)
    ensures 128 <= s[0] < 192 ==> ReadHeader(s) == ReadOldHeader(s[0] / 4 % 16, s[0] % 4, after)
  {
  }

  method HeaderAt(blob: Bytes, start: nat) returns (h: Header)
    requires start < |blob|
    ensures h == ReadHeader(blob[start..])
  {
    var tag := blob[start];
    HeaderOf(blob[start..], blob[start + 1..]);
    if tag < 128 {
      return NotAPacket;
    }
    if tag >= 192 {
      h := NewHeaderAt(blob, tag % 64, start + 1);
    } else {
      h := OldHeaderAt(blob, tag / 4 % 16, tag % 4, start + 1);
    }
  }

  method NewHeaderAt(blob: Bytes, ptag: nat, i: nat) returns (h: Header)
    requires i <= |blob|
    ensures h == ReadNewHeader(ptag, blob[i..])
  {
    var n := |blob|;
    if i >= n { return BadIndex; }
    var l := blob[i];
    if l < 192 {
      return Header(ptag, 2, l);
    } else if l < 224 {
      if i + 1 >= n { return BadIndex; }
      return Header(ptag, 3, (l as int - 192) * 256 + blob[i + 1] + 192);
    } else if l == 255 {
      if i + 5 > n { return BadStruct; }
      return Header(ptag, 6, U32(blob[i + 1..i + 5]));
    } else {
      return Header(ptag, 2, Pow2(l % 32));
    }
  }

  method OldHeaderAt(blob: Bytes, ptag: nat, ltype: nat, i: nat) returns (h: Header)
    requires i <= |blob|
    ensures h == ReadOldHeader(ptag, ltype, blob[i..])
  {
    var n := |blob|;
    if ltype == 0 {
      if i >= n { return BadIndex; }
      return Header(ptag, 2, blob[i]);
    } else if ltype == 1 {
      if i + 2 > n { return BadStruct; }
      return Header(ptag, 3, U16(blob[i..i + 2]));
    } else if ltype == 2 {
      if i + 4 > n { return BadStruct; }
      return Header(ptag, 5, U32(blob[i..i + 4]));
    } else {
      return Header(ptag, 1, n - i);
    }
  }

  method PgpPrimaryFprs<D(==)>(sha1: Bytes -> D, blob: Bytes) returns (r: Outcome<set<D>>)
    ensures r == Walk(V4Fingerprint(sha1), blob, {})
  {
    r := WalkPackets(V4Fingerprint(sha1), blob);
  }

  method WalkPackets<D(==)>(fpr: Bytes -> D, blob: Bytes) returns (r: Outcome<set<D>>)
    ensures r == Walk(fpr, blob, {})
  {
    var out: set<D> := {};
    var i, n := 0, |blob|;
    assert Drop(blob, 0) == blob;
    while i < n
      invariant Walk(fpr, Drop(blob, i), out) == Walk(fpr, blob, {})
      decreases n - i
    {
      var step := WalkPacket(fpr, blob, i, out);
      if step.Stop? {
        return step.result;
      }
      i, out := step.next, step.out;
    }
    return Ok(out);
  }

  /** What one iteration of the walk does: it stops with a result, or it advances. */
  datatype Step<D> = Stop(result: Outcome<set<D>>) | Advance(next: nat, out: set<D>)

  method WalkPacket<D(==)>(fpr: Bytes -> D, blob: Bytes, i: nat, out: set<D>) returns (step: Step<D>)
    requires i < |blob|
    ensures step.Stop? ==> Walk(fpr, Drop(blob, i), out) == step.result
    ensures step.Advance? ==>
      step.next > i && Walk(fpr, Drop(blob, i), out) == Walk(fpr, Drop(blob, step.next), step.out)
  {
    var h, body, next := PacketAt(fpr, blob, i, out);
    if !h.Header? {
      step := Stop(StopAt(h, out));
    } else {
      step := TakePacket(fpr, body, h.tag, Drop(blob, i), blob, next, out);
    }
  }

  /** The end of the walk where no packet starts. */
  function StopAt<D>(h: Header, out: set<D>): Outcome<set<D>> {
    if h.NotAPacket? then Ok(out) else if h.BadIndex? then IndexError else StructError
  }

  /** The walk once the next header is known. */
  ghost function WalkFrom<D>(fpr: Bytes -> D, h: Header, s: Bytes, out: set<D>): Outcome<set<D>> {
    if !h.Header? then StopAt(h, out)
      else WalkOn(fpr, Take(Drop(s, h.size), h.length), h.tag, Drop(s, h.size + h.length), out)
  }

  /** What the walk makes of one packet's body, with `rest` behind it. */
  ghost function WalkOn<D>(fpr: Bytes -> D, body: Bytes, tag: nat, rest: Bytes, out: set<D>): Outcome<set<D>> {
    if !IsPrimaryV4(tag, body) then Walk(fpr, rest, out)
    else if |body| >= 65536 then StructError
    else Walk(fpr, rest, out + {fpr(body)})
  }

  lemma {:induction false} WalkStep<D>(fpr: Bytes -> D, s: Bytes, out: set<D>)
    requires s != []
    ensures Walk(fpr, s, out) == WalkFrom(fpr, ReadHeader(s), s, out)
  {
  }

  lemma {:induction false} DropTwice(s: Bytes, i: nat, n: nat)
    requires i <= |s|
    ensures Drop(Drop(s, i), n) == Drop(s, i + n)
  {
  }

  lemma {:induction false} WalkFromAt<D>(fpr: Bytes -> D, h: Header, blob: Bytes, i: nat, out: set<D>)
    requires h.Header? && i + h.size <= |blob|
    ensures WalkFrom(fpr, h, Drop(blob, i), out) ==
      WalkOn(fpr, Take(blob[i + h.size..], h.length), h.tag, Drop(blob, i + h.size + h.length), out)
  {
    DropTwice(blob, i, h.size);
    DropTwice(blob, i, h.size + h.length);
    WalkFromIs(
      fpr, h, Drop(blob, i), Take(blob[i + h.size..], h.length), Drop(blob, i + h.size + h.length), out);
  }

  lemma {:induction false} WalkFromIs<D>(
      fpr: Bytes -> D, h: Header, here: Bytes, body: Bytes, next: Bytes, out: set<D>)
    requires h.Header? && body == Take(Drop(here, h.size), h.length) && next == Drop(here, h.size + h.length)
    ensures WalkFrom(fpr, h, here, out) == WalkOn(fpr, body, h.tag, next, out)
  {
  }

  /** The header at an index, the body behind it and where the next packet starts. */
  method PacketAt<D>(ghost fpr: Bytes -> D, blob: Bytes, i: nat, ghost out: set<D>)
    returns (h: Header, body: Bytes, next: nat)
    requires i < |blob|
    ensures !h.Header? ==> Walk(fpr, Drop(blob, i), out) == StopAt(h, out)
    ensures h.Header? ==> next > i && Walk(fpr, Drop(blob, i), out) == WalkOn(fpr, body, h.tag, Drop(blob, next), out)
  {
    h := HeaderAt(blob, i);
    WalkStep(fpr, Drop(blob, i), out);
    if h.Header? {
      WalkFromAt(fpr, h, blob, i, out);
      body, next := Take(blob[i + h.size..], h.length), i + h.size + h.length;
    } else {
      body, next := [], i;
    }
  }

  method TakePacket<D(==)>(
      fpr: Bytes -> D, body: Bytes, tag: nat, ghost here: Bytes, ghost blob: Bytes, next: nat,
      out: set<D>) returns (step: Step<D>)
    requires Walk(fpr, here, out) == WalkOn(fpr, body, tag, Drop(blob, next), out)
    ensures step.Stop? ==> Walk(fpr, here, out) == step.result
    ensures step.Advance? ==> step.next == next && Walk(fpr, here, out) == Walk(fpr, Drop(blob, next), step.out)
  {
    if !IsPrimaryV4(tag, body) {
      step := Advance(next, out);
    } else if |body| >= 65536 {
      step := Stop(StructError);
    } else {
      step := Advance(next, out + {fpr(body)});
    }
  }
}
