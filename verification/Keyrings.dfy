/** Keyring blobs end to end: exactly which blobs the walk can read past their end. */
module Keyrings {
  import opened OpenPgp

  // --- the first packet of a blob ----------------------------------------------------------

  /** An old-format header without a length: the packet takes in all that follows. */
  predicate IsIndeterminate(s: Bytes)
    requires s != []
  {
    128 <= s[0] < 192 && s[0] % 4 == 3
  }

  /** The header, the body as far as it is there, and what lies behind it. */
  predicate HasPacket(s: Bytes) {
    s != [] && ReadHeader(s).Header?
  }

  function Tag(s: Bytes): nat
    requires HasPacket(s)
  {
    ReadHeader(s).tag
  }

  function Body(s: Bytes): Bytes
    requires HasPacket(s)
  {
    Take(Drop(s, ReadHeader(s).size), ReadHeader(s).length)
  }

  function Behind(s: Bytes): (rest: Bytes)
    requires HasPacket(s)
    ensures |rest| < |s|
  {
    Drop(s, ReadHeader(s).size + ReadHeader(s).length)
  }

  predicate IsComplete(s: Bytes)
    requires HasPacket(s)
  {
    !IsIndeterminate(s) && ReadHeader(s).size + ReadHeader(s).length <= |s|
  }

  predicate IsOversizeKey(tag: nat, body: Bytes) {
    IsPrimaryV4(tag, body) && |body| >= 65536
  }

  /** Packet after packet of definite length, each of them complete: the walk lands on the blob's end,
      or fails before it at a key too long to hash. */
  ghost predicate LandsOnEnd(s: Bytes)
    decreases |s|
  {
    s == [] || (HasPacket(s) && (IsOversizeKey(Tag(s), Body(s)) || (IsComplete(s) && LandsOnEnd(Behind(s)))))
  }

  lemma {:induction false} WalkFirst<D>(fpr: Bytes -> D, s: Bytes, out: set<D>)
    requires HasPacket(s)
    ensures Walk(fpr, s, out) == WalkOn(fpr, Body(s), Tag(s), Behind(s), out)
  {
    WalkStep(fpr, s, out);
    WalkFromIs(fpr, ReadHeader(s), s, Body(s), Behind(s), out);
  }

  lemma {:induction false} HeaderOfPrefix(a: Bytes, b: Bytes)
    requires HasPacket(a) && !IsIndeterminate(a)
    ensures ReadHeader(a + b) == ReadHeader(a)
  {
    var s := a + b;
    assert s[1..] == a[1..] + b;
    if a[0] >= 192 {
      var t := a[1..];
      if t[0] == 255 { U32Prefix(t[1..5], t[1..]); U32Prefix(t[1..5], (t + b)[1..]); }
    } else {
      var t := a[1..];
      if a[0] % 4 == 1 { U16Prefix(t[..2], t); U16Prefix(t[..2], t + b); }
      if a[0] % 4 == 2 { U32Prefix(t[..4], t); U32Prefix(t[..4], t + b); }
    }
  }

  lemma {:induction false} SlicesOfPrefix(a: Bytes, b: Bytes, size: nat, length: nat)
    requires size + length <= |a|
    ensures Take(Drop(a + b, size), length) == Take(Drop(a, size), length)
    ensures Drop(a + b, size + length) == Drop(a, size + length) + b
  {
    assert (a + b)[size..] == a[size..] + b;
    assert (a[size..] + b)[..length] == a[size..][..length];
  }

  /** A complete packet stays what it is, whatever follows the blob. */
  lemma {:induction false} CompleteStays(a: Bytes, b: Bytes)
    requires HasPacket(a) && IsComplete(a)
    ensures HasPacket(a + b) && Tag(a + b) == Tag(a) && Body(a + b) == Body(a) && Behind(a + b) == Behind(a) + b
  {
    HeaderOfPrefix(a, b);
    SlicesOfPrefix(a, b, ReadHeader(a).size, ReadHeader(a).length);
  }

  lemma {:induction false} SlicesPastEnd(a: Bytes, b: Bytes, size: nat, length: nat, n: nat)
    requires size <= |a| && size + length == |a| + n
    ensures Take(Drop(a + b, size), length) == Drop(a, size) + Take(b, n)
    ensures Drop(a + b, size + length) == Drop(b, n)
    ensures Take(Drop(a, size), length) == Drop(a, size)
  {
    assert (a + b)[size..] == a[size..] + b;
  }

  lemma {:induction false} IndeterminateHeader(s: Bytes)
    requires s != [] && IsIndeterminate(s)
    ensures ReadHeader(s) == Header((s[0] - 128) / 4, 1, |s| - 1)
  {
  }

  /** Any other packet takes in some octets of what follows the blob, or all of them. */
  lemma {:induction false} SwallowsMore(a: Bytes, b: Bytes) returns (n: nat)
    requires HasPacket(a) && !IsComplete(a) && b != []
    ensures n > 0 && HasPacket(a + b) && Tag(a + b) == Tag(a) && Behind(a) == []
    ensures Body(a + b) == Body(a) + Take(b, n) && Behind(a + b) == Drop(b, n)
    ensures n == if IsIndeterminate(a) then |b| else ReadHeader(a).size + ReadHeader(a).length - |a|
  {
    var h := ReadHeader(a);
    if IsIndeterminate(a) {
      IndeterminateHeader(a);
      IndeterminateHeader(a + b);
      n := |b|;
      SlicesPastEnd(a, b, 1, |a| - 1 + n, n);
      assert Body(a) == a[1..];
    } else {
      HeaderOfPrefix(a, b);
      n := h.size + h.length - |a|;
      SlicesPastEnd(a, b, h.size, h.length, n);
    }
  }

  // --- the law -----------------------------------------------------------------------------

  /** Both results together, unless one of the walks fails. */
  function Both<D>(a: Outcome<set<D>>, b: Outcome<set<D>>): Outcome<set<D>> {
    match a
    case Ok(x) => (match b case Ok(y) => Ok(x + y) case _ => b)
    case _ => a
  }

  lemma {:induction false} BothTwice<D>(out: set<D>, key: set<D>, r: Outcome<set<D>>)
    ensures Both(Ok(out + key), r) == Both(Ok(out), Both(Ok({} + key), r))
  {
    if r.Ok? { assert out + key + r.value == out + ({} + key + r.value); }
  }

  /** What the walk adds does not depend on what was found before. */
  lemma {:induction false} WalkAdds<D>(fpr: Bytes -> D, s: Bytes, out: set<D>)
    ensures Walk(fpr, s, out) == Both(Ok(out), Walk(fpr, s, {}))
    decreases |s|
  {
    assert out + {} == out;
    if HasPacket(s) {
      var key := {fpr(Body(s))};
      WalkFirst(fpr, s, out);
      WalkFirst(fpr, s, {});
      WalkAdds(fpr, Behind(s), out);
      WalkAdds(fpr, Behind(s), out + key);
      WalkAdds(fpr, Behind(s), {} + key);
      BothTwice(out, key, Walk(fpr, Behind(s), {}));
    }
  }

  /** What the walk has found once it is past the first packet. */
  ghost function Found<D>(fpr: Bytes -> D, s: Bytes, out: set<D>): set<D>
    requires HasPacket(s)
  {
    if IsPrimaryV4(Tag(s), Body(s)) then out + {fpr(Body(s))} else out
  }

  lemma {:induction false} WalkThrough<D>(fpr: Bytes -> D, a: Bytes, b: Bytes, out: set<D>)
    requires LandsOnEnd(a)
    ensures Walk(fpr, a + b, out) == Both(Walk(fpr, a, out), Walk(fpr, b, {}))
    decreases |a|
  {
    if a == [] {
      assert a + b == b;
      WalkAdds(fpr, b, out);
    } else if IsOversizeKey(Tag(a), Body(a)) {
      OversizeFails(fpr, a, b, out);
    } else {
      CompleteStays(a, b);
      WalkFirst(fpr, a, out);
      WalkFirst(fpr, a + b, out);
      WalkThrough(fpr, Behind(a), b, Found(fpr, a, out));
    }
  }

  lemma {:induction false} OversizeFails<D>(fpr: Bytes -> D, a: Bytes, b: Bytes, out: set<D>)
    requires HasPacket(a) && IsOversizeKey(Tag(a), Body(a))
    ensures Walk(fpr, a, out) == Walk(fpr, a + b, out) == StructError
  {
    WalkFirst(fpr, a, out);
    if b == [] {
      assert a + b == a;
    } else {
      if IsComplete(a) { CompleteStays(a, b); } else { var n := SwallowsMore(a, b); }
      WalkFirst(fpr, a + b, out);
    }
  }

  // --- blobs for which the law fails --------------------------------------------------------

  function Zeros(n: nat): Bytes {
    seq(n, _ => 0)
  }

  /** Octets that are no packet. */
  const PADDING := Zeros(65536)

  /** The start of a new-format v4 key packet of 65536 octets. */
  const LONG_KEY_HEAD: Bytes := [198, 255, 0, 1, 0, 0, 4]

  const LONG_KEY := LONG_KEY_HEAD + Zeros(65535)

  lemma {:induction false} NoPacketStops<D>(fpr: Bytes -> D, s: Bytes, out: set<D>)
    requires s == [] || s[0] < 128
    ensures Walk(fpr, s, out) == Ok(out)
  {
  }

  lemma {:induction false} PaddingStops<D>(fpr: Bytes -> D, n: nat, out: set<D>)
    ensures Walk(fpr, Drop(PADDING, n), out) == Ok(out)
  {
    NoPacketStops(fpr, Drop(PADDING, n), out);
  }

  lemma {:induction false} LongKeyFails<D>(fpr: Bytes -> D, out: set<D>)
    ensures Walk(fpr, LONG_KEY, out) == StructError
  {
    var s := LONG_KEY;
    assert s[2..6] == [0, 1, 0, 0];
    U32Prefix([0, 1, 0, 0], s[2..]);
    assert ReadHeader(s) == Header(6, 6, 65536);
    WalkFirst(fpr, s, out);
    assert Body(s) == s[6..] && s[6..][0] == 4;
  }

  lemma {:induction false} CutKeyStops<D>(fpr: Bytes -> D, n: nat, out: set<D>)
    requires n > 0
    ensures Walk(fpr, Drop(LONG_KEY, n), out) == Ok(out)
  {
    var s := Drop(LONG_KEY, n);
    if n == 1 {
      assert s[0] == 255 && s[1] == 0 && s[2] == 1;
      assert ReadHeader(s) == Header(63, 2, 0);
      WalkFirst(fpr, s, out);
      NoPacketStops(fpr, Behind(s), out);
    } else {
      assert s != [] ==> s[0] == LONG_KEY[n];
      NoPacketStops(fpr, s, out);
    }
  }

  /** A header that is cut short is completed by the padding. */
  lemma {:induction false} PaddedHeader(a: Bytes)
    requires a != [] && (ReadHeader(a).BadIndex? || ReadHeader(a).BadStruct?)
    ensures HasPacket(a + PADDING) && ReadHeader(a + PADDING).size >= |a|
  {
    assert (a + PADDING)[1..] == a[1..] + PADDING;
  }

  lemma {:induction false} PaddedHeaderIsRead<D>(fpr: Bytes -> D, a: Bytes, out: set<D>)
    requires a != [] && (ReadHeader(a).BadIndex? || ReadHeader(a).BadStruct?)
    ensures !Walk(fpr, a, out).Ok? && Walk(fpr, a + PADDING, out) == Ok(out)
  {
    var s := a + PADDING;
    PaddedHeader(a);
    WalkFirst(fpr, s, out);
    var h := ReadHeader(s);
    assert Drop(s, h.size) == Drop(PADDING, h.size - |a|);
    assert Body(s) != [] ==> Body(s)[0] == 0;
    assert Behind(s) == Drop(PADDING, h.size + h.length - |a|);
    PaddingStops(fpr, h.size + h.length - |a|, out);
  }

  /** An incomplete packet that is no key hides the key behind it. */
  lemma {:induction false} OtherPacketHides<D>(fpr: Bytes -> D, a: Bytes, out: set<D>)
    requires HasPacket(a) && !IsComplete(a) && !IsPrimaryV4(Tag(a), Body(a))
    ensures Walk(fpr, a, out) == Walk(fpr, a + LONG_KEY, out) == Ok(out)
  {
    var n := SwallowsMore(a, LONG_KEY);
    WalkFirst(fpr, a, out);
    WalkFirst(fpr, a + LONG_KEY, out);
    CutKeyStops(fpr, n, out);
  }

  /** An incomplete key takes in octets that are not its own. */
  lemma {:induction false} IncompleteKeyGrows<D>(fpr: Bytes -> D, a: Bytes, out: set<D>) returns (b: Bytes)
    requires HasPacket(a) && !IsComplete(a) && IsPrimaryV4(Tag(a), Body(a)) && |Body(a)| < 65536
    ensures Walk(fpr, a + b, out) != Both(Walk(fpr, a, out), Walk(fpr, b, {}))
  {
    WalkFirst(fpr, a, out);
    b := PADDING;
    var n := SwallowsMore(a, b);
    WalkFirst(fpr, a + b, out);
    if |Body(a + b)| >= 65536 {
      PaddingStops(fpr, 0, {});
    } else {
      b := LONG_KEY;
      assert !IsIndeterminate(a);
      n := SwallowsMore(a, b);
      WalkFirst(fpr, a + b, out);
      CutKeyStops(fpr, n, Found(fpr, a + b, out));
      LongKeyFails(fpr, {});
    }
  }

  /** A blob that the walk does not read to its end, or beyond, makes the law fail for some second blob. */
  lemma {:induction false} ConcatenationFails<D>(fpr: Bytes -> D, a: Bytes, out: set<D>) returns (b: Bytes)
    requires !LandsOnEnd(a)
    ensures Walk(fpr, a + b, out) != Both(Walk(fpr, a, out), Walk(fpr, b, {}))
    decreases |a|
  {
    var h := ReadHeader(a);
    LongKeyFails(fpr, {});
    if h.NotAPacket? {
      b := LONG_KEY;
      NoPacketStops(fpr, a, out);
      NoPacketStops(fpr, a + b, out);
    } else if !h.Header? {
      b := PADDING;
      PaddedHeaderIsRead(fpr, a, out);
    } else if IsComplete(a) {
      b := ConcatenationFails(fpr, Behind(a), Found(fpr, a, out));
      CompleteStays(a, b);
      WalkFirst(fpr, a, out);
      WalkFirst(fpr, a + b, out);
    } else if IsPrimaryV4(Tag(a), Body(a)) {
      b := IncompleteKeyGrows(fpr, a, out);
    } else {
      b := LONG_KEY;
      OtherPacketHides(fpr, a, out);
    }
  }

  /** The fingerprints of a concatenation are the union of those of both blobs, and the first failure is
      the failure of the whole, for every second blob exactly when the first one lands on its end. */
  lemma {:induction false} BlobConcatenation<D(!new)>(fpr: Bytes -> D, a: Bytes)
    ensures (forall b :: Walk(fpr, a + b, {}) == Both(Walk(fpr, a, {}), Walk(fpr, b, {}))) <==> LandsOnEnd(a)
  {
    if LandsOnEnd(a) {
      forall b ensures Walk(fpr, a + b, {}) == Both(Walk(fpr, a, {}), Walk(fpr, b, {})) {
        WalkThrough(fpr, a, b, {});
      }
    } else {
      var b := ConcatenationFails(fpr, a, {});
    }
  }

  // --- encoded packets, and two blobs that do not land ---------------------------------------

  lemma {:induction false} EncodedIsDefinite(p: Packet, rest: Bytes)
    requires Encodable(p)
    ensures !IsIndeterminate(EncodeHeader(p) + rest)
  {
    assert (EncodeHeader(p) + rest)[0] == EncodeHeader(p)[0];
  }

  lemma {:induction false} DropBoth(a: Bytes, b: Bytes, c: Bytes)
    ensures a + b + c == a + (b + c) && Drop(a + b + c, |a| + |b|) == c
  {
  }

  lemma {:induction false} EncodedFirst(p: Packet, more: Bytes)
    requires Encodable(p)
    ensures var s := Encode(p) + more; HasPacket(s) && IsComplete(s) && Behind(s) == more
  {
    DropBoth(EncodeHeader(p), p.body, more);
    HeaderRoundTrip(p, p.body + more);
    EncodedIsDefinite(p, p.body + more);
  }

  lemma {:induction false} PacketLands(p: Packet, more: Bytes)
    requires Encodable(p) && LandsOnEnd(more)
    ensures LandsOnEnd(Encode(p) + more)
  {
    EncodedFirst(p, more);
  }

  /** Encoded packets are a blob that lands on its end. */
  lemma {:induction false} EncodedLandsOnEnd(ps: seq<Packet>)
    requires forall p :: p in ps ==> Encodable(p)
    ensures LandsOnEnd(EncodeAll(ps))
  {
    if ps != [] {
      EncodedLandsOnEnd(ps[1..]);
      PacketLands(ps[0], EncodeAll(ps[1..]));
    }
  }

  /** An old-format packet of indeterminate length swallows whatever keyring is appended to it. */
  lemma {:induction false} IndeterminateLengthSwallows<D>(fpr: Bytes -> D, tag: nat, b: Bytes)
    requires tag < 16 && (b == [] || b[0] >= 128)
    ensures Walk(fpr, [128 + 4 * tag + 3] + b, {}) == Ok({})
  {
    var s := [128 + 4 * tag + 3] + b;
    assert ReadHeader(s) == Header(tag, 1, |s| - 1);
    assert Drop(s, |s|) == [] && Take(s[1..], |s| - 1) == b;
  }

  /** A packet cut short takes the octets it lacks from the keyring behind it. */
  lemma {:induction false} TruncatedPacketSwallows<D>(fpr: Bytes -> D, tag: nat, length: byte, part: Bytes, b: Bytes)
    requires tag < 64 && length < 192 && |part| + |b| <= length && !IsPrimaryV4(tag, part + b)
    ensures Walk(fpr, [192 + tag, length] + part + b, {}) == Ok({})
  {
    var s := [192 + tag, length] + part + b;
    assert ReadHeader(s) == Header(tag, 2, length);
    assert s[2..] == part + b;
  }
}
