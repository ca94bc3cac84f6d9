/** What the bytes of saved firmware images are, place by place. */
module FirmwareLayout {
  import opened Wrappers
  import opened Firmware

  // Four bytes, the lowest first.
  predicate WordAt(c: seq<Byte>, pos: nat, n: int)
  {
    var d: seq<int> := c;
    pos + 4 <= |c| && n == d[pos] + 0x100 * d[pos + 1] + 0x1_0000 * d[pos + 2] + 0x100_0000 * d[pos + 3]
  }

  predicate HeaderIs(c: seq<Byte>, pos: nat, magic: int, count: int, f: Fields)
  {
    && pos + 8 <= |c| && c[pos] == magic && c[pos + 1] == count && c[pos + 2] == f.flashMode
    && c[pos + 3] == f.flashSizeFreq && WordAt(c, pos + 4, f.entrypoint)
  }

  predicate SegmentIs(c: seq<Byte>, pos: nat, s: Segment)
  {
    && pos + 8 + |s.data| <= |c| && WordAt(c, pos, s.offset) && WordAt(c, pos + 4, |s.data|)
    && c[pos + 8..pos + 8 + |s.data|] == s.data
  }

  // The length of the first i segments, each with its address and size.
  function Length(segments: seq<Segment>, i: nat): nat
    requires i <= |segments|
  { if i == 0 then 0 else Length(segments, i - 1) + 8 + |segments[i - 1].data| }

  // Zeros and then the checksum fill the last 16 bytes.
  predicate EndsWith(c: seq<Byte>, end: nat, checksum: Byte)
  {
    && end < |c| <= end + 16 && |c| % 16 == 0 && c[|c| - 1] == checksum
    && forall k :: end <= k < |c| - 1 ==> c[k] == 0
  }

  lemma PackedAt(c: seq<Byte>, pos: nat, n: Word)
    requires At(c, pos, Packed(n))
    ensures WordAt(c, pos, n)
  {
    UnpackPacked(n);
    var p := c[pos..pos + 4];
    assert p[0] == c[pos] && p[1] == c[pos + 1] && p[2] == c[pos + 2] && p[3] == c[pos + 3];
    hide Packed;
  }

  lemma HeaderFound(c: seq<Byte>, pos: nat, magic: Byte, count: Byte, f: Fields)
    requires At(c, pos, Header(magic, count, f))
    ensures HeaderIs(c, pos, magic, count, f)
  {
    HeaderAt(c, pos, magic, count, f);
    AtSum(c, pos, [magic, count, f.flashMode, f.flashSizeFreq], Packed(f.entrypoint));
    PackedAt(c, pos + 4, f.entrypoint);
    hide Packed, At, WordAt, Unpacked;
  }

  lemma SegmentFound(c: seq<Byte>, pos: nat, s: Segment)
    requires Sized(s) && At(c, pos, Saved(s))
    ensures SegmentIs(c, pos, s)
  {
    AtSum(c, pos, Packed(s.offset) + Packed(|s.data|), s.data);
    AtSum(c, pos, Packed(s.offset), Packed(|s.data|));
    hide Packed, At, WordAt;
    PackedAt(c, pos, s.offset);
    PackedAt(c, pos + 4, |s.data|);
    AtIs(c, pos + 8, s.data);
  }

  lemma {:induction false} SegmentsFound(c: seq<Byte>, pos: nat, segments: seq<Segment>)
    requires AllSized(segments) && At(c, pos, SavedAll(segments))
    ensures |SavedAll(segments)| == Length(segments, |segments|)
    ensures forall i :: 0 <= i < |segments| ==> SegmentIs(c, pos + Length(segments, i), segments[i])
    decreases |segments|
  {
    hide *;
    LengthNone(segments);
    if segments != [] {
      var n := |segments| - 1;
      var init := segments[..n];
      Parts(segments);
      AtSum(c, pos, SavedAll(init), Saved(segments[n]));
      SegmentsFound(c, pos, init);
      forall i | 0 <= i <= n ensures Length(init, i) == Length(segments, i) { SameLength(segments, n, i); }
      SegmentFound(c, pos + |SavedAll(init)|, segments[n]);
      SavedLength(segments[n]);
      LengthNext(segments, n);
    }
  }

  lemma LengthNone(segments: seq<Segment>)
    ensures Length(segments, 0) == 0 && (segments == [] && AllSized(segments) ==> SavedAll(segments) == [])
  {}

  lemma LengthNext(segments: seq<Segment>, i: nat)
    requires i < |segments|
    ensures Length(segments, i + 1) == Length(segments, i) + 8 + |segments[i].data|
  {}

  lemma SavedLength(s: Segment)
    requires Sized(s)
    ensures |Saved(s)| == 8 + |s.data|
  {}

  lemma {:induction false} SameLength(segments: seq<Segment>, n: nat, i: nat)
    requires i <= n <= |segments|
    ensures Length(segments[..n], i) == Length(segments, i)
  {
    if i > 0 { SameLength(segments, n, i - 1); }
  }

  lemma ClosedEnds(bytes: seq<Byte>, checksum: Byte)
    ensures EndsWith(Closed(bytes, checksum), |bytes|, checksum) && At(Closed(bytes, checksum), 0, bytes)
  {
    var c := Closed(bytes, checksum);
    assert c[..|bytes|] == bytes;
  }

  // A version 1 header at pos, its segments and the checksum at the end.
  ghost predicate BodyIs(c: seq<Byte>, pos: nat, segments: seq<Segment>, f: Fields)
  {
    && HeaderIs(c, pos, 0xE9, |segments|, f)
    && (forall i :: 0 <= i < |segments| ==> SegmentIs(c, pos + 8 + Length(segments, i), segments[i]))
    && EndsWith(c, pos + 8 + Length(segments, |segments|), ChecksumOf(segments))
  }

  lemma ClosedParts(c: seq<Byte>, before: seq<Byte>, h: seq<Byte>, s: seq<Byte>, checksum: Byte)
    requires c == Closed(before + h + s, checksum)
    ensures At(c, 0, before) && At(c, |before|, h) && At(c, |before| + |h|, s)
    ensures EndsWith(c, |before| + |h| + |s|, checksum)
  {
    hide *;
    ClosedEnds(before + h + s, checksum);
    AtSum(c, 0, before + h, s);
    AtSum(c, 0, before, h);
  }

  lemma BodyFound(c: seq<Byte>, pos: nat, segments: seq<Segment>, f: Fields)
    requires Savable(segments) && At(c, pos, Header(0xE9, |segments|, f)) && At(c, pos + 8, SavedAll(segments))
    requires EndsWith(c, pos + 8 + |SavedAll(segments)|, ChecksumOf(segments))
    ensures BodyIs(c, pos, segments, f)
  {
    hide At, Header, SavedAll, HeaderIs, SegmentIs, EndsWith, ChecksumOf, Length;
    HeaderFound(c, pos, 0xE9, |segments|, f);
    SegmentsFound(c, pos + 8, segments);
  }

  lemma V1Bytes(segments: seq<Segment>, f: Fields)
    requires Savable(segments)
    ensures BodyIs(V1(segments, f), 0, segments, f)
  {
    var h, s, checksum := Header(0xE9, |segments|, f), SavedAll(segments), ChecksumOf(segments);
    assert [] + h + s == h + s;
    V1Is(segments, f);
    hide *;
    ClosedParts(V1(segments, f), [], h, s, checksum);
    BodyFound(V1(segments, f), 0, segments, f);
  }

  lemma V1Is(segments: seq<Segment>, f: Fields)
    requires Savable(segments)
    ensures AllSized(segments)
    ensures V1(segments, f) == Closed(Header(0xE9, |segments|, f) + SavedAll(segments), ChecksumOf(segments))
  {
    hide Header, SavedAll, ChecksumOf, Closed;
  }

  // Version 2 puts a header of its own and the irom segment in front.
  lemma V2Bytes(irom: Segment, others: seq<Segment>, f: Fields)
    requires Sized(irom) && Savable(others)
    ensures HeaderIs(V2(irom, others, f), 0, 0xEA, 4, f) && SegmentIs(V2(irom, others, f), 8, irom)
    ensures BodyIs(V2(irom, others, f), 16 + |irom.data|, others, f)
  {
    var g, h, s, checksum := Header(0xEA, 4, f), Header(0xE9, |others|, f), SavedAll(others), ChecksumOf(others);
    SavedLength(irom);
    V2Is(irom, others, f);
    hide *;
    ClosedParts(V2(irom, others, f), g + Saved(irom), h, s, checksum);
    AtSum(V2(irom, others, f), 0, g, Saved(irom));
    HeaderFound(V2(irom, others, f), 0, 0xEA, 4, f);
    SegmentFound(V2(irom, others, f), 8, irom);
    BodyFound(V2(irom, others, f), 16 + |irom.data|, others, f);
  }

  lemma V2Is(irom: Segment, others: seq<Segment>, f: Fields)
    requires Sized(irom) && Savable(others)
    ensures AllSized(others)
    ensures V2(irom, others, f) == Closed(Header(0xEA, 4, f) + Saved(irom) + Header(0xE9, |others|, f) +
      SavedAll(others), ChecksumOf(others))
  {
    hide Header, SavedAll, ChecksumOf, Closed, Saved;
  }

  // Which of them can be loaded.
  lemma LoadsExactly(segments: seq<Segment>, f: Fields)
    requires Savable(segments)
    ensures LoadV1(V1(segments, f)).Some? <==>
      (|segments| <= 16 && forall s :: s in segments ==> 0x3FFE_0000 <= s.offset <= 0x4020_0000 && |s.data| <= 65536)
  {
    V1RoundTrip(segments, f);
    hide V1, LoadV1;
  }

  function AllData(segments: seq<Segment>): seq<Byte>
  { if segments == [] then [] else AllData(segments[..|segments| - 1]) + segments[|segments| - 1].data }

  lemma {:induction false} ChecksumSum(a: seq<Byte>, b: seq<Byte>, state: Byte)
    ensures Checksum(a + b, state) == Checksum(b, Checksum(a, state))
    decreases |a|
  {
    if a == [] {
      assert a + b == b;
    } else {
      assert (a + b)[1..] == a[1..] + b;
      ChecksumSum(a[1..], b, Xor(state, a[0]));
    }
  }

  lemma {:induction false} ChecksumOfAll(segments: seq<Segment>)
    ensures ChecksumOf(segments) == Checksum(AllData(segments), 0xEF)
  {
    if segments != [] {
      var n := |segments| - 1;
      ChecksumOfAll(segments[..n]);
      ChecksumSum(AllData(segments[..n]), segments[n].data, 0xEF);
    }
  }

  function XorAll(data: seq<Byte>): bv8
  { if data == [] then 0 else (data[0] as bv8) ^ XorAll(data[1..]) }

  lemma XorBits(a: Byte, b: Byte)
    ensures Xor(a, b) as bv8 == (a as bv8) ^ (b as bv8)
  {
    AsByte((a as bv8) ^ (b as bv8));
  }

  lemma AsByte(x: bv8)
    ensures (x as int) as bv8 == x
  {}

  lemma Regrouped(x: bv8, y: bv8, z: bv8)
    ensures (x ^ y) ^ z == x ^ (y ^ z) && (x ^ y) ^ y == x
  {}

  lemma {:induction false} ChecksumIs(data: seq<Byte>, state: Byte)
    ensures Checksum(data, state) as bv8 == (state as bv8) ^ XorAll(data)
  {
    hide Xor;
    if data != [] {
      XorBits(state, data[0]);
      ChecksumIs(data[1..], Xor(state, data[0]));
      Regrouped(state as bv8, data[0] as bv8, XorAll(data[1..]));
    }
  }

  // The checksum starts from 0xEF and takes in every byte of data.
  lemma ChecksumBalances(segments: seq<Segment>, start: Byte)
    requires start == 0xEF
    ensures ChecksumOf(segments) as bv8 == (start as bv8) ^ XorAll(AllData(segments))
  {
    ChecksumOfAll(segments);
    ChecksumIs(AllData(segments), start);
    hide Checksum, ChecksumOf, XorAll, AllData;
  }
}
