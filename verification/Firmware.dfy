/** Firmware images of both versions, saved to files and loaded again (esp/esptool.py). */
module Firmware {
  import opened Wrappers

  type Byte = b: nat | b < 256
  type Word = n: nat | n < 0x1_0000_0000

  const IMAGE_MAGIC: Byte := 0xE9
  const IMAGE_V2_MAGIC: Byte := 0xEA
  const IMAGE_V2_SEGMENT: Byte := 4
  const CHECKSUM_MAGIC: Byte := 0xEF

  // What was read, and where the rest starts.
  datatype Parsed<T> = Failed | Parsed(value: T, rest: nat)

  datatype Segment = Segment(offset: Word, data: seq<Byte>)

  datatype Fields = Fields(flashMode: Byte, flashSizeFreq: Byte, entrypoint: Word)

  datatype Image = Image(segments: seq<Segment>, fields: Fields, checksum: Byte)

  function Xor(a: Byte, b: Byte): Byte { ((a as bv8) ^ (b as bv8)) as Byte }

  function Checksum(data: seq<Byte>, state: Byte): Byte {
    if data == [] then state else Checksum(data[1..], Xor(state, data[0]))
  }

  function ChecksumOf(segments: seq<Segment>): Byte {
    if segments == [] then CHECKSUM_MAGIC
    else Checksum(segments[|segments| - 1].data, ChecksumOf(segments[..|segments| - 1]))
  }

  // Little-endian words, as struct packs and unpacks them.
  function Packed(n: Word): (p: seq<Byte>)
    ensures |p| == 4
  { [n % 0x100, n / 0x100 % 0x100, n / 0x1_0000 % 0x100, n / 0x100_0000] }

  function Unpacked(p: seq<Byte>): Word
    requires |p| == 4
  {
    var q: seq<int> := p;
    q[0] + 0x100 * q[1] + 0x1_0000 * q[2] + 0x100_0000 * q[3]
  }

  lemma UnpackPacked(n: Word)
    ensures Unpacked(Packed(n)) == n
  {
    assert n / 0x1_0000 == n / 0x100 / 0x100;
    assert n / 0x100_0000 == n / 0x1_0000 / 0x100;
  }

  predicate Sized(s: Segment) { |s.data| < 0x1_0000_0000 }

  function Saved(s: Segment): seq<Byte>
    requires Sized(s)
  { Packed(s.offset) + Packed(|s.data|) + s.data }

  predicate AllSized(segments: seq<Segment>) { forall s :: s in segments ==> Sized(s) }

  function SavedAll(segments: seq<Segment>): seq<Byte>
    requires AllSized(segments)
  {
    if segments == [] then []
    else SavedAll(segments[..|segments| - 1]) + Saved(segments[|segments| - 1])
  }

  function Header(magic: Byte, count: Byte, f: Fields): (h: seq<Byte>)
    ensures |h| == 8
  { [magic, count, f.flashMode, f.flashSizeFreq] + Packed(f.entrypoint) }

  // How far to go so that one more byte ends a block of 16.
  function Align(pos: nat): nat { 15 - pos % 16 }

  function Closed(bytes: seq<Byte>, checksum: Byte): (c: seq<Byte>)
    ensures |c| % 16 == 0 && |c| == |bytes| + Align(|bytes|) + 1
  {
    assert (|bytes| + Align(|bytes|) + 1) % 16 == 0;
    bytes + seq(Align(|bytes|), _ => 0) + [checksum]
  }

  predicate Savable(segments: seq<Segment>) { |segments| < 256 && AllSized(segments) }

  function V1(segments: seq<Segment>, f: Fields): seq<Byte>
    requires Savable(segments)
  { Closed(Header(IMAGE_MAGIC, |segments|, f) + SavedAll(segments), ChecksumOf(segments)) }

  function V2(irom: Segment, others: seq<Segment>, f: Fields): seq<Byte>
    requires Sized(irom) && Savable(others)
  {
    Closed(Header(IMAGE_V2_MAGIC, IMAGE_V2_SEGMENT, f) + Saved(irom) + Header(IMAGE_MAGIC, |others|, f) +
      SavedAll(others), ChecksumOf(others))
  }

  // Loading fails wherever an error is raised.
  function Load(c: seq<Byte>, pos: nat, irom: bool): Parsed<Segment> {
    if pos + 8 > |c| then Failed else
    var offset, size := Unpacked(c[pos..pos + 4]), Unpacked(c[pos + 4..pos + 8]);
    if !irom && (offset > 0x4020_0000 || offset < 0x3FFE_0000 || size > 65536) then Failed
    else if pos + 8 + size > |c| then Failed
    else Parsed(Segment(offset, c[pos + 8..pos + 8 + size]), pos + 8 + size)
  }

  function LoadAll(c: seq<Byte>, pos: nat, count: nat): Parsed<seq<Segment>> {
    if count == 0 then Parsed([], pos) else
    var init := LoadAll(c, pos, count - 1);
    if init.Failed? then Failed else
    var last := Load(c, init.rest, false);
    if last.Failed? then Failed else Parsed(init.value + [last.value], last.rest)
  }

  // A version 1 header at pos, its segments and the checksum, behind some segments that are there already.
  function LoadBody(c: seq<Byte>, pos: nat, loaded: seq<Segment>): Option<Image> {
    if pos + 8 > |c| || c[pos] != IMAGE_MAGIC || c[pos + 1] > 16 then None else
    var segments := LoadAll(c, pos + 8, c[pos + 1]);
    if segments.Failed? || segments.rest + Align(segments.rest) >= |c| then None
    else
      var p := segments.rest;
      Some(Image(loaded + segments.value, Fields(c[pos + 2], c[pos + 3], Unpacked(c[pos + 4..pos + 8])),
        c[p + Align(p)]))
  }

  function LoadV1(c: seq<Byte>): Option<Image> { LoadBody(c, 0, []) }

  function LoadV2(c: seq<Byte>): Option<Image> {
    if |c| < 8 || c[0] != IMAGE_V2_MAGIC then None else
    var irom := Load(c, 8, true);
    if irom.Failed? then None else LoadBody(c, irom.rest, [irom.value])
  }

  predicate InRange(s: Segment) { 0x3FFE_0000 <= s.offset <= 0x4020_0000 && |s.data| <= 65536 }

  predicate AllInRange(segments: seq<Segment>) { forall s :: s in segments ==> InRange(s) }

  predicate Loadable(segments: seq<Segment>) { |segments| <= 16 && AllInRange(segments) }

  // These bytes are in c from pos on.
  predicate At(c: seq<Byte>, pos: nat, bytes: seq<Byte>) { pos + |bytes| <= |c| && c[pos..pos + |bytes|] == bytes }

  lemma AtSum(c: seq<Byte>, pos: nat, a: seq<Byte>, b: seq<Byte>)
    ensures At(c, pos, a + b) <==> At(c, pos, a) && At(c, pos + |a|, b)
  {
    if At(c, pos, a + b) {
      assert (a + b)[..|a|] == a && (a + b)[|a|..] == b;
    }
    if At(c, pos, a) && At(c, pos + |a|, b) {
      assert c[pos..pos + |a + b|] == c[pos..pos + |a|] + c[pos + |a|..pos + |a| + |b|];
    }
  }

  lemma LoadSaved(c: seq<Byte>, pos: nat, s: Segment, irom: bool)
    requires Sized(s) && At(c, pos, Saved(s))
    ensures Load(c, pos, irom) == if irom || InRange(s) then Parsed(s, pos + |Saved(s)|) else Failed
  {
    hide Unpacked, At;
    UnpackPacked(s.offset);
    UnpackPacked(|s.data|);
    AtSum(c, pos, Packed(s.offset) + Packed(|s.data|), s.data);
    AtSum(c, pos, Packed(s.offset), Packed(|s.data|));
    AtIs(c, pos, Packed(s.offset));
    AtIs(c, pos + 4, Packed(|s.data|));
    AtIs(c, pos + 8, s.data);
  }

  lemma AtIs(c: seq<Byte>, pos: nat, bytes: seq<Byte>)
    ensures At(c, pos, bytes) <==> pos + |bytes| <= |c| && c[pos..pos + |bytes|] == bytes
  {}

  // Segments load exactly if all of them are in range, and then they are the same.
  lemma {:induction false} LoadAllSaved(c: seq<Byte>, pos: nat, segments: seq<Segment>)
    requires AllSized(segments) && At(c, pos, SavedAll(segments))
    ensures LoadAll(c, pos, |segments|) ==
      if AllInRange(segments) then Parsed(segments, pos + |SavedAll(segments)|) else Failed
  {
    hide *;
    NothingSaved(c, pos);
    if segments != [] {
      var n := |segments| - 1;
      var init, last := segments[..n], segments[n];
      Parts(segments);
      AtSum(c, pos, SavedAll(init), Saved(last));
      LoadAllSaved(c, pos, init);
      LoadSaved(c, pos + |SavedAll(init)|, last, false);
      OneMore(c, pos, segments);
    }
  }

  lemma NothingSaved(c: seq<Byte>, pos: nat)
    ensures SavedAll([]) == [] && LoadAll(c, pos, 0) == Parsed([], pos) && AllInRange([])
  {}

  lemma Parts(segments: seq<Segment>)
    requires segments != [] && AllSized(segments)
    ensures var init, last := segments[..|segments| - 1], segments[|segments| - 1];
      && AllSized(init) && Sized(last) && SavedAll(segments) == SavedAll(init) + Saved(last)
      && (AllInRange(segments) <==> AllInRange(init) && InRange(last))
  {
    assert segments == segments[..|segments| - 1] + [segments[|segments| - 1]];
  }

  lemma OneMore(c: seq<Byte>, pos: nat, segments: seq<Segment>)
    requires segments != [] && AllSized(segments)
    requires var n := |segments| - 1;
      var p := pos + |SavedAll(segments[..n])|;
      && AllSized(segments[..n]) && Sized(segments[n])
      && LoadAll(c, pos, n) == (if AllInRange(segments[..n]) then Parsed(segments[..n], p) else Failed)
      && Load(c, p, false) == if InRange(segments[n]) then Parsed(segments[n], p + |Saved(segments[n])|) else Failed
    ensures LoadAll(c, pos, |segments|) ==
      if AllInRange(segments) then Parsed(segments, pos + |SavedAll(segments)|) else Failed
  {
    hide Load, Saved, SavedAll, AllInRange, InRange, AllSized, Sized;
    Parts(segments);
    var n := |segments| - 1;
    var init, last := LoadAll(c, pos, n), Load(c, pos + |SavedAll(segments[..n])|, false);
    if AllInRange(segments[..n]) {
      if InRange(segments[n]) {
        assert segments[..n] + [segments[n]] == segments;
      }
    }
  }

  lemma LoadBodySaved(before: seq<Byte>, segments: seq<Segment>, f: Fields, loaded: seq<Segment>)
    requires Savable(segments)
    ensures LoadBody(Closed(before + Header(IMAGE_MAGIC, |segments|, f) + SavedAll(segments), ChecksumOf(segments)),
      |before|, loaded) ==
      if Loadable(segments) then Some(Image(loaded + segments, f, ChecksumOf(segments))) else None
  {
    hide LoadAll, SavedAll, ChecksumOf, AllInRange, Unpacked, Header, At, Align, AllSized;
    var pos, header, checksum := |before|, Header(IMAGE_MAGIC, |segments|, f), ChecksumOf(segments);
    var bytes := before + header + SavedAll(segments);
    var c := Closed(bytes, checksum);
    AtIs(c, 0, bytes);
    AtSum(c, 0, before + header, SavedAll(segments));
    AtSum(c, 0, before, header);
    LoadAllSaved(c, pos + 8, segments);
    HeaderAt(c, pos, IMAGE_MAGIC, |segments|, f);
    ChecksumAt(bytes, checksum);
  }

  lemma HeaderAt(c: seq<Byte>, pos: nat, magic: Byte, count: Byte, f: Fields)
    requires At(c, pos, Header(magic, count, f))
    ensures pos + 8 <= |c| && c[pos] == magic && c[pos + 1] == count && c[pos + 2] == f.flashMode
      && c[pos + 3] == f.flashSizeFreq
    ensures Unpacked(c[pos + 4..pos + 8]) == f.entrypoint
  {
    hide Unpacked, Packed;
    UnpackPacked(f.entrypoint);
    var header := Header(magic, count, f);
    assert c[pos..pos + 8][..4] == header[..4] && c[pos..pos + 8][4..8] == header[4..8];
    assert c[pos + 4..pos + 8] == Packed(f.entrypoint);
    forall i | 0 <= i < 4 ensures c[pos + i] == header[i] { assert c[pos..pos + 8][i] == header[i]; }
    assert c[pos + 0] == header[0];
  }

  lemma ChecksumAt(bytes: seq<Byte>, checksum: Byte)
    ensures Closed(bytes, checksum)[|bytes| + Align(|bytes|)] == checksum
  {}

  // Round trips. An image that was saved loads if and only if its segments are in range and no more than 16.
  lemma V1RoundTrip(segments: seq<Segment>, f: Fields)
    requires Savable(segments)
    ensures LoadV1(V1(segments, f)) == if Loadable(segments) then Some(Image(segments, f, ChecksumOf(segments)))
      else None
  {
    hide Loadable, LoadBody;
    LoadBodySaved([], segments, f, []);
    assert [] + Header(IMAGE_MAGIC, |segments|, f) + SavedAll(segments) ==
      Header(IMAGE_MAGIC, |segments|, f) + SavedAll(segments);
    assert [] + segments == segments;
  }

  lemma V2RoundTrip(irom: Segment, others: seq<Segment>, f: Fields)
    requires Sized(irom) && Savable(others)
    ensures LoadV2(V2(irom, others, f)) == if Loadable(others) then Some(Image([irom] + others, f, ChecksumOf(others)))
      else None
  {
    hide Loadable, LoadBody, Load, Saved, SavedAll, ChecksumOf, At, Align;
    var first, second := Header(IMAGE_V2_MAGIC, IMAGE_V2_SEGMENT, f), Header(IMAGE_MAGIC, |others|, f);
    var bytes := first + Saved(irom) + second + SavedAll(others);
    var c := V2(irom, others, f);
    AtIs(c, 0, bytes);
    AtSum(c, 0, first + Saved(irom) + second, SavedAll(others));
    AtSum(c, 0, first + Saved(irom), second);
    AtSum(c, 0, first, Saved(irom));
    LoadSaved(c, 8, irom, true);
    LoadBodySaved(first + Saved(irom), others, f, [irom]);
    assert c[0] == first[0];
  }

  // The segments with load address zero, and the others.
  function Irom(segments: seq<Segment>): seq<Segment> {
    if segments == [] then []
    else (if segments[0].offset == 0 then [segments[0]] else []) + Irom(segments[1..])
  }

  function Except(segments: seq<Segment>, s: Segment): seq<Segment> {
    if segments == [] then []
    else (if segments[0] != s then [segments[0]] else []) + Except(segments[1..], s)
  }

  lemma {:induction false} ExceptSubset(segments: seq<Segment>, s: Segment)
    ensures |Except(segments, s)| <= |segments|
    ensures forall t :: t in Except(segments, s) <==> t in segments && t != s
  {
    if segments != [] { ExceptSubset(segments[1..], s); }
  }

  lemma {:induction false} IromSubset(segments: seq<Segment>)
    ensures forall t :: t in Irom(segments) <==> t in segments && t.offset == 0
  {
    if segments != [] { IromSubset(segments[1..]); }
  }

  class File {
    var content: seq<Byte>
    var pos: nat

    constructor (content: seq<Byte>)
      ensures this.content == content && pos == 0
    { this.content, pos := content, 0; }

    // Appends. A gap that seeking left fills up with zeros.
    method Write(bytes: seq<Byte>)
      requires pos >= |content|
      modifies this
      ensures content == old(content + seq(pos - |content|, _ => 0) + bytes) && pos == |content|
    {
      content := content + seq(pos - |content|, _ => 0) + bytes;
      pos := |content|;
    }

    method Read(n: nat) returns (bytes: seq<Byte>)
      modifies this`pos
      ensures pos == old(pos) + |bytes|
      ensures if old(pos) + n <= |content| then bytes == content[old(pos)..old(pos) + n]
        else |bytes| <= n && (n > 0 ==> |bytes| < n)
    {
      if pos + n <= |content| {
        bytes := content[pos..pos + n];
      } else if pos <= |content| {
        bytes := content[pos..];
      } else {
        bytes := [];
      }
      pos := pos + |bytes|;
    }

    method AlignPosition()
      modifies this`pos
      ensures pos == old(pos + Align(pos))
    { pos := pos + (15 - pos % 16); }
  }

  class FirmwareImage {
    var segments: seq<Segment>
    var fields: Fields
    var checksum: Byte

    constructor ()
      ensures segments == []
    { segments, fields, checksum := [], Fields(0, 0, 0), 0; }

    method SaveBody(f: File, normal: seq<Segment>)
      requires Savable(normal) && f.pos == |f.content|
      modifies f
      ensures f.content == Closed(old(f.content) + Header(IMAGE_MAGIC, |normal|, fields) + SavedAll(normal),
        ChecksumOf(normal))
    {
      f.Write(Header(IMAGE_MAGIC, |normal|, fields));
      var checksum := CHECKSUM_MAGIC;
      for i := 0 to |normal|
        invariant f.pos == |f.content| && checksum == ChecksumOf(normal[..i]) && AllSized(normal[..i])
        invariant f.content == old(f.content) + Header(IMAGE_MAGIC, |normal|, fields) + SavedAll(normal[..i])
      {
        assert normal[..i + 1][..i] == normal[..i];
        f.Write(Saved(normal[i]));
        checksum := Checksum(normal[i].data, checksum);
      }
      assert normal[..|normal|] == normal;
      f.AlignPosition();
      f.Write([checksum]);
    }

    method SaveV1(f: File)
      requires Savable(segments) && f.content == [] && f.pos == 0
      modifies f
      ensures f.content == V1(segments, fields)
    {
      SaveBody(f, segments);
      assert [] + Header(IMAGE_MAGIC, |segments|, fields) == Header(IMAGE_MAGIC, |segments|, fields);
    }

    // Needs exactly one irom segment.
    method SaveV2(f: File) returns (ok: bool)
      requires Savable(segments) && f.content == [] && f.pos == 0
      modifies f
      ensures ok == (|Irom(segments)| == 1)
      ensures ok ==> Sized(Irom(segments)[0]) && Savable(Except(segments, Irom(segments)[0]))
      ensures ok ==> f.content == V2(Irom(segments)[0], Except(segments, Irom(segments)[0]), fields)
    {
      hide Irom, Except, Header, Saved, SavedAll, ChecksumOf;
      f.Write(Header(IMAGE_V2_MAGIC, IMAGE_V2_SEGMENT, fields));
      var iromSegments := Irom(segments);
      if |iromSegments| != 1 { return false; }
      var irom := iromSegments[0];
      IromSubset(segments);
      ExceptSubset(segments, irom);
      f.Write(Saved(irom));
      assert f.content == Header(IMAGE_V2_MAGIC, IMAGE_V2_SEGMENT, fields) + Saved(irom);
      SaveBody(f, Except(segments, irom));
      ok := true;
    }

    method LoadSegment(f: File, irom: bool) returns (ok: bool)
      modifies this`segments, f`pos
      ensures var p := Load(f.content, old(f.pos), irom);
        if p.Failed? then !ok else ok && f.pos == p.rest && segments == old(segments) + [p.value]
    {
      var bytes := f.Read(8);
      if |bytes| < 8 { return false; }
      var offset, size := Unpacked(bytes[..4]), Unpacked(bytes[4..]);
      assert bytes[..4] == f.content[old(f.pos)..old(f.pos) + 4]
        && bytes[4..] == f.content[old(f.pos) + 4..old(f.pos) + 8];
      if !irom {
        if offset > 0x4020_0000 || offset < 0x3FFE_0000 || size > 65536 { return false; }
      }
      var data := f.Read(size);
      if |data| < size { return false; }
      segments := segments + [Segment(offset, data)];
      return true;
    }

    // The part of a file that both versions share.
    method LoadRest(f: File) returns (ok: bool)
      modifies this, f`pos
      ensures var image := LoadBody(f.content, old(f.pos), old(segments));
        if image == None then !ok else ok && Image(segments, fields, checksum) == image.value
    {
      hide LoadAll, Load, Align, Unpacked;
      var bytes := f.Read(8);
      if |bytes| < 8 { return false; }
      assert bytes[4..] == f.content[old(f.pos) + 4..old(f.pos) + 8];
      NoneLoaded(f.content, old(f.pos) + 8);
      fields := Fields(bytes[2], bytes[3], Unpacked(bytes[4..]));
      if bytes[0] != IMAGE_MAGIC || bytes[1] > 16 { return false; }
      for i := 0 to bytes[1]
        invariant !LoadAll(f.content, old(f.pos) + 8, i).Failed?
        invariant LoadAll(f.content, old(f.pos) + 8, i).rest == f.pos
        invariant segments == old(segments) + LoadAll(f.content, old(f.pos) + 8, i).value
        invariant fields == Fields(bytes[2], bytes[3], Unpacked(bytes[4..]))
      {
        NextLoaded(f.content, old(f.pos) + 8, i);
        ok := LoadSegment(f, false);
        if !ok {
          StaysFailed(f.content, old(f.pos) + 8, i + 1, bytes[1]);
          return;
        }
      }
      f.AlignPosition();
      var last := f.Read(1);
      if |last| < 1 { return false; }
      checksum := last[0];
      return true;
    }

    method LoadFirst(f: File) returns (ok: bool)
      requires f.pos == 0 && segments == []
      modifies this, f`pos
      ensures var image := LoadV1(f.content);
        if image == None then !ok else ok && Image(segments, fields, checksum) == image.value
    { ok := LoadRest(f); }

    method LoadSecond(f: File) returns (ok: bool)
      requires f.pos == 0 && segments == []
      modifies this, f`pos
      ensures var image := LoadV2(f.content);
        if image == None then !ok else ok && Image(segments, fields, checksum) == image.value
    {
      hide Unpacked, LoadAll;
      var bytes := f.Read(8);
      if |bytes| < 8 { return false; }
      if bytes[0] != IMAGE_V2_MAGIC { return false; }
      ok := LoadSegment(f, true);
      if !ok { return; }
      ok := LoadRest(f);
    }
  }

  lemma NoneLoaded(c: seq<Byte>, pos: nat)
    ensures LoadAll(c, pos, 0) == Parsed([], pos)
  {}

  lemma NextLoaded(c: seq<Byte>, pos: nat, i: nat)
    requires LoadAll(c, pos, i).Parsed?
    ensures var init := LoadAll(c, pos, i);
      var last := Load(c, init.rest, false);
      LoadAll(c, pos, i + 1) == if last.Failed? then Failed else Parsed(init.value + [last.value], last.rest)
  {}

  lemma {:induction false} StaysFailed(c: seq<Byte>, pos: nat, i: nat, n: nat)
    requires i <= n && LoadAll(c, pos, i).Failed?
    ensures LoadAll(c, pos, n).Failed?
  {
    if i < n { StaysFailed(c, pos, i, n - 1); }
  }
}
