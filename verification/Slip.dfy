/** SLIP packets on a serial line (esp/esptool.py; RFC 1055). */
module Slip {
  import opened Wrappers

  type Byte = b: nat | b < 256

  const END: Byte := 0xC0
  const ESC: Byte := 0xDB
  const ESC_END: Byte := 0xDC
  const ESC_ESC: Byte := 0xDD

  // str.replace for a single byte.
  function Replaced(s: seq<Byte>, b: Byte, sub: seq<Byte>): seq<Byte> {
    if s == [] then [] else (if s[0] == b then sub else [s[0]]) + Replaced(s[1..], b, sub)
  }

  // ESPROM.write
  function Written(packet: seq<Byte>): seq<Byte> {
    [END] + Replaced(Replaced(packet, ESC, [ESC, ESC_ESC]), END, [ESC, ESC_END]) + [END]
  }

  function Wire(packets: seq<seq<Byte>>): seq<Byte> {
    if packets == [] then [] else Wire(packets[..|packets| - 1]) + Written(packets[|packets| - 1])
  }

  // RFC 1055: how each byte of a packet travels.
  function Sent(b: Byte): seq<Byte> { if b == END then [ESC, ESC_END] else if b == ESC then [ESC, ESC_ESC] else [b] }

  function Escaped(packet: seq<Byte>): seq<Byte> {
    if packet == [] then [] else Escaped(packet[..|packet| - 1]) + Sent(packet[|packet| - 1])
  }

  lemma {:induction false} ReplacedSum(s: seq<Byte>, t: seq<Byte>, b: Byte, sub: seq<Byte>)
    ensures Replaced(s + t, b, sub) == Replaced(s, b, sub) + Replaced(t, b, sub)
  {
    if s == [] {
      assert s + t == t;
    } else {
      assert (s + t)[1..] == s[1..] + t;
      ReplacedSum(s[1..], t, b, sub);
    }
  }

  // The bytes of RFC 1055.
  lemma SentBytes(b: Byte)
    ensures Sent(0xC0) == [0xDB, 0xDC] && Sent(0xDB) == [0xDB, 0xDD]
    ensures b != 0xC0 && b != 0xDB ==> Sent(b) == [b]
  {}

  // The order of the two replacements is right: the bytes that the first one puts in are left alone by the second.
  lemma {:induction false} EscapedByReplacing(packet: seq<Byte>)
    ensures Written(packet) == [END] + Escaped(packet) + [END]
  {
    if packet != [] {
      var init, last := packet[..|packet| - 1], packet[|packet| - 1];
      EscapedByReplacing(init);
      var r := [ESC, ESC_ESC];
      assert packet == init + [last];
      ReplacedSum(init, [last], ESC, r);
      ReplacedSum(Replaced(init, ESC, r), Replaced([last], ESC, r), END, [ESC, ESC_END]);
      LastReplaced(last);
      var x := Replaced(Replaced(init, ESC, r), END, [ESC, ESC_END]);
      assert [END] + x + [END] == [END] + Escaped(init) + [END];
      assert ([END] + x + [END])[1..|x| + 1] == x;
      assert ([END] + Escaped(init) + [END])[1..|Escaped(init)| + 1] == Escaped(init);
    }
  }

  lemma LastReplaced(b: Byte)
    ensures Replaced(Replaced([b], ESC, [ESC, ESC_ESC]), END, [ESC, ESC_END]) == Sent(b)
  {
    assert [b][1..] == [] && [ESC, ESC_ESC][1..] == [ESC_ESC] && [ESC_ESC][1..] == [];
    assert Replaced([b], ESC, [ESC, ESC_ESC]) == if b == ESC then [ESC, ESC_ESC] else [b];
    assert Replaced([ESC_ESC], END, [ESC, ESC_END]) == [ESC_ESC];
  }

  lemma WireMore(packets: seq<seq<Byte>>, p: seq<Byte>)
    ensures Wire(packets + [p]) == Wire(packets) + ([END] + Escaped(p) + [END])
  {
    EscapedByReplacing(p);
    assert (packets + [p])[..|packets|] == packets;
  }

  lemma EscapedMore(p: seq<Byte>, b: Byte)
    ensures Escaped(p + [b]) == Escaped(p) + Sent(b)
  { assert (p + [b])[..|p|] == p; }

  // The state of the reader between two bytes, and what it has yielded.
  datatype Reading = Reading(partial: Option<seq<Byte>>, inEscape: bool, packets: seq<seq<Byte>>)

  // The reader after one more byte, or None if it raises an error.
  function Next(r: Reading, b: Byte): Option<Reading> {
    if r.partial.None? then
      if b == END then Some(r.(partial := Some([]))) else None
    else if r.inEscape then
      if b == ESC_END then Some(r.(inEscape := false, partial := Some(r.partial.value + [END])))
      else if b == ESC_ESC then Some(r.(inEscape := false, partial := Some(r.partial.value + [ESC])))
      else None
    else if b == ESC then Some(r.(inEscape := true))
    else if b == END then Some(Reading(None, false, r.packets + [r.partial.value]))
    else Some(r.(partial := Some(r.partial.value + [b])))
  }

  // What the line has brought when the reader is in this state.
  function Received(r: Reading): seq<Byte> {
    Wire(r.packets) + if r.partial.None? then [] else [END] + Escaped(r.partial.value) + if r.inEscape then [ESC]
      else []
  }

  ghost predicate Proper(r: Reading) { r.partial.None? ==> !r.inEscape }

  // The reader knows exactly what it has received.
  lemma Receives(r: Reading, b: Byte)
    requires Proper(r) && Next(r, b).Some?
    ensures var r' := Next(r, b).value; Proper(r') && Received(r') == Received(r) + [b]
  {
    hide Wire, Escaped;
    var r' := Next(r, b).value;
    if r.partial.Some? {
      var p := r.partial.value;
      if r'.partial.None? {
        WireMore(r.packets, p);
      } else if r'.partial != r.partial {
        EscapedMore(p, if !r.inEscape then b else if b == ESC_END then END else ESC);
      }
    } else {
      assert Escaped([]) == [] by { EscapedNone(); }
    }
  }

  lemma EscapedNone()
    ensures Escaped([]) == []
  {}

  // The reader over many bytes.
  function After(r: Reading, bytes: seq<Byte>): Option<Reading> {
    if bytes == [] then Some(r)
    else match After(r, bytes[..|bytes| - 1]) case None => None case Some(r') => Next(r', bytes[|bytes| - 1])
  }

  const START: Reading := Reading(None, false, [])

  lemma {:induction false} AfterReceives(r: Reading, bytes: seq<Byte>)
    requires Proper(r) && After(r, bytes).Some?
    ensures var r' := After(r, bytes).value; Proper(r') && Received(r') == Received(r) + bytes
  {
    if bytes != [] {
      var init := bytes[..|bytes| - 1];
      AfterReceives(r, init);
      Receives(After(r, init).value, bytes[|bytes| - 1]);
      hide Received, Proper, Next;
      assert bytes == init + [bytes[|bytes| - 1]];
    }
  }

  lemma {:induction false} AfterSum(r: Reading, s: seq<Byte>, t: seq<Byte>)
    ensures After(r, s + t) == match After(r, s) case None => None case Some(r') => After(r', t)
  {
    if t == [] {
      assert s + t == s;
    } else {
      var init := t[..|t| - 1];
      assert (s + t)[..|s + t| - 1] == s + init;
      AfterSum(r, s, init);
    }
  }

  lemma {:induction false} ReadsEscaped(packets: seq<seq<Byte>>, p: seq<Byte>)
    ensures After(Reading(Some([]), false, packets), Escaped(p)) == Some(Reading(Some(p), false, packets))
  {
    if p != [] {
      var init, last := p[..|p| - 1], p[|p| - 1];
      ReadsEscaped(packets, init);
      AfterSum(Reading(Some([]), false, packets), Escaped(init), Sent(last));
      var r := Reading(Some(init), false, packets);
      assert After(r, []) == Some(r);
      assert After(r, Sent(last)[..1]) == Next(r, Sent(last)[0]);
      assert |Sent(last)| == 2 ==>
        Sent(last)[..1] == [ESC] && After(r, Sent(last)) == Next(r.(inEscape := true), Sent(last)[1]);
      assert |Sent(last)| == 1 ==> Sent(last)[..1] == Sent(last);
      assert init + [last] == p;
    }
  }

  lemma {:induction false} ReadsWire(packets: seq<seq<Byte>>)
    ensures After(START, Wire(packets)) == Some(Reading(None, false, packets))
  {
    if packets != [] {
      var init, p := packets[..|packets| - 1], packets[|packets| - 1];
      ReadsWire(init);
      AfterSum(START, Wire(init), Written(p));
      ReadsWritten(init, p);
      assert Wire(packets) == Wire(init) + Written(p);
      hide After, Wire, Written;
      assert init + [p] == packets;
    }
  }

  lemma ReadsWritten(packets: seq<seq<Byte>>, p: seq<Byte>)
    ensures After(Reading(None, false, packets), Written(p)) == Some(Reading(None, false, packets + [p]))
  {
    EscapedByReplacing(p);
    var r, e := Reading(None, false, packets), Escaped(p);
    var begun, ended := Reading(Some([]), false, packets), Reading(Some(p), false, packets);
    assert Next(r, END) == Some(begun) && Next(ended, END) == Some(Reading(None, false, packets + [p]));
    hide *;
    assert Written(p) == [END] + (e + [END]);
    AfterOne(r, END);
    AfterSum(r, [END], e + [END]);
    ReadsEscaped(packets, p);
    AfterSum(begun, e, [END]);
    AfterOne(ended, END);
  }

  lemma AfterOne(r: Reading, b: Byte)
    ensures After(r, [b]) == Next(r, b)
  {
    assert After(r, []) == Some(r) && [b][..0] == [];
  }

  // Between packets the reader has yielded some packets if and only if exactly those were written to the line.
  lemma ReadsExactlyWhatWasWritten(bytes: seq<Byte>, packets: seq<seq<Byte>>)
    ensures After(START, bytes) == Some(Reading(None, false, packets)) <==> bytes == Wire(packets)
  {
    ReadsWire(packets);
    if After(START, bytes) == Some(Reading(None, false, packets)) {
      AfterReceives(START, bytes);
      assert Received(START) + bytes == bytes && Wire(packets) + [] == Wire(packets);
    }
  }

  // A packet travels between two bytes 0xC0, and none is in between.
  lemma {:induction false} Framed(packet: seq<Byte>)
    ensures 0xC0 !in Escaped(packet) && Written(packet) == [0xC0] + Escaped(packet) + [0xC0]
  {
    EscapedByReplacing(packet);
    NoEnd(packet);
    hide Written, Escaped;
  }

  lemma {:induction false} NoEnd(packet: seq<Byte>)
    ensures END !in Escaped(packet)
  {
    if packet != [] { NoEnd(packet[..|packet| - 1]); }
  }

  function Joined(chunks: seq<seq<Byte>>): seq<Byte> {
    if chunks == [] then [] else Joined(chunks[..|chunks| - 1]) + chunks[|chunks| - 1]
  }

  class SlipReader {
    var partialPacket: Option<seq<Byte>>
    var inEscape: bool
    var yielded: seq<seq<Byte>>

    constructor ()
      ensures State() == START
    { partialPacket, inEscape, yielded := None, false, []; }

    function State(): Reading
      reads this
    { Reading(partialPacket, inEscape, yielded) }

    // One turn of the loop over what the port had. False stands for an error raised.
    method Take(readBytes: seq<Byte>) returns (ok: bool)
      modifies this
      ensures ok == (readBytes != [] && After(old(State()), readBytes).Some?)
      ensures ok ==> After(old(State()), readBytes) == Some(State())
    {
      if readBytes == [] { return false; }
      for i := 0 to |readBytes|
        invariant After(old(State()), readBytes[..i]) == Some(State())
      {
        var b := readBytes[i];
        assert readBytes[..i + 1][..i] == readBytes[..i];
        ghost var failed := Next(State(), b) == None;
        if failed { Stuck(old(State()), readBytes, i + 1); }
        if partialPacket == None {
          if b == END { partialPacket := Some([]); } else { return false; }
        } else if inEscape {
          inEscape := false;
          if b == ESC_END {
            partialPacket := Some(partialPacket.value + [END]);
          } else if b == ESC_ESC {
            partialPacket := Some(partialPacket.value + [ESC]);
          } else {
            return false;
          }
        } else if b == ESC {
          inEscape := true;
        } else if b == END {
          yielded := yielded + [partialPacket.value];
          partialPacket := None;
        } else {
          partialPacket := Some(partialPacket.value + [b]);
        }
      }
      assert readBytes[..|readBytes|] == readBytes;
      return true;
    }

    // However the bytes are chunked into reads.
    method TakeAll(chunks: seq<seq<Byte>>, ghost packets: seq<seq<Byte>>) returns (ok: bool)
      requires State() == START && Joined(chunks) == Wire(packets) && forall i :: 0 <= i < |chunks| ==> chunks[i] != []
      modifies this
      ensures ok && yielded == packets && partialPacket == None && !inEscape
    {
      hide Wire, Joined, After, Next;
      ReadsWire(packets);
      JoinedNone();
      for i := 0 to |chunks|
        invariant After(START, Joined(chunks[..i])) == Some(State())
      {
        AfterChunk(chunks, i);
        var taken := Take(chunks[i]);
      }
      assert chunks[..|chunks|] == chunks;
      return true;
    }
  }

  lemma {:induction false} JoinedPrefix(chunks: seq<seq<Byte>>, i: nat)
    requires i <= |chunks|
    ensures Joined(chunks[..i]) <= Joined(chunks)
  {
    if i < |chunks| {
      var init := chunks[..|chunks| - 1];
      assert init[..i] == chunks[..i];
      JoinedPrefix(init, i);
    } else {
      assert chunks[..i] == chunks;
    }
  }

  lemma JoinedNone()
    ensures Joined([]) == [] && After(START, []) == Some(START)
  {}

  // A line that has no error has none in any of its chunks.
  lemma {:induction false} AfterChunk(chunks: seq<seq<Byte>>, i: nat)
    requires i < |chunks| && After(START, Joined(chunks)).Some?
    ensures After(START, Joined(chunks[..i])).Some? && After(START, Joined(chunks[..i + 1])).Some?
    ensures After(START, Joined(chunks[..i + 1])) == After(After(START, Joined(chunks[..i])).value, chunks[i])
  {
    var before, upTo := Joined(chunks[..i]), Joined(chunks[..i + 1]);
    assert chunks[..i + 1][..i] == chunks[..i];
    AfterSum(START, before, chunks[i]);
    JoinedPrefix(chunks, i + 1);
    if After(START, upTo) == None {
      assert Joined(chunks)[..|upTo|] == upTo;
      Stuck(START, Joined(chunks), |upTo|);
    }
  }

  // After an error nothing helps.
  lemma {:induction false} Stuck(r: Reading, bytes: seq<Byte>, i: nat)
    requires i <= |bytes| && After(r, bytes[..i]) == None
    ensures After(r, bytes) == None
  {
    assert bytes == bytes[..i] + bytes[i..];
    AfterSum(r, bytes[..i], bytes[i..]);
  }
}
