/** Length-prefixed parts in a file (app/core/filesystem/filesystem.go): what SaveFile writes before
    compression and what parseBinaryData reads back. */
module Framing {
  import opened Values

  type Bytes = seq<Byte>

  datatype Parsed = Parts(parts: seq<Bytes>) | EndOfFile | UnexpectedEndOfFile

  /** The low `width` bytes of a number, little-endian. */
  function LittleEndian(n: nat, width: nat): (b: Bytes)
    ensures |b| == width
  {
    if width == 0 then [] else [n % 0x100] + LittleEndian(n / 0x100, width - 1)
  }

  function FromLittleEndian(b: Bytes): nat {
    if b == [] then 0 else b[0] as int + 0x100 * FromLittleEndian(b[1..])
  }

  /** encodeBinaryLength: the length as a uint32, which drops anything above 2^32. */
  function LengthPrefix(n: nat): (b: Bytes)
    ensures |b| == 4
  {
    LittleEndian(n, 4)
  }

  function Wrapped(n: nat): (r: nat)
    ensures r <= n && (r == n <==> n < 0x1_0000_0000)
  {
    n % 0x1_0000_0000
  }

  lemma DigitRoundTrip(n: nat, width: nat)
    requires width > 0
    ensures FromLittleEndian(LittleEndian(n, width)) ==
            n % 0x100 + 0x100 * FromLittleEndian(LittleEndian(n / 0x100, width - 1))
  {
    assert LittleEndian(n, width)[1..] == LittleEndian(n / 0x100, width - 1);
  }

  lemma TwoDigits(n: nat)
    ensures n % 0x100 + 0x100 * (n / 0x100 % 0x100) == n % 0x1_0000 && n / 0x100 / 0x100 == n / 0x1_0000
  {}

  lemma TwoHalves(n: nat)
    ensures n % 0x1_0000 + 0x1_0000 * (n / 0x1_0000 % 0x1_0000) == Wrapped(n)
  {}

  lemma FourDigits(n: nat, a: nat, b: nat, c: nat)
    requires a == n / 0x100 && b == a / 0x100 && c == b / 0x100
    ensures n % 0x100 + 0x100 * (a % 0x100 + 0x100 * (b % 0x100 + 0x100 * (c % 0x100))) == Wrapped(n)
  {
    TwoDigits(n);
    TwoDigits(b);
    TwoHalves(n);
  }

  lemma LengthRoundTrip(n: nat)
    ensures FromLittleEndian(LengthPrefix(n)) == Wrapped(n)
  {
    var a := n / 0x100;
    var b := a / 0x100;
    var c := b / 0x100;
    DigitRoundTrip(n, 4);
    DigitRoundTrip(a, 3);
    DigitRoundTrip(b, 2);
    DigitRoundTrip(c, 1);
    assert FromLittleEndian(LittleEndian(c / 0x100, 0)) == 0;
    FourDigits(n, a, b, c);
  }

  /** The header's bytes, least significant first, and what four bytes read as. */
  lemma HeaderBytes(n: nat, b: Bytes)
    ensures LengthPrefix(n) ==
            [n % 0x100, n / 0x100 % 0x100, n / 0x100 / 0x100 % 0x100, n / 0x100 / 0x100 / 0x100 % 0x100]
    ensures |b| == 4 ==> FromLittleEndian(b) == b[0] as int + 0x100 * b[1] as int + 0x1_0000 * b[2] as int +
                                                0x100_0000 * b[3] as int
  {
    var x, y, z := n / 0x100, n / 0x100 / 0x100, n / 0x100 / 0x100 / 0x100;
    assert LittleEndian(z, 1) == [z % 0x100] + LittleEndian(z / 0x100, 0);
    assert LittleEndian(y, 2) == [y % 0x100] + LittleEndian(z, 1);
    assert LittleEndian(x, 3) == [x % 0x100] + LittleEndian(y, 2);
    if |b| == 4 {
      assert FromLittleEndian(b[1..][1..][1..][1..]) == 0;
      assert b[1..][1..][1..][0] == b[3] && b[1..][1..][0] == b[2] && b[1..][0] == b[1];
    }
  }

  function Framed(part: Bytes): Bytes {
    LengthPrefix(|part|) + part
  }

  function Frame(parts: seq<Bytes>): Bytes {
    if parts == [] then [] else Frame(parts[..|parts| - 1]) + Framed(parts[|parts| - 1])
  }

  function Zeros(n: nat): (z: Bytes)
    ensures |z| == n && forall i | 0 <= i < n :: z[i] == 0
  {
    seq(n, _ => 0)
  }

  function Min(a: nat, b: nat): nat {
    if a < b then a else b
  }

  /** One Read into a zeroed block of the given length: short input leaves the rest zero. */
  function BlockFrom(rest: Bytes, length: nat): (block: Bytes)
    ensures |block| == length
  {
    var n := Min(length, |rest|);
    rest[..n] + Zeros(length - n)
  }

  /** What a reader makes of the bytes: a header of four bytes or nothing, then a block; a read at the very
      end fails even for a block of length zero. */
  function Parse(data: Bytes): Parsed
    decreases |data|
  {
    if data == [] then Parts([])
    else if |data| < 4 then UnexpectedEndOfFile
    else
      var length, rest := FromLittleEndian(data[..4]), data[4..];
      if rest == [] then EndOfFile
      else
        Then(BlockFrom(rest, length), Parse(rest[Min(length, |rest|)..]))
  }

  function Then(block: Bytes, tail: Parsed): Parsed {
    if tail.Parts? then Parts([block] + tail.parts) else tail
  }

  /** The reader's step on input that has a whole header. */
  lemma ParseSplit(data: Bytes)
    requires |data| >= 4
    ensures var length, rest := FromLittleEndian(data[..4]), data[4..];
            Parse(data) == if rest == [] then EndOfFile
                           else Then(BlockFrom(rest, length), Parse(rest[Min(length, |rest|)..]))
  {}

  // ---- the loops ----

  /** The framing part of SaveFile; `existing` is the decompressed content in append mode, else empty. */
  method EncodeParts(existing: Bytes, parts: seq<Bytes>) returns (content: Bytes)
    ensures content == existing + Frame(parts)
  {
    content := existing;
    for i := 0 to |parts|
      invariant content == existing + Frame(parts[..i])
    {
      assert parts[..i + 1][..i] == parts[..i];
      content := content + LengthPrefix(|parts[i]|);
      content := content + parts[i];
    }
    assert parts[..|parts|] == parts;
  }

  /** The outcome once the parts so far are put before it. */
  function After(parts: seq<Bytes>, tail: Parsed): Parsed {
    if tail.Parts? then Parts(parts + tail.parts) else tail
  }

  lemma AfterThen(parts: seq<Bytes>, block: Bytes, tail: Parsed)
    ensures After(parts, Then(block, tail)) == After(parts + [block], tail)
  {
    if tail.Parts? { assert parts + ([block] + tail.parts) == parts + [block] + tail.parts; }
  }

  /** parseBinaryData over a reader position. */
  method ParseBinaryData(data: Bytes) returns (result: Parsed)
    ensures result == Parse(data)
  {
    var parts: seq<Bytes> := [];
    var pos := 0;
    while pos < |data|
      invariant 0 <= pos <= |data|
      invariant Parse(data) == After(parts, Parse(data[pos..]))
      decreases |data| - pos
    {
      if |data| - pos < 4 { return UnexpectedEndOfFile; }
      var length := FromLittleEndian(data[pos..pos + 4]);
      ParseSplit(data[pos..]);
      assert data[pos..][..4] == data[pos..pos + 4] && data[pos..][4..] == data[pos + 4..];
      pos := pos + 4;
      if pos == |data| { return EndOfFile; }
      var n := Min(length, |data| - pos);
      var block := BlockFrom(data[pos..], length);
      assert data[pos..][n..] == data[pos + n..];
      AfterThen(parts, block, Parse(data[pos + n..]));
      pos := pos + n;
      parts := parts + [block];
    }
    assert data[pos..] == [];
    return Parts(parts);
  }

  // ---- round trip ----

  lemma {:induction false} FrameConcat(a: seq<Bytes>, b: seq<Bytes>)
    ensures Frame(a + b) == Frame(a) + Frame(b)
    decreases |b|
  {
    if b == [] {
      assert a + b == a;
    } else {
      var n := |b| - 1;
      assert (a + b)[..|a + b| - 1] == a + b[..n] && (a + b)[|a + b| - 1] == b[n];
      FrameConcat(a, b[..n]);
      assert Frame(a + b) == Frame(a) + Frame(b[..n]) + Framed(b[n]);
      assert Frame(b) == Frame(b[..n]) + Framed(b[n]);
    }
  }

  lemma FrameHead(parts: seq<Bytes>)
    requires parts != []
    ensures Frame(parts) == Framed(parts[0]) + Frame(parts[1..])
  {
    var first := [parts[0]];
    FrameConcat(first, parts[1..]);
    assert first + parts[1..] == parts && first[..0] == [];
  }

  lemma ParseHeader(header: Bytes, body: Bytes)
    requires |header| == 4
    ensures var length := FromLittleEndian(header);
            Parse(header + body) ==
            if body == [] then EndOfFile else Then(BlockFrom(body, length), Parse(body[Min(length, |body|)..]))
  {
    var data := header + body;
    assert data[..4] == header && data[4..] == body;
    ParseSplit(data);
  }

  lemma BlockFits(body: Bytes, length: nat)
    requires length <= |body|
    ensures BlockFrom(body, length) == body[..length]
  {}

  /** What the reader does with one frame: the block of the stored length comes back, if anything follows the
      header at all. */
  lemma ParseFrame(part: Bytes, more: Bytes)
    ensures Parse(Framed(part) + more) ==
            if part + more == [] then EndOfFile
            else Then((part + more)[..Wrapped(|part|)], Parse((part + more)[Wrapped(|part|)..]))
  {
    var header, body, length := LengthPrefix(|part|), part + more, Wrapped(|part|);
    FramedSplits(part, more);
    LengthRoundTrip(|part|);
    ParseHeader(header, body);
    BlockFits(body, length);
  }

  lemma FramedSplits(part: Bytes, more: Bytes)
    ensures Framed(part) + more == LengthPrefix(|part|) + (part + more)
  {}

  /** A frame of a part that fits its length field. */
  lemma ParseShortFrame(part: Bytes, more: Bytes)
    requires |part| < 0x1_0000_0000
    ensures Parse(Framed(part) + more) == if part + more == [] then EndOfFile else Then(part, Parse(more))
  {
    ParseFrame(part, more);
    var body := part + more;
    assert Wrapped(|part|) == |part|;
    assert body[..|part|] == part;
    assert body[|part|..] == more;
  }

  predicate Readable(parts: seq<Bytes>) {
    (forall p | p in parts :: |p| < 0x1_0000_0000) && (parts != [] ==> parts[|parts| - 1] != [])
  }

  lemma {:induction false} FrameEmpty(parts: seq<Bytes>)
    ensures Frame(parts) == [] <==> parts == []
  {}

  /** Reading back what was framed gives the same parts iff every part is shorter than 2^32 bytes and the
      last one is not empty. */
  lemma {:induction false} RoundTrip(parts: seq<Bytes>)
    ensures Parse(Frame(parts)) == Parts(parts) <==> Readable(parts)
    decreases |parts|
  {
    if parts != [] {
      var part, rest := parts[0], parts[1..];
      var more := Frame(rest);
      FrameHead(parts);
      FrameEmpty(rest);
      assert parts == [part] + rest;
      if |part| < 0x1_0000_0000 {
        ParseShortFrame(part, more);
        RoundTrip(rest);
        assert rest != [] ==> rest[|rest| - 1] == parts[|parts| - 1];
        assert Readable(parts) <==> if rest == [] then part != [] else Readable(rest);
      } else {
        ParseFrame(part, more);
        assert |(part + more)[..Wrapped(|part|)]| != |part|;
        assert part in parts;
      }
    }
  }

  /** An empty last part makes the whole file unreadable. */
  lemma {:induction false} EmptyLastPartFails(parts: seq<Bytes>)
    requires parts != [] && parts[|parts| - 1] == [] && forall p | p in parts :: |p| < 0x1_0000_0000
    ensures Parse(Frame(parts)) == EndOfFile
    decreases |parts|
  {
    var part, rest := parts[0], parts[1..];
    var more := Frame(rest);
    FrameHead(parts);
    FrameEmpty(rest);
    assert part in parts;
    ParseShortFrame(part, more);
    if rest != [] { EmptyLastPartFails(rest); }
  }

  /** Append mode: framing onto what was saved before reads back as the old list followed by the new one,
      iff the combined list is readable. */
  lemma AppendRoundTrip(saved: seq<Bytes>, added: seq<Bytes>)
    ensures Parse(Frame(saved) + Frame(added)) == Parts(saved + added) <==> Readable(saved + added)
  {
    FrameConcat(saved, added);
    RoundTrip(saved + added);
  }

  // ---- files cut short ----

  predicate Fits(parts: seq<Bytes>) {
    forall p | p in parts :: |p| < 0x1_0000_0000
  }

  /** Parts in front of further input are read before it. */
  lemma {:induction false} ParseAfter(before: seq<Bytes>, more: Bytes)
    requires Fits(before) && more != []
    ensures Parse(Frame(before) + more) == After(before, Parse(more))
    decreases |before|
  {
    if before == [] {
      assert Frame(before) + more == more;
    } else {
      var part, rest := before[0], before[1..];
      assert part in before && forall p | p in rest :: p in before;
      FrameMore(before, more);
      ParseShortFrame(part, Frame(rest) + more);
      ParseAfter(rest, more);
      AfterPrepend(before, Parse(more));
    }
  }

  lemma FrameMore(before: seq<Bytes>, more: Bytes)
    requires before != []
    ensures Frame(before) + more == Framed(before[0]) + (Frame(before[1..]) + more)
  {
    FrameHead(before);
  }

  lemma AfterPrepend(before: seq<Bytes>, tail: Parsed)
    requires before != []
    ensures After(before, tail) == Then(before[0], After(before[1..], tail))
  {
    assert before == [before[0]] + before[1..];
  }

  /** One frame cut after `kept` bytes of its block. */
  lemma CutBlock(part: Bytes, kept: nat)
    requires 0 < kept <= |part| < 0x1_0000_0000
    ensures Parse(LengthPrefix(|part|) + part[..kept]) == Parts([part[..kept] + Zeros(|part| - kept)])
  {
    var header, body := LengthPrefix(|part|), part[..kept];
    LengthRoundTrip(|part|);
    ParseHeader(header, body);
    assert body[..kept] == body && body[kept..] == [];
  }

  /** What a file reads as when it is cut `o` bytes into its last frame: what the frames before it read as at a
      frame boundary, an error inside or right after the length header, and otherwise every part with the
      missing bytes as zeros. So the cut is noticed iff it leaves between one byte and all four of the header. */
  lemma EveryCut(before: seq<Bytes>, part: Bytes, o: nat)
    requires Fits(before) && |part| < 0x1_0000_0000 && o <= 4 + |part|
    ensures Parse(Frame(before) + Framed(part)[..o]) ==
            if o == 0 then Parse(Frame(before))
            else if o < 4 then UnexpectedEndOfFile
            else if o == 4 then EndOfFile
            else Parts(before + [part[..o - 4] + Zeros(|part| - (o - 4))])
  {
    var cut := Framed(part)[..o];
    if o == 0 {
      assert Frame(before) + cut == Frame(before);
    } else {
      ParseAfter(before, cut);
      if o >= 4 { CutSplits(part, o); }
      if o == 4 { ParseHeader(LengthPrefix(|part|), []); }
      if o > 4 { CutBlock(part, o - 4); }
    }
  }

  lemma CutSplits(part: Bytes, o: nat)
    requires 4 <= o <= 4 + |part|
    ensures Framed(part)[..o] == LengthPrefix(|part|) + part[..o - 4]
  {}

  /** In particular a file cut inside its last block is not noticed: the missing bytes read as zeros. */
  lemma TruncationIsSilent(before: seq<Bytes>, part: Bytes, kept: nat)
    requires Fits(before) && 0 < kept <= |part| < 0x1_0000_0000
    ensures Parse(Frame(before) + Framed(part)[..4 + kept]) == Parts(before + [part[..kept] + Zeros(|part| - kept)])
  {
    EveryCut(before, part, 4 + kept);
  }
}
