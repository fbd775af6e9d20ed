/** The transport frame: a 32-bit header word, a 16-bit sequence number, the message and its padding. */
module MIPTP {
  import opened Wire
  import opened Bits

  const FRAME_HEADER_SIZE := 6
  const FRAME_MAX_SIZE := 1496

  /** The padding that brings a size up to a multiple of four. */
  function CalcPadding(size: nat): (padding: nat)
    ensures padding < 4 && (size + padding) % 4 == 0
  {
    var d := size % 4;
    if d != 0 then 4 - d else d
  }

  function CodeOf(kind: Kind): (code: nat)
    ensures code < 4 && KindOf(code) == kind
  {
    match kind
    case Request => 0
    case Reply => 1
    case Data => 2
    case Sack => 3
  }

  function KindOf(code: nat): Kind {
    if code == 0 then Request else if code == 1 then Reply else if code == 2 then Data else Sack
  }

  /** What a vector's resize leaves: a prefix, or the old contents followed by zeros. */
  function Resize(s: seq<byte>, size: nat): (r: seq<byte>)
    ensures |r| == size
    ensures forall i :: 0 <= i < size && i < |s| ==> r[i] == s[i]
  {
    if size <= |s| then s[..size] else s + seq(size - |s|, _ => 0)
  }

  /** The four bytes of a header word, least significant byte first. */
  function BytesOf(w: Word): (b: seq<byte>)
    ensures |b| == 4
  {
    LowBitsOfNum(w[..8]); LowBitsOfNum(w[8..16]); LowBitsOfNum(w[16..24]); LowBitsOfNum(w[24..]);
    [Num(w[..8]), Num(w[8..16]), Num(w[16..24]), Num(w[24..])]
  }

  function WordOf(b: seq<byte>): Word
    requires |b| == 4
  {
    LowBits(b[0], 8) + LowBits(b[1], 8) + LowBits(b[2], 8) + LowBits(b[3], 8)
  }

  /** Reinterpreting the four header bytes as a word and back loses nothing. */
  lemma WordOfBytes(w: Word)
    ensures WordOf(BytesOf(w)) == w
  {
    LowBitsOfNum(w[..8]); LowBitsOfNum(w[8..16]); LowBitsOfNum(w[16..24]); LowBitsOfNum(w[24..]);
    assert w == w[..8] + w[8..16] + w[16..24] + w[24..];
  }

  function Padding(header: Word): nat { Field(header, 2, 2) }

  ghost predicate WellFormed(header: Word, body: seq<byte>) {
    |body| >= 2 + Padding(header)
  }

  /** The fields a receiver reads out of a frame. */
  function Parse(header: Word, body: seq<byte>): Segment
    requires WellFormed(header, body)
  {
    FieldBounds(header);
    var low: nat, high: nat := body[0], body[1];
    Segment(KindOf(Field(header, 0, 2)), Field(header, 4, 14), Field(header, 18, 14),
            low + 0x100 * high, body[2..|body| - Padding(header)])
  }

  lemma FieldBounds(header: Word)
    ensures Field(header, 0, 2) < 4 && Field(header, 2, 2) < 4
    ensures Field(header, 4, 14) < PORT_SPACE && Field(header, 18, 14) < PORT_SPACE
  {
    LowBitsOfNum(header[0..2]);
    LowBitsOfNum(header[2..4]);
    LowBitsOfNum(header[4..18]);
    LowBitsOfNum(header[18..32]);
  }

  lemma PortFieldAfterSet(w: Word, lo: nat, port: Port)
    requires lo + 14 <= 32
    ensures Field(SetField(w, lo, 14, port), lo, 14) == port % PORT_SPACE
  {
    FieldAfterSet(w, lo, 14, port);
    assert Pow2(14) == PORT_SPACE;
  }

  lemma TwoBytes(n: nat)
    ensures n % 0x100 + 0x100 * ((n / 0x100) % 0x100) == n % 0x1_0000
  {
    var m := n / 0x100;
    ModUnique(n, 0x1_0000, m / 0x100, n % 0x100 + 0x100 * (m % 0x100));
  }

  /**
   * The frame object. Its byte vector is kept as the header word it is read through and the bytes after
   * it: the two bytes of the sequence number, the message, the padding.
   */
  class MIPTPFrame {
    var header: Word
    var body: seq<byte>

    ghost predicate Valid()
      reads this
    {
      WellFormed(header, body)
    }

    /** The total size is a multiple of four: what the setters of the message size establish. */
    ghost predicate Aligned()
      reads this
    {
      (4 + |body|) % 4 == 0
    }

    function View(): Segment
      requires Valid()
      reads this
    {
      Parse(header, body)
    }

    function Size(): nat
      reads this
    {
      4 + |body|
    }

    function Bytes(): seq<byte>
      reads this
    {
      BytesOf(header) + body
    }

    constructor ()
      ensures Valid() && Aligned()
      ensures View() == Segment(Request, 0, 0, 0, [])
    {
      header := seq(32, _ => false);
      body := [0, 0];
      new;
      var blank := header;
      PutPadding(CalcPadding(FRAME_HEADER_SIZE + 4));
      body := Resize(body, 2 + CalcPadding(FRAME_HEADER_SIZE + 4));
      AllClear(blank[0..2]);
      AllClear(blank[4..18]);
      AllClear(blank[18..32]);
    }

    method SetKind(kind: Kind)
      requires Valid()
      modifies this`header
      ensures Valid() && View() == old(View()).(kind := kind)
    {
      var was := header;
      header := SetField(header, 0, 2, CodeOf(kind));
      FieldAfterSet(was, 0, 2, CodeOf(kind));
      OtherFieldAfterSet(was, 0, 2, CodeOf(kind), 2, 2);
      OtherFieldAfterSet(was, 0, 2, CodeOf(kind), 4, 14);
      OtherFieldAfterSet(was, 0, 2, CodeOf(kind), 18, 14);
    }

    method SetDest(dest: Port)
      requires Valid()
      modifies this`header
      ensures Valid() && View() == old(View()).(dest := dest % PORT_SPACE)
    {
      PortFieldAfterSet(header, 4, dest);
      OtherFieldAfterSet(header, 4, 14, dest, 0, 2);
      OtherFieldAfterSet(header, 4, 14, dest, 2, 2);
      OtherFieldAfterSet(header, 4, 14, dest, 18, 14);
      header := SetField(header, 4, 14, dest);
    }

    method SetSource(source: Port)
      requires Valid()
      modifies this`header
      ensures Valid() && View() == old(View()).(source := source % PORT_SPACE)
    {
      PortFieldAfterSet(header, 18, source);
      OtherFieldAfterSet(header, 18, 14, source, 0, 2);
      OtherFieldAfterSet(header, 18, 14, source, 2, 2);
      OtherFieldAfterSet(header, 18, 14, source, 4, 14);
      header := SetField(header, 18, 14, source);
    }

    method SetSequenceNumber(seqNum: nat)
      requires Valid()
      modifies this`body
      ensures Valid() && View() == old(View()).(seqNum := seqNum % 0x1_0000)
    {
      TwoBytes(seqNum);
      body := [seqNum % 0x100, (seqNum / 0x100) % 0x100] + body[2..];
      assert body[2..|body| - Padding(header)] == old(body[2..|body| - Padding(header)]);
    }

    /** The setPadding of the source: two header bits. Callers keep the size in step with it. */
    method PutPadding(padding: nat)
      requires padding < 4
      modifies this`header
      ensures header == SetField(old(header), 2, 2, padding)
      ensures Padding(header) == padding
      ensures Field(header, 0, 2) == Field(old(header), 0, 2)
      ensures Field(header, 4, 14) == Field(old(header), 4, 14)
      ensures Field(header, 18, 14) == Field(old(header), 18, 14)
    {
      var was := header;
      header := SetField(header, 2, 2, padding);
      FieldAfterSet(was, 2, 2, padding);
      OtherFieldAfterSet(was, 2, 2, padding, 0, 2);
      OtherFieldAfterSet(was, 2, 2, padding, 4, 14);
      OtherFieldAfterSet(was, 2, 2, padding, 18, 14);
    }

    /** Resize the message; what both sizes have in common is kept, and the frame ends on a word boundary. */
    method SetMsgSize(size: nat)
      requires Valid()
      modifies this
      ensures Valid() && Aligned()
      ensures View() == old(View()).(msg := View().msg) && |View().msg| == size
      ensures forall i :: 0 <= i < size && i < |old(View()).msg| ==> View().msg[i] == old(View()).msg[i]
    {
      var padding := CalcPadding(size + FRAME_HEADER_SIZE + 4);
      PutPadding(padding);
      body := Resize(body, 2 + size + padding);
    }

    /** Bytes written where getMsg points: by a socket read, or by the memcpy of setMsg. */
    method WriteMsg(bytes: seq<byte>)
      requires Valid() && |bytes| <= |View().msg|
      modifies this`body
      ensures Valid() && |body| == old(|body|)
      ensures View() == old(View()).(msg := bytes + old(View()).msg[|bytes|..])
    {
      body := body[..2] + bytes + body[2 + |bytes|..];
      assert body[2..|body| - Padding(header)] == bytes + old(View()).msg[|bytes|..];
    }

    method SetMsg(buf: seq<byte>)
      requires Valid()
      modifies this
      ensures Valid() && View() == old(View()).(msg := buf)
      ensures Aligned() <==> old(Aligned()) || |buf| != |old(View()).msg|
    {
      if |buf| != |View().msg| {
        SetMsgSize(|buf|);
      }
      WriteMsg(buf);
    }

    /** A frame arriving from the MIP daemon: the buffer is opened to its maximum, filled, then cut to size. */
    method Receive(bytes: seq<byte>)
      requires FRAME_HEADER_SIZE <= |bytes| <= FRAME_MAX_SIZE
      modifies this
      ensures header == WordOf(bytes[..4]) && body == bytes[4..]
    {
      if Size() != FRAME_MAX_SIZE {
        body := Resize(body, FRAME_MAX_SIZE - 4);
      }
      header := WordOf(bytes[..4]);
      body := bytes[4..] + body[|bytes| - 4..];
      body := Resize(body, |bytes| - 4);
    }
  }

  lemma {:induction false} AllClear(bits: seq<bool>)
    requires forall i :: 0 <= i < |bits| ==> !bits[i]
    ensures Num(bits) == 0
  {
    if bits != [] {
      AllClear(bits[1..]);
    }
  }

  /** Receiving the bytes of a frame gives back that frame, field by field and byte by byte. */
  method Transfer(f: MIPTPFrame, g: MIPTPFrame)
    requires f != g && f.Valid() && FRAME_HEADER_SIZE <= f.Size() <= FRAME_MAX_SIZE
    modifies g
    ensures g.Valid() && g.View() == f.View() && g.Bytes() == f.Bytes()
  {
    g.Receive(f.Bytes());
    WordOfBytes(f.header);
  }
}
