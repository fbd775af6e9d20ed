/** The network frame: 14 bytes of link header, a 32-bit MIP header, a message measured in 4-byte words. */
module MIP {
  import opened Wire
  import opened Bits
  import opened MIPTP

  const ETH_HEADER_SIZE := 14
  const MIP_HEADER_SIZE := 4
  const MIP_FRAME_HEADER_SIZE := 18
  const MIP_FRAME_MAX_SIZE := 1514
  const MSG_MAX_SIZE := 1496
  const TRA_ZERO := 0
  const TRA_T := 1
  const TRA_R := 2
  const TRA_A := 4
  const TTL_MAX := 15

  /** The length field for a message size: header and message, rounded up to words; 0 for no message. */
  function PayloadWords(size: nat): (words: nat)
    ensures size > 0 ==> 4 * (words - 2) < size <= 4 * (words - 1)
  {
    if size > 0 then
      var l := size + MIP_HEADER_SIZE;
      var d := l % 4;
      if d == 0 then l / 4 else (l + (4 - d)) / 4
    else 0
  }

  function MsgSizeOf(header: Word): nat {
    var n := Field(header, 19, 9);
    if n > 0 then n * 4 - MIP_HEADER_SIZE else 0
  }

  /**
   * A message size survives the length field exactly when it is a whole number of words
   * and header and message together stay within the 511 words the field can hold.
   */
  lemma SizeSurvives(header: Word, size: nat)
    ensures MsgSizeOf(SetField(header, 19, 9, PayloadWords(size))) == size <==> size % 4 == 0 && size <= 2040
  {
    hide PayloadWords, Field, SetField;
    LengthFieldAfterSet(header, PayloadWords(size));
    WordsSurvive(size);
  }

  lemma WordsSurvive(size: nat)
    ensures var n := PayloadWords(size) % 0x200;
      (if n > 0 then n * 4 - MIP_HEADER_SIZE else 0) == size <==> size % 4 == 0 && size <= 2040
  {
    var words := PayloadWords(size);
    if size > 2040 {
      assert 4 * (words % 0x200) <= 4 * 0x1ff;
    } else if size > 0 {
      assert words % 0x200 == words && words >= 1;
      WordsOfWholeSize(size);
    }
  }

  lemma WordsOfWholeSize(size: nat)
    requires size > 0
    ensures 4 * PayloadWords(size) - MIP_HEADER_SIZE == size <==> size % 4 == 0
  {}

  /** Any size up to 2040 is rounded up to the next multiple of four. */
  lemma SizeRoundedUp(header: Word, size: nat)
    requires size <= 2040
    ensures var r := MsgSizeOf(SetField(header, 19, 9, PayloadWords(size)));
      size <= r < size + 4 && r % 4 == 0 && r == size + CalcPadding(size)
  {
    hide PayloadWords, CalcPadding, Field, SetField;
    WordsInField(size);
    PaddedWords(size);
    LengthFieldAfterSet(header, PayloadWords(size));
  }

  lemma PaddedWords(size: nat)
    ensures PayloadWords(size) == if size > 0 then (size + CalcPadding(size)) / 4 + 1 else 0
    ensures CalcPadding(0) == 0
  {
  }

  lemma WordsInField(size: nat)
    requires size <= 2040
    ensures PayloadWords(size) % 0x200 == PayloadWords(size)
    ensures size > 0 ==> 4 * (PayloadWords(size) - 2) < size <= 4 * (PayloadWords(size) - 1)
  {
  }

  lemma LengthFieldAfterSet(header: Word, words: nat)
    ensures Field(SetField(header, 19, 9, words), 19, 9) == words % 0x200
  {
    FieldAfterSet(header, 19, 9, words);
    assert Pow2(9) == 0x200;
  }

  /** The four fields beside the length, as the daemons read them. */
  datatype Fields = Fields(tra: nat, dest: Address, source: Address, ttl: nat)

  function FieldsOf(header: Word): Fields {
    LowBitsOfNum(header[3..11]);
    LowBitsOfNum(header[11..19]);
    Fields(Field(header, 0, 3), Field(header, 3, 8), Field(header, 11, 8), Field(header, 28, 4))
  }

  lemma LengthLeavesFields(header: Word, words: nat)
    ensures FieldsOf(SetField(header, 19, 9, words)) == FieldsOf(header)
  {
    OtherFieldAfterSet(header, 19, 9, words, 0, 3);
    OtherFieldAfterSet(header, 19, 9, words, 3, 8);
    OtherFieldAfterSet(header, 19, 9, words, 11, 8);
    OtherFieldAfterSet(header, 19, 9, words, 28, 4);
  }

  lemma AddressFieldAfterSet(w: Word, lo: nat, address: Address)
    requires lo + 8 <= 32
    ensures Field(SetField(w, lo, 8, address), lo, 8) == address
  {
    FieldAfterSet(w, lo, 8, address);
    assert Pow2(8) == 0x100;
  }

  class MIPFrame {
    var eth: seq<byte>
    var header: Word
    var msg: seq<byte>

    /** The vector holds the link header and exactly the message its length field announces. */
    ghost predicate Valid()
      reads this
    {
      |eth| == ETH_HEADER_SIZE && |msg| == MsgSizeOf(header)
    }

    function View(): Fields
      reads this
    {
      FieldsOf(header)
    }

    function Bytes(): seq<byte>
      reads this
    {
      eth + BytesOf(header) + msg
    }

    constructor ()
      ensures Valid() && View() == Fields(0, 0, 0, 0) && msg == []
    {
      eth := seq(ETH_HEADER_SIZE, _ => 0);
      header := seq(32, _ => false);
      msg := [];
      new;
      AllClear(header[0..3]);
      AllClear(header[3..11]);
      AllClear(header[11..19]);
      AllClear(header[19..28]);
      AllClear(header[28..32]);
    }

    /** Only the low three bits reach the header. */
    method SetMipTRA(tra: nat)
      modifies this`header
      ensures View() == old(View()).(tra := tra % 8) && MsgSizeOf(header) == MsgSizeOf(old(header))
    {
      FieldAfterSet(header, 0, 3, tra);
      assert Pow2(3) == 8;
      OtherFieldAfterSet(header, 0, 3, tra, 3, 8);
      OtherFieldAfterSet(header, 0, 3, tra, 11, 8);
      OtherFieldAfterSet(header, 0, 3, tra, 19, 9);
      OtherFieldAfterSet(header, 0, 3, tra, 28, 4);
      header := SetField(header, 0, 3, tra);
    }

    method SetMipDest(dest: Address)
      modifies this`header
      ensures View() == old(View()).(dest := dest) && MsgSizeOf(header) == MsgSizeOf(old(header))
    {
      AddressFieldAfterSet(header, 3, dest);
      OtherFieldAfterSet(header, 3, 8, dest, 0, 3);
      OtherFieldAfterSet(header, 3, 8, dest, 11, 8);
      OtherFieldAfterSet(header, 3, 8, dest, 19, 9);
      OtherFieldAfterSet(header, 3, 8, dest, 28, 4);
      header := SetField(header, 3, 8, dest);
    }

    method SetMipSource(source: Address)
      modifies this`header
      ensures View() == old(View()).(source := source) && MsgSizeOf(header) == MsgSizeOf(old(header))
    {
      AddressFieldAfterSet(header, 11, source);
      OtherFieldAfterSet(header, 11, 8, source, 0, 3);
      OtherFieldAfterSet(header, 11, 8, source, 3, 8);
      OtherFieldAfterSet(header, 11, 8, source, 19, 9);
      OtherFieldAfterSet(header, 11, 8, source, 28, 4);
      header := SetField(header, 11, 8, source);
    }

    /** Only the low four bits reach the header: 0xff becomes 15. */
    method SetMipTTL(ttl: nat)
      modifies this`header
      ensures View() == old(View()).(ttl := ttl % 16) && MsgSizeOf(header) == MsgSizeOf(old(header))
    {
      FieldAfterSet(header, 28, 4, ttl);
      assert Pow2(4) == 16;
      OtherFieldAfterSet(header, 28, 4, ttl, 0, 3);
      OtherFieldAfterSet(header, 28, 4, ttl, 3, 8);
      OtherFieldAfterSet(header, 28, 4, ttl, 11, 8);
      OtherFieldAfterSet(header, 28, 4, ttl, 19, 9);
      header := SetField(header, 28, 4, ttl);
    }

    /** Write the length field, then resize the vector to what the field now says. */
    method SetMsgSize(size: nat)
      requires |eth| == ETH_HEADER_SIZE
      modifies this`header, this`msg
      ensures Valid() && View() == old(View())
      ensures header == SetField(old(header), 19, 9, PayloadWords(size))
      ensures msg == Resize(old(msg), MsgSizeOf(header))
    {
      LengthLeavesFields(header, PayloadWords(size));
      header := SetField(header, 19, 9, PayloadWords(size));
      var current := MsgSizeOf(header);
      if |msg| != current {
        msg := Resize(msg, current);
      }
    }

    /**
     * Receive from the link: the buffer is first grown to the maximum, the arriving bytes overwrite its
     * front and leave what was behind them, and the length field then cuts the frame to size.
     */
    method Receive(wire: seq<byte>)
      requires Valid()
      modifies this
      ensures var b := Overwritten(old(eth), old(header), old(msg), wire);
        && Valid() && eth == b[..14] && View() == FieldsOf(WordOf(b[14..18]))
        && msg == Resize(b[18..], MsgSizeOf(WordOf(b[14..18])))
    {
      if MIP_FRAME_HEADER_SIZE + |msg| < MIP_FRAME_MAX_SIZE {
        SizeSurvives(header, MIP_FRAME_MAX_SIZE - ETH_HEADER_SIZE);
        SetMsgSize(MIP_FRAME_MAX_SIZE - ETH_HEADER_SIZE);
      }
      var got := if |wire| < MIP_FRAME_MAX_SIZE then |wire| else MIP_FRAME_MAX_SIZE;
      var all := wire[..got] + Bytes()[got..];
      eth, header, msg := all[..14], WordOf(all[14..18]), all[18..];
      Reannounce(header);
      SetMsgSize(MsgSizeOf(header));
    }
  }

  /** A frame's bytes once its buffer has room for a frame of maximal size. */
  function Grown(eth: seq<byte>, header: Word, msg: seq<byte>): (b: seq<byte>)
    requires |eth| == ETH_HEADER_SIZE
    ensures |b| >= MIP_FRAME_MAX_SIZE
  {
    if MIP_FRAME_HEADER_SIZE + |msg| < MIP_FRAME_MAX_SIZE then
      var size := MIP_FRAME_MAX_SIZE - ETH_HEADER_SIZE;
      eth + BytesOf(SetField(header, 19, 9, PayloadWords(size))) + Resize(msg, size)
    else eth + BytesOf(header) + msg
  }

  /** The same with what arrived over its front: at most a frame of maximal size. */
  function Overwritten(eth: seq<byte>, header: Word, msg: seq<byte>, wire: seq<byte>): (b: seq<byte>)
    requires |eth| == ETH_HEADER_SIZE
    ensures |b| >= MIP_FRAME_MAX_SIZE
    ensures forall i :: 0 <= i < |wire| && i < MIP_FRAME_MAX_SIZE ==> b[i] == wire[i]
  {
    var got := if |wire| < MIP_FRAME_MAX_SIZE then |wire| else MIP_FRAME_MAX_SIZE;
    wire[..got] + Grown(eth, header, msg)[got..]
  }

  /** Setting the message size to what the header already says changes nothing it says. */
  lemma Reannounce(header: Word)
    ensures MsgSizeOf(SetField(header, 19, 9, PayloadWords(MsgSizeOf(header)))) == MsgSizeOf(header)
  {
    MsgSizeShape(header);
    SizeSurvives(header, MsgSizeOf(header));
  }

  lemma MsgSizeShape(header: Word)
    ensures MsgSizeOf(header) % 4 == 0 && MsgSizeOf(header) <= 2040
  {
    var n := Field(header, 19, 9);
    assert n < 0x200 by {
      LowBitsOfNum(header[19..28]);
      assert Pow2(9) == 0x200;
    }
  }
}

/** A transport frame inside a MIP frame: the two padding rules have to agree. */
module Encapsulation {
  import opened Wire
  import opened MIPTP
  import opened MIP

  /** Set the message size unless it already is that size. */
  method Resized(mip: MIPFrame, size: nat)
    requires mip.Valid() && size % 4 == 0 && size <= MSG_MAX_SIZE
    modifies mip`header, mip`msg
    ensures mip.Valid() && mip.View() == old(mip.View()) && |mip.msg| == size
    ensures forall i :: 0 <= i < size && i < |old(mip.msg)| ==> mip.msg[i] == old(mip.msg)[i]
  {
    if |mip.msg| != size {
      SizeSurvives(mip.header, size);
      mip.SetMsgSize(size);
    }
  }

  /** The MIP daemon takes a transport frame from the transport daemon into its (reused) frame buffer. */
  method Wrap(bytes: seq<byte>, dest: Address, mip: MIPFrame)
    requires mip.Valid() && |bytes| % 4 == 0 && FRAME_HEADER_SIZE <= |bytes| <= MSG_MAX_SIZE
    modifies mip
    ensures mip.Valid() && mip.msg == bytes
    ensures mip.View() == old(mip.View()).(tra := TRA_T, dest := dest, ttl := TTL_MAX)
  {
    Resized(mip, MSG_MAX_SIZE);
    mip.msg := bytes + mip.msg[|bytes|..];
    Resized(mip, |bytes|);
    assert mip.msg == bytes;
    mip.SetMipTRA(TRA_T);
    mip.SetMipDest(dest);
    mip.SetMipTTL(0xff);
  }

  lemma FrontOfWire(eth: seq<byte>, header: seq<byte>, msg: seq<byte>, trailer: seq<byte>, b: seq<byte>)
    requires |eth| == 14 && |header| == 4 && |msg| <= MSG_MAX_SIZE && |b| >= MIP_FRAME_MAX_SIZE
    requires var wire := eth + header + msg + trailer;
      forall i :: 0 <= i < |wire| && i < MIP_FRAME_MAX_SIZE ==> b[i] == wire[i]
    ensures b[..14] == eth && b[14..18] == header && Resize(b[18..], |msg|) == msg
  {
    var wire := eth + header + msg + trailer;
    assert eth == wire[..14] && header == wire[14..18];
    assert msg == wire[18..18 + |msg|];
    assert forall i :: 18 <= i < 18 + |msg| ==> b[i] == wire[i];
  }

  /** Without the header and the padding 1490 bytes fit: an aligned frame with no more is within the maximum. */
  lemma MessageFits(f: MIPTPFrame)
    requires f.Valid() && f.Aligned() && |f.View().msg| <= MAX_MSG
    ensures f.Size() <= FRAME_MAX_SIZE
  {
    FieldBounds(f.header);
  }

  /**
   * Across one link: whatever the receiving buffer held and however many bytes the link appended,
   * the receiver holds the fields and the message that were sent.
   */
  method Link(tx: MIPFrame, rx: MIPFrame, trailer: seq<byte>)
    requires tx != rx && tx.Valid() && rx.Valid() && |tx.msg| <= MSG_MAX_SIZE
    modifies rx
    ensures rx.Valid() && rx.msg == tx.msg && rx.View() == tx.View() && rx.eth == tx.eth
  {
    var wire := tx.Bytes() + trailer;
    ghost var b := Overwritten(rx.eth, rx.header, rx.msg, wire);
    rx.Receive(wire);
    WordOfBytes(tx.header);
    FrontOfWire(tx.eth, BytesOf(tx.header), tx.msg, trailer, b);
  }

  /**
   * A transport frame built with its setters, wrapped, sent over a link and unwrapped into whatever frame
   * object the receiver reuses, is the same frame: type, ports, sequence number, message and bytes.
   */
  method RoundTrip(f: MIPTPFrame, dest: Address, tx: MIPFrame, rx: MIPFrame, trailer: seq<byte>, g: MIPTPFrame)
    requires f != g && tx != rx
    requires f.Valid() && f.Aligned() && |f.View().msg| <= MAX_MSG && tx.Valid() && rx.Valid()
    modifies tx, rx, g
    ensures g.Valid() && g.View() == f.View() && g.Bytes() == f.Bytes()
    ensures rx.View().dest == dest && rx.View().tra == TRA_T && rx.View().ttl == TTL_MAX
  {
    MessageFits(f);
    Wrap(f.Bytes(), dest, tx);
    Link(tx, rx, trailer);
    g.Receive(rx.msg);
    WordOfBytes(f.header);
  }
}
