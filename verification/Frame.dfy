/**
  * KNX frames as byte strings: where the header fields lie, the getters that read
  * them and the setters that OR them in (src/frame.rs).
  *
  * Everything here is a function on `seq<bv8>`; the class in StandardFrame.dfy
  * performs the same writes in place and is proved equal to these functions.
  */
module Frames {
  import opened Wrappers

  type Bytes = seq<bv8>

  datatype FrameError = InvalidLength | OutOfMemory | Checksum | InvalidTpdu(tpci: bv8)

  datatype Priority = Low | Normal | Urgent | System {
    function Code(): (c: bv8)
      ensures c <= 3
    {
      match this
      case Low => 3
      case Normal => 1
      case Urgent => 2
      case System => 0
    }
  }

  /** Individual and group addresses are 16-bit words; only the tag differs. */
  datatype Address = Individual(raw: bv16) | Group(raw: bv16) {
    function TypeCode(): bv8 { if Group? then 1 else 0 }
  }

  function IndividualAddress(n1: bv8, n2: bv8, n3: bv8): bv16 {
    (n1 as bv16 << 12) | (n2 as bv16 << 8) | n3 as bv16
  }

  function GroupAddress(n1: bv8, n2: bv8, n3: bv8): bv16 {
    (n1 as bv16 << 11) | (n2 as bv16 << 8) | n3 as bv16
  }

  /** The address of this device. */
  const ADDRESS: bv16 := IndividualAddress(1, 1, 120)

  // Field positions

  /** The control octet comes first in every layout; the length field is octet 5 in both. */
  const CTRL := 0
  const LG_FIELD := 5

  /** Capacity of one pool block, the buffer behind every frame. */
  const CAPACITY := 264

  /** The associated constants of the `FrameReader` implementations. */
  datatype Layout = Layout(ctrlOffset: nat, at: nat, maxSize: nat, minSize: nat) {
    function Src(): nat { ctrlOffset }
    function Dst(): nat { ctrlOffset + 2 }
    function Header(): nat { ctrlOffset + 6 }
    function Tpci(): nat { Header() - 1 }

    /** Long enough for every getter. */
    predicate Fits(s: Bytes) {
      |s| >= Header() + 1 && |s| > at && |s| > LG_FIELD
    }

    /** No two header fields share an octet, except address type and hop count, which share bits apart. */
    predicate FieldsDisjoint() {
      && ctrlOffset >= 1
      && at != CTRL
      && (at < ctrlOffset || ctrlOffset + 4 <= at < Tpci() || at > Tpci() + 1)
    }

    /** The length octet carries no field but, at most, address type and hop count. */
    predicate LengthApart() {
      && LG_FIELD != CTRL
      && (LG_FIELD < ctrlOffset || ctrlOffset + 4 <= LG_FIELD < Tpci() || LG_FIELD > Tpci() + 1)
    }
  }

  /** Hop count and address type share octet `at` in both frame formats. */
  const STANDARD := Layout(1, 5, 24, 8)
  const EXTENDED := Layout(2, 1, 263, 9)

  // Getters

  function ReadAddr(s: Bytes, i: nat): bv16
    requires i + 1 < |s|
  {
    (s[i] as bv16 << 8) | s[i + 1] as bv16
  }

  function FrameTypeBit(s: Bytes): bv8
    requires |s| > 0
  {
    s[CTRL] >> 7
  }

  function PriorityBits(s: Bytes): bv8
    requires |s| > 0
  {
    (s[CTRL] >> 2) & 0x3
  }

  function PriorityOf(s: Bytes): Priority
    requires |s| > 0
  {
    var p := PriorityBits(s);
    if p == 3 then Low else if p == 1 then Normal else if p == 2 then Urgent else System
  }

  function RepeatedBit(s: Bytes): bv8
    requires |s| > 0
  {
    (s[CTRL] >> 5) & 0x1
  }

  function AddrTypeBit(l: Layout, s: Bytes): bv8
    requires l.Fits(s)
  {
    s[l.at] >> 7
  }

  function HopCount(l: Layout, s: Bytes): bv8
    requires l.Fits(s)
  {
    (s[l.at] >> 4) & 0x7
  }

  function SrcAddr(l: Layout, s: Bytes): bv16
    requires l.Fits(s)
  {
    ReadAddr(s, l.Src())
  }

  function DstAddr(l: Layout, s: Bytes): Address
    requires l.Fits(s)
  {
    if AddrTypeBit(l, s) == 1 then Group(ReadAddr(s, l.Dst())) else Individual(ReadAddr(s, l.Dst()))
  }

  function Tpci8(l: Layout, s: Bytes): bv8
    requires l.Fits(s)
  {
    s[l.Tpci()]
  }

  function Tpci6(l: Layout, s: Bytes): bv8
    requires l.Fits(s)
  {
    s[l.Tpci()] >> 2
  }

  /** The sequence number as the stack reads it: three bits of the four the standard gives it. */
  function TpciSeq(l: Layout, s: Bytes): bv8
    requires l.Fits(s)
  {
    (s[l.Tpci()] >> 2) & 0x7
  }

  function Apci10(l: Layout, s: Bytes): bv16
    requires l.Fits(s)
  {
    ((s[l.Tpci()] as bv16 & 0x3) << 8) | s[l.Tpci() + 1] as bv16
  }

  function Apci4(l: Layout, s: Bytes): bv16
    requires l.Fits(s)
  {
    Apci10(l, s) >> 6
  }

  /** `length()`: of a standard frame, 8 to 23; of an extended one, an 8-bit sum that wraps. */
  function Length(l: Layout, s: Bytes): nat
    requires |s| > LG_FIELD
  {
    if l == EXTENDED then (s[LG_FIELD] + 9) as nat else (s[LG_FIELD] & 0xF) as nat + 8
  }

  // Setters

  function Zeros(n: nat): Bytes { seq(n, _ => 0) }

  function OrAt(s: Bytes, i: nat, v: bv8): Bytes
    requires i < |s|
  {
    s[i := s[i] | v]
  }

  function WriteAddr(s: Bytes, i: nat, a: bv16): Bytes
    requires i + 1 < |s|
  {
    s[i := (a >> 8) as bv8][i + 1 := (a & 0xFF) as bv8]
  }

  function SetPriority(s: Bytes, p: Priority): Bytes
    requires |s| > 0
  {
    OrAt(s, CTRL, p.Code() << 2)
  }

  function SetRepeated(s: Bytes, notRepeated: bool): Bytes
    requires |s| > 0
  {
    OrAt(s, CTRL, (if notRepeated then 1 else 0) << 5)
  }

  function SetAddrType(l: Layout, s: Bytes, group: bool): Bytes
    requires l.Fits(s)
  {
    OrAt(s, l.at, (if group then 1 else 0) << 7)
  }

  function SetHopCount(l: Layout, s: Bytes, h: bv8): Bytes
    requires l.Fits(s)
  {
    OrAt(s, l.at, (h & 0x7) << 4)
  }

  function SetSrcAddr(l: Layout, s: Bytes, a: bv16): Bytes
    requires l.Fits(s)
  {
    WriteAddr(s, l.Src(), a)
  }

  function SetDstAddr(l: Layout, s: Bytes, a: Address): Bytes
    requires l.Fits(s)
  {
    WriteAddr(SetAddrType(l, s, a.Group?), l.Dst(), a.raw)
  }

  function SetTpci6(l: Layout, s: Bytes, v: bv8): Bytes
    requires l.Fits(s)
  {
    OrAt(s, l.Tpci(), v << 2)
  }

  function SetTpci8(l: Layout, s: Bytes, v: bv8): Bytes
    requires l.Fits(s)
  {
    s[l.Tpci() := v]
  }

  function SetTpciSeq(l: Layout, s: Bytes, v: bv8): Bytes
    requires l.Fits(s)
  {
    OrAt(s, l.Tpci(), (v & 0x7) << 2)
  }

  /** `as u8` keeps the low eight bits. */
  function Low8(v: bv16): bv8 { (v & 0xFF) as bv8 }

  /** Both APCI setters OR their high part into the TPCI octet and the rest into the next one. */
  function OrApci(l: Layout, s: Bytes, high: bv8, low: bv8): Bytes
    requires l.Fits(s)
  {
    OrAt(OrAt(s, l.Tpci(), high), l.Tpci() + 1, low)
  }

  /** The two octets a four-bit or ten-bit APCI is ORed in as; neither masks its high part. */
  function Apci4High(v: bv16): bv8 { Low8(v >> 2) }
  function Apci4Low(v: bv16): bv8 { Low8((v & 0x3) << 6) }
  function Apci10High(v: bv16): bv8 { Low8(v >> 8) }
  function Apci10Low(v: bv16): bv8 { Low8(v & 0xFF) }

  function SetApci4(l: Layout, s: Bytes, v: bv16): Bytes
    requires l.Fits(s)
  {
    OrApci(l, s, Apci4High(v), Apci4Low(v))
  }

  function SetApci10(l: Layout, s: Bytes, v: bv16): Bytes
    requires l.Fits(s)
  {
    OrApci(l, s, Apci10High(v), Apci10Low(v))
  }

  // Building standard frames

  /** `resize_default`: cut off at the end, or pad with zeros. */
  function Resize(s: Bytes, n: nat): Bytes {
    if n <= |s| then s[..n] else s + Zeros(n - |s|)
  }

  /** `n as u8`: counting modulo 256. */
  function AsU8(n: nat): bv8 { if n == 0 then 0 else AsU8(n - 1) + 1 }

  lemma {:induction false} AsU8Value(n: nat)
    requires n < 256
    ensures AsU8(n) as nat == n
  {
    if n > 0 {
      AsU8Value(n - 1);
      var x := AsU8(n - 1);
      assert x as nat == n - 1 && x < 255;
      assert (x + 1) as nat == x as nat + 1;
    }
  }

  /** The length nibble `set_length` ORs in: an 8-bit difference, so 24 gives 0. */
  function LengthNibble(n: nat): bv8 {
    (AsU8(n) - 7 - 1) & 0xF
  }

  function SetLength(s: Bytes, n: nat): Bytes
    requires |s| > LG_FIELD
  {
    Resize(OrAt(s, LG_FIELD, LengthNibble(n)), n)
  }

  function SetFrameType(s: Bytes): Bytes
    requires |s| > 0
  {
    OrAt(s, CTRL, 0x90)
  }

  function New(n: nat): Bytes
    requires n > LG_FIELD
  {
    SetFrameType(SetLength(Zeros(n), n))
  }

  // Frame recognition

  const FRAME_TYPE_MASK: bv8 := 0xd3
  const FRAME_TYPE_STD: bv8 := 0x90
  const FRAME_TYPE_EXT: bv8 := 0x10

  predicate IsStandardStart(ctrl: bv8) { ctrl & FRAME_TYPE_MASK == FRAME_TYPE_STD }

  predicate IsExtendedStart(ctrl: bv8) { ctrl & FRAME_TYPE_MASK == FRAME_TYPE_EXT }

  predicate IsFrameStart(ctrl: bv8) { IsStandardStart(ctrl) || IsExtendedStart(ctrl) }

  /** Buffer length and length nibble agree; this bounds the frame to 8..23 octets. */
  predicate Coherent(s: Bytes) {
    |s| > LG_FIELD && |s| == Length(STANDARD, s)
  }

  /** What the send loop needs: the last octet is the still empty check-octet slot. */
  predicate Sendable(s: Bytes) {
    Coherent(s) && IsStandardStart(s[CTRL]) && s[|s| - 1] == 0
  }

  /** A frame as the layers hand it around. */
  datatype RawFrame = Standard(bytes: Bytes) | Extended(bytes: Bytes) {
    function Format(): Layout { if Standard? then STANDARD else EXTENDED }
    predicate Sized() { |bytes| >= Format().minSize }
    function Source(): bv16 requires Sized() { SrcAddr(Format(), bytes) }
    function Destination(): Address requires Sized() { DstAddr(Format(), bytes) }
    function Tpci(): bv8 requires Sized() { Tpci8(Format(), bytes) }
    function TpciSix(): bv8 requires Sized() { Tpci6(Format(), bytes) }
    function Seq(): bv8 requires Sized() { TpciSeq(Format(), bytes) }
    function ApciFour(): bv16 requires Sized() { Apci4(Format(), bytes) }
  }

  /** Frames in the stack are never shorter than their format's minimum, so every getter is in bounds. */
  type Frame = f: RawFrame | f.Sized() witness Standard(Zeros(8))

  // Properties of fresh frames

  lemma NewBytes(n: nat)
    requires LG_FIELD < n
    ensures |New(n)| == n
    ensures forall i :: 0 <= i < n ==>
      New(n)[i] == if i == CTRL then 0x90 else if i == LG_FIELD then LengthNibble(n) else 0
  {
  }

  lemma LengthNibbleValue(n: nat)
    requires 8 <= n <= 24
    ensures LengthNibble(n) as nat == if n == 24 then 0 else n - 8
  {
    AsU8Value(n);
    var x := AsU8(n);
    assert 8 <= x <= 24;
    assert (x - 7 - 1) as nat == x as nat - 8;
    if x < 24 {
      assert (x - 7 - 1) & 0xF == x - 7 - 1;
    } else {
      assert x == 24;
    }
  }

  /** The length nibble of a fresh frame tells its size exactly for 8 to 23 octets; `new(24)` leaves it 0. */
  lemma NewCoherentIff(n: nat)
    requires LG_FIELD < n <= CAPACITY
    ensures Coherent(New(n)) <==> 8 <= n <= 23
    ensures LengthNibble(24) == 0
  {
    NewBytes(n);
    LengthNibbleValue(24);
    if 8 <= n <= 23 {
      LengthNibbleValue(n);
      assert LengthNibble(n) & 0xF == LengthNibble(n);
    }
  }

  /** Re-setting the length a frame already has changes nothing, so ORing it in again is harmless. */
  lemma SetLengthIdempotent(s: Bytes, n: nat)
    requires LG_FIELD < |s|
    requires n == Length(STANDARD, s) <= |s|
    ensures SetLength(s, n) == s[..n]
  {
    assert s[LG_FIELD] | LengthNibble(n) == s[LG_FIELD] by {
      LengthNibbleOf(s[LG_FIELD], n);
    }
    assert OrAt(s, LG_FIELD, LengthNibble(n)) == s;
  }

  lemma LengthNibbleOf(b: bv8, n: nat)
    requires n == (b & 0xF) as nat + 8
    ensures LengthNibble(n) == b & 0xF
  {
    AsU8Value(n);
    var c, x := b & 0xF, AsU8(n);
    assert (c + 8) as nat == c as nat + 8;
    assert x == c + 8 by { SameValue(x, c + 8); }
    assert (c + 8 - 7 - 1) & 0xF == c;
  }

  lemma SameValue(x: bv8, y: bv8)
    requires x as nat == y as nat
    ensures x == y
  {
    assert (x as nat) as bv8 == x && (y as nat) as bv8 == y;
  }
}
