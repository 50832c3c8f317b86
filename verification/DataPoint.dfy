/** The datapoint types the stack can send, and how they are laid into a frame (src/data_point.rs). */
module DataPoints {
  import opened Frames

  datatype DataPoint = B1(raw: bv8) | B2(raw: bv8) | U8(raw: bv8)

  datatype DataPointLength = Bit(n: nat) | Byte(n: nat)

  function LengthOf(d: DataPoint): DataPointLength {
    match d
    case B1(_) => Bit(1)
    case B2(_) => Bit(2)
    case U8(_) => Byte(1)
  }

  /** Extra octets: values below six bits ride in the APCI octet. */
  function ByteLength(d: DataPoint): nat {
    match LengthOf(d)
    case Bit(n) => if n < 6 then 0 else 1
    case Byte(n) => n
  }

  /** The octet `write` leaves behind when it finds `b`. */
  function Written(d: DataPoint, b: bv8): bv8 {
    match d
    case B1(v) => b | (v & 0x1)
    case B2(v) => b | (v & 0x3)
    case U8(v) => v
  }

  /** The value a datapoint stands for: the bits outside its type are never sent. */
  function Value(d: DataPoint): bv8 {
    match d
    case B1(v) => v & 0x1
    case B2(v) => v & 0x3
    case U8(v) => v
  }

  /** How a receiver reads a value of the same type back out of a standard frame. */
  function Read(d: DataPoint, s: Bytes): bv8
    requires |s| >= 8 + ByteLength(d)
  {
    match d
    case B1(_) => s[7] & 0x1
    case B2(_) => s[7] & 0x3
    case U8(_) => s[8]
  }

  /** `from_datapoint` for a standard frame. */
  function FromDataPoint(d: DataPoint): (s: Bytes)
    ensures |s| == 9 + ByteLength(d)
  {
    var i := STANDARD.Header() + ByteLength(d);
    var s := New(STANDARD.maxSize);
    SetLength(s[i := Written(d, s[i])], STANDARD.Header() + 1 + ByteLength(d) + 1)
  }

  /** A value of a few bits joins the others of its octet, which stay; a whole octet is overwritten. */
  lemma WriteJoins(d: DataPoint, b: bv8)
    ensures var mask: bv8 := match d case B1(_) => 0x1 case B2(_) => 0x3 case U8(_) => 0xFF;
            && Written(d, b) & !mask == b & !mask
            && Written(d, b) & mask == if d.U8? then Value(d) else Value(d) | (b & mask)
  {
  }
}
