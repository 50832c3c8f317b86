/**
  * `StandardFrame` in place: one pool block of 264 octets and a length, changed by the setters.
  * Every method is tied to the function of the same name in Frame.dfy.
  */
module StandardFrames {
  import opened Wrappers
  import opened Frames
  import opened Checksums
  import opened DataPoints

  class StandardFrame {
    const buf: array<bv8>
    var len: nat

    ghost predicate Valid()
      reads this
    {
      buf.Length == CAPACITY && len <= CAPACITY
    }

    /** Long enough for every accessor. */
    ghost predicate Usable()
      reads this
    {
      Valid() && len >= STANDARD.minSize
    }

    ghost function Contents(): (s: Bytes)
      reads this, buf
      requires Valid()
      ensures |s| == len
    {
      buf[..len]
    }

    /** A block fresh from the pool: `Vec::new()`. */
    constructor ()
      ensures Valid() && fresh(buf) && Contents() == []
    {
      buf := new bv8[CAPACITY];
      len := 0;
    }

    /** `resize_default`; the capacity is that of the pool block. */
    method Resize(n: nat) returns (ok: bool)
      requires Valid()
      modifies this, buf
      ensures Valid() && ok == (n <= CAPACITY)
      ensures Contents() == if ok then Frames.Resize(old(Contents()), n) else old(Contents())
    {
      ok := n <= CAPACITY;
      if ok {
        var i := len;
        while i < n
          invariant old(len) <= i && (i <= n || i == old(len))
          invariant len == old(len)
          invariant forall k :: 0 <= k < old(len) ==> buf[k] == old(buf[k])
          invariant forall k :: old(len) <= k < i ==> buf[k] == 0
        {
          buf[i] := 0;
          i := i + 1;
        }
        len := n;
      }
    }

    method OrAt(i: nat, v: bv8)
      requires Valid() && i < len
      modifies buf
      ensures Contents() == Frames.OrAt(old(Contents()), i, v)
    {
      buf[i] := buf[i] | v;
    }

    method WriteAddr(i: nat, a: bv16)
      requires Valid() && i + 1 < len
      modifies buf
      ensures Contents() == Frames.WriteAddr(old(Contents()), i, a)
    {
      buf[i] := (a >> 8) as bv8;
      buf[i + 1] := (a & 0xFF) as bv8;
    }

    /**
      * The range guard of the source accepts every length; only the capacity can refuse one, after the nibble
      * is written.
      */
    method SetLength(n: nat) returns (r: Result<(), FrameError>)
      requires Valid() && len > LG_FIELD
      modifies this, buf
      ensures Valid() && (r.Ok? <==> n <= CAPACITY) && (r.Err? ==> r.error == InvalidLength)
      ensures r.Ok? ==> Contents() == Frames.SetLength(old(Contents()), n)
      ensures r.Err? ==> Contents() == Frames.OrAt(old(Contents()), LG_FIELD, LengthNibble(n))
    {
      if n <= STANDARD.maxSize || n >= STANDARD.minSize {
        OrAt(LG_FIELD, LengthNibble(n));
        var ok := Resize(n);
        r := if ok then Ok(()) else Err(InvalidLength);
      } else {
        r := Err(InvalidLength);
      }
    }

    method SetFrameType()
      requires Valid() && len > 0
      modifies buf
      ensures Contents() == Frames.SetFrameType(old(Contents()))
    {
      OrAt(CTRL, 0x90);
    }

    /** `blockFree`: whether the frame pool still has a block. */
    static method New(size: nat, blockFree: bool) returns (r: Result<StandardFrame, FrameError>)
      requires size > LG_FIELD
      ensures r.Err? ==> r.error == if !blockFree then OutOfMemory else InvalidLength
      ensures r.Ok? <==> blockFree && size <= CAPACITY
      ensures r.Ok? ==> fresh(r.value) && fresh(r.value.buf)
      ensures r.Ok? ==> r.value.Valid() && r.value.Contents() == Frames.New(size)
    {
      if !blockFree {
        return Err(OutOfMemory);
      }
      var frame := new StandardFrame();
      var ok := frame.Resize(size);
      if !ok {
        return Err(InvalidLength);
      }
      assert frame.Contents() == Zeros(size);
      var _ := frame.SetLength(size);
      frame.SetFrameType();
      r := Ok(frame);
    }

    method Length() returns (n: nat)
      requires Valid() && len > LG_FIELD
      ensures n == Frames.Length(STANDARD, Contents())
    {
      n := (buf[LG_FIELD] & 0xF) as nat + STANDARD.Header() + 1;
    }

    method CheckOctet() returns (c: bv8)
      requires Valid()
      ensures c == Checksums.CheckOctet(Contents())
    {
      var acc: bv8 := 0;
      for i := 0 to len
        invariant acc == Xor(buf[..i])
      {
        acc := acc ^ buf[i];
        assert buf[..i + 1][..i] == buf[..i];
      }
      c := !acc;
    }

    method SetPriority(p: Priority)
      requires Usable()
      modifies buf
      ensures Contents() == Frames.SetPriority(old(Contents()), p)
    {
      OrAt(CTRL, p.Code() << 2);
    }

    method SetRepeated(notRepeated: bool)
      requires Usable()
      modifies buf
      ensures Contents() == Frames.SetRepeated(old(Contents()), notRepeated)
    {
      OrAt(CTRL, (if notRepeated then 1 else 0) << 5);
    }

    method SetAddrType(group: bool)
      requires Usable()
      modifies buf
      ensures Contents() == Frames.SetAddrType(STANDARD, old(Contents()), group)
    {
      OrAt(STANDARD.at, (if group then 1 else 0) << 7);
    }

    method SetHopCount(h: bv8)
      requires Usable()
      modifies buf
      ensures Contents() == Frames.SetHopCount(STANDARD, old(Contents()), h)
    {
      OrAt(STANDARD.at, (h & 0x7) << 4);
    }

    method SetSrcAddr(a: bv16)
      requires Usable()
      modifies buf
      ensures Contents() == Frames.SetSrcAddr(STANDARD, old(Contents()), a)
    {
      WriteAddr(STANDARD.Src(), a);
    }

    method SetDstAddr(a: Address)
      requires Usable()
      modifies buf
      ensures Contents() == Frames.SetDstAddr(STANDARD, old(Contents()), a)
    {
      match a {
        case Individual(raw) =>
          SetAddrType(false);
          WriteAddr(STANDARD.Dst(), raw);
        case Group(raw) =>
          SetAddrType(true);
          WriteAddr(STANDARD.Dst(), raw);
      }
    }

    method SetTpci6(v: bv8)
      requires Usable()
      modifies buf
      ensures Contents() == Frames.SetTpci6(STANDARD, old(Contents()), v)
    {
      OrAt(STANDARD.Tpci(), v << 2);
    }

    method SetTpci8(v: bv8)
      requires Usable()
      modifies buf
      ensures Contents() == Frames.SetTpci8(STANDARD, old(Contents()), v)
    {
      buf[STANDARD.Tpci()] := v;
    }

    method SetTpciSeq(v: bv8)
      requires Usable()
      modifies buf
      ensures Contents() == Frames.SetTpciSeq(STANDARD, old(Contents()), v)
    {
      OrAt(STANDARD.Tpci(), (v & 0x7) << 2);
    }

    method SetApci4(v: bv16)
      requires Usable()
      modifies buf
      ensures Contents() == Frames.SetApci4(STANDARD, old(Contents()), v)
    {
      OrAt(STANDARD.Tpci(), Low8(v >> 2));
      OrAt(STANDARD.Tpci() + 1, Low8((v & 0x3) << 6));
    }

    method SetApci10(v: bv16)
      requires Usable()
      modifies buf
      ensures Contents() == Frames.SetApci10(STANDARD, old(Contents()), v)
    {
      OrAt(STANDARD.Tpci(), Low8(v >> 8));
      OrAt(STANDARD.Tpci() + 1, Low8(v & 0xFF));
    }

    /** `from_datapoint`. */
    static method FromDataPoint(d: DataPoint, blockFree: bool) returns (r: Result<StandardFrame, FrameError>)
      ensures r.Ok? <==> blockFree
      ensures r.Err? ==> r.error == OutOfMemory
      ensures r.Ok? ==> fresh(r.value) && fresh(r.value.buf)
      ensures r.Ok? ==> r.value.Valid() && r.value.Contents() == DataPoints.FromDataPoint(d)
    {
      var size := ByteLength(d);
      r := New(STANDARD.maxSize, blockFree);
      if r.Ok? {
        var frame := r.value;
        var i := STANDARD.Header() + size;
        frame.buf[i] := Written(d, frame.buf[i]);
        var _ := frame.SetLength(STANDARD.Header() + 1 + size + 1);
      }
    }

    /** `TryFrom<&StandardFrame>`: a copy in a block of its own. Copying into it demands equal lengths. */
    static method TryCopy(value: StandardFrame, blockFree: bool) returns (r: Result<StandardFrame, FrameError>)
      requires value.Usable() && Coherent(value.Contents())
      ensures r.Ok? <==> blockFree
      ensures r.Err? ==> r.error == OutOfMemory
      ensures r.Ok? ==> fresh(r.value) && fresh(r.value.buf)
      ensures r.Ok? ==> r.value.Valid() && r.value.Contents() == value.Contents()
    {
      var n := value.Length();
      r := New(n, blockFree);
      if r.Ok? {
        var copy := r.value;
        forall i | 0 <= i < value.len {
          copy.buf[i] := value.buf[i];
        }
      }
    }
  }
}
