/**
  * `NCN51Driver` as it is written: nested blocking reads into a frame buffer, the command loop of
  * `send_frame`, the loop of `run`. `Run` proves that all this together does what the machine of
  * DriverMachine.dfy does on any input.
  */
module Drivers {
  import opened Frames
  import opened Checksums
  import opened Wire
  import opened DriverMachine

  /** What an awaited read returns; `Starved` means that it is still pending when the input ends. */
  datatype ReadResult = Octet(b: bv8, blockFree: bool) | Failed | TimedOut | Starved

  /** `read_with_timeout` over a slice; `TimedOutAfter` carries the octets read, like the source's error. */
  datatype SliceResult = Filled | TimedOutAfter(n: nat) | Broken | Pending

  datatype ReceiveResult = Accepted(frame: Frame) | Refused | StillReceiving

  datatype SendResult = Sent(status: ConStatus) | SendFailed | StillSending

  class NCN51Driver {
    const input: seq<Token>
    var pos: nat
    var queue: seq<Frame>
    var uart: Bytes
    var up: seq<Frame>
    var signals: seq<ConStatus>
    /** Where in the code the driver waits, in the machine's terms. */
    ghost var mode: Mode

    ghost function Here(m: Mode): Driver
      reads this
    {
      Driver(m, queue, uart, up, signals)
    }

    /** The machine after the tokens consumed so far. */
    ghost function Seen(): Driver
      reads this
      requires pos <= |input|
    {
      DriverMachine.Run(START, input[..pos])
    }

    /** No silence in that part of the input. */
    ghost predicate NoSilence(lo: int, hi: int)
    {
      0 <= lo && hi <= |input| && forall i :: lo <= i < hi ==> !input[i].Silence?
    }

    ghost predicate Valid()
      reads this
    {
      pos <= |input| && Seen() == Here(mode)
    }

    constructor (input: seq<Token>)
      ensures Valid() && this.input == input && pos == 0 && Here(mode) == START
    {
      this.input := input;
      pos, queue, uart, up, signals := 0, [], [], [], [];
      mode := Idle;
    }

    method Poll() returns (t: Token)
      requires Valid() && pos < |input|
      modifies this`pos
      ensures pos == old(pos) + 1 <= |input| && t == input[old(pos)]
      ensures Seen() == Step(Here(mode), t)
    {
      t := input[pos];
      pos := pos + 1;
      assert input[..pos][..pos - 1] == input[..pos - 1];
    }

    /** While the driver waits, frames may be queued. */
    method QueueFills() returns (more: bool)
      requires Valid() && !mode.Idle?
      modifies this`pos, this`queue
      ensures old(pos) <= pos <= |input| && Valid() && NoSilence(old(pos), pos)
      ensures if more then pos < |input| && !input[pos].Request? else pos == |input|
    {
      while pos < |input| && input[pos].Request?
        invariant Valid() && NoSilence(old(pos), pos) && old(pos) <= pos
        decreases |input| - pos
      {
        var t := Poll();
        queue := queue + [t.frame];
      }
      more := pos < |input|;
    }

    /** One octet within the bus-silence timeout; the queue may fill meanwhile. */
    method ReadTimed() returns (r: ReadResult)
      requires Valid() && !mode.Idle?
      modifies this`pos, this`queue
      ensures old(pos) <= pos <= |input|
      ensures r.Starved? ==> Valid() && pos == |input|
      ensures !r.Starved? ==> old(pos) < pos
      ensures r.Octet? ==> Seen() == Settle(OnByte(Here(mode), r.b, r.blockFree))
      ensures r.Failed? ==> Seen() == Settle(OnReadError(Here(mode)))
      ensures r.TimedOut? ==> Seen() == Settle(OnSilence(Here(mode)))
      ensures NoSilence(old(pos), if r.TimedOut? then pos - 1 else pos) && (r.TimedOut? ==> input[pos - 1].Silence?)
    {
      var more := QueueFills();
      if !more {
        return Starved;
      }
      var t := Poll();
      assert Seen() == Settle(React(Here(mode), t));
      match t {
        case Byte(b, blockFree) => r := Octet(b, blockFree);
        case ReadError => r := Failed;
        case Silence => r := TimedOut;
      }
    }

    /** The confirmation octet is read without a timeout. */
    method ReadConfirmation() returns (r: ReadResult)
      requires Valid() && mode.Confirm?
      modifies this`pos, this`queue
      ensures old(pos) <= pos <= |input| && !r.TimedOut?
      ensures r.Starved? ==> Valid() && pos == |input|
      ensures !r.Starved? ==> old(pos) < pos
      ensures r.Octet? ==> Seen() == Settle(OnByte(Here(mode), r.b, r.blockFree))
      ensures r.Failed? ==> Seen() == Settle(OnReadError(Here(mode)))
    {
      r := TimedOut;
      while r.TimedOut?
        invariant old(pos) <= pos <= |input|
        invariant r.TimedOut? ==> Valid()
        invariant r.Starved? ==> Valid() && pos == |input|
        invariant !r.Starved? && !r.TimedOut? ==> old(pos) < pos
        invariant r.Octet? ==> Seen() == Settle(OnByte(Here(mode), r.b, r.blockFree))
        invariant r.Failed? ==> Seen() == Settle(OnReadError(Here(mode)))
        decreases |input| - pos, r.TimedOut?
      {
        r := ReadTimed();
      }
    }

    /** Dump everything, read errors included, up to the next silence and no further. */
    method DrainLine() returns (done: bool)
      requires Valid() && mode.Drain?
      modifies this`pos, this`queue
      ensures old(pos) <= pos <= |input|
      ensures done ==> Seen() == Settle(Here(Idle))
      ensures !done ==> Valid() && pos == |input|
      ensures if done then old(pos) < pos && NoSilence(old(pos), pos - 1) && input[pos - 1].Silence?
              else NoSilence(old(pos), pos)
    {
      while true
        invariant Valid() && old(pos) <= pos
        invariant NoSilence(old(pos), pos)
        decreases |input| - pos
      {
        var r := ReadTimed();
        if r.TimedOut? {
          return true;
        } else if r.Starved? {
          return false;
        }
      }
    }

    /** The receive modes, by how much of the frame is in. */
    ghost function ReceiveMode(extended: bool, got: Bytes): Mode {
      if |got| < Format(extended).Header() then Header(extended, got) else Payload(extended, got)
    }

    /** What the machine does on the octet that completes a slice. */
    ghost function Completed(extended: bool, got: Bytes): Driver
      reads this
    {
      if |got| == Format(extended).Header() then OnHeaderByte(Here(mode), extended, got)
      else Settle(Finish(Here(mode), extended, got))
    }

    /** From `i` on, `data` is as it was. */
    ghost predicate Untouched(data: array<bv8>, i: nat, was: Bytes)
      reads data
    {
      |was| == data.Length && i <= data.Length && data[i..] == was[i..]
    }

    lemma UntouchedOctets(data: array<bv8>, i: nat, was: Bytes)
      requires Untouched(data, i, was)
      ensures forall k :: i <= k < data.Length ==> data[k] == was[k]
    {
      forall k | i <= k < data.Length ensures data[k] == was[k] {
        assert data[i..][k - i] == was[i..][k - i];
      }
    }

    lemma StillUntouched(data: array<bv8>, i: nat, j: nat, was: Bytes, first: Bytes)
      requires |was| == |first| == data.Length && i <= j <= data.Length && was[i..] == first[i..]
      requires Untouched(data, j, was)
      ensures Untouched(data, j, first)
    {
      assert was[j..] == was[i..][j - i..] && first[j..] == first[i..][j - i..];
    }

    /** One octet of the slice ending at `hi`. */
    method ReadOctet(data: array<bv8>, i: nat, hi: nat, ghost extended: bool) returns (r: ReadResult)
      requires var l := Format(extended);
               1 <= i < hi <= data.Length && (hi == l.Header() || (i >= l.Header() && hi == l.maxSize))
      requires Valid() && mode == ReceiveMode(extended, data[..i])
      modifies this`pos, this`queue, this`mode, data
      ensures old(pos) <= pos <= |input|
      ensures Untouched(data, if r.Octet? then i + 1 else i, old(data[..]))
      ensures r.Starved? ==> Valid() && pos == |input|
      ensures r.Failed? ==> Valid() && mode == Drain
      ensures r.TimedOut? ==> Seen() == Settle(OnSilence(Here(ReceiveMode(extended, data[..i]))))
      ensures r.Octet? && i + 1 < hi ==> Valid() && mode == ReceiveMode(extended, data[..i + 1])
      ensures r.Octet? && i + 1 == hi ==> Seen() == Completed(extended, data[..hi])
    {
      r := ReadTimed();
      if r.Failed? {
        mode := Drain;
      } else if r.Octet? {
        ghost var got := data[..i];
        data[i] := r.b;
        assert data[..i + 1] == got + [r.b];
        if i + 1 < hi {
          mode := ReceiveMode(extended, data[..i + 1]);
        }
      }
    }

    /** Fill `data[lo..hi]` octet by octet. */
    method ReadWithTimeout(data: array<bv8>, lo: nat, hi: nat, ghost extended: bool) returns (r: SliceResult)
      requires 1 <= lo < hi <= data.Length
      requires hi == Format(extended).Header() || (lo == Format(extended).Header() && hi == Format(extended).maxSize)
      requires Valid() && mode == ReceiveMode(extended, data[..lo])
      modifies this`pos, this`queue, this`mode, data
      ensures old(pos) <= pos <= |input|
      ensures r.Pending? ==> Valid() && pos == |input|
      ensures r.Broken? ==> Valid() && mode == Drain
      ensures r.TimedOutAfter? ==>
        lo + r.n < hi && Seen() == Settle(OnSilence(Here(ReceiveMode(extended, data[..lo + r.n]))))
      ensures r.TimedOutAfter? ==> Untouched(data, lo + r.n, old(data[..]))
      ensures r.Filled? ==> Seen() == Completed(extended, data[..hi])
      ensures r.Filled? ==> Untouched(data, hi, old(data[..]))
    {
      var i := lo;
      while i < hi
        invariant lo <= i <= hi && old(pos) <= pos <= |input|
        invariant Untouched(data, i, old(data[..]))
        invariant i < hi ==> Valid() && mode == ReceiveMode(extended, data[..i])
        invariant i == hi ==> Seen() == Completed(extended, data[..hi])
      {
        ghost var was := data[..];
        var octet := ReadOctet(data, i, hi, extended);
        StillUntouched(data, i, if octet.Octet? then i + 1 else i, was, old(data[..]));
        match octet {
          case Starved => return Pending;
          case TimedOut => return TimedOutAfter(i - lo);
          case Failed => return Broken;
          case Octet(_, _) => i := i + 1;
        }
      }
      r := Filled;
    }

    /** `receive_frame_int`, from the control octet on. */
    method ReceiveFrameInt(extended: bool, ctrl: bv8, blockFree: bool) returns (r: ReceiveResult)
      requires pos <= |input| && IsFrameStart(ctrl) && extended == IsExtendedStart(ctrl)
      requires Seen() == OnByte(Here(Idle), ctrl, blockFree)
      modifies this`pos, this`queue, this`mode, this`uart
      ensures old(pos) <= pos <= |input|
      ensures r.StillReceiving? ==> Valid() && pos == |input|
      ensures r.Refused? ==> Valid() && mode == Drain
      ensures r.Accepted? ==> Seen() == Settle(Here(Idle).(up := up + [r.frame]))
    {
      if !blockFree {
        mode := Drain;
        return Refused;
      }
      var l := Format(extended);
      var data := new bv8[l.maxSize](_ => 0);
      data[CTRL] := ctrl;
      mode := Header(extended, [ctrl]);
      assert data[..1] == [ctrl];
      ghost var blank := data[..];
      var head := ReadWithTimeout(data, 1, l.Header(), extended);
      match head {
        case Pending => r := StillReceiving;
        case Broken => r := Refused;
        case TimedOutAfter(_) =>
          mode := Drain;
          r := Refused;
        case Filled =>
          UntouchedOctets(data, l.Header(), blank);
          AckIfAddressed(extended, data);
          mode := Payload(extended, data[..l.Header()]);
          r := ReceivePayload(extended, data);
      }
    }

    method ReceivePayload(extended: bool, data: array<bv8>) returns (r: ReceiveResult)
      requires data.Length == Format(extended).maxSize
      requires Valid() && mode == Payload(extended, data[..Format(extended).Header()])
      requires forall k :: Format(extended).Header() <= k < data.Length ==> data[k] == 0
      modifies this`pos, this`queue, this`mode, data
      ensures old(pos) <= pos <= |input|
      ensures r.StillReceiving? ==> Valid() && pos == |input|
      ensures r.Refused? ==> Valid() && mode == Drain
      ensures r.Accepted? ==> Seen() == Settle(Here(Idle).(up := up + [r.frame]))
    {
      var l := Format(extended);
      ghost var padded := data[..];
      var body := ReadWithTimeout(data, l.Header(), l.maxSize, extended);
      var bytesRead := l.maxSize;
      match body {
        case Pending => return StillReceiving;
        case Broken => return Refused;
        case TimedOutAfter(n) => bytesRead := l.Header() + n;
        case Filled =>
      }
      ghost var got := data[..bytesRead];
      UntouchedOctets(data, bytesRead, padded);
      assert Seen() == Settle(Finish(Here(mode), extended, got));
      var ok := CheckFrame(extended, data, bytesRead);
      if ok {
        var frame := Trim(extended, data, bytesRead);
        r := Accepted(frame);
      } else {
        mode := Drain;
        r := Refused;
      }
    }

    method AckIfAddressed(extended: bool, data: array<bv8>)
      requires data.Length == Format(extended).maxSize
      modifies this`uart
      ensures var l := Format(extended);
              uart == old(uart) + if Addressed(l, data[..l.Header()]) then [ACK_OCTET] else []
    {
      var l := Format(extended);
      var dst := DstAddr(l, data[..]);
      assert ReadAddr(data[..], l.Dst()) == ReadAddr(data[..l.Header()], l.Dst());
      AddrTypeIsBit(data[l.at]);
      match dst {
        case Individual(a) =>
          if a == ADDRESS {
            uart := uart + [ACK_OCTET];
          }
        case Group(_) => uart := uart + [ACK_OCTET];
      }
      assert uart == old(uart) + if Addressed(l, data[..l.Header()]) then [ACK_OCTET] else [];
    }

    /** The tests on the received octets, on the zero-padded buffer as the source makes them. */
    static method CheckFrame(extended: bool, data: array<bv8>, bytesRead: nat) returns (ok: bool)
      requires data.Length == Format(extended).maxSize && Format(extended).Header() <= bytesRead <= data.Length
      requires forall k :: bytesRead <= k < data.Length ==> data[k] == 0
      ensures ok == Accepts(extended, data[..bytesRead])
    {
      var l := Format(extended);
      assert data[..] == data[..bytesRead] + Zeros(l.maxSize - bytesRead);
      TestsOnPadded(extended, data[..bytesRead]);
      if bytesRead < l.minSize || bytesRead > l.maxSize || bytesRead != Length(l, data[..]) {
        return false;
      }
      ok := data[bytesRead] == CheckOctet(data[..]);
    }

    /**
      * On the padded buffer the length test keeps the index in bounds, and both tests mean what they mean on
      * the octets.
      */
    static lemma TestsOnPadded(extended: bool, got: Bytes)
      requires Format(extended).Header() <= |got| <= Format(extended).maxSize
      ensures var l := Format(extended);
              var buf := got + Zeros(l.maxSize - |got|);
              && Length(l, buf) == Length(l, got) < l.maxSize
              && (|got| < l.maxSize ==> (buf[|got|] == CheckOctet(buf) <==> Checked(got)))
    {
      var l := Format(extended);
      LengthBelowMax(extended, got);
      SameLength(l, got, got + Zeros(l.maxSize - |got|));
      if |got| < l.maxSize {
        PaddedTestIff(got, l.maxSize);
      }
    }

    static lemma SameLength(l: Layout, a: Bytes, b: Bytes)
      requires |a| > LG_FIELD && |b| > LG_FIELD && a[LG_FIELD] == b[LG_FIELD]
      ensures Length(l, a) == Length(l, b)
    {
    }

    /** `set_length(bytes_read)` on an accepted frame, in the two formats. */
    static method Trim(extended: bool, data: array<bv8>, bytesRead: nat) returns (frame: Frame)
      requires data.Length == Format(extended).maxSize && bytesRead <= data.Length
      requires Accepts(extended, data[..bytesRead])
      modifies data
      ensures frame == Received(extended, old(data[..bytesRead]))
    {
      ghost var got := data[..bytesRead];
      var b := data[LG_FIELD];
      assert b == got[LG_FIELD];
      if extended {
        ExtendedLengthOctet();
        data[LG_FIELD] := AsU8(EXTENDED.maxSize) - AsU8(EXTENDED.Header()) - 1;
        assert data[..bytesRead] == got[LG_FIELD := 0xFE];
        frame := Extended(data[..bytesRead]);
      } else {
        LengthNibbleOf(b, bytesRead);
        OrOwnNibble(b);
        data[LG_FIELD] := b | LengthNibble(bytesRead);
        assert data[..bytesRead] == got;
        frame := Standard(data[..bytesRead]);
      }
    }

    static lemma OrOwnNibble(b: bv8)
      ensures b | (b & 0xF) == b
    {
    }

    static lemma AddrTypeIsBit(b: bv8)
      ensures b >> 7 == 0 || b >> 7 == 1
    {
    }

    static lemma ExtendedLengthOctet()
      ensures AsU8(263) - AsU8(8) - 1 == 0xFE
    {
      AsU8Wraps(7);
      AsU8Value(7);
      AsU8Value(8);
      SameValue(AsU8(7), 7);
      SameValue(AsU8(8), 8);
    }

    static lemma {:induction false} AsU8Wraps(n: nat)
      ensures AsU8(n + 256) == AsU8(n)
    {
      if n == 0 {
        AsU8Value(255);
        SameValue(AsU8(255), 255);
      } else {
        AsU8Wraps(n - 1);
      }
    }

    /** The write half of `send_frame`. */
    method WriteCommands(buf: array<bv8>)
      requires 2 <= buf.Length
      modifies this`uart
      ensures uart == old(uart) + SendStream(buf[..])
    {
      var n := buf.Length;
      ghost var s := buf[..];
      var checksum := CheckOctet(buf[..]);
      uart := uart + [U_L_DATA_START_REQ, buf[0]];
      var i := 1;
      assert Commands(s, 1) == Commands(s, 0) + [Continue(0), s[0]];
      while i < n - 1
        invariant 1 <= i <= n - 1
        invariant uart == old(uart) + Commands(s, i)
      {
        uart := uart + [U_L_DATA_CONT_REQ + AsU8(i), buf[i]];
        i := i + 1;
      }
      assert AsU8(n) - 1 == AsU8(n - 1);
      uart := uart + [U_L_DATA_END_REQ | (AsU8(n) - 1), checksum];
      assert uart == old(uart) + (Commands(s, n - 1) + [End(n - 1), checksum]);
    }

    /** One octet of the echo, over the frame's own octet. */
    method ReadEchoOctet(buf: array<bv8>, i: nat) returns (r: ReadResult)
      requires i < buf.Length && Valid() && mode == Echo(buf.Length - i)
      modifies this`pos, this`queue, this`mode, buf
      ensures old(pos) <= pos <= |input|
      ensures r.Starved? ==> Valid() && pos == |input|
      ensures r.Octet? ==> Valid() && mode == if i + 1 < buf.Length then Echo(buf.Length - i - 1) else Confirm
      ensures r.TimedOut? || r.Failed? ==> Seen() == Settle(Confirmed(Here(mode), ConNotOk))
    {
      r := ReadTimed();
      if r.Octet? {
        buf[i] := r.b;
        mode := if i + 1 < buf.Length then Echo(buf.Length - i - 1) else Confirm;
      }
    }

    /** Read the echo over the frame; anything but octets aborts the transmission. */
    method ReadEcho(buf: array<bv8>) returns (r: SliceResult)
      requires 2 <= buf.Length
      requires Valid() && mode == Echo(buf.Length)
      modifies this`pos, this`queue, this`mode, buf
      ensures old(pos) <= pos <= |input|
      ensures r.Pending? ==> Valid() && pos == |input|
      ensures r.Filled? ==> Valid() && mode == Confirm
      ensures r.Broken? || r.TimedOutAfter? ==> Seen() == Settle(Confirmed(Here(mode), ConNotOk))
    {
      var i := 0;
      while i < buf.Length
        invariant 0 <= i <= buf.Length && old(pos) <= pos
        invariant Valid() && mode == if i < buf.Length then Echo(buf.Length - i) else Confirm
      {
        var octet := ReadEchoOctet(buf, i);
        match octet {
          case Starved => return Pending;
          case TimedOut => return TimedOutAfter(i);
          case Failed => return Broken;
          case Octet(_, _) => i := i + 1;
        }
      }
      r := Filled;
    }

    /** Evaluate the confirmation octet. */
    method AwaitConfirmation() returns (r: SendResult)
      requires Valid() && mode.Confirm?
      modifies this`pos, this`queue
      ensures old(pos) <= pos <= |input|
      ensures r.StillSending? ==> Valid() && pos == |input|
      ensures !r.StillSending? ==> Seen() == Settle(Confirmed(Here(mode), if r.Sent? then r.status else ConNotOk))
    {
      var last := ReadConfirmation();
      match last {
        case Starved => r := StillSending;
        case Octet(c, _) =>
          if c & 0x7f != 0xb {
            r := SendFailed;
          } else {
            r := Sent(if c >> 7 != 0 then ConOk else ConNotOk);
          }
        case _ => r := SendFailed;
      }
    }

    /** `send_frame`: write the commands, read the echo, then the confirmation. */
    method SendFrame(buf: array<bv8>) returns (r: SendResult)
      requires 2 <= buf.Length && pos <= |input|
      requires Seen() == Here(Echo(buf.Length)).(uart := uart + SendStream(buf[..]))
      modifies this`pos, this`queue, this`mode, this`uart, buf
      ensures old(pos) <= pos <= |input|
      ensures r.StillSending? ==> Valid() && pos == |input|
      ensures !r.StillSending? ==> Seen() == Settle(Confirmed(Here(mode), if r.Sent? then r.status else ConNotOk))
    {
      WriteCommands(buf);
      mode := Echo(buf.Length);
      var echo := ReadEcho(buf);
      match echo {
        case Pending => r := StillSending;
        case Filled => r := AwaitConfirmation();
        case _ => r := SendFailed;
      }
    }

    /** The sending arm of `run`: take the next frame, send it, raise the signal. */
    method SendNext() returns (done: bool)
      requires pos <= |input| && queue != [] && Seen() == Settle(Here(Idle))
      modifies this
      ensures old(pos) <= pos <= |input|
      ensures done ==> Seen() == Settle(Here(Idle)) && (pos == old(pos) ==> |queue| < old(|queue|))
      ensures !done ==> Valid() && pos == |input|
    {
      var s := queue[0].bytes;
      queue := queue[1..];
      var buf := new bv8[|s|](i requires 0 <= i < |s| => s[i]);
      assert buf[..] == s;
      var sent := SendFrame(buf);
      match sent {
        case StillSending => done := false;
        case Sent(status) =>
          signals := signals + [status];
          done := true;
        case SendFailed =>
          signals := signals + [ConNotOk];
          done := true;
      }
    }

    /** The receiving arm of `run`, for the octet that ended the wait. */
    method ReceiveNext(b: bv8, blockFree: bool) returns (done: bool)
      requires pos <= |input| && Seen() == Settle(OnByte(Here(Idle), b, blockFree)) && queue == []
      modifies this
      ensures old(pos) <= pos <= |input|
      ensures done ==> Seen() == Settle(Here(Idle))
      ensures !done ==> Valid() && pos == |input|
    {
      done := true;
      if IsFrameStart(b) {
        var received := ReceiveFrameInt(IsExtendedStart(b), b, blockFree);
        match received {
          case StillReceiving => done := false;
          case Accepted(frame) => up := up + [frame];
          case Refused => done := DrainLine();
        }
      }
    }

    /** `run`, up to the point where it waits for input that has not come. */
    method Run()
      requires Valid() && pos == 0 && Here(mode) == START
      modifies this
      ensures Valid() && pos == |input|
      ensures DriverMachine.Run(START, input) == Here(mode)
    {
      var done := true;
      while done
        invariant pos <= |input|
        invariant done ==> Seen() == Settle(Here(Idle))
        invariant !done ==> Valid() && pos == |input|
        decreases |input| - pos, |queue|, done
      {
        if queue != [] {
          done := SendNext();
        } else if pos == |input| {
          mode := Idle;
          done := false;
        } else {
          mode := Idle;
          var t := Poll();
          match t {
            case Request(f) => queue := queue + [f];
            case Byte(b, blockFree) => done := ReceiveNext(b, blockFree);
            case _ =>
          }
        }
      }
      assert input[..pos] == input;
    }
  }
}
