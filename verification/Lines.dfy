/**
  * What the driver machine makes of anything that arrives: the input falls into lines, each ended by a
  * silence, and of each line it is said which frame is handed up and what is acknowledged.
  */
module Lines {
  import opened Frames
  import opened Checksums
  import opened DriverMachine

  // Octets of one frame

  function Acks(extended: bool, w: Bytes): Bytes {
    var l := Format(extended);
    if |w| >= l.Header() && Addressed(l, w) then [ACK_OCTET] else []
  }

  /** Reading a burst: header, then payload, then, past the buffer, refusal. */
  function Reading(d: Driver, extended: bool, w: Bytes): Driver {
    var l := Format(extended);
    d.(mode := if |w| < l.Header() then Header(extended, w)
               else if |w| < l.maxSize then Payload(extended, w)
               else Drain,
       uart := d.uart + Acks(extended, w))
  }

  lemma AcksGrow(extended: bool, w: Bytes, b: bv8)
    requires |w| >= Format(extended).Header()
    ensures Acks(extended, w + [b]) == Acks(extended, w)
  {
    var l := Format(extended);
    assert (w + [b])[l.at] == w[l.at] && ReadAddr(w + [b], l.Dst()) == ReadAddr(w, l.Dst());
  }

  lemma FullBufferRefused(d: Driver, extended: bool, got: Bytes)
    requires |got| == Format(extended).maxSize
    ensures Finish(d, extended, got) == d.(mode := Drain)
  {
    LengthBelowMax(extended, got);
  }

  lemma ReadsOctet(d: Driver, extended: bool, w: Bytes, b: bv8, blockFree: bool)
    requires d.queue == [] && |w| > 0
    ensures Step(Reading(d, extended, w), Byte(b, blockFree)) == Reading(d, extended, w + [b])
  {
    var l := Format(extended);
    var r := Reading(d, extended, w);
    var v := w + [b];
    if |w| < l.Header() {
      assert OnByte(r, b, blockFree) == OnHeaderByte(r, extended, v);
    } else {
      AcksGrow(extended, w, b);
      if |v| < l.maxSize {
        assert OnByte(r, b, blockFree) == r.(mode := Payload(extended, v));
      } else if |v| == l.maxSize {
        assert OnByte(r, b, blockFree) == Finish(r, extended, v);
        FullBufferRefused(r, extended, v);
      } else {
        assert OnByte(r, b, blockFree) == r;
      }
    }
  }

  /** Where a driver at the top of `run` takes a frame to begin: at the first octet that looks like a start, if any. */
  function FirstStart(w: Bytes): (k: nat)
    ensures k <= |w| && (k < |w| ==> IsFrameStart(w[k]))
    ensures forall i :: 0 <= i < k ==> !IsFrameStart(w[i])
  {
    if w == [] then 0 else
      var n := |w| - 1;
      var k := FirstStart(w[..n]);
      if k < n || IsFrameStart(w[n]) then k else |w|
  }

  /** What it takes for the frame. */
  function Caught(w: Bytes): Bytes { w[FirstStart(w)..] }

  lemma FirstStartIs(w: Bytes, k: nat)
    requires k <= |w| && (k < |w| ==> IsFrameStart(w[k])) && forall i :: 0 <= i < k ==> !IsFrameStart(w[i])
    ensures FirstStart(w) == k
  {
  }

  /** Complete and intact in the format its first octet announces. */
  predicate IsFrame(got: Bytes) {
    got != [] && IsFrameStart(got[0]) && Accepts(IsExtendedStart(got[0]), got)
  }

  function HandedUp(got: Bytes): seq<Frame> {
    if IsFrame(got) then [Received(IsExtendedStart(got[0]), got)] else []
  }

  function Acknowledged(got: Bytes): Bytes {
    if got == [] then [] else Acks(IsExtendedStart(got[0]), got)
  }

  /** Begun and refused, but only by the silence after it: a full buffer is refused earlier. */
  predicate RefusedAtSilence(got: Bytes) {
    got != [] && !IsFrame(got) && |got| < Format(IsExtendedStart(got[0])).maxSize
  }


  lemma SilenceAfter(d: Driver, extended: bool, got: Bytes)
    requires d.mode.Idle? && d.queue == [] && |got| > 0
    ensures var e := Step(Reading(d, extended, got), Silence);
            && (Accepts(extended, got) ==>
              e == d.(up := d.up + [Received(extended, got)], uart := d.uart + Acks(extended, got)))
            && (!Accepts(extended, got) ==>
              e == d.(mode := if |got| < Format(extended).maxSize then Drain else Idle,
                      uart := d.uart + Acks(extended, got)))
  {
    if |got| >= Format(extended).minSize {
      LengthBelowMax(extended, got);
    }
  }

  // One line

  /** Octets and read errors, with no silence among them and nothing to send. */
  predicate IsLine(l: seq<Token>) { forall i :: 0 <= i < |l| ==> l[i].Byte? || l[i].ReadError? }

  function BytesOf(l: seq<Token>): (w: Bytes)
    requires AllOctets(l)
    ensures |w| == |l| && forall i :: 0 <= i < |l| ==> w[i] == l[i].b
  {
    if l == [] then [] else BytesOf(l[..|l| - 1]) + [l[|l| - 1].b]
  }

  predicate Begins(t: Token) { t.Byte? && IsFrameStart(t.b) }

  /** Where a driver at the top of `run` takes a frame to begin; octets and read errors before it are ignored. */
  function StartOf(l: seq<Token>): (k: nat)
    ensures k <= |l| && (k < |l| ==> Begins(l[k])) && forall i :: 0 <= i < k ==> !Begins(l[i])
  {
    if l == [] then 0 else
      var n := |l| - 1;
      var k := StartOf(l[..n]);
      if k < n || Begins(l[n]) then k else |l|
  }

  /** How many octets a line begins with, up to a read error or its end. */
  function Leading(l: seq<Token>): (e: nat)
    ensures e <= |l| && (forall i :: 0 <= i < e ==> l[i].Byte?) && (e < |l| ==> !l[e].Byte?)
    decreases |l|
  {
    if l == [] || !l[0].Byte? then 0 else 1 + Leading(l[1..])
  }

  function FromStartOn(l: seq<Token>): (rest: seq<Token>)
    ensures rest != [] ==> Begins(rest[0])
  {
    l[StartOf(l)..]
  }

  /** What it reads as a frame, if the pool has a block at the start of it: all octets up to a read error. */
  function Heard(l: seq<Token>): (got: Bytes)
    ensures got != [] ==> IsFrameStart(got[0])
  {
    var rest := FromStartOn(l);
    if rest == [] || !rest[0].blockFree then [] else BytesOf(rest[..Leading(rest)])
  }

  /** A read error among them. */
  predicate Broken(l: seq<Token>) {
    var rest := FromStartOn(l);
    rest != [] && rest[0].blockFree && Leading(rest) < |rest|
  }

  function Fruit(l: seq<Token>): seq<Frame> { if Broken(l) then [] else HandedUp(Heard(l)) }

  predicate LeavesDraining(l: seq<Token>) { !Broken(l) && RefusedAtSilence(Heard(l)) }

  /**
    * Draining stops at nothing but a silence: any octets and read errors leave the driver as it is, and the
    * first silence brings it to the top of `run`.
    */
  lemma {:induction false} DrainsToSilence(d: Driver, l: seq<Token>)
    requires d.mode.Drain? && d.queue == [] && IsLine(l)
    ensures Run(d, l) == d && Run(d, l + [Silence]) == d.(mode := Idle)
    decreases |l|
  {
    if l != [] {
      var n := |l| - 1;
      DrainsToSilence(d, l[..n]);
      assert Step(d, l[n]) == d;
    }
    ThenSilence(d, l);
  }

  lemma ThenSilence(d: Driver, ts: seq<Token>)
    ensures Run(d, ts + [Silence]) == Step(Run(d, ts), Silence)
  {
    assert (ts + [Silence])[..|ts|] == ts;
  }

  lemma {:induction false} IgnoresNoStart(d: Driver, l: seq<Token>)
    requires d.mode.Idle? && d.queue == [] && IsLine(l) && forall i :: 0 <= i < |l| ==> !Begins(l[i])
    ensures Run(d, l) == d
    decreases |l|
  {
    if l != [] {
      var n := |l| - 1;
      IgnoresNoStart(d, l[..n]);
      assert !Begins(l[n]) && Step(d, l[n]) == d;
    }
  }

  /**
    * The same in octets: which control octets start a frame, how long it must be, and that the XOR of it all is
    * 0xFF.
    */
  lemma IsFrameIff(w: Bytes)
    ensures IsFrame(w) <==>
      && |w| > LG_FIELD && Xor(w) == 0xFF && w[0] % 4 == 0 && (w[0] / 16) % 2 == 1
      && (|| (w[0] / 64 == 2 && |w| == 8 + w[5] as nat % 16)
          || (w[0] / 64 == 0 && |w| >= 9 && |w| == (w[5] as nat + 9) % 256))
  {
    if |w| > LG_FIELD {
      StartOctets(w[0]);
      LengthOctets(w[5]);
      CheckedIffXor(w);
    }
  }

  lemma StartOctets(b: bv8)
    ensures IsStandardStart(b) <==> b % 4 == 0 && (b / 16) % 2 == 1 && b / 64 == 2
    ensures IsExtendedStart(b) <==> b % 4 == 0 && (b / 16) % 2 == 1 && b / 64 == 0
  {
  }

  lemma LengthOctets(x: bv8)
    ensures (x & 0xF) as nat == x as nat % 16 && (x + 9) as nat == (x as nat + 9) % 256
  {
  }

  /** And which get an acknowledge, 0x11: with their header in, to any group or to 1.1.120; whatever follows. */
  lemma AcknowledgedIff(w: Bytes)
    requires w != []
    ensures Acknowledged(w) == [0x11] || Acknowledged(w) == []
    ensures Acknowledged(w) == [0x11] <==>
      if IsExtendedStart(w[0]) then |w| >= 8 && (w[1] >= 0x80 || (w[4] == 0x11 && w[5] == 0x78))
      else |w| >= 7 && (w[5] >= 0x80 || (w[3] == 0x11 && w[4] == 0x78))
  {
    if |w| >= 7 {
      AddressedOctets(w[5], w[3], w[4]);
      if |w| >= 8 {
        AddressedOctets(w[1], w[4], w[5]);
      }
    }
  }

  lemma AddressedOctets(at: bv8, high: bv8, low: bv8)
    ensures at >> 7 == 1 <==> at >= 0x80
    ensures (high as bv16 << 8) | low as bv16 == ADDRESS <==> high == 0x11 && low == 0x78
  {
  }

  /** A burst of 24 octets or more is refused before its silence, or of 263 if it begins like an extended frame. */
  lemma RefusedAtSilenceIff(got: Bytes)
    ensures RefusedAtSilence(got) <==> got != [] && !IsFrame(got) && |got| < if IsExtendedStart(got[0]) then 263 else 24
  {
  }

  lemma ReadsFirst(d: Driver, t: Token)
    requires d.mode.Idle? && d.queue == [] && Begins(t)
    ensures Step(d, t) == if t.blockFree then Reading(d, IsExtendedStart(t.b), [t.b]) else d.(mode := Drain)
  {
  }

  lemma {:induction false} ReadsOctets(d: Driver, l: seq<Token>)
    requires d.mode.Idle? && d.queue == [] && AllOctets(l)
    requires l != [] && Begins(l[0]) && l[0].blockFree
    ensures Run(d, l) == Reading(d, IsExtendedStart(l[0].b), BytesOf(l))
    decreases |l|
  {
    var n, ext := |l| - 1, IsExtendedStart(l[0].b);
    if n == 0 {
      assert l == [l[0]] && BytesOf(l) == [l[0].b];
      assert Run(d, l[..0]) == d;
      ReadsFirst(d, l[0]);
    } else {
      var before := l[..n];
      ReadsOctets(d, before);
      ReadsOctet(d, ext, BytesOf(before), l[n].b, l[n].blockFree);
      assert BytesOf(l) == BytesOf(before) + [l[n].b];
    }
  }

  lemma ErrorDrains(d: Driver, extended: bool, got: Bytes)
    requires d.queue == [] && got != []
    ensures Step(Reading(d, extended, got), ReadError)
         == d.(mode := Drain, uart := d.uart + Acks(extended, got))
  {
  }

  lemma Associates(a: seq<Token>, b: seq<Token>, c: seq<Token>)
    ensures (a + b) + c == a + (b + c)
  {
  }

  lemma HeadFirst(l: seq<Token>)
    requires l != []
    ensures l + [Silence] == [l[0]] + (l[1..] + [Silence])
  {
    assert l == [l[0]] + l[1..];
    Associates([l[0]], l[1..], [Silence]);
  }

  lemma ErrorThenLine(r: Driver, e: Driver, tail: seq<Token>)
    requires Step(r, ReadError) == e && e.mode.Drain? && e.queue == [] && IsLine(tail)
    ensures Run(r, [ReadError] + (tail + [Silence])) == e.(mode := Idle)
  {
    OneToken(r, ReadError);
    RunConcat(r, [ReadError], tail + [Silence]);
    DrainsToSilence(e, tail);
  }

  lemma BrokenAfter(d: Driver, run: seq<Token>, rest: seq<Token>)
    requires d.mode.Idle? && d.queue == [] && AllOctets(run) && IsLine(rest)
    requires run != [] && Begins(run[0]) && run[0].blockFree && rest != [] && rest[0] == ReadError
    ensures Run(d, run + (rest + [Silence])) == d.(uart := d.uart + Acks(IsExtendedStart(run[0].b), BytesOf(run)))
  {
    var ext, got := IsExtendedStart(run[0].b), BytesOf(run);
    ReadsOctets(d, run);
    ErrorDrains(d, ext, got);
    ErrorThenLine(Reading(d, ext, got), d.(mode := Drain, uart := d.uart + Acks(ext, got)), rest[1..]);
    HeadFirst(rest);
    RunConcat(d, run, rest + [Silence]);
  }

  lemma UnbrokenFromStart(d: Driver, l: seq<Token>)
    requires d.mode.Idle? && d.queue == [] && AllOctets(l)
    requires l != [] && Begins(l[0]) && l[0].blockFree
    ensures Run(d, l + [Silence]) == Step(Reading(d, IsExtendedStart(l[0].b), BytesOf(l)), Silence)
  {
    ReadsOctets(d, l);
    ThenSilence(d, l);
  }

  lemma BrokenFromStart(d: Driver, l: seq<Token>)
    requires d.mode.Idle? && d.queue == [] && IsLine(l)
    requires l != [] && Begins(l[0]) && l[0].blockFree && 0 < Leading(l) < |l|
    ensures Run(d, l + [Silence])
         == d.(uart := d.uart + Acks(IsExtendedStart(l[0].b), BytesOf(l[..Leading(l)])))
  {
    var e := Leading(l);
    var run, rest := l[..e], l[e..];
    assert AllOctets(run) && IsLine(rest) && rest[0] == l[e] == ReadError && run[0] == l[0];
    assert l + [Silence] == run + (rest + [Silence]) by {
      assert l == run + rest;
      Associates(run, rest, [Silence]);
    }
    BrokenAfter(d, run, rest);
  }

  lemma OneToken(d: Driver, t: Token)
    ensures Run(d, [t]) == Step(d, t)
  {
    assert [t][..0] == [] && Run(d, []) == d;
  }

  lemma WithoutBlock(d: Driver, l: seq<Token>)
    requires d.mode.Idle? && d.queue == [] && IsLine(l)
    requires l != [] && Begins(l[0]) && !l[0].blockFree
    ensures Run(d, l + [Silence]) == d
  {
    ReadsFirst(d, l[0]);
    OneToken(d, l[0]);
    HeadFirst(l);
    RunConcat(d, [l[0]], l[1..] + [Silence]);
    DrainsToSilence(d.(mode := Drain), l[1..]);
  }

  /** The driver after a line heard from the top of `run`. */
  function Taking(d: Driver, l: seq<Token>): Driver {
    d.(mode := if LeavesDraining(l) then Drain else Idle,
       up := d.up + Fruit(l), uart := d.uart + Acknowledged(Heard(l)))
  }

  lemma TakingNothing(d: Driver, l: seq<Token>)
    requires d.mode.Idle? && Heard(l) == [] && !Broken(l)
    ensures Taking(d, l) == d
  {
    assert d.up + [] == d.up && d.uart + [] == d.uart;
  }

  lemma TakesFrame(d: Driver, l: seq<Token>)
    requires d.mode.Idle? && d.queue == [] && IsLine(l)
    requires var rest := FromStartOn(l); rest != [] && rest[0].blockFree
    ensures Run(d, FromStartOn(l) + [Silence]) == Taking(d, l)
  {
    var rest, got := FromStartOn(l), Heard(l);
    assert Leading(rest) > 0 && got[0] == rest[0].b;
    if Broken(l) {
      BrokenFromStart(d, rest);
      assert d.up + [] == d.up;
    } else {
      assert rest[..|rest|] == rest;
      UnbrokenFromStart(d, rest);
      SilenceAfter(d, IsExtendedStart(got[0]), got);
      assert !Accepts(IsExtendedStart(got[0]), got) ==> d.up + [] == d.up;
    }
  }

  lemma SkipsToStart(d: Driver, l: seq<Token>)
    requires d.mode.Idle? && d.queue == [] && IsLine(l)
    ensures Run(d, l + [Silence]) == Run(d, FromStartOn(l) + [Silence])
  {
    var k := StartOf(l);
    IgnoresNoStart(d, l[..k]);
    assert l == l[..k] + l[k..];
    Associates(l[..k], l[k..], [Silence]);
    RunConcat(d, l[..k], l[k..] + [Silence]);
  }

  lemma SilenceAlone(d: Driver)
    requires d.mode.Idle? && d.queue == []
    ensures Run(d, [] + [Silence]) == d
  {
    ThenSilence(d, []);
  }

  /**
    * Any line - octets of any value, with or without a pool block for each, and read errors - followed by its
    * silence, heard from the top of `run`: what begins with the first frame start is handed up exactly if it is
    * complete and intact, unbroken, and found a block; it is acknowledged exactly if its header arrived, before
    * any error, and is addressed here. Only a refusal at the silence itself leaves the driver waiting for
    * another.
    */
  lemma LineHeard(d: Driver, l: seq<Token>)
    requires d.mode.Idle? && d.queue == [] && IsLine(l)
    ensures Run(d, l + [Silence]) == Taking(d, l)
  {
    var rest := FromStartOn(l);
    SkipsToStart(d, l);
    if rest == [] {
      SilenceAlone(d);
      TakingNothing(d, l);
    } else if !rest[0].blockFree {
      WithoutBlock(d, rest);
      TakingNothing(d, l);
    } else {
      TakesFrame(d, l);
    }
  }

  // Bursts: uninterrupted octets followed by one silence

  function Octets(w: Bytes): (ts: seq<Token>)
    ensures |ts| == |w| && Receiving(ts)
  {
    seq(|w|, i requires 0 <= i < |w| => Byte(w[i], true))
  }

  function Burst(w: Bytes): (ts: seq<Token>)
    ensures Receiving(ts)
  {
    Octets(w) + [Silence]
  }

  lemma OctetsStart(w: Bytes)
    ensures StartOf(Octets(w)) == FirstStart(w)
  {
    var l := Octets(w);
    assert forall i :: 0 <= i < |w| ==> (Begins(l[i]) <==> IsFrameStart(w[i]));
    FirstStartIs(w, StartOf(l));
  }

  lemma OctetsHeard(w: Bytes)
    ensures IsLine(Octets(w)) && AllOctets(Octets(w))
    ensures Heard(Octets(w)) == Caught(w) && !Broken(Octets(w))
  {
    var l, k := Octets(w), FirstStart(w);
    OctetsStart(w);
    assert Leading(l[k..]) == |l[k..]|;
    assert l[k..][..|l[k..]|] == l[k..] && BytesOf(l[k..]) == w[k..];
  }

  /**
    * In particular, every burst of octets, of any length and content, that finds a block: what begins with its
    * first frame start is handed up exactly if it is complete and intact.
    */
  lemma BurstDelivered(d: Driver, w: Bytes)
    requires d.mode.Idle? && d.queue == []
    ensures var got := Caught(w);
            Run(d, Burst(w)) == d.(mode := if RefusedAtSilence(got) then Drain else Idle,
                                   up := d.up + HandedUp(got), uart := d.uart + Acknowledged(got))
  {
    OctetsHeard(w);
    LineHeard(d, Octets(w));
  }

  function OctetsWithoutBlock(w: Bytes): (ts: seq<Token>)
    ensures |ts| == |w|
  {
    seq(|w|, i requires 0 <= i < |w| => Byte(w[i], false))
  }

  /**
    * And every burst that meets an empty pool leaves no trace once it is over: nothing delivered, nothing
    * acknowledged.
    */
  lemma BurstWithoutBlock(d: Driver, w: Bytes)
    requires d.mode.Idle? && d.queue == []
    ensures Run(d, OctetsWithoutBlock(w) + [Silence]) == d
  {
    LineHeard(d, OctetsWithoutBlock(w));
    TakingNothing(d, OctetsWithoutBlock(w));
  }

  // One damaged octet

  predicate DifferAt(v: Bytes, w: Bytes, i: nat) {
    |v| == |w| && i < |w| && v[i] != w[i] && forall j :: 0 <= j < |w| && j != i ==> v[j] == w[j]
  }

  lemma StillStarts(w: Bytes, v: Bytes, i: nat)
    requires IsFrame(w) && DifferAt(v, w, i) && IsFrameStart(v[0])
    ensures Caught(v) == v && !IsFrame(v)
  {
    FirstStartIs(v, 0);
    if IsFrame(v) {
      OneOctetErrorDetected(v, w, i);
      assert false;
    }
  }

  lemma NoLongerStarts(w: Bytes, v: Bytes)
    requires DifferAt(v, w, 0) && !IsFrameStart(v[0])
    ensures Caught(v) == Caught(w[1..])
  {
    var k := FirstStart(w[1..]);
    assert v[1..] == w[1..];
    assert forall j :: 1 <= j < |v| ==> v[j] == w[1..][j - 1];
    FirstStartIs(v, k + 1);
  }

  /**
    * A complete and intact frame with exactly one octet damaged is not handed up - unless the damage
    * makes its control octet no frame start, and what follows it happens to contain a frame to its end:
    * then that is handed up instead.
    */
  lemma DamagedFrameRefusedIff(d: Driver, w: Bytes, v: Bytes, i: nat)
    requires d.mode.Idle? && d.queue == [] && IsFrame(w) && DifferAt(v, w, i)
    ensures var e := Run(d, Burst(v));
            && (e.up == d.up <==> i > 0 || IsFrameStart(v[0]) || !IsFrame(Caught(w[1..])))
            && (e.up != d.up ==> e.up == d.up + HandedUp(Caught(w[1..])))
  {
    BurstDelivered(d, v);
    if IsFrameStart(v[0]) {
      StillStarts(w, v, i);
    } else {
      NoLongerStarts(w, v);
    }
  }

  const HOST: Bytes := [0x90, 0x11, 0x81, 0x90, 0x01, 0xE3, 0x00, 0x80, 0xF0, 0x00, 0xFD]

  lemma XorUpTo(s: Bytes, k: nat)
    requires k < |s|
    ensures Xor(s[..k + 1]) == Xor(s[..k]) ^ s[k]
  {
    assert s[..k + 1][..k] == s[..k];
  }

  lemma HostChecks()
    ensures Checked(HOST) && Checked(HOST[3..])
  {
    var s := HOST;
    XorUpTo(s, 0); XorUpTo(s, 1); XorUpTo(s, 2); XorUpTo(s, 3); XorUpTo(s, 4); XorUpTo(s, 5);
    XorUpTo(s, 6); XorUpTo(s, 7); XorUpTo(s, 8); XorUpTo(s, 9); XorUpTo(s, 10);
    assert s[..11] == s == s[..3] + s[3..];
    XorConcat(s[..3], s[3..]);
    CheckedIffXor(s);
    CheckedIffXor(s[3..]);
  }

  /** It can happen: one bit lost in the control octet of this frame, and a frame nobody sent is handed up. */
  lemma PhantomFrame()
    ensures WellFormed(HOST)
    ensures Run(START, Burst(HOST[0 := 0x80])).up == [Standard(HOST[3..])]
  {
    var tail := HOST[1..];
    HostChecks();
    FirstStartIs(tail, 2);
    assert Caught(tail) == HOST[3..];
    DamagedFrameRefusedIff(START, HOST, HOST[0 := 0x80], 0);
  }

  // Streams of lines

  /** Lines with one silence after each. */
  function Stream(ls: seq<seq<Token>>): (ts: seq<Token>) {
    if ls == [] then [] else Stream(ls[..|ls| - 1]) + (ls[|ls| - 1] + [Silence])
  }

  predicate AllLines(ls: seq<seq<Token>>) { forall i :: 0 <= i < |ls| ==> IsLine(ls[i]) }

  /** Which lines are of the kind refused at their silence. */
  function Marks(ls: seq<seq<Token>>): (ms: seq<bool>)
    ensures |ms| == |ls|
  {
    if ls == [] then [] else Marks(ls[..|ls| - 1]) + [LeavesDraining(ls[|ls| - 1])]
  }

  /** How many of them in a row, up to the last. */
  function Trailing(ms: seq<bool>): nat {
    if ms == [] || !ms[|ms| - 1] then 0 else 1 + Trailing(ms[..|ms| - 1])
  }

  /** The last one was heard, and so leaves the driver draining, which the next burst is spent on. */
  predicate LastHeard(ms: seq<bool>) {
    ms != [] && !LastHeard(ms[..|ms| - 1]) && ms[|ms| - 1]
  }

  lemma {:induction false} LastHeardIffOdd(ms: seq<bool>)
    ensures LastHeard(ms) <==> Trailing(ms) % 2 == 1
  {
    if ms != [] {
      LastHeardIffOdd(ms[..|ms| - 1]);
    }
  }

  function Refusals(ls: seq<seq<Token>>): nat { Trailing(Marks(ls)) }

  /** After these lines the driver is still draining, and misses the next one whatever it is. */
  predicate Deaf(ls: seq<seq<Token>>) { LastHeard(Marks(ls)) }

  lemma DeafStep(ls: seq<seq<Token>>)
    requires ls != []
    ensures var n := |ls| - 1; Deaf(ls) <==> !Deaf(ls[..n]) && LeavesDraining(ls[n])
  {
    assert Marks(ls)[..|ls| - 1] == Marks(ls[..|ls| - 1]);
  }

  function StreamUp(ls: seq<seq<Token>>): seq<Frame> {
    if ls == [] then [] else
      var n := |ls| - 1;
      StreamUp(ls[..n]) + if Deaf(ls[..n]) then [] else Fruit(ls[n])
  }

  function StreamAcks(ls: seq<seq<Token>>): Bytes {
    if ls == [] then [] else
      var n := |ls| - 1;
      StreamAcks(ls[..n]) + if Deaf(ls[..n]) then [] else Acknowledged(Heard(ls[n]))
  }

  /** Line by line, from the top of `run` or draining. */
  function Hears(d: Driver, ls: seq<seq<Token>>): Driver {
    if ls == [] then d else
      var n := |ls| - 1;
      var e := Hears(d, ls[..n]);
      if e.mode.Drain? then e.(mode := Idle) else Taking(e, ls[n])
  }

  lemma {:induction false} HearsStream(d: Driver, ls: seq<seq<Token>>)
    requires (d.mode.Idle? || d.mode.Drain?) && d.queue == [] && AllLines(ls)
    ensures Run(d, Stream(ls)) == Hears(d, ls)
    ensures (Hears(d, ls).mode.Idle? || Hears(d, ls).mode.Drain?) && Hears(d, ls).queue == []
  {
    if ls != [] {
      var n := |ls| - 1;
      HearsStream(d, ls[..n]);
      RunConcat(d, Stream(ls[..n]), ls[n] + [Silence]);
      if Hears(d, ls[..n]).mode.Drain? {
        DrainsToSilence(Hears(d, ls[..n]), ls[n]);
      } else {
        LineHeard(Hears(d, ls[..n]), ls[n]);
      }
    }
  }

  lemma {:induction false} HearsDeaf(d: Driver, ls: seq<seq<Token>>)
    requires d.mode.Idle?
    ensures Hears(d, ls).mode == if Deaf(ls) then Drain else Idle
  {
    if ls != [] {
      HearsDeaf(d, ls[..|ls| - 1]);
      DeafStep(ls);
    }
  }

  lemma {:induction false} HearsUp(d: Driver, ls: seq<seq<Token>>)
    requires d.mode.Idle?
    ensures Hears(d, ls).up == d.up + StreamUp(ls)
  {
    if ls != [] {
      HearsUp(d, ls[..|ls| - 1]);
      HearsDeaf(d, ls[..|ls| - 1]);
    }
  }

  lemma {:induction false} HearsAcks(d: Driver, ls: seq<seq<Token>>)
    requires d.mode.Idle?
    ensures Hears(d, ls).uart == d.uart + StreamAcks(ls)
  {
    if ls != [] {
      HearsAcks(d, ls[..|ls| - 1]);
      HearsDeaf(d, ls[..|ls| - 1]);
    }
  }

  lemma {:induction false} HearsRest(d: Driver, ls: seq<seq<Token>>)
    ensures Hears(d, ls).queue == d.queue && Hears(d, ls).signals == d.signals
  {
    if ls != [] {
      HearsRest(d, ls[..|ls| - 1]);
    }
  }

  /**
    * Any sequence of lines, one silence after each: a line is heard exactly if an even number of refused ones
    * came directly before it, and each line heard is treated as `LineHeard` says. A line that finds no block,
    * or is broken by a read error, is lost and leaves nothing to wait for.
    */
  lemma LinesDelivered(d: Driver, ls: seq<seq<Token>>)
    requires d.mode.Idle? && d.queue == [] && AllLines(ls)
    ensures Run(d, Stream(ls))
         == d.(mode := if Deaf(ls) then Drain else Idle, up := d.up + StreamUp(ls), uart := d.uart + StreamAcks(ls))
    ensures forall k :: 0 <= k <= |ls| ==> (Deaf(ls[..k]) <==> Refusals(ls[..k]) % 2 == 1)
  {
    forall k | 0 <= k <= |ls| ensures Deaf(ls[..k]) <==> Refusals(ls[..k]) % 2 == 1 { LastHeardIffOdd(Marks(ls[..k])); }
    HearsStream(d, ls);
    HearsDeaf(d, ls);
    HearsUp(d, ls);
    HearsAcks(d, ls);
    HearsRest(d, ls);
  }

  lemma StreamSnoc(ls: seq<seq<Token>>, l: seq<Token>)
    ensures Stream(ls + [l]) == Stream(ls) + (l + [Silence])
  {
    assert (ls + [l])[..|ls|] == ls;
  }

  lemma LineGoesOn(ls: seq<seq<Token>>, open: seq<Token>, t: Token)
    ensures Stream(ls) + open + [t] == Stream(ls) + (open + [t])
    ensures t.Silence? ==> Stream(ls) + open + [t] == Stream(ls + [open]) + []
  {
    Associates(Stream(ls), open, [t]);
    StreamSnoc(ls, open);
  }

  /** And any input without transmissions is such a sequence, with an unfinished line behind it. */
  lemma {:induction false} InputIsLines(ts: seq<Token>) returns (ls: seq<seq<Token>>, rest: seq<Token>)
    requires Receiving(ts)
    ensures AllLines(ls) && IsLine(rest) && ts == Stream(ls) + rest
  {
    if ts == [] {
      ls, rest := [], [];
    } else {
      var n := |ts| - 1;
      var t := ts[n];
      assert t in ts && ts == ts[..n] + [t];
      ls, rest := InputIsLines(ts[..n]);
      LineGoesOn(ls, rest, t);
      if t.Silence? {
        ls, rest := ls + [rest], [];
      } else {
        rest := rest + [t];
      }
    }
  }

  // Well-formed frames

  predicate WellFormed(w: Bytes) { w != [] && IsStandardStart(w[0]) && Accepts(false, w) }

  lemma WellFormedCaught(w: Bytes)
    requires WellFormed(w)
    ensures Caught(w) == w && HandedUp(w) == [Standard(w)] && Acknowledged(w) == Acks(false, w)
  {
    assert !IsExtendedStart(w[0]);
    FirstStartIs(w, 0);
  }

  lemma AfterFrame(d: Driver, w: Bytes)
    requires d.mode.Idle? && d.queue == [] && WellFormed(w)
    ensures Run(d, Burst(w)) == d.(up := d.up + [Standard(w)], uart := d.uart + Acks(false, w))
  {
    WellFormedCaught(w);
    BurstDelivered(d, w);
  }

  predicate IsFrameLine(l: seq<Token>) { AllOctets(l) && WellFormed(BytesOf(l)) }

  predicate AllFrames(ls: seq<seq<Token>>) { forall i :: 0 <= i < |ls| ==> IsFrameLine(ls[i]) }

  /** The frames that find a block, as they came. */
  function Delivered(ls: seq<seq<Token>>): (fs: seq<Frame>)
    requires AllFrames(ls)
    ensures (forall i :: 0 <= i < |ls| ==> ls[i][0].blockFree) ==>
      |fs| == |ls| && forall i :: 0 <= i < |ls| ==> fs[i] == Standard(BytesOf(ls[i]))
  {
    if ls == [] then [] else
      var l := ls[|ls| - 1];
      assert WellFormed(BytesOf(l));
      Delivered(ls[..|ls| - 1]) + if l[0].blockFree then [Standard(BytesOf(l))] else []
  }

  lemma FrameLineHeard(l: seq<Token>)
    requires IsFrameLine(l)
    ensures !Broken(l) && Heard(l) == if l[0].blockFree then BytesOf(l) else []
  {
    assert Begins(l[0]) && StartOf(l) == 0;
    assert FromStartOn(l) == l && Leading(l) == |l| && l[..|l|] == l;
  }

  lemma {:induction false} FramesHeard(ls: seq<seq<Token>>)
    requires AllFrames(ls)
    ensures !Deaf(ls) && StreamUp(ls) == Delivered(ls)
  {
    if ls != [] {
      var l := ls[|ls| - 1];
      FrameLineHeard(l);
      WellFormedCaught(BytesOf(l));
      FramesHeard(ls[..|ls| - 1]);
      DeafStep(ls);
    }
  }

  /**
    * Well-formed frames, one silence apart, are all delivered but those that find no pool block, unchanged
    * and in order, with exactly the acknowledges due.
    */
  lemma StreamDelivered(d: Driver, ls: seq<seq<Token>>)
    requires d.mode.Idle? && d.queue == [] && AllFrames(ls)
    ensures Run(d, Stream(ls)) == d.(up := d.up + Delivered(ls), uart := d.uart + StreamAcks(ls))
  {
    LinesDelivered(d, ls);
    FramesHeard(ls);
  }

  /** What the getters say about a frame the device must acknowledge. */
  predicate ForUs(w: Bytes) {
    STANDARD.Fits(w) && (DstAddr(STANDARD, w).Group? || DstAddr(STANDARD, w).raw == ADDRESS)
  }

  function CountForUs(ls: seq<seq<Token>>): nat
    requires AllFrames(ls)
  {
    if ls == [] then 0 else
      var l := ls[|ls| - 1];
      CountForUs(ls[..|ls| - 1]) + if l[0].blockFree && ForUs(BytesOf(l)) then 1 else 0
  }

  lemma AcksOfFrame(w: Bytes)
    requires WellFormed(w)
    ensures Acks(false, w) == if ForUs(w) then [0x11] else []
  {
  }

  /** One acknowledge, 0x11, for each frame that finds a block and is to a group or to this device, none for others. */
  lemma {:induction false} AckCount(ls: seq<seq<Token>>)
    requires AllFrames(ls)
    ensures StreamAcks(ls) == seq(CountForUs(ls), _ => 0x11)
  {
    if ls != [] {
      var l := ls[|ls| - 1];
      AckCount(ls[..|ls| - 1]);
      FramesHeard(ls[..|ls| - 1]);
      FrameLineHeard(l);
      WellFormedCaught(BytesOf(l));
      AcksOfFrame(BytesOf(l));
    }
  }

  /** After any garbage, two silences are enough: every frame of the stream behind them that finds a block arrives. */
  lemma RecoversAndDelivers(d: Driver, noise: seq<Token>, ls: seq<seq<Token>>)
    requires ReceiveState(d) && Receiving(noise)
    requires AllFrames(ls)
    ensures var e := Run(d, noise + [Silence, Silence]);
            Run(d, noise + [Silence, Silence] + Stream(ls))
              == e.(up := e.up + Delivered(ls), uart := e.uart + StreamAcks(ls))
  {
    SelfStabilises(d, noise);
    RunConcat(d, noise + [Silence, Silence], Stream(ls));
    StreamDelivered(Run(d, noise + [Silence, Silence]), ls);
  }

  /**
    * No extended frame survives acceptance: its length octet, which is the low octet of its destination, always
    * changes, to one that stands for a length of 7, and no other octet does.
    */
  lemma ExtendedFrameDamaged(w: Bytes)
    requires Accepts(true, w)
    ensures Received(true, w).bytes != w
    ensures Received(true, w).Destination() != DstAddr(EXTENDED, w)
    ensures Length(EXTENDED, Received(true, w).bytes) == 7 && |Received(true, w).bytes| == |w|
    ensures forall i :: 0 <= i < |w| && i != LG_FIELD ==> Received(true, w).bytes[i] == w[i]
  {
    var r := Received(true, w).bytes;
    var x := w[LG_FIELD];
    assert x != 0xFE by { WrappedLength(x); }
    WrappedLength(0xFE);
    var h := w[4] as bv16 << 8;
    assert r[4] == w[4] && r[LG_FIELD] == 0xFE;
    assert h | x as bv16 != h | 0xFE by { LowOctetDiffers(w[4], x); }
  }

  lemma WrappedLength(x: bv8)
    ensures x == 0xFE ==> (x + 9) as nat == 7
  {
  }

  lemma LowOctetDiffers(high: bv8, x: bv8)
    requires x != 0xFE
    ensures (high as bv16 << 8) | x as bv16 != (high as bv16 << 8) | 0xFE
  {
  }
}
