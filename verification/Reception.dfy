/** Safety of the receiver on any input: transmissions, read errors, silences and empty pools interleaved. */
module Reception {
  import opened Frames
  import opened DriverMachine
  import opened Lines

  /** The octets among the tokens. */
  function Line(ts: seq<Token>): Bytes {
    if ts == [] then [] else
      var t := ts[|ts| - 1];
      Line(ts[..|ts| - 1]) + if t.Byte? then [t.b] else []
  }

  /** Octets without a silence or a read error among them; frames may be queued for transmission meanwhile. */
  predicate Unbroken(ts: seq<Token>) { forall t :: t in ts ==> t.Byte? || t.Request? }

  /** An unbroken stretch whose octets are a frame, complete and intact, and `f` what is handed up for them. */
  predicate Carries(ts: seq<Token>, f: Frame) {
    Unbroken(ts) && IsFrame(Line(ts)) && f == Received(IsExtendedStart(Line(ts)[0]), Line(ts))
  }

  /** `f` is carried by `ts[a..b]`, with a silence behind it. */
  predicate Ends(ts: seq<Token>, a: nat, b: nat, f: Frame) {
    a < b < |ts| && ts[b] == Silence && Carries(ts[a..b], f)
  }

  /**
    * Each of `fs` is carried by a stretch of the input, with a silence behind it; in order, and no two
    * stretches overlap.
    */
  ghost predicate Explained(ts: seq<Token>, fs: seq<Frame>)
    decreases |fs|
  {
    if fs == [] then true else
      var f, before := fs[|fs| - 1], fs[..|fs| - 1];
      exists a: nat, b: nat :: Ends(ts, a, b, f) && Explained(ts[..a], before)
  }

  lemma ExplainedLater(ts: seq<Token>, more: seq<Token>, fs: seq<Frame>)
    requires ts <= more && Explained(ts, fs)
    ensures Explained(more, fs)
  {
    if fs != [] {
      var f, before := fs[|fs| - 1], fs[..|fs| - 1];
      var a: nat, b: nat :| Ends(ts, a, b, f) && Explained(ts[..a], before);
      assert more[a..b] == ts[a..b] && more[..a] == ts[..a] && more[b] == ts[b];
      assert Ends(more, a, b, f);
    }
  }

  lemma EndsNow(ts: seq<Token>, a: nat, f: Frame)
    requires a < |ts| && Carries(ts[a..], f)
    ensures Ends(ts + [Silence], a, |ts|, f)
  {
    assert (ts + [Silence])[a..|ts|] == ts[a..];
  }

  lemma ExplainedNow(ts: seq<Token>, a: nat, b: nat, fs: seq<Frame>, f: Frame)
    requires Ends(ts, a, b, f) && Explained(ts[..a], fs)
    ensures Explained(ts, fs + [f])
  {
    var all := fs + [f];
    assert all[..|all| - 1] == fs && all[|all| - 1] == f;
    assert Ends(ts, a, b, all[|all| - 1]) && Explained(ts[..a], all[..|all| - 1]);
  }

  // Invariant

  /** The reception under way began at `a` and has read `got`. */
  predicate Since(ts: seq<Token>, a: nat, extended: bool, got: Bytes) {
    && a < |ts| && Unbroken(ts[a..]) && Line(ts[a..]) == got
    && got != [] && IsFrameStart(got[0]) && extended == IsExtendedStart(got[0])
  }

  ghost predicate UnderWay(ts: seq<Token>, extended: bool, got: Bytes, up: seq<Frame>) {
    exists a: nat :: Since(ts, a, extended, got) && Explained(ts[..a], up)
  }

  ghost predicate Inv(ts: seq<Token>, d: Driver) {
    match d.mode
    case Header(ext, got) => UnderWay(ts, ext, got, d.up)
    case Payload(ext, got) => UnderWay(ts, ext, got, d.up)
    case _ => Explained(ts, d.up)
  }

  lemma Begins(ts: seq<Token>, t: Token, up: seq<Frame>)
    requires Explained(ts, up) && t.Byte? && IsFrameStart(t.b)
    ensures UnderWay(ts + [t], IsExtendedStart(t.b), [t.b], up)
  {
    var more := ts + [t];
    assert more[|ts|..] == [t] && more[..|ts|] == ts;
    assert [t][..0] == [] && Line([t]) == [t.b];
    assert Since(more, |ts|, IsExtendedStart(t.b), [t.b]);
  }

  lemma Continues(ts: seq<Token>, t: Token, extended: bool, got: Bytes, up: seq<Frame>)
    requires UnderWay(ts, extended, got, up) && (t.Byte? || t.Request?)
    ensures UnderWay(ts + [t], extended, got + (if t.Byte? then [t.b] else []), up)
  {
    var a: nat :| Since(ts, a, extended, got) && Explained(ts[..a], up);
    var more := ts + [t];
    assert more[a..] == ts[a..] + [t] && more[..a] == ts[..a];
    assert more[a..][..|more[a..]| - 1] == ts[a..];
    assert Since(more, a, extended, got + (if t.Byte? then [t.b] else []));
  }

  lemma Abandoned(ts: seq<Token>, t: Token, extended: bool, got: Bytes, up: seq<Frame>)
    requires UnderWay(ts, extended, got, up)
    ensures Explained(ts + [t], up)
  {
    var a: nat :| Since(ts, a, extended, got) && Explained(ts[..a], up);
    ExplainedLater(ts[..a], ts + [t], up);
  }

  lemma Completed(ts: seq<Token>, extended: bool, got: Bytes, up: seq<Frame>)
    requires UnderWay(ts, extended, got, up) && Accepts(extended, got)
    ensures Explained(ts + [Silence], up + [Received(extended, got)])
  {
    var a: nat :| Since(ts, a, extended, got) && Explained(ts[..a], up);
    var more := ts + [Silence];
    EndsNow(ts, a, Received(extended, got));
    assert more[..a] == ts[..a];
    ExplainedNow(more, a, |ts|, up, Received(extended, got));
  }

  lemma HeaderStep(ts: seq<Token>, t: Token, d: Driver)
    requires d.mode.Header? && Inv(ts, d)
    ensures Inv(ts + [t], React(d, t))
  {
    if t.Byte? || t.Request? {
      Continues(ts, t, d.mode.extended, d.mode.got, d.up);
    } else {
      Abandoned(ts, t, d.mode.extended, d.mode.got, d.up);
    }
  }

  lemma PayloadStep(ts: seq<Token>, t: Token, d: Driver)
    requires d.mode.Payload? && Inv(ts, d)
    ensures Inv(ts + [t], React(d, t))
  {
    var ext, got := d.mode.extended, d.mode.got;
    Abandoned(ts, t, ext, got, d.up);
    if t.Byte? || t.Request? {
      Continues(ts, t, ext, got, d.up);
      if t.Byte? && |got| + 1 >= Format(ext).maxSize {
        LengthBelowMax(ext, got + [t.b]);
      }
    } else if t.Silence? && Accepts(ext, got) {
      Completed(ts, ext, got, d.up);
    }
  }

  lemma OtherReacts(d: Driver, t: Token)
    requires !d.mode.Header? && !d.mode.Payload?
    ensures var e := React(d, t);
            && e.up == d.up && !e.mode.Payload?
            && (e.mode.Header? ==> t.Byte? && IsFrameStart(t.b) && e.mode == Header(IsExtendedStart(t.b), [t.b]))
  {
  }

  lemma OtherStep(ts: seq<Token>, t: Token, d: Driver)
    requires !d.mode.Header? && !d.mode.Payload? && Inv(ts, d)
    ensures Inv(ts + [t], React(d, t))
  {
    OtherReacts(d, t);
    if React(d, t).mode.Header? {
      Begins(ts, t, d.up);
    } else {
      ExplainedLater(ts, ts + [t], d.up);
    }
  }

  lemma StepKeepsInv(ts: seq<Token>, t: Token, d: Driver)
    requires Inv(ts, d)
    ensures Inv(ts + [t], Step(d, t))
  {
    if d.mode.Header? {
      HeaderStep(ts, t, d);
    } else if d.mode.Payload? {
      PayloadStep(ts, t, d);
    } else {
      OtherStep(ts, t, d);
    }
  }

  lemma {:induction false} RunKeepsInv(ts: seq<Token>)
    ensures Inv(ts, Run(START, ts))
  {
    if ts != [] {
      var n := |ts| - 1;
      RunKeepsInv(ts[..n]);
      StepKeepsInv(ts[..n], ts[n], Run(START, ts[..n]));
      assert ts[..n] + [ts[n]] == ts;
    }
  }

  /**
    * On every input from start, nothing is made up: each frame handed up is a complete and intact frame
    * that arrived as consecutive octets and was ended by a silence; later frames arrived later, and no
    * octet is used twice.
    */
  lemma NothingMadeUp(ts: seq<Token>)
    ensures Explained(ts, Run(START, ts).up)
  {
    var d := Run(START, ts);
    RunKeepsInv(ts);
    if d.mode.Header? || d.mode.Payload? {
      var a: nat :| Since(ts, a, d.mode.extended, d.mode.got) && Explained(ts[..a], d.up);
      ExplainedLater(ts[..a], ts, d.up);
    }
  }
}
