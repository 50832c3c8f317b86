/**
  * What any sequence of setter calls does to what the getters read.
  *
  * The setters OR their value in, so they are right only because header fields occupy
  * separate bits and a fresh frame is zero. `SetterEffect` gives the exact effect of one
  * call on all header fields, `SettersReadBack` the consequence for whole call sequences.
  */
module SetterAlgebra {
  import opened Frames

  datatype Op =
    | PriorityOp(p: Priority)
    | RepeatedOp(notRepeated: bool)
    | AddrTypeOp(group: bool)
    | HopCountOp(h: bv8)
    | SrcOp(src: bv16)
    | DstOp(dst: Address)
    | Tpci6Op(t6: bv8)
    | Tpci8Op(t8: bv8)
    | SeqOp(sq: bv8)
    | Apci4Op(a4: bv16)
    | Apci10Op(a10: bv16)

  function Apply(l: Layout, s: Bytes, op: Op): (r: Bytes)
    requires l.Fits(s)
    ensures |r| == |s|
  {
    match op
    case PriorityOp(p) => SetPriority(s, p)
    case RepeatedOp(n) => SetRepeated(s, n)
    case AddrTypeOp(g) => SetAddrType(l, s, g)
    case HopCountOp(h) => SetHopCount(l, s, h)
    case SrcOp(a) => SetSrcAddr(l, s, a)
    case DstOp(a) => SetDstAddr(l, s, a)
    case Tpci6Op(v) => SetTpci6(l, s, v)
    case Tpci8Op(v) => SetTpci8(l, s, v)
    case SeqOp(v) => SetTpciSeq(l, s, v)
    case Apci4Op(v) => SetApci4(l, s, v)
    case Apci10Op(v) => SetApci10(l, s, v)
  }

  function ApplyAll(l: Layout, s: Bytes, ops: seq<Op>): (r: Bytes)
    requires l.Fits(s)
    ensures |r| == |s|
    decreases ops
  {
    if ops == [] then s else ApplyAll(l, Apply(l, s, ops[0]), ops[1..])
  }

  // The header as the getters see it, octet by octet

  datatype CtrlView = CtrlView(prio: bv8, repeated: bv8)
  datatype AtView = AtView(at: bv8, hop: bv8)
  /** The TPCI octet holds its code (top three bits), the sequence number and the high APCI bits. */
  datatype TpduView = TpduView(code: bv8, sq: bv8, apci: bv16)
  datatype Header = Header(ctrl: CtrlView, kind: AtView, src: bv16, dst: bv16, tpdu: TpduView)

  const BLANK := Header(CtrlView(0, 0), AtView(0, 0), 0, 0, TpduView(0, 0, 0))

  function ViewCtrl(x: bv8): CtrlView { CtrlView((x >> 2) & 0x3, (x >> 5) & 0x1) }
  function ViewAt(x: bv8): AtView { AtView(x >> 7, (x >> 4) & 0x7) }
  function ViewTpdu(x: bv8, y: bv8): TpduView {
    TpduView(x >> 5, (x >> 2) & 0x7, ((x as bv16 & 0x3) << 8) | y as bv16)
  }

  function View(l: Layout, s: Bytes): Header
    requires l.Fits(s)
  {
    Header(ViewCtrl(s[CTRL]), ViewAt(s[l.at]), ReadAddr(s, l.Src()), ReadAddr(s, l.Dst()),
           ViewTpdu(s[l.Tpci()], s[l.Tpci() + 1]))
  }

  /** A value ORed into the TPCI octet, spread over the fields that share it. */
  function JoinTpci(t: TpduView, b: bv8): TpduView {
    TpduView(t.code | (b >> 5), t.sq | ((b >> 2) & 0x7), t.apci | ((b & 0x3) as bv16 << 8))
  }

  function JoinApci(t: TpduView, b: bv8): TpduView { t.(apci := t.apci | b as bv16) }

  function UpdateTpci(h: Header, b: bv8): Header { h.(tpdu := JoinTpci(h.tpdu, b)) }

  function UpdateApci(h: Header, high: bv8, low: bv8): Header { h.(tpdu := JoinApci(JoinTpci(h.tpdu, high), low)) }

  function Update(h: Header, op: Op): Header {
    match op
    case PriorityOp(p) => h.(ctrl := h.ctrl.(prio := h.ctrl.prio | p.Code()))
    case RepeatedOp(n) => h.(ctrl := h.ctrl.(repeated := h.ctrl.repeated | if n then 1 else 0))
    case AddrTypeOp(g) => h.(kind := h.kind.(at := h.kind.at | if g then 1 else 0))
    case HopCountOp(v) => h.(kind := h.kind.(hop := h.kind.hop | (v & 0x7)))
    case SrcOp(a) => h.(src := a)
    case DstOp(a) => h.(dst := a.raw, kind := h.kind.(at := h.kind.at | a.TypeCode()))
    case Tpci6Op(v) => UpdateTpci(h, v << 2)
    case Tpci8Op(v) => h.(tpdu := JoinTpci(TpduView(0, 0, h.tpdu.apci & 0xFF), v))
    case SeqOp(v) => h.(tpdu := h.tpdu.(sq := h.tpdu.sq | (v & 0x7)))
    case Apci4Op(v) => UpdateApci(h, Apci4High(v), Apci4Low(v))
    case Apci10Op(v) => UpdateApci(h, Apci10High(v), Apci10Low(v))
  }

  function UpdateAll(h: Header, ops: seq<Op>): Header
    decreases ops
  {
    if ops == [] then h else UpdateAll(Update(h, ops[0]), ops[1..])
  }

  // One setter

  /** The view after one octet `i`, not an address octet, is replaced by `b`. */
  function Replace(l: Layout, s: Bytes, i: nat, b: bv8): Header
    requires l.Fits(s) && l.FieldsDisjoint()
    requires i == CTRL || i == l.at || i == l.Tpci() || i == l.Tpci() + 1
  {
    var h := View(l, s);
    if i == CTRL then h.(ctrl := ViewCtrl(b))
    else if i == l.at then h.(kind := ViewAt(b))
    else if i == l.Tpci() then h.(tpdu := ViewTpdu(b, s[i + 1]))
    else h.(tpdu := ViewTpdu(s[l.Tpci()], b))
  }

  lemma ReplaceView(l: Layout, s: Bytes, i: nat, b: bv8)
    requires l.Fits(s) && l.FieldsDisjoint()
    requires i == CTRL || i == l.at || i == l.Tpci() || i == l.Tpci() + 1
    ensures View(l, s[i := b]) == Replace(l, s, i, b)
  {
    var t := s[i := b];
    assert ReadAddr(t, l.Src()) == ReadAddr(s, l.Src());
    assert ReadAddr(t, l.Dst()) == ReadAddr(s, l.Dst());
  }

  lemma AddrReadBack(s: Bytes, i: nat, a: bv16)
    requires i + 1 < |s|
    ensures ReadAddr(WriteAddr(s, i, a), i) == a
  {
  }

  lemma SrcView(l: Layout, s: Bytes, a: bv16)
    requires l.Fits(s) && l.FieldsDisjoint()
    ensures View(l, WriteAddr(s, l.Src(), a)) == View(l, s).(src := a)
  {
    AddrReadBack(s, l.Src(), a);
    assert ReadAddr(WriteAddr(s, l.Src(), a), l.Dst()) == ReadAddr(s, l.Dst());
  }

  lemma DstView(l: Layout, s: Bytes, a: bv16)
    requires l.Fits(s) && l.FieldsDisjoint()
    ensures View(l, WriteAddr(s, l.Dst(), a)) == View(l, s).(dst := a)
  {
    AddrReadBack(s, l.Dst(), a);
    assert ReadAddr(WriteAddr(s, l.Dst(), a), l.Src()) == ReadAddr(s, l.Src());
  }

  lemma OrCtrlOctet(x: bv8, b: bv8)
    ensures ViewCtrl(x | b) == CtrlView(ViewCtrl(x).prio | ((b >> 2) & 0x3), ViewCtrl(x).repeated | ((b >> 5) & 0x1))
  {
  }

  lemma OrAtOctet(x: bv8, b: bv8)
    ensures ViewAt(x | b) == AtView(ViewAt(x).at | (b >> 7), ViewAt(x).hop | ((b >> 4) & 0x7))
  {
  }

  lemma OrTpciOctet(x: bv8, y: bv8, b: bv8)
    ensures ViewTpdu(x | b, y) == JoinTpci(ViewTpdu(x, y), b)
    ensures ViewTpdu(b, y) == JoinTpci(TpduView(0, 0, ViewTpdu(x, y).apci & 0xFF), b)
  {
  }

  lemma OrTpduOctets(x: bv8, y: bv8, hi: bv8, lo: bv8)
    ensures ViewTpdu(x | hi, y | lo) == JoinApci(JoinTpci(ViewTpdu(x, y), hi), lo)
  {
    OrTpciOctet(x, y | lo, hi);
    assert ViewTpdu(x, y | lo) == JoinApci(ViewTpdu(x, y), lo);
  }

  lemma OrTpciEffect(l: Layout, s: Bytes, b: bv8)
    requires l.Fits(s) && l.FieldsDisjoint()
    ensures View(l, OrAt(s, l.Tpci(), b)) == UpdateTpci(View(l, s), b)
  {
    ReplaceView(l, s, l.Tpci(), s[l.Tpci()] | b);
    OrTpciOctet(s[l.Tpci()], s[l.Tpci() + 1], b);
  }

  lemma ReplaceTpdu(l: Layout, s: Bytes, x: bv8, y: bv8)
    requires l.Fits(s) && l.FieldsDisjoint()
    ensures View(l, s[l.Tpci() := x][l.Tpci() + 1 := y]) == View(l, s).(tpdu := ViewTpdu(x, y))
  {
    ReplaceView(l, s, l.Tpci(), x);
    ReplaceView(l, s[l.Tpci() := x], l.Tpci() + 1, y);
  }

  lemma OrApciEffect(l: Layout, s: Bytes, hi: bv8, lo: bv8)
    requires l.Fits(s) && l.FieldsDisjoint()
    ensures View(l, OrApci(l, s, hi, lo)) == UpdateApci(View(l, s), hi, lo)
  {
    var x, y := s[l.Tpci()], s[l.Tpci() + 1];
    ReplaceTpdu(l, s, x | hi, y | lo);
    OrTpduOctets(x, y, hi, lo);
  }

  lemma OrAtEffect(l: Layout, s: Bytes, b: bv8)
    requires l.Fits(s) && l.FieldsDisjoint()
    ensures var t := View(l, s).kind;
            View(l, OrAt(s, l.at, b)) == View(l, s).(kind := AtView(t.at | (b >> 7), t.hop | ((b >> 4) & 0x7)))
  {
    ReplaceView(l, s, l.at, s[l.at] | b);
    OrAtOctet(s[l.at], b);
  }

  lemma OrCtrlEffect(l: Layout, s: Bytes, b: bv8)
    requires l.Fits(s) && l.FieldsDisjoint()
    ensures var c := View(l, s).ctrl;
            View(l, OrAt(s, CTRL, b))
              == View(l, s).(ctrl := CtrlView(c.prio | ((b >> 2) & 0x3), c.repeated | ((b >> 5) & 0x1)))
  {
    ReplaceView(l, s, CTRL, s[CTRL] | b);
    OrCtrlOctet(s[CTRL], b);
  }

  lemma ShiftedField(v: bv8)
    ensures ((v & 0x7) << 4) >> 7 == 0 && (((v & 0x7) << 4) >> 4) & 0x7 == v & 0x7
    ensures ((v & 0x7) << 2) >> 5 == 0 && (((v & 0x7) << 2) >> 2) & 0x7 == v & 0x7 && ((v & 0x7) << 2) & 0x3 == 0
  {
  }

  lemma OctetSetterEffect(l: Layout, s: Bytes, op: Op)
    requires l.Fits(s) && l.FieldsDisjoint()
    requires op.PriorityOp? || op.RepeatedOp? || op.AddrTypeOp? || op.HopCountOp?
    ensures View(l, Apply(l, s, op)) == Update(View(l, s), op)
  {
    match op
    case PriorityOp(p) => OrCtrlEffect(l, s, p.Code() << 2);
    case RepeatedOp(n) => OrCtrlEffect(l, s, (if n then 1 else 0) << 5);
    case AddrTypeOp(g) => OrAtEffect(l, s, (if g then 1 else 0) << 7);
    case HopCountOp(h) =>
      OrAtEffect(l, s, (h & 0x7) << 4);
      ShiftedField(h);
  }

  lemma SeqSetterEffect(l: Layout, s: Bytes, v: bv8)
    requires l.Fits(s) && l.FieldsDisjoint()
    ensures View(l, SetTpciSeq(l, s, v)) == Update(View(l, s), SeqOp(v))
  {
    var h := View(l, s);
    OrTpciEffect(l, s, (v & 0x7) << 2);
    ShiftedField(v);
    assert JoinTpci(h.tpdu, (v & 0x7) << 2) == h.tpdu.(sq := h.tpdu.sq | (v & 0x7));
  }

  lemma TpciOverwriteEffect(l: Layout, s: Bytes, v: bv8)
    requires l.Fits(s) && l.FieldsDisjoint()
    ensures View(l, SetTpci8(l, s, v)) == Update(View(l, s), Tpci8Op(v))
  {
    var h := View(l, s);
    var x, y := s[l.Tpci()], s[l.Tpci() + 1];
    ReplaceView(l, s, l.Tpci(), v);
    assert View(l, SetTpci8(l, s, v)) == h.(tpdu := ViewTpdu(v, y));
    OrTpciOctet(x, y, v);
    assert h.tpdu == ViewTpdu(x, y);
  }

  lemma TpciSetterEffect(l: Layout, s: Bytes, op: Op)
    requires l.Fits(s) && l.FieldsDisjoint()
    requires op.Tpci6Op? || op.Tpci8Op? || op.SeqOp?
    ensures View(l, Apply(l, s, op)) == Update(View(l, s), op)
  {
    match op
    case Tpci6Op(v) => OrTpciEffect(l, s, v << 2);
    case Tpci8Op(v) => TpciOverwriteEffect(l, s, v);
    case SeqOp(v) => SeqSetterEffect(l, s, v);
  }

  lemma ApciOpEffect(l: Layout, s: Bytes, op: Op)
    requires l.Fits(s) && l.FieldsDisjoint()
    requires op.Apci4Op? || op.Apci10Op?
    ensures View(l, Apply(l, s, op)) == Update(View(l, s), op)
  {
    match op
    case Apci4Op(v) => OrApciEffect(l, s, Apci4High(v), Apci4Low(v));
    case Apci10Op(v) => OrApciEffect(l, s, Apci10High(v), Apci10Low(v));
  }

  lemma AddrOpEffect(l: Layout, s: Bytes, op: Op)
    requires l.Fits(s) && l.FieldsDisjoint()
    requires op.SrcOp? || op.DstOp?
    ensures View(l, Apply(l, s, op)) == Update(View(l, s), op)
  {
    match op
    case SrcOp(a) => SrcView(l, s, a);
    case DstOp(a) =>
      var g := AddrTypeOp(a.Group?);
      OctetSetterEffect(l, s, g);
      DstView(l, Apply(l, s, g), a.raw);
      assert View(l, SetDstAddr(l, s, a)) == Update(View(l, s), g).(dst := a.raw);
  }

  /** The exact effect of any setter on every header field, for any value, spill into neighbours included. */
  lemma SetterEffect(l: Layout, s: Bytes, op: Op)
    requires l.Fits(s) && l.FieldsDisjoint()
    ensures View(l, Apply(l, s, op)) == Update(View(l, s), op)
  {
    if op.SrcOp? || op.DstOp? {
      AddrOpEffect(l, s, op);
    } else if op.Tpci6Op? || op.Tpci8Op? || op.SeqOp? {
      TpciSetterEffect(l, s, op);
    } else if op.Apci4Op? || op.Apci10Op? {
      ApciOpEffect(l, s, op);
    } else {
      OctetSetterEffect(l, s, op);
    }
  }

  /** No setter touches what makes a frame recognisable, its length nibble or its payload. */
  lemma SetterFrame(l: Layout, s: Bytes, op: Op)
    requires l.Fits(s) && l.FieldsDisjoint()
    ensures Apply(l, s, op)[CTRL] & FRAME_TYPE_MASK == s[CTRL] & FRAME_TYPE_MASK
    ensures l.LengthApart() ==> Apply(l, s, op)[LG_FIELD] & 0xF == s[LG_FIELD] & 0xF
    ensures forall i :: l.Header() < i < |s| && i != l.at ==> Apply(l, s, op)[i] == s[i]
  {
    match op
    case PriorityOp(p) =>
      var x, c := s[CTRL], p.Code();
      assert c <= 3 ==> (x | (c << 2)) & 0xd3 == x & 0xd3;
    case _ =>
  }

  // Sequences of setters

  datatype Field = PriorityF | RepeatedF | AddrTypeF | HopF | SrcF | DstF | CodeF | SeqF | ApciF

  /** `g` and `h` read the same in field `f`. */
  predicate Same(g: Header, h: Header, f: Field) {
    match f
    case PriorityF => g.ctrl.prio == h.ctrl.prio
    case RepeatedF => g.ctrl.repeated == h.ctrl.repeated
    case AddrTypeF => g.kind.at == h.kind.at
    case HopF => g.kind.hop == h.kind.hop
    case SrcF => g.src == h.src
    case DstF => g.dst == h.dst
    case CodeF => g.tpdu.code == h.tpdu.code
    case SeqF => g.tpdu.sq == h.tpdu.sq
    case ApciF => g.tpdu.apci == h.tpdu.apci
  }

  predicate Blank(h: Header, f: Field) { Same(h, BLANK, f) }

  /** The fields a call writes; a TPCI value writes sequence number or APCI only with bits it has there. */
  function Touches(op: Op): set<Field> {
    match op
    case PriorityOp(_) => {PriorityF}
    case RepeatedOp(_) => {RepeatedF}
    case AddrTypeOp(_) => {AddrTypeF}
    case HopCountOp(_) => {HopF}
    case SrcOp(_) => {SrcF}
    case DstOp(_) => {DstF, AddrTypeF}
    case Tpci6Op(v) => {CodeF} + if v & 0x7 != 0 then {SeqF} else {}
    case Tpci8Op(v) => {CodeF} + (if (v >> 2) & 0x7 != 0 then {SeqF} else {}) + if v & 0x3 != 0 then {ApciF} else {}
    case SeqOp(_) => {SeqF}
    case Apci4Op(_) => {ApciF}
    case Apci10Op(_) => {ApciF}
  }

  /** The fields that must still be blank: those written, and the whole octet for an overwriting call. */
  function Needs(op: Op): set<Field> {
    if op.Tpci8Op? then {CodeF, SeqF, ApciF} else Touches(op)
  }

  predicate InRange(op: Op) {
    match op
    case HopCountOp(v) => v <= 7
    case Tpci6Op(v) => v < 64
    case SeqOp(v) => v <= 7
    case Apci4Op(v) => v < 16
    case Apci10Op(v) => v < 1024
    case _ => true
  }

  predicate Admissible(done: set<Field>, ops: seq<Op>)
    decreases ops
  {
    ops == [] || (InRange(ops[0]) && Needs(ops[0]) !! done && Admissible(done + Touches(ops[0]), ops[1..]))
  }

  function TouchedBy(ops: seq<Op>): set<Field> {
    if ops == [] then {} else Touches(ops[0]) + TouchedBy(ops[1..])
  }

  predicate Holds(h: Header, op: Op) {
    match op
    case PriorityOp(p) => h.ctrl.prio == p.Code()
    case RepeatedOp(n) => h.ctrl.repeated == if n then 1 else 0
    case AddrTypeOp(g) => h.kind.at == if g then 1 else 0
    case HopCountOp(v) => h.kind.hop == v
    case SrcOp(a) => h.src == a
    case DstOp(a) => h.dst == a.raw && h.kind.at == a.TypeCode()
    case Tpci6Op(v) => h.tpdu.code == v >> 3 && (v & 0x7 != 0 ==> h.tpdu.sq == v & 0x7)
    case Tpci8Op(v) => && h.tpdu.code == v >> 5 && ((v >> 2) & 0x7 != 0 ==> h.tpdu.sq == (v >> 2) & 0x7)
                       && (v & 0x3 != 0 ==> h.tpdu.apci == (v & 0x3) as bv16 << 8)
    case SeqOp(v) => h.tpdu.sq == v
    case Apci4Op(v) => h.tpdu.apci == v << 6
    case Apci10Op(v) => h.tpdu.apci == v
  }

  lemma ApciValues(v: bv16)
    ensures v < 16 ==> Low8(v >> 2) >> 5 == 0 && (Low8(v >> 2) >> 2) & 0x7 == 0
    ensures v < 16 ==> ((Low8(v >> 2) & 0x3) as bv16 << 8) | Low8((v & 0x3) << 6) as bv16 == v << 6
    ensures v < 1024 ==> Low8(v >> 8) >> 5 == 0 && (Low8(v >> 8) >> 2) & 0x7 == 0
    ensures v < 1024 ==> ((Low8(v >> 8) & 0x3) as bv16 << 8) | Low8(v & 0xFF) as bv16 == v
  {
  }

  lemma Tpci6Value(v: bv8)
    requires v < 64
    ensures (v << 2) >> 5 == v >> 3 && ((v << 2) >> 2) & 0x7 == v & 0x7 && (v << 2) & 0x3 == 0
  {
  }

  lemma Tpci6UpdateStep(h: Header, v: bv8)
    requires v < 64 && forall f :: f in Needs(Tpci6Op(v)) ==> Blank(h, f)
    ensures Holds(Update(h, Tpci6Op(v)), Tpci6Op(v))
    ensures forall f :: f !in Touches(Tpci6Op(v)) ==> Same(Update(h, Tpci6Op(v)), h, f)
  {
    assert Blank(h, CodeF) && (v & 0x7 != 0 ==> Blank(h, SeqF));
    Tpci6Value(v);
  }

  lemma Tpci8UpdateStep(h: Header, v: bv8)
    requires forall f :: f in Needs(Tpci8Op(v)) ==> Blank(h, f)
    ensures Holds(Update(h, Tpci8Op(v)), Tpci8Op(v))
    ensures forall f :: f !in Touches(Tpci8Op(v)) ==> Same(Update(h, Tpci8Op(v)), h, f)
  {
    assert Blank(h, CodeF) && Blank(h, SeqF) && Blank(h, ApciF);
  }

  lemma TpciUpdateStep(h: Header, op: Op)
    requires op.Tpci6Op? || op.Tpci8Op? || op.SeqOp?
    requires InRange(op) && forall f :: f in Needs(op) ==> Blank(h, f)
    ensures Holds(Update(h, op), op)
    ensures forall f :: f !in Touches(op) ==> Same(Update(h, op), h, f)
  {
    if op.Tpci6Op? {
      Tpci6UpdateStep(h, op.t6);
    } else if op.Tpci8Op? {
      Tpci8UpdateStep(h, op.t8);
    } else {
      assert Blank(h, SeqF);
    }
  }

  lemma ApciUpdateStep(h: Header, op: Op)
    requires op.Apci4Op? || op.Apci10Op?
    requires InRange(op) && forall f :: f in Needs(op) ==> Blank(h, f)
    ensures Holds(Update(h, op), op)
    ensures forall f :: f !in Touches(op) ==> Same(Update(h, op), h, f)
  {
    assert Blank(h, ApciF);
    ApciValues(if op.Apci4Op? then op.a4 else op.a10);
  }

  lemma UpdateStep(h: Header, op: Op)
    requires InRange(op) && forall f :: f in Needs(op) ==> Blank(h, f)
    ensures Holds(Update(h, op), op)
    ensures forall f :: f !in Touches(op) ==> Same(Update(h, op), h, f)
  {
    if op.Tpci6Op? || op.Tpci8Op? || op.SeqOp? {
      TpciUpdateStep(h, op);
    } else if op.Apci4Op? || op.Apci10Op? {
      ApciUpdateStep(h, op);
    } else {
      assert op.PriorityOp? ==> PriorityF in Needs(op);
      assert op.RepeatedOp? ==> RepeatedF in Needs(op);
      assert op.HopCountOp? ==> HopF in Needs(op);
      assert op.AddrTypeOp? || op.DstOp? ==> AddrTypeF in Needs(op);
    }
  }

  lemma HoldsFrame(g: Header, r: Header, op: Op)
    requires Holds(g, op) && forall f :: f in Touches(op) ==> Same(r, g, f)
    ensures Holds(r, op)
  {
    match op
    case PriorityOp(_) => assert PriorityF in Touches(op);
    case RepeatedOp(_) => assert RepeatedF in Touches(op);
    case AddrTypeOp(_) => assert AddrTypeF in Touches(op);
    case HopCountOp(_) => assert HopF in Touches(op);
    case SrcOp(_) => assert SrcF in Touches(op);
    case DstOp(_) => assert DstF in Touches(op) && AddrTypeF in Touches(op);
    case Tpci6Op(_) => assert CodeF in Touches(op) && (SeqF in Touches(op) ==> Same(r, g, SeqF));
    case Tpci8Op(_) =>
      assert CodeF in Touches(op);
      assert SeqF in Touches(op) ==> Same(r, g, SeqF);
      assert ApciF in Touches(op) ==> Same(r, g, ApciF);
    case SeqOp(_) => assert SeqF in Touches(op);
    case Apci4Op(_) => assert ApciF in Touches(op);
    case Apci10Op(_) => assert ApciF in Touches(op);
  }

  lemma {:induction false} UpdatesReadBack(h: Header, r: Header, done: set<Field>, ops: seq<Op>)
    requires Admissible(done, ops) && forall f :: f !in done ==> Blank(h, f)
    requires r == UpdateAll(h, ops)
    ensures forall f :: f in done ==> Same(r, h, f)
    ensures forall f :: f !in done + TouchedBy(ops) ==> Blank(r, f)
    ensures forall op :: op in ops ==> Holds(r, op)
    decreases ops, 0
  {
    if ops != [] {
      var op := ops[0];
      var g := Update(h, op);
      UpdateStep(h, op);
      FirstUpdate(h, g, r, done, op, ops[1..]);
    }
  }

  lemma {:induction false} FirstUpdate(h: Header, g: Header, r: Header, done: set<Field>, op: Op, rest: seq<Op>)
    requires forall f :: f !in done ==> Blank(h, f)
    requires forall f :: f !in Touches(op) ==> Same(g, h, f)
    requires Holds(g, op) && Touches(op) !! done
    requires Admissible(done + Touches(op), rest) && r == UpdateAll(g, rest)
    ensures forall f :: f in done ==> Same(r, h, f)
    ensures forall f :: f !in done + Touches(op) + TouchedBy(rest) ==> Blank(r, f)
    ensures Holds(r, op) && forall o :: o in rest ==> Holds(r, o)
    decreases rest, 1
  {
    forall f | f !in done + Touches(op) ensures Blank(g, f) { assert Same(g, h, f); }
    UpdatesReadBack(g, r, done + Touches(op), rest);
    HoldsFrame(g, r, op);
    forall f | f in done ensures Same(r, h, f) {
      assert f in done + Touches(op) && f !in Touches(op);
      assert Same(r, g, f) && Same(g, h, f);
    }
  }

  // The setters on a blank frame, seen through the getters

  predicate ReadsBack(l: Layout, s: Bytes, op: Op)
    requires l.Fits(s)
  {
    match op
    case PriorityOp(p) => PriorityOf(s) == p
    case RepeatedOp(n) => RepeatedBit(s) == if n then 1 else 0
    case AddrTypeOp(g) => AddrTypeBit(l, s) == if g then 1 else 0
    case HopCountOp(v) => HopCount(l, s) == v
    case SrcOp(a) => SrcAddr(l, s) == a
    case DstOp(a) => DstAddr(l, s) == a
    case Tpci6Op(v) => Tpci6(l, s) >> 3 == v >> 3 && (v & 0x7 != 0 ==> Tpci6(l, s) == v)
    case Tpci8Op(v) => Tpci8(l, s) >> 5 == v >> 5 && ((v >> 2) & 0x7 != 0 ==> Tpci6(l, s) == v >> 2)
    case SeqOp(v) => TpciSeq(l, s) == v
    case Apci4Op(v) => Apci4(l, s) == v
    case Apci10Op(v) => Apci10(l, s) == v
  }

  lemma HoldsReadsBack(l: Layout, s: Bytes, op: Op)
    requires l.Fits(s) && InRange(op) && Holds(View(l, s), op)
    ensures ReadsBack(l, s, op)
  {
    var x := s[l.Tpci()];
    match op
    case Tpci6Op(v) =>
      assert x >> 5 == v >> 3 && (x >> 2) & 0x7 == v & 0x7 && v < 64 ==> x >> 2 == v;
    case Tpci8Op(v) =>
    case Apci4Op(v) => assert v < 16 ==> (v << 6) >> 6 == v;
    case _ =>
  }

  lemma {:induction false} ApplyAllView(l: Layout, s: Bytes, ops: seq<Op>)
    requires l.Fits(s) && l.FieldsDisjoint()
    ensures View(l, ApplyAll(l, s, ops)) == UpdateAll(View(l, s), ops)
    ensures var r := ApplyAll(l, s, ops);
            && r[CTRL] & FRAME_TYPE_MASK == s[CTRL] & FRAME_TYPE_MASK
            && (l.LengthApart() ==> r[LG_FIELD] & 0xF == s[LG_FIELD] & 0xF)
            && forall i :: l.Header() < i < |s| && i != l.at ==> r[i] == s[i]
    decreases ops
  {
    if ops != [] {
      SetterEffect(l, s, ops[0]);
      SetterFrame(l, s, ops[0]);
      ApplyAllView(l, Apply(l, s, ops[0]), ops[1..]);
    }
  }

  // The TPCI octet, which three fields share

  /** The bits a call leaves in the TPCI octet. */
  function TpciBits(op: Op): bv8 {
    match op
    case Tpci6Op(v) => v << 2
    case Tpci8Op(v) => v
    case SeqOp(v) => v << 2
    case Apci4Op(v) => Apci4High(v)
    case Apci10Op(v) => Apci10High(v)
    case _ => 0
  }

  function AllTpciBits(ops: seq<Op>): bv8
    decreases ops
  {
    if ops == [] then 0 else TpciBits(ops[0]) | AllTpciBits(ops[1..])
  }

  lemma TpciOctetStep(l: Layout, s: Bytes, op: Op)
    requires l.Fits(s) && l.FieldsDisjoint() && InRange(op)
    requires op.Tpci8Op? ==> s[l.Tpci()] == 0
    ensures Apply(l, s, op)[l.Tpci()] == s[l.Tpci()] | TpciBits(op)
  {
    match op
    case Tpci8Op(v) => assert 0 | v == v;
    case SeqOp(v) => assert v <= 7 ==> v & 0x7 == v;
    case _ =>
      var x := s[l.Tpci()];
      assert x | 0 == x;
  }

  lemma BlankTpci(x: bv8, y: bv8)
    requires ViewTpdu(x, y) == TpduView(0, 0, 0)
    ensures x == 0
  {
    assert x >> 5 == 0 && (x >> 2) & 0x7 == 0;
    assert ((x as bv16 & 0x3) << 8) | y as bv16 == 0 ==> x & 0x3 == 0;
  }

  lemma {:induction false} TpciOctet(l: Layout, s: Bytes, done: set<Field>, ops: seq<Op>)
    requires l.Fits(s) && l.FieldsDisjoint()
    requires Admissible(done, ops) && forall f :: f !in done ==> Blank(View(l, s), f)
    ensures Tpci8(l, ApplyAll(l, s, ops)) == Tpci8(l, s) | AllTpciBits(ops)
    decreases ops
  {
    var x := s[l.Tpci()];
    if ops == [] {
      assert x | 0 == x;
    } else {
      var op := ops[0];
      var t := Apply(l, s, op);
      if op.Tpci8Op? {
        assert CodeF in Needs(op) && SeqF in Needs(op) && ApciF in Needs(op);
        assert Blank(View(l, s), CodeF) && Blank(View(l, s), SeqF) && Blank(View(l, s), ApciF);
        BlankTpci(x, s[l.Tpci() + 1]);
      }
      TpciOctetStep(l, s, op);
      SetterEffect(l, s, op);
      StaysBlank(View(l, s), done, op);
      TpciOctet(l, t, done + Touches(op), ops[1..]);
      OrAssociates(x, TpciBits(op), AllTpciBits(ops[1..]));
    }
  }

  lemma TpciOfBlank(l: Layout, s: Bytes, ops: seq<Op>)
    requires l.Fits(s) && l.FieldsDisjoint()
    requires View(l, s) == BLANK && Admissible({}, ops)
    ensures Tpci8(l, ApplyAll(l, s, ops)) == AllTpciBits(ops)
  {
    BlankTpci(s[l.Tpci()], s[l.Tpci() + 1]);
    TpciOctet(l, s, {}, ops);
    var b := AllTpciBits(ops);
    assert 0 | b == b;
  }

  lemma {:induction false} OnlyTpciBits(ops: seq<Op>, i: nat)
    requires i < |ops| && forall j :: 0 <= j < |ops| && j != i ==> TpciBits(ops[j]) == 0
    ensures AllTpciBits(ops) == TpciBits(ops[i])
    decreases ops
  {
    var b, rest := TpciBits(ops[0]), ops[1..];
    assert forall j :: 0 <= j < |rest| ==> rest[j] == ops[j + 1];
    if i > 0 {
      OnlyTpciBits(rest, i - 1);
      var c := TpciBits(ops[i]);
      assert 0 | c == c;
    } else {
      NoTpciBits(rest);
      assert b | 0 == b;
    }
  }

  lemma {:induction false} NoTpciBits(ops: seq<Op>)
    requires forall j :: 0 <= j < |ops| ==> TpciBits(ops[j]) == 0
    ensures AllTpciBits(ops) == 0
    decreases ops
  {
    if ops != [] {
      NoTpciBits(ops[1..]);
      assert (0 as bv8) | 0 == 0;
    }
  }

  /** In particular, a TPCI octet written whole reads back whole, if no other call puts bits into it. */
  lemma WholeTpciReadsBack(l: Layout, s: Bytes, ops: seq<Op>, i: nat)
    requires l.Fits(s) && l.FieldsDisjoint() && View(l, s) == BLANK && Admissible({}, ops)
    requires i < |ops| && ops[i].Tpci8Op? && forall j :: 0 <= j < |ops| && j != i ==> TpciBits(ops[j]) == 0
    ensures Tpci8(l, ApplyAll(l, s, ops)) == ops[i].t8
  {
    TpciOfBlank(l, s, ops);
    OnlyTpciBits(ops, i);
  }

  lemma StaysBlank(h: Header, done: set<Field>, op: Op)
    requires InRange(op) && Needs(op) !! done && forall f :: f !in done ==> Blank(h, f)
    ensures forall f :: f !in done + Touches(op) ==> Blank(Update(h, op), f)
  {
    UpdateStep(h, op);
    forall f | f !in done + Touches(op) ensures Blank(Update(h, op), f) {
      assert Same(Update(h, op), h, f);
    }
  }

  lemma OrAssociates(x: bv8, y: bv8, z: bv8)
    ensures (x | y) | z == x | (y | z)
  {
  }

  /**
    * From a blank header, setters of distinct fields called in any order all read back, untouched
    * fields keep their default, and recognition bits, length nibble and payload are kept. The TPCI octet is
    * what the calls have put into it, all together: a value written to it whole, if nothing follows.
    */
  lemma SettersReadBack(l: Layout, s: Bytes, ops: seq<Op>)
    requires l.Fits(s) && l.FieldsDisjoint()
    requires View(l, s) == BLANK && Admissible({}, ops)
    ensures var r := ApplyAll(l, s, ops);
            && (forall op :: op in ops ==> ReadsBack(l, r, op))
            && (forall f :: f !in TouchedBy(ops) ==> Blank(View(l, r), f))
            && Tpci8(l, r) == AllTpciBits(ops)
            && r[CTRL] & FRAME_TYPE_MASK == s[CTRL] & FRAME_TYPE_MASK
            && (l.LengthApart() ==> r[LG_FIELD] & 0xF == s[LG_FIELD] & 0xF)
            && forall i :: l.Header() < i < |s| && i != l.at ==> r[i] == s[i]
  {
    var r := ApplyAll(l, s, ops);
    ApplyAllView(l, s, ops);
    UpdatesReadBack(View(l, s), View(l, r), {}, ops);
    forall op | op in ops ensures ReadsBack(l, r, op) {
      AdmissibleInRange({}, ops, op);
      HoldsReadsBack(l, r, op);
    }
    TpciOfBlank(l, s, ops);
  }

  lemma {:induction false} AdmissibleInRange(done: set<Field>, ops: seq<Op>, op: Op)
    requires Admissible(done, ops) && op in ops
    ensures InRange(op)
    decreases ops
  {
    if op != ops[0] {
      AdmissibleInRange(done + Touches(ops[0]), ops[1..], op);
    }
  }

  /** For standard frames: also the length nibble is kept and the driver still recognises the frame. */
  lemma FreshFrameSetters(n: nat, ops: seq<Op>)
    requires 8 <= n <= 24 && Admissible({}, ops)
    ensures STANDARD.Fits(New(n))
    ensures var r := ApplyAll(STANDARD, New(n), ops);
            && (forall op :: op in ops ==> ReadsBack(STANDARD, r, op))
            && (forall f :: f !in TouchedBy(ops) ==> Blank(View(STANDARD, r), f))
            && Tpci8(STANDARD, r) == AllTpciBits(ops)
            && Length(STANDARD, r) == Length(STANDARD, New(n))
            && IsStandardStart(r[CTRL])
            && forall i :: 8 <= i < n ==> r[i] == 0
  {
    NewBytes(n);
    var s := New(n);
    assert ReadAddr(s, 1) == 0 && ReadAddr(s, 3) == 0;
    BlankControl(LengthNibble(n));
    SettersReadBack(STANDARD, s, ops);
  }

  lemma BlankControl(nibble: bv8)
    requires nibble <= 0xF
    ensures ViewCtrl(0x90) == CtrlView(0, 0) && ViewAt(nibble) == AtView(0, 0) && ViewTpdu(0, 0) == TpduView(0, 0, 0)
    ensures IsStandardStart(0x90)
  {
  }

  // Where the setters do not do what their name says

  /** A hop count set over an old one reads back exactly if it has all the bits of the old one. */
  lemma HopCountOverwriteIff(l: Layout, s: Bytes, h: bv8)
    requires l.Fits(s) && l.FieldsDisjoint() && h <= 7
    ensures HopCount(l, SetHopCount(l, s, h)) == h <==> HopCount(l, s) & !h == 0
  {
    var x := s[l.at];
    assert ((x | ((h & 0x7) << 4)) >> 4) & 0x7 == ((x >> 4) & 0x7) | h;
    var was := (x >> 4) & 0x7;
    assert was | h == h <==> was & !h == 0;
  }

  /** `set_apci(Four, v)` on a blank header reads back, and leaves the TPCI bits alone, exactly for four-bit `v`. */
  lemma Apci4ExactIff(l: Layout, s: Bytes, v: bv16)
    requires l.Fits(s) && l.FieldsDisjoint() && View(l, s) == BLANK
    ensures var h := View(l, SetApci4(l, s, v)).tpdu;
            (h.apci >> 6 == v && h.code == 0 && h.sq == 0) <==> v < 16
  {
    SetterEffect(l, s, Apci4Op(v));
    Apci4Bits(v);
  }

  lemma Apci4Bits(v: bv16)
    ensures var t := JoinApci(JoinTpci(TpduView(0, 0, 0), Low8(v >> 2)), Low8((v & 0x3) << 6));
            (t.apci >> 6 == v && t.code == 0 && t.sq == 0) <==> v < 16
  {
  }

  /** In an extended frame the length octet is the low octet of the destination address. */
  lemma ExtendedDstIsLength(s: Bytes, a: Address)
    requires EXTENDED.Fits(s)
    ensures EXTENDED.FieldsDisjoint() && !EXTENDED.LengthApart()
    ensures Length(EXTENDED, SetDstAddr(EXTENDED, s, a)) == Length(EXTENDED, s) <==> s[LG_FIELD] == Low8(a.raw)
  {
    assert SetDstAddr(EXTENDED, s, a)[LG_FIELD] == Low8(a.raw);
    ExtendedLengthOctet(s[LG_FIELD], Low8(a.raw));
  }

  lemma ExtendedLengthOctet(x: bv8, y: bv8)
    ensures (x + 9) as nat == (y + 9) as nat <==> x == y
  {
    if (x + 9) as nat == (y + 9) as nat {
      SameValue(x + 9, y + 9);
    }
  }
}
