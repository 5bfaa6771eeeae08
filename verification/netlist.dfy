/** The abstract circuit builder shared by the Lattice ECP5 and MachXO2/MachXO3L I/O
    buffer code: pins, the signals the buffer code creates or reuses, primitive instances
    as records, and the pieces both families build the same way (the optional inversion of
    each data stream, and the per-bit gearing registers). Signal and instance semantics
    belong to the hardware description framework; here they are plain values. */
module Netlist {
  import opened Wrappers
  import opened Text

  /** `pin.dir`: 'i', 'o', 'oe' or 'io'. */
  datatype Dir = I | O | OE | IO

  /** `'i' in pin.dir` */
  predicate HasInput(d: Dir) {
    d == I || d == IO
  }

  /** `'o' in pin.dir` */
  predicate HasOutput(d: Dir) {
    d == O || d == OE || d == IO
  }

  /** `pin.dir in ('oe', 'io')` */
  predicate HasEnable(d: Dir) {
    d == OE || d == IO
  }

  /** The part of a framework `Pin` the buffer code reads. `xdr` is the gear. */
  datatype Pin = Pin(name: string, dir: Dir, width: nat, xdr: nat)

  datatype Path = InPath | OutPath

  /** Signals the buffer code touches.
      `Stream(p, k)`: the pin's data stream `k` on path `p` -- `pin.i`/`pin.o` when the gear
        is below 2 (then `k` is 0), otherwise `pin.i<k>`/`pin.o<k>`.
      `Aux(p, k)`: the `_n` signal created next to stream `k` when that path is inverted.
      `XdrI`, `XdrO`, `XdrT`: the `<name>_xdr_i/o/t` signals between gearing and buffers.
      `Oe`: `pin.oe`. `PortIo`, `PortP`: `port.io` and `port.p`. */
  datatype Sig = Stream(path: Path, k: nat) | Aux(path: Path, k: nat) | XdrI | XdrO | XdrT | Oe | PortIo | PortP

  datatype Expr = Ref(s: Sig) | Not(e: Expr) | Replicate(e: Expr, count: nat)

  /** A connection to an instance port: one bit of an expression, or the whole of it. */
  datatype Wire = Bit(e: Expr, idx: nat) | Whole(e: Expr)

  /** `pin.i_clk`, `pin.o_clk`, `pin.i_fclk`, `pin.o_fclk` */
  datatype Clock = IClk | OClk | IFClk | OFClk

  datatype Prim =
    | IFS1P3DX | OFS1P3DX | IDDRX1F | IDDRX2F | IDDR71B | ODDRX1F | ODDRX2F | ODDR71B
    | IDDRXE | ODDRXE | IB | OB | OBZ | BB

  /** A primitive instance. `Reg` is a gearing register with its clocks, data inputs
      (`D`/`D0..`) and outputs (`Q`/`Q0..`); the constant `SP`/`CD`/`RST` inputs are left
      out. `Buf` is the I/O buffer for port bit `bit` with its `T`, `I`, `O`, `B` ports. */
  datatype Inst =
    | Reg(kind: Prim, sclk: Clock, eclk: Option<Clock>, d: seq<Wire>, q: seq<Wire>)
    | Buf(kind: Prim, bit: nat, t: Option<Wire>, i: Option<Wire>, o: Option<Wire>, b: Option<Wire>)

  /** A signal created with the given width. */
  datatype Decl = Decl(s: Sig, width: nat)

  /** A combinational `lhs.eq(rhs)`. */
  datatype Assign = Assign(lhs: Sig, rhs: Expr)

  /** What the code adds to the module: created signals, combinational statements, and
      instances, each in creation order. */
  datatype Module = Module(decls: seq<Decl>, comb: seq<Assign>, insts: seq<Inst>)

  /** `_get_xdr_buffer`'s result: the module contents and the `(i, o, t)` handles. */
  datatype XdrOut = XdrOut(m: Module, i: Option<Expr>, o: Option<Expr>, t: Option<Expr>)

  datatype IoError =
    | InvalidGearing(pin: string, xdr: nat)           // ValueError from the ECP5 buffer code
    | GearAssertion(xdr: nat)                         // `assert False` in the MachXO buffer code
    | UnsupportedFeature(feature: string, xdr: nat)   // the platform's feature check
    | IndexOutOfRange(bit: nat)                       // `o[bit]`/`i[bit]` past the signal's width
    | MissingSignal                                   // subscripting a handle that is `None`

  /** The text of the ECP5 `ValueError` for an unsupported gear. */
  function InvalidGearingMessage(pin: string, xdr: nat): string {
    "Invalid gearing " + (NatToDecimal(xdr) + (" for pin " + (pin + ", must be one of, 0, 1, 2, 4, or 7")))
  }

  lemma InvalidGearingMessageNames(pin: string, xdr: nat)
    ensures IsInfix(NatToDecimal(xdr), InvalidGearingMessage(pin, xdr))
    ensures IsInfix(pin, InvalidGearingMessage(pin, xdr))
  {
    var m := InvalidGearingMessage(pin, xdr);
    var p0 := "Invalid gearing ";
    assert InfixAt(NatToDecimal(xdr), m, |p0|);
    assert InfixAt(pin, m, |p0| + |NatToDecimal(xdr)| + |" for pin "|);
  }

  // ---------------------------------------------------------------------------------------
  // Counting and filtering

  function Filter<T>(s: seq<T>, p: T -> bool): (r: seq<T>)
    ensures |r| <= |s|
    ensures forall k :: 0 <= k < |r| ==> p(r[k])
  {
    if |s| == 0 then []
    else (if p(s[0]) then [s[0]] else []) + Filter(s[1..], p)
  }

  lemma {:induction false} FilterConcat<T>(a: seq<T>, b: seq<T>, p: T -> bool)
    ensures Filter(a + b, p) == Filter(a, p) + Filter(b, p)
  {
    if |a| == 0 {
      assert a + b == b;
    } else {
      assert (a + b)[0] == a[0];
      assert (a + b)[1..] == a[1..] + b;
      FilterConcat(a[1..], b, p);
    }
  }

  lemma {:induction false} FilterAll<T>(s: seq<T>, p: T -> bool)
    requires forall k :: 0 <= k < |s| ==> p(s[k])
    ensures Filter(s, p) == s
  {
    if |s| > 0 {
      FilterAll(s[1..], p);
    }
  }

  lemma {:induction false} FilterNone<T>(s: seq<T>, p: T -> bool)
    requires forall k :: 0 <= k < |s| ==> !p(s[k])
    ensures Filter(s, p) == []
  {
    if |s| > 0 {
      FilterNone(s[1..], p);
    }
  }

  /** Filter one part of a concatenation whose other parts have no element of `p`. */
  lemma FilterPick3<T>(a: seq<T>, b: seq<T>, c: seq<T>, p: T -> bool, which: nat)
    requires which < 3
    requires which != 0 ==> forall k :: 0 <= k < |a| ==> !p(a[k])
    requires which != 1 ==> forall k :: 0 <= k < |b| ==> !p(b[k])
    requires which != 2 ==> forall k :: 0 <= k < |c| ==> !p(c[k])
    requires which == 0 ==> forall k :: 0 <= k < |a| ==> p(a[k])
    requires which == 1 ==> forall k :: 0 <= k < |b| ==> p(b[k])
    requires which == 2 ==> forall k :: 0 <= k < |c| ==> p(c[k])
    ensures Filter(a + b + c, p) == if which == 0 then a else if which == 1 then b else c
  {
    FilterConcat(a + b, c, p);
    FilterConcat(a, b, p);
    if which == 0 { FilterAll(a, p); } else { FilterNone(a, p); }
    if which == 1 { FilterAll(b, p); } else { FilterNone(b, p); }
    if which == 2 { FilterAll(c, p); } else { FilterNone(c, p); }
  }

  // ---------------------------------------------------------------------------------------
  // Widths

  /** The width a created signal was declared with (the first declaration wins). */
  function DeclaredWidth(decls: seq<Decl>, s: Sig): Option<nat> {
    if |decls| == 0 then None
    else if decls[0].s == s then Some(decls[0].width)
    else DeclaredWidth(decls[1..], s)
  }

  /** The width of an expression: pin streams and ports are `pin.width` wide, `pin.oe` is
      one bit, created signals have their declared width. */
  function ExprWidth(decls: seq<Decl>, pinWidth: nat, e: Expr): nat {
    match e
    case Ref(s) =>
      if s.Stream? || s == PortIo || s == PortP then pinWidth
      else if s == Oe then 1
      else DeclaredWidth(decls, s).GetOr(0)
    case Not(x) => ExprWidth(decls, pinWidth, x)
    case Replicate(x, n) => n * ExprWidth(decls, pinWidth, x)
  }

  lemma DeclaredWidthAppend(a: seq<Decl>, b: seq<Decl>, s: Sig)
    requires forall k :: 0 <= k < |a| ==> a[k].s != s
    ensures DeclaredWidth(a + b, s) == DeclaredWidth(b, s)
  {
    if |a| == 0 {
      assert a + b == b;
    } else {
      assert (a + b)[0] == a[0];
      assert (a + b)[1..] == a[1..] + b;
      DeclaredWidthAppend(a[1..], b, s);
    }
  }

  // ---------------------------------------------------------------------------------------
  // Inversion of data streams (`get_ineg`/`get_oneg`, identical in both families)

  /** The NOT gate the inversion of stream `k` adds: an input stream is driven from the
      complement of its `_n` signal (`z.eq(~a)` with `z` the pin stream), an output `_n`
      signal from the complement of the pin stream. */
  function NotGate(path: Path, k: nat): Assign {
    if path == InPath then Assign(Stream(InPath, k), Not(Ref(Aux(InPath, k))))
    else Assign(Aux(OutPath, k), Not(Ref(Stream(OutPath, k))))
  }

  /** The signal the gearing logic uses for stream `k`. */
  function StreamSig(path: Path, k: nat, invert: bool): Sig {
    if invert then Aux(path, k) else Stream(path, k)
  }

  datatype Negation = Negation(decls: seq<Decl>, comb: seq<Assign>, streams: seq<Sig>)

  /** `get_ineg`/`get_oneg` applied to `n` streams of one path, in stream order. */
  function Negate(path: Path, n: nat, invert: bool, width: nat): (r: Negation)
    ensures r.streams == StreamSigs(path, n, invert)
    ensures |r.decls| == |r.comb| == if invert then n else 0
    ensures forall k :: 0 <= k < |r.decls| ==> r.decls[k] == Decl(Aux(path, k), width)
    ensures forall k :: 0 <= k < |r.comb| ==> r.comb[k] == NotGate(path, k)
  {
    Negation(
      if invert then seq(n, k requires 0 <= k < n => Decl(Aux(path, k), width)) else [],
      if invert then seq(n, k requires 0 <= k < n => NotGate(path, k)) else [],
      StreamSigs(path, n, invert))
  }

  function NoNegation(): Negation {
    Negation([], [], [])
  }

  /** `StreamSig` for streams `0..n-1`. */
  function StreamSigs(path: Path, n: nat, invert: bool): (r: seq<Sig>)
    ensures |r| == n
    ensures forall k :: 0 <= k < n ==> r[k] == StreamSig(path, k, invert)
  {
    seq(n, k requires 0 <= k < n => StreamSig(path, k, invert))
  }

  /** A `_n` signal created for the input path. */
  predicate IsInputAux(d: Decl) {
    d.s.Aux? && d.s.path == InPath
  }

  /** A `_n` signal created for the output path. */
  predicate IsOutputAux(d: Decl) {
    d.s.Aux? && d.s.path == OutPath
  }

  /** A NOT gate of the input path: it drives a pin input stream. */
  predicate IsInputGate(a: Assign) {
    a.lhs.Stream? && a.lhs.path == InPath && a.rhs.Not?
  }

  /** A NOT gate of the output path: it drives an output `_n` signal. */
  predicate IsOutputGate(a: Assign) {
    a.lhs.Aux? && a.lhs.path == OutPath && a.rhs.Not?
  }

  // ---------------------------------------------------------------------------------------
  // Gearing registers

  /** The wires of bit `b` of each stream. */
  function StreamBits(streams: seq<Sig>, b: nat): (r: seq<Wire>)
    ensures |r| == |streams|
    ensures forall j :: 0 <= j < |r| ==> r[j] == Bit(Ref(streams[j]), b)
  {
    seq(|streams|, j requires 0 <= j < |streams| => Bit(Ref(streams[j]), b))
  }

  /** An input gearing register: samples `XdrI[b]` into the streams. */
  predicate SamplesXdrI(x: Inst) {
    x.Reg? && |x.d| == 1 && x.d[0].Bit? && x.d[0].e == Ref(XdrI)
  }

  /** An output gearing register: drives `XdrO[b]` from the streams. */
  predicate DrivesXdrO(x: Inst) {
    x.Reg? && |x.q| == 1 && x.q[0].Bit? && x.q[0].e == Ref(XdrO)
  }

  /** An enable register: drives `XdrT[b]`. */
  predicate DrivesXdrT(x: Inst) {
    x.Reg? && |x.q| == 1 && x.q[0].Bit? && x.q[0].e == Ref(XdrT)
  }

  /** One input register per bit of the `width`-bit `XdrI` (`get_ireg`, `get_iddr`, ...). */
  function InputRegs(kind: Prim, eclk: Option<Clock>, width: nat, streams: seq<Sig>): (regs: seq<Inst>)
    requires forall j :: 0 <= j < |streams| ==> streams[j] != XdrO && streams[j] != XdrT
    ensures |regs| == width
    ensures forall b :: 0 <= b < width ==>
      regs[b] == Reg(kind, IClk, eclk, [Bit(Ref(XdrI), b)], StreamBits(streams, b))
    ensures forall b :: 0 <= b < width ==>
      SamplesXdrI(regs[b]) && !DrivesXdrO(regs[b]) && !DrivesXdrT(regs[b])
  {
    seq(width, b requires 0 <= b < width => Reg(kind, IClk, eclk, [Bit(Ref(XdrI), b)], StreamBits(streams, b)))
  }

  /** One output register per bit of the `width`-bit `XdrO` (`get_oreg`, `get_oddr`, ...). */
  function OutputRegs(kind: Prim, eclk: Option<Clock>, width: nat, streams: seq<Sig>): (regs: seq<Inst>)
    requires forall j :: 0 <= j < |streams| ==> streams[j] != XdrI
    ensures |regs| == width
    ensures forall b :: 0 <= b < width ==>
      regs[b] == Reg(kind, OClk, eclk, StreamBits(streams, b), [Bit(Ref(XdrO), b)])
    ensures forall b :: 0 <= b < width ==>
      !SamplesXdrI(regs[b]) && DrivesXdrO(regs[b]) && !DrivesXdrT(regs[b])
  {
    seq(width, b requires 0 <= b < width => Reg(kind, OClk, eclk, StreamBits(streams, b), [Bit(Ref(XdrO), b)]))
  }

  /** `~pin.oe` */
  function NotOe(): Expr {
    Not(Ref(Oe))
  }

  /** What differs between the two families once the gear is known to be supported: the
      register kinds of the gear, whether they take the fast edge clock, the enable registers,
      the width `t` is declared with, and what `t` is when the gear is 0. */
  datatype Gearing = Gearing(inKind: Prim, outKind: Prim, fast: bool, enables: seq<Inst>, tWidth: nat, tComb: Expr)

  /** Streams per path: one below gear 2, otherwise one per gear phase. */
  function StreamCount(xdr: nat): nat {
    if xdr < 2 then 1 else xdr
  }

  function FastClock(fast: bool, clk: Clock): Option<Clock> {
    if fast then Some(clk) else None
  }

  /** The negation phase of the input path (nothing when the pin has no input). */
  function InNegation(pin: Pin, iInvert: bool): Negation {
    if HasInput(pin.dir) then Negate(InPath, StreamCount(pin.xdr), iInvert, pin.width) else NoNegation()
  }

  /** The negation phase of the output path (nothing when the pin has no output). */
  function OutNegation(pin: Pin, oInvert: bool): Negation {
    if HasOutput(pin.dir) then Negate(OutPath, StreamCount(pin.xdr), oInvert, pin.width) else NoNegation()
  }

  /** `xdr_i`, `xdr_o` and `xdr_t`, for the directions the pin has. */
  function XdrDecls(pin: Pin, tWidth: nat): (r: seq<Decl>)
    ensures forall k :: 0 <= k < |r| ==> !r[k].s.Aux?
    ensures HasInput(pin.dir) ==> DeclaredWidth(r, XdrI) == Some(pin.width)
    ensures HasOutput(pin.dir) ==> DeclaredWidth(r, XdrO) == Some(pin.width)
    ensures HasEnable(pin.dir) ==> DeclaredWidth(r, XdrT) == Some(tWidth)
  {
    var ti := if HasInput(pin.dir) then [Decl(XdrI, pin.width)] else [];
    var to := if HasOutput(pin.dir) then [Decl(XdrO, pin.width)] else [];
    var tt := if HasEnable(pin.dir) then [Decl(XdrT, tWidth)] else [];
    DeclaredWidthAppend(ti, to + tt, XdrO);
    DeclaredWidthAppend(ti + to, tt, XdrT);
    assert ti + to + tt == ti + (to + tt);
    ti + to + tt
  }

  /** `_get_xdr_buffer` for a supported gear: negate the streams of each present path,
      create `xdr_i`/`xdr_o`/`xdr_t`, then either pass the pin signals straight through
      (gear 0) or place the gearing registers (input, output, enable, in that order). */
  function Assemble(pin: Pin, iInvert: bool, oInvert: bool, g: Gearing): XdrOut {
    var ni := InNegation(pin, iInvert);
    var no := OutNegation(pin, oInvert);
    var decls := ni.decls + no.decls + XdrDecls(pin, g.tWidth);
    var comb := ni.comb + no.comb;
    if pin.xdr == 0 then
      XdrOut(Module(decls, comb, []),
        if HasInput(pin.dir) then Some(Ref(StreamSig(InPath, 0, iInvert))) else None,
        if HasOutput(pin.dir) then Some(Ref(StreamSig(OutPath, 0, oInvert))) else None,
        if HasEnable(pin.dir) then Some(g.tComb) else None)
    else
      XdrOut(Module(decls, comb, Registers(pin, iInvert, oInvert, g)),
        if HasInput(pin.dir) then Some(Ref(XdrI)) else None,
        if HasOutput(pin.dir) then Some(Ref(XdrO)) else None,
        if HasEnable(pin.dir) then Some(Ref(XdrT)) else None)
  }

  function InputStage(pin: Pin, iInvert: bool, g: Gearing): seq<Inst> {
    if HasInput(pin.dir) then
      InputRegs(g.inKind, FastClock(g.fast, IFClk), pin.width, StreamSigs(InPath, StreamCount(pin.xdr), iInvert))
    else []
  }

  function OutputStage(pin: Pin, oInvert: bool, g: Gearing): seq<Inst> {
    if HasOutput(pin.dir) then
      OutputRegs(g.outKind, FastClock(g.fast, OFClk), pin.width, StreamSigs(OutPath, StreamCount(pin.xdr), oInvert))
    else []
  }

  function EnableStage(pin: Pin, g: Gearing): seq<Inst> {
    if HasEnable(pin.dir) then g.enables else []
  }

  /** Input register `k`: of the gear's kind, clocked by `i_clk` and the optional edge
      clock, sampling bit `k` of `xdr_i` into bit `k` of each stream in order. */
  lemma InputStageFacts(pin: Pin, iInvert: bool, g: Gearing)
    ensures var ins := InputStage(pin, iInvert, g);
      var n := StreamCount(pin.xdr);
      && |ins| == (if HasInput(pin.dir) then pin.width else 0)
      && forall k :: 0 <= k < |ins| ==>
        && ins[k].Reg? && ins[k].kind == g.inKind && ins[k].sclk == IClk
        && ins[k].eclk == FastClock(g.fast, IFClk)
        && ins[k].d == [Bit(Ref(XdrI), k)]
        && |ins[k].q| == n
        && forall j :: 0 <= j < n ==> ins[k].q[j] == Bit(Ref(StreamSig(InPath, j, iInvert)), k)
  {
  }

  /** Output register `k`: of the gear's kind, clocked by `o_clk` and the optional edge
      clock, driving bit `k` of `xdr_o` from bit `k` of each stream in order. */
  lemma OutputStageFacts(pin: Pin, oInvert: bool, g: Gearing)
    ensures var outs := OutputStage(pin, oInvert, g);
      var n := StreamCount(pin.xdr);
      && |outs| == (if HasOutput(pin.dir) then pin.width else 0)
      && forall k :: 0 <= k < |outs| ==>
        && outs[k].Reg? && outs[k].kind == g.outKind && outs[k].sclk == OClk
        && outs[k].eclk == FastClock(g.fast, OFClk)
        && outs[k].q == [Bit(Ref(XdrO), k)]
        && |outs[k].d| == n
        && forall j :: 0 <= j < n ==> outs[k].d[j] == Bit(Ref(StreamSig(OutPath, j, oInvert)), k)
  {
  }

  /** The gearing registers, input stage first. */
  function Registers(pin: Pin, iInvert: bool, oInvert: bool, g: Gearing): seq<Inst> {
    InputStage(pin, iInvert, g) + OutputStage(pin, oInvert, g) + EnableStage(pin, g)
  }

  /** The handles exist exactly for the directions the pin has; at gear 0 `t` is the
      family's `tComb`. */
  lemma AssembleSignals(pin: Pin, iInvert: bool, oInvert: bool, g: Gearing)
    ensures var out := Assemble(pin, iInvert, oInvert, g);
      && (out.i.Some? <==> HasInput(pin.dir))
      && (out.o.Some? <==> HasOutput(pin.dir))
      && (out.t.Some? <==> HasEnable(pin.dir))
      && (out.t.Some? && pin.xdr == 0 ==> out.t.value == g.tComb)
  {
  }

  /** The declarations: the `_n` signals of the input path, those of the output path, then
      `xdr_i`/`xdr_o`/`xdr_t`. */
  lemma AssembleDecls(pin: Pin, iInvert: bool, oInvert: bool, g: Gearing)
    ensures var negs := InNegation(pin, iInvert).decls + OutNegation(pin, oInvert).decls;
      && Assemble(pin, iInvert, oInvert, g).m.decls == negs + XdrDecls(pin, g.tWidth)
      && forall k :: 0 <= k < |negs| ==> negs[k].s.Aux?
  {
  }

  /** A created signal is declared with the width of its `xdr_*` declaration. */
  lemma AssembleCreatedWidth(pin: Pin, iInvert: bool, oInvert: bool, g: Gearing, s: Sig)
    requires !s.Aux?
    ensures DeclaredWidth(Assemble(pin, iInvert, oInvert, g).m.decls, s) == DeclaredWidth(XdrDecls(pin, g.tWidth), s)
  {
    AssembleDecls(pin, iInvert, oInvert, g);
    DeclaredWidthAppend(InNegation(pin, iInvert).decls + OutNegation(pin, oInvert).decls, XdrDecls(pin, g.tWidth), s);
  }

  lemma AssembleWidthIn(pin: Pin, iInvert: bool, oInvert: bool, g: Gearing)
    ensures var out := Assemble(pin, iInvert, oInvert, g);
      out.i.Some? ==> ExprWidth(out.m.decls, pin.width, out.i.value) == pin.width
  {
    var out := Assemble(pin, iInvert, oInvert, g);
    if pin.xdr == 0 {
      if HasInput(pin.dir) && iInvert {
        AssembleDecls(pin, iInvert, oInvert, g);
        assert out.m.decls[0] == Decl(Aux(InPath, 0), pin.width);
      }
    } else {
      AssembleCreatedWidth(pin, iInvert, oInvert, g, XdrI);
    }
  }

  lemma AssembleWidthOut(pin: Pin, iInvert: bool, oInvert: bool, g: Gearing)
    ensures var out := Assemble(pin, iInvert, oInvert, g);
      out.o.Some? ==> ExprWidth(out.m.decls, pin.width, out.o.value) == pin.width
  {
    var out := Assemble(pin, iInvert, oInvert, g);
    if pin.xdr == 0 {
      if HasOutput(pin.dir) && oInvert {
        var ni := InNegation(pin, iInvert);
        var rest := OutNegation(pin, oInvert).decls + XdrDecls(pin, g.tWidth);
        AssembleDecls(pin, iInvert, oInvert, g);
        assert out.m.decls == ni.decls + rest;
        DeclaredWidthAppend(ni.decls, rest, Aux(OutPath, 0));
        assert rest[0] == Decl(Aux(OutPath, 0), pin.width);
      }
    } else {
      AssembleCreatedWidth(pin, iInvert, oInvert, g, XdrO);
    }
  }

  /** `i` and `o` are as wide as the pin; from gear 1 on `t` is a `tWidth`-bit signal. */
  lemma AssembleWidths(pin: Pin, iInvert: bool, oInvert: bool, g: Gearing)
    ensures var out := Assemble(pin, iInvert, oInvert, g);
      && (out.i.Some? ==> ExprWidth(out.m.decls, pin.width, out.i.value) == pin.width)
      && (out.o.Some? ==> ExprWidth(out.m.decls, pin.width, out.o.value) == pin.width)
      && (out.t.Some? && pin.xdr != 0 ==> ExprWidth(out.m.decls, pin.width, out.t.value) == g.tWidth)
  {
    AssembleWidthIn(pin, iInvert, oInvert, g);
    AssembleWidthOut(pin, iInvert, oInvert, g);
    AssembleCreatedWidth(pin, iInvert, oInvert, g, XdrT);
  }

  /** At gear 0 no register is placed and the (possibly inverted) pin signals are the
      handles. */
  lemma AssemblePassthrough(pin: Pin, iInvert: bool, oInvert: bool, g: Gearing)
    requires pin.xdr == 0
    ensures var out := Assemble(pin, iInvert, oInvert, g);
      && out.m.insts == []
      && (HasInput(pin.dir) ==> out.i == Some(Ref(StreamSig(InPath, 0, iInvert))))
      && (HasOutput(pin.dir) ==> out.o == Some(Ref(StreamSig(OutPath, 0, oInvert))))
      && (HasEnable(pin.dir) ==> out.t == Some(g.tComb))
  {
  }

  /** The input registers are exactly the input stage. */
  lemma AssembleInputRegs(pin: Pin, iInvert: bool, oInvert: bool, g: Gearing)
    requires pin.xdr >= 1
    requires forall k :: 0 <= k < |g.enables| ==> !SamplesXdrI(g.enables[k])
    ensures Filter(Assemble(pin, iInvert, oInvert, g).m.insts, SamplesXdrI) == InputStage(pin, iInvert, g)
  {
    FilterPick3(InputStage(pin, iInvert, g), OutputStage(pin, oInvert, g), EnableStage(pin, g), SamplesXdrI, 0);
  }

  /** The output registers are exactly the output stage. */
  lemma AssembleOutputRegs(pin: Pin, iInvert: bool, oInvert: bool, g: Gearing)
    requires pin.xdr >= 1
    requires forall k :: 0 <= k < |g.enables| ==> !DrivesXdrO(g.enables[k])
    ensures Filter(Assemble(pin, iInvert, oInvert, g).m.insts, DrivesXdrO) == OutputStage(pin, oInvert, g)
  {
    FilterPick3(InputStage(pin, iInvert, g), OutputStage(pin, oInvert, g), EnableStage(pin, g), DrivesXdrO, 1);
  }

  /** The enable registers are exactly the family's enable stage. */
  lemma AssembleEnableRegs(pin: Pin, iInvert: bool, oInvert: bool, g: Gearing)
    requires pin.xdr >= 1
    requires forall k :: 0 <= k < |g.enables| ==> DrivesXdrT(g.enables[k])
    ensures Filter(Assemble(pin, iInvert, oInvert, g).m.insts, DrivesXdrT) == EnableStage(pin, g)
  {
    FilterPick3(InputStage(pin, iInvert, g), OutputStage(pin, oInvert, g), EnableStage(pin, g), DrivesXdrT, 2);
  }

  /** From gear 1 on, the registers split by role: one input register per pin bit, one
      output register per pin bit, then the family's enable registers, and nothing else. */
  lemma AssembleRegisters(pin: Pin, iInvert: bool, oInvert: bool, g: Gearing)
    requires pin.xdr >= 1
    requires forall k :: 0 <= k < |g.enables| ==>
      DrivesXdrT(g.enables[k]) && !SamplesXdrI(g.enables[k]) && !DrivesXdrO(g.enables[k])
    ensures var insts := Assemble(pin, iInvert, oInvert, g).m.insts;
      && Filter(insts, SamplesXdrI) == InputStage(pin, iInvert, g)
      && Filter(insts, DrivesXdrO) == OutputStage(pin, oInvert, g)
      && Filter(insts, DrivesXdrT) == EnableStage(pin, g)
      && |insts| == |Filter(insts, SamplesXdrI)| + |Filter(insts, DrivesXdrO)| + |Filter(insts, DrivesXdrT)|
  {
    AssembleInputRegs(pin, iInvert, oInvert, g);
    AssembleOutputRegs(pin, iInvert, oInvert, g);
    AssembleEnableRegs(pin, iInvert, oInvert, g);
  }

  lemma NegationRoles(path: Path, n: nat, invert: bool, width: nat)
    ensures var r := Negate(path, n, invert, width);
      && (forall k :: 0 <= k < |r.decls| ==> IsInputAux(r.decls[k]) == (path == InPath))
      && (forall k :: 0 <= k < |r.decls| ==> IsOutputAux(r.decls[k]) == (path == OutPath))
      && (forall k :: 0 <= k < |r.comb| ==> IsInputGate(r.comb[k]) == (path == InPath))
      && (forall k :: 0 <= k < |r.comb| ==> IsOutputGate(r.comb[k]) == (path == OutPath))
  {
  }

  /** The input path's negation creates only input `_n` signals and input gates. */
  lemma InNegationRoles(pin: Pin, iInvert: bool)
    ensures var ni := InNegation(pin, iInvert);
      && (forall k :: 0 <= k < |ni.decls| ==> IsInputAux(ni.decls[k]) && !IsOutputAux(ni.decls[k]))
      && (forall k :: 0 <= k < |ni.comb| ==> IsInputGate(ni.comb[k]) && !IsOutputGate(ni.comb[k]))
  {
    NegationRoles(InPath, StreamCount(pin.xdr), iInvert, pin.width);
  }

  /** The output path's negation creates only output `_n` signals and output gates. */
  lemma OutNegationRoles(pin: Pin, oInvert: bool)
    ensures var no := OutNegation(pin, oInvert);
      && (forall k :: 0 <= k < |no.decls| ==> IsOutputAux(no.decls[k]) && !IsInputAux(no.decls[k]))
      && (forall k :: 0 <= k < |no.comb| ==> IsOutputGate(no.comb[k]) && !IsInputGate(no.comb[k]))
  {
    NegationRoles(OutPath, StreamCount(pin.xdr), oInvert, pin.width);
  }

  lemma CreatedNotAux(pin: Pin, tWidth: nat)
    ensures var c := XdrDecls(pin, tWidth);
      forall k :: 0 <= k < |c| ==> !IsInputAux(c[k]) && !IsOutputAux(c[k])
  {
  }

  lemma InputAuxDecls(pin: Pin, iInvert: bool, oInvert: bool, g: Gearing)
    ensures Filter(Assemble(pin, iInvert, oInvert, g).m.decls, IsInputAux) == InNegation(pin, iInvert).decls
  {
    var ni, no, c := InNegation(pin, iInvert).decls, OutNegation(pin, oInvert).decls, XdrDecls(pin, g.tWidth);
    InNegationRoles(pin, iInvert);
    OutNegationRoles(pin, oInvert);
    CreatedNotAux(pin, g.tWidth);
    AssembleDecls(pin, iInvert, oInvert, g);
    FilterPick3(ni, no, c, IsInputAux, 0);
  }

  lemma OutputAuxDecls(pin: Pin, iInvert: bool, oInvert: bool, g: Gearing)
    ensures Filter(Assemble(pin, iInvert, oInvert, g).m.decls, IsOutputAux) == OutNegation(pin, oInvert).decls
  {
    var ni, no, c := InNegation(pin, iInvert).decls, OutNegation(pin, oInvert).decls, XdrDecls(pin, g.tWidth);
    InNegationRoles(pin, iInvert);
    OutNegationRoles(pin, oInvert);
    CreatedNotAux(pin, g.tWidth);
    AssembleDecls(pin, iInvert, oInvert, g);
    FilterPick3(ni, no, c, IsOutputAux, 1);
  }

  lemma InputGates(pin: Pin, iInvert: bool, oInvert: bool, g: Gearing)
    ensures Filter(Assemble(pin, iInvert, oInvert, g).m.comb, IsInputGate) == InNegation(pin, iInvert).comb
  {
    var ni := InNegation(pin, iInvert);
    var no := OutNegation(pin, oInvert);
    InNegationRoles(pin, iInvert);
    OutNegationRoles(pin, oInvert);
    assert Assemble(pin, iInvert, oInvert, g).m.comb == ni.comb + no.comb + [];
    FilterPick3(ni.comb, no.comb, [], IsInputGate, 0);
  }

  lemma OutputGates(pin: Pin, iInvert: bool, oInvert: bool, g: Gearing)
    ensures Filter(Assemble(pin, iInvert, oInvert, g).m.comb, IsOutputGate) == OutNegation(pin, oInvert).comb
  {
    var ni := InNegation(pin, iInvert);
    var no := OutNegation(pin, oInvert);
    InNegationRoles(pin, iInvert);
    OutNegationRoles(pin, oInvert);
    assert Assemble(pin, iInvert, oInvert, g).m.comb == ni.comb + no.comb + [];
    FilterPick3(ni.comb, no.comb, [], IsOutputGate, 1);
  }

  /** With the input invert flag set, each input stream gets one `_n` signal and one NOT
      gate, in stream order; with the flag clear (or no input) there are none. */
  lemma AssembleInputInversion(pin: Pin, iInvert: bool, oInvert: bool, g: Gearing)
    ensures var m := Assemble(pin, iInvert, oInvert, g).m;
      var gates := Filter(m.comb, IsInputGate);
      && |Filter(m.decls, IsInputAux)| == |gates| == (if HasInput(pin.dir) && iInvert then StreamCount(pin.xdr) else 0)
      && (forall k :: 0 <= k < |gates| ==> gates[k] == NotGate(InPath, k))
  {
    InputAuxDecls(pin, iInvert, oInvert, g);
    InputGates(pin, iInvert, oInvert, g);
  }

  /** The same for the output path. */
  lemma AssembleOutputInversion(pin: Pin, iInvert: bool, oInvert: bool, g: Gearing)
    ensures var m := Assemble(pin, iInvert, oInvert, g).m;
      var gates := Filter(m.comb, IsOutputGate);
      && |Filter(m.decls, IsOutputAux)| == |gates| == (if HasOutput(pin.dir) && oInvert then StreamCount(pin.xdr) else 0)
      && (forall k :: 0 <= k < |gates| ==> gates[k] == NotGate(OutPath, k))
  {
    OutputAuxDecls(pin, iInvert, oInvert, g);
    OutputGates(pin, iInvert, oInvert, g);
  }

  /** Every combinational statement is one of the NOT gates. */
  lemma AssembleOnlyGates(pin: Pin, iInvert: bool, oInvert: bool, g: Gearing)
    ensures var m := Assemble(pin, iInvert, oInvert, g).m;
      |m.comb| == |Filter(m.comb, IsInputGate)| + |Filter(m.comb, IsOutputGate)|
  {
    InputGates(pin, iInvert, oInvert, g);
    OutputGates(pin, iInvert, oInvert, g);
  }

  // ---------------------------------------------------------------------------------------
  // Buffer wrappers (`get_input`, ..., `get_diff_input_output`)

  /** The four buffer shapes; each exists single-ended and differential. */
  datatype IoKind = Input | Output | Tristate | InputOutput

  /** The pin direction the framework requests each shape for. */
  predicate Compatible(kind: IoKind, dir: Dir) {
    match kind
    case Input => dir == I
    case Output => dir == O
    case Tristate => dir == OE
    case InputOutput => dir == IO
  }

  function FeatureName(kind: IoKind, diff: bool): string {
    (if diff then "differential " else "single-ended ") +
    match kind
    case Input => "input"
    case Output => "output"
    case Tristate => "tristate"
    case InputOutput => "input/output"
  }

  /** The I/O buffer primitive of each shape. */
  function BufferPrim(kind: IoKind): Prim {
    match kind
    case Input => IB
    case Output => OB
    case Tristate => OBZ
    case InputOutput => BB
  }

  /** Which paths the wrapper asks the gearing code to invert. */
  function InvertsInput(kind: IoKind): bool {
    kind == Input || kind == InputOutput
  }

  function InvertsOutput(kind: IoKind): bool {
    kind != Input
  }

  lemma CompatibleSignals(kind: IoKind, dir: Dir)
    requires Compatible(kind, dir)
    ensures HasInput(dir) <==> kind == Input || kind == InputOutput
    ensures HasOutput(dir) <==> kind != Input
    ensures HasEnable(dir) <==> kind == Tristate || kind == InputOutput
  {
  }

  /** The buffer for bit `b`, given how its `T` input is wired. The pad is `port.p[b]` for
      differential shapes and `port.io[b]` otherwise. */
  function BufferAt(kind: IoKind, diff: bool, b: nat, t: Option<Wire>, i: Option<Expr>, o: Option<Expr>): (x: Inst)
    requires UsesI(kind) ==> i.Some?
    requires UsesO(kind) ==> o.Some?
    ensures x.Buf? && x.kind == BufferPrim(kind) && x.bit == b
    ensures PadOf(x) == Some(Bit(Ref(if diff then PortP else PortIo), b))
    ensures UsesT(kind) ==> x.t == t
    ensures UsesO(kind) ==> x.i == Some(Bit(o.value, b))
    ensures UsesI(kind) ==> x.o == Some(Bit(i.value, b))
  {
    var pad := Bit(Ref(if diff then PortP else PortIo), b);
    match kind
    case Input => Buf(IB, b, None, Some(pad), Some(Bit(i.value, b)), None)
    case Output => Buf(OB, b, None, Some(Bit(o.value, b)), Some(pad), None)
    case Tristate => Buf(OBZ, b, t, Some(Bit(o.value, b)), Some(pad), None)
    case InputOutput => Buf(BB, b, t, Some(Bit(o.value, b)), Some(Bit(i.value, b)), Some(pad))
  }

  predicate IsBuffer(x: Inst) {
    x.Buf?
  }

  /** The pad a buffer is bound to. */
  function PadOf(x: Inst): Option<Wire>
    requires x.Buf?
  {
    if x.kind == IB then x.i else if x.kind == BB then x.b else x.o
  }

  predicate IsRegister(x: Inst) {
    x.Reg?
  }

  predicate UsesI(kind: IoKind) {
    kind == Input || kind == InputOutput
  }

  predicate UsesO(kind: IoKind) {
    kind != Input
  }

  predicate UsesT(kind: IoKind) {
    kind == Tristate || kind == InputOutput
  }

  /** The `T` connection of the buffer for bit `b`: bit `b` of `t`, or the whole of `t`. */
  function TWire(t: Option<Expr>, b: nat, perBit: bool): Option<Wire> {
    match t
    case None => None
    case Some(e) => if perBit then Some(Bit(e, b)) else Some(Whole(e))
  }

  /** Whether the per-bit loop subscripts a handle that is `None`. */
  predicate SubscriptsNone(kind: IoKind, out: XdrOut, tPerBit: bool) {
    (UsesI(kind) && out.i.None?) || (UsesO(kind) && out.o.None?) || (tPerBit && UsesT(kind) && out.t.None?)
  }

  function Buffers(kind: IoKind, diff: bool, out: XdrOut, count: nat, tPerBit: bool): (bufs: seq<Inst>)
    requires !SubscriptsNone(kind, out, tPerBit)
    ensures |bufs| == count
    ensures forall b :: 0 <= b < count ==>
      bufs[b] == BufferAt(kind, diff, b, if UsesT(kind) then TWire(out.t, b, tPerBit) else None, out.i, out.o)
  {
    seq(count, b requires 0 <= b < count =>
      BufferAt(kind, diff, b, if UsesT(kind) then TWire(out.t, b, tPerBit) else None, out.i, out.o))
  }

  /** The loop of a `get_*` wrapper: one buffer per bit `0..count-1` after the gearing
      logic. Subscripting a missing handle fails at the first bit; subscripting `i`/`o`
      (which are `width` bits wide) fails once `bit` reaches `width`. */
  function AttachBuffers(kind: IoKind, diff: bool, out: XdrOut, count: nat, width: nat, tPerBit: bool): Result<Module, IoError> {
    if count > 0 && SubscriptsNone(kind, out, tPerBit) then Failure(MissingSignal)
    else if count > width then Failure(IndexOutOfRange(width))
    else Success(Module(out.m.decls, out.m.comb, out.m.insts + if count == 0 then [] else Buffers(kind, diff, out, count, tPerBit)))
  }

  /** The wrapper fails exactly when its loop subscripts a missing handle or runs past the
      width of `i`/`o`. */
  lemma AttachBuffersOutcome(kind: IoKind, diff: bool, out: XdrOut, count: nat, width: nat, tPerBit: bool)
    ensures var r := AttachBuffers(kind, diff, out, count, width, tPerBit);
      && (r.Failure? <==> (count > 0 && SubscriptsNone(kind, out, tPerBit)) || count > width)
      && (r.Failure? && count > 0 && SubscriptsNone(kind, out, tPerBit) ==> r.error == MissingSignal)
      && (r.Failure? && !(count > 0 && SubscriptsNone(kind, out, tPerBit)) ==> r.error == IndexOutOfRange(width))
  {
  }

  /** The buffers the wrapper adds, when it succeeds. */
  function AddedBuffers(kind: IoKind, diff: bool, out: XdrOut, count: nat, tPerBit: bool): seq<Inst> {
    if count == 0 || SubscriptsNone(kind, out, tPerBit) then [] else Buffers(kind, diff, out, count, tPerBit)
  }

  /** The wrapper keeps the gearing logic and adds `count` buffers, bit `b` of the pad
      (`port.p` for differential shapes, `port.io` otherwise) on buffer `b`, with its data
      and enable connections taken from bit `b` of the handles. */
  lemma AttachBuffersShape(kind: IoKind, diff: bool, out: XdrOut, count: nat, width: nat, tPerBit: bool)
    requires forall k :: 0 <= k < |out.m.insts| ==> out.m.insts[k].Reg?
    ensures var r := AttachBuffers(kind, diff, out, count, width, tPerBit);
      r.Success? ==>
        && r.value.decls == out.m.decls && r.value.comb == out.m.comb
        && Filter(r.value.insts, IsRegister) == out.m.insts
        && Filter(r.value.insts, IsBuffer) == AddedBuffers(kind, diff, out, count, tPerBit)
  {
    var r := AttachBuffers(kind, diff, out, count, width, tPerBit);
    if r.Success? {
      var bufs := AddedBuffers(kind, diff, out, count, tPerBit);
      assert r.value.insts == out.m.insts + bufs;
      AddedBuffersAreBuffers(kind, diff, out, count, tPerBit);
      FilterRolesSplit(out.m.insts, bufs);
    }
  }

  lemma AddedBuffersAreBuffers(kind: IoKind, diff: bool, out: XdrOut, count: nat, tPerBit: bool)
    ensures var bufs := AddedBuffers(kind, diff, out, count, tPerBit);
      forall b :: 0 <= b < |bufs| ==> bufs[b].Buf?
  {
  }

  /** Registers followed by buffers separate again by role. */
  lemma FilterRolesSplit(regs: seq<Inst>, bufs: seq<Inst>)
    requires forall k :: 0 <= k < |regs| ==> regs[k].Reg?
    requires forall b :: 0 <= b < |bufs| ==> bufs[b].Buf?
    ensures Filter(regs + bufs, IsRegister) == regs
    ensures Filter(regs + bufs, IsBuffer) == bufs
  {
    FilterConcat(regs, bufs, IsRegister);
    FilterConcat(regs, bufs, IsBuffer);
    FilterAll(regs, IsRegister);
    FilterNone(regs, IsBuffer);
    FilterAll(bufs, IsBuffer);
    FilterNone(bufs, IsRegister);
  }

  /** Buffer `b` sits on pad bit `b` and takes its data and enable from bit `b` of the
      handles (or the whole `t` when it is not subscripted). */
  lemma AddedBuffersWiring(kind: IoKind, diff: bool, out: XdrOut, count: nat, tPerBit: bool)
    requires !SubscriptsNone(kind, out, tPerBit)
    ensures var bufs := AddedBuffers(kind, diff, out, count, tPerBit);
      && |bufs| == count
      && forall b :: 0 <= b < count ==>
        && bufs[b].Buf? && bufs[b].kind == BufferPrim(kind) && bufs[b].bit == b
        && PadOf(bufs[b]) == Some(Bit(Ref(if diff then PortP else PortIo), b))
        && (UsesT(kind) ==> bufs[b].t == TWire(out.t, b, tPerBit))
        && (UsesO(kind) ==> bufs[b].i == Some(Bit(out.o.value, b)))
        && (UsesI(kind) ==> bufs[b].o == Some(Bit(out.i.value, b)))
  {
  }

  /** The pin's directions provide every handle the wrapper subscripts. */
  predicate Provides(kind: IoKind, dir: Dir, tPerBit: bool) {
    (UsesI(kind) ==> HasInput(dir)) && (UsesO(kind) ==> HasOutput(dir)) && (tPerBit && UsesT(kind) ==> HasEnable(dir))
  }

  /** The wrapper's loop finds a missing handle exactly when the pin's directions do not
      provide it; the shape the framework picks for a direction always does. */
  lemma SubscriptsNoneIff(kind: IoKind, pin: Pin, iInvert: bool, oInvert: bool, g: Gearing, tPerBit: bool)
    ensures SubscriptsNone(kind, Assemble(pin, iInvert, oInvert, g), tPerBit) <==> !Provides(kind, pin.dir, tPerBit)
    ensures Compatible(kind, pin.dir) ==> Provides(kind, pin.dir, tPerBit)
  {
    AssembleSignals(pin, iInvert, oInvert, g);
  }

  /** A wrapper asked for the shape that matches the pin's direction always finds the
      handles it subscripts. */
  lemma CompatibleFindsHandles(kind: IoKind, pin: Pin, iInvert: bool, oInvert: bool, g: Gearing, tPerBit: bool)
    requires Compatible(kind, pin.dir)
    ensures !SubscriptsNone(kind, Assemble(pin, iInvert, oInvert, g), tPerBit)
  {
    AssembleSignals(pin, iInvert, oInvert, g);
  }

  /** The gearing logic holds registers only. */
  lemma AssembleOnlyRegisters(pin: Pin, iInvert: bool, oInvert: bool, g: Gearing)
    requires forall k :: 0 <= k < |g.enables| ==> g.enables[k].Reg?
    ensures var insts := Assemble(pin, iInvert, oInvert, g).m.insts;
      forall k :: 0 <= k < |insts| ==> insts[k].Reg?
  {
  }

  /** Whether a component of a port gets its own buffer, given the platform's list of
      differential I/O types: the `n` leg of a differential I/O type is skipped. */
  function ShouldSkipPortComponent(differentialTypes: seq<string>, attrs: map<string, string>, component: string): (skip: bool)
    ensures skip <==>
      (component == "n" && (if "IO_TYPE" in attrs then attrs["IO_TYPE"] else "LVCMOS25") in differentialTypes)
  {
    var ioType := if "IO_TYPE" in attrs then attrs["IO_TYPE"] else "LVCMOS25";
    if ioType in differentialTypes && component == "n" then true else false
  }
}
