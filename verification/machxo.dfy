/** The Lattice MachXO2/MachXO3L platform (`amaranth/vendor/lattice_machxo_2_3l.py`):
    gearing and I/O buffer selection per pin and the internal oscillator frequency table.
    Frequencies are integer hundredths of a MHz (15.65 MHz is 1565). */
module MachXO {
  import opened Wrappers
  import opened Netlist

  // ---------------------------------------------------------------------------------------
  // Gearing

  /** Gears `_get_xdr_buffer` handles; any other reaches `assert False`. */
  predicate SupportedGear(xdr: nat) {
    xdr == 0 || xdr == 1 || xdr == 2
  }

  /** `get_ireg` at gear 1, `get_iddr` at gear 2. */
  function InputKind(xdr: nat): Prim {
    if xdr == 1 then IFS1P3DX else IDDRXE
  }

  /** `get_oreg` at gear 1, `get_oddr` at gear 2. */
  function OutputKind(xdr: nat): Prim {
    if xdr == 1 then OFS1P3DX else ODDRXE
  }

  /** `get_oreg(pin.o_clk, ~pin.oe, t)` with the one-bit `t`: a single register. */
  function EnableRegs(): seq<Inst> {
    [Reg(OFS1P3DX, OClk, None, [Bit(NotOe(), 0)], [Bit(Ref(XdrT), 0)])]
  }

  /** The MachXO choices: no fast edge clock, one enable register, a one-bit `t`, and
      `~pin.oe` as `t` at gear 0. */
  function GearingOf(pin: Pin): Gearing {
    Gearing(InputKind(pin.xdr), OutputKind(pin.xdr), false, EnableRegs(), 1, NotOe())
  }

  /** `_get_xdr_buffer`: an unsupported gear fails the assertion; otherwise `i`, `o` and `t`
      exist exactly for the pin's directions, `i` and `o` are `pin.width` bits wide and `t`
      is one bit wide whatever the pin width. */
  function XdrBuffer(pin: Pin, iInvert: bool, oInvert: bool): (r: Result<XdrOut, IoError>)
    ensures r.Failure? <==> !SupportedGear(pin.xdr)
    ensures r.Failure? ==> r.error == GearAssertion(pin.xdr)
    ensures r.Success? ==>
      && (r.value.i.Some? <==> HasInput(pin.dir))
      && (r.value.o.Some? <==> HasOutput(pin.dir))
      && (r.value.t.Some? <==> HasEnable(pin.dir))
    ensures r.Success? ==>
      && (r.value.i.Some? ==> ExprWidth(r.value.m.decls, pin.width, r.value.i.value) == pin.width)
      && (r.value.o.Some? ==> ExprWidth(r.value.m.decls, pin.width, r.value.o.value) == pin.width)
      && (r.value.t.Some? ==> ExprWidth(r.value.m.decls, pin.width, r.value.t.value) == 1)
  {
    if !SupportedGear(pin.xdr) then Failure(GearAssertion(pin.xdr))
    else
      AssembleSignals(pin, iInvert, oInvert, GearingOf(pin));
      AssembleWidths(pin, iInvert, oInvert, GearingOf(pin));
      var out := Assemble(pin, iInvert, oInvert, GearingOf(pin));
      assert ExprWidth(out.m.decls, pin.width, Ref(Oe)) == 1;
      Success(out)
  }

  /** Gear 0 places no register: `i` and `o` are the pin's own (possibly inverted) signals
      and `t` is `~oe`. */
  lemma XdrBufferPassthrough(pin: Pin, iInvert: bool, oInvert: bool)
    requires pin.xdr == 0
    ensures var r := XdrBuffer(pin, iInvert, oInvert);
      && r.Success? && r.value.m.insts == []
      && (HasInput(pin.dir) ==> r.value.i == Some(Ref(StreamSig(InPath, 0, iInvert))))
      && (HasOutput(pin.dir) ==> r.value.o == Some(Ref(StreamSig(OutPath, 0, oInvert))))
      && (HasEnable(pin.dir) ==> r.value.t == Some(NotOe()))
  {
    AssemblePassthrough(pin, iInvert, oInvert, GearingOf(pin));
  }

  /** At gears 1 and 2: one `IFS1P3DX` (gear 1) or `IDDRXE` (gear 2) per input bit, with no
      edge clock, sampling bit `k` of `xdr_i` into bit `k` of the gear's streams in order. */
  lemma XdrBufferInputRegisters(pin: Pin, iInvert: bool, oInvert: bool)
    requires pin.xdr == 1 || pin.xdr == 2
    ensures var ins := Filter(XdrBuffer(pin, iInvert, oInvert).value.m.insts, SamplesXdrI);
      && |ins| == (if HasInput(pin.dir) then pin.width else 0)
      && forall k :: 0 <= k < |ins| ==>
        && ins[k].kind == (if pin.xdr == 1 then IFS1P3DX else IDDRXE)
        && ins[k].sclk == IClk && ins[k].eclk == None
        && ins[k].d == [Bit(Ref(XdrI), k)]
        && |ins[k].q| == pin.xdr
        && forall j :: 0 <= j < pin.xdr ==> ins[k].q[j] == Bit(Ref(StreamSig(InPath, j, iInvert)), k)
  {
    AssembleInputRegs(pin, iInvert, oInvert, GearingOf(pin));
    InputStageFacts(pin, iInvert, GearingOf(pin));
  }

  /** Likewise one `OFS1P3DX` (gear 1) or `ODDRXE` (gear 2) per output bit, driving bit `k`
      of `xdr_o` from bit `k` of each stream in order. */
  lemma XdrBufferOutputRegisters(pin: Pin, iInvert: bool, oInvert: bool)
    requires pin.xdr == 1 || pin.xdr == 2
    ensures var outs := Filter(XdrBuffer(pin, iInvert, oInvert).value.m.insts, DrivesXdrO);
      && |outs| == (if HasOutput(pin.dir) then pin.width else 0)
      && forall k :: 0 <= k < |outs| ==>
        && outs[k].kind == (if pin.xdr == 1 then OFS1P3DX else ODDRXE)
        && outs[k].sclk == OClk && outs[k].eclk == None
        && outs[k].q == [Bit(Ref(XdrO), k)]
        && |outs[k].d| == pin.xdr
        && forall j :: 0 <= j < pin.xdr ==> outs[k].d[j] == Bit(Ref(StreamSig(OutPath, j, oInvert)), k)
  {
    AssembleOutputRegs(pin, iInvert, oInvert, GearingOf(pin));
    OutputStageFacts(pin, oInvert, GearingOf(pin));
  }

  /** At gears 1 and 2 the enable path is exactly one `OFS1P3DX` on `o_clk`, fed bit 0 of
      `~oe` and driving the one-bit `t`; nothing else is placed. */
  lemma XdrBufferEnableRegister(pin: Pin, iInvert: bool, oInvert: bool)
    requires pin.xdr == 1 || pin.xdr == 2
    ensures var insts := XdrBuffer(pin, iInvert, oInvert).value.m.insts;
      var oes := Filter(insts, DrivesXdrT);
      && oes == (if HasEnable(pin.dir) then [Reg(OFS1P3DX, OClk, None, [Bit(NotOe(), 0)], [Bit(Ref(XdrT), 0)])] else [])
      && |insts| == |Filter(insts, SamplesXdrI)| + |Filter(insts, DrivesXdrO)| + |oes|
  {
    AssembleRegisters(pin, iInvert, oInvert, GearingOf(pin));
  }

  /** With an invert flag set, each of the path's streams (one below gear 2, two at gear 2)
      gets one `_n` signal and one NOT gate; with it clear the streams are used unchanged. */
  lemma XdrBufferInversion(pin: Pin, iInvert: bool, oInvert: bool)
    requires SupportedGear(pin.xdr)
    ensures var m := XdrBuffer(pin, iInvert, oInvert).value.m;
      var n := if pin.xdr < 2 then 1 else 2;
      && |Filter(m.decls, IsInputAux)| == |Filter(m.comb, IsInputGate)| == (if HasInput(pin.dir) && iInvert then n else 0)
      && |Filter(m.decls, IsOutputAux)| == |Filter(m.comb, IsOutputGate)| == (if HasOutput(pin.dir) && oInvert then n else 0)
      && |m.comb| == |Filter(m.comb, IsInputGate)| + |Filter(m.comb, IsOutputGate)|
      && (forall k :: 0 <= k < |Filter(m.comb, IsInputGate)| ==> Filter(m.comb, IsInputGate)[k] == NotGate(InPath, k))
      && (forall k :: 0 <= k < |Filter(m.comb, IsOutputGate)| ==> Filter(m.comb, IsOutputGate)[k] == NotGate(OutPath, k))
  {
    AssembleInputInversion(pin, iInvert, oInvert, GearingOf(pin));
    AssembleOutputInversion(pin, iInvert, oInvert, GearingOf(pin));
    AssembleOnlyGates(pin, iInvert, oInvert, GearingOf(pin));
  }

  // ---------------------------------------------------------------------------------------
  // Buffer wrappers

  /** How many buffers a wrapper places: `len(port)` for single-ended shapes, `pin.width`
      for differential ones. */
  function BufferCount(diff: bool, pin: Pin, portWidth: nat): nat {
    if diff then pin.width else portWidth
  }

  /** The eight `get_*` wrappers. The feature check rejects gears outside 0, 1, 2 first;
      then the gearing logic is built with the wrapper's invert flags and the buffers are
      placed, each with the whole one-bit `t` on its `T` input. A single-ended wrapper runs
      its loop over `len(port)` (`portWidth`) and fails once that passes the pin width. */
  function GetBuffer(kind: IoKind, diff: bool, pin: Pin, portWidth: nat, invert: bool): (r: Result<Module, IoError>)
    ensures !SupportedGear(pin.xdr) ==> r == Failure(UnsupportedFeature(FeatureName(kind, diff), pin.xdr))
    ensures SupportedGear(pin.xdr) ==>
      var count := BufferCount(diff, pin, portWidth);
      (r.Failure? <==> (count > 0 && !Provides(kind, pin.dir, false)) || count > pin.width)
    ensures r.Failure? ==> !r.error.GearAssertion? && !r.error.InvalidGearing?
    ensures Compatible(kind, pin.dir) ==>
      (r.Success? <==> SupportedGear(pin.xdr) && (diff || portWidth <= pin.width))
    ensures Compatible(kind, pin.dir) && SupportedGear(pin.xdr) && !diff && portWidth > pin.width ==>
      r == Failure(IndexOutOfRange(pin.width))
  {
    if !SupportedGear(pin.xdr) then Failure(UnsupportedFeature(FeatureName(kind, diff), pin.xdr))
    else
      var out := XdrBuffer(pin, invert && UsesI(kind), invert && UsesO(kind)).value;
      var count := BufferCount(diff, pin, portWidth);
      SubscriptsNoneIff(kind, pin, invert && UsesI(kind), invert && UsesO(kind), GearingOf(pin), false);
      AttachBuffersOutcome(kind, diff, out, count, pin.width, false);
      AttachBuffers(kind, diff, out, count, pin.width, false)
  }

  /** A successful wrapper keeps the gearing logic and adds one buffer per counted bit:
      buffer `b` on bit `b` of `port.p` (differential, bound to the `p` leg only) or of
      `port.io`, its data from bit `b` of `i`/`o`, and every tristate or bidirectional buffer
      taking the same whole `t` on `T`. */
  lemma GetBufferPlacement(kind: IoKind, diff: bool, pin: Pin, portWidth: nat, invert: bool)
    requires GetBuffer(kind, diff, pin, portWidth, invert).Success?
    ensures var m := GetBuffer(kind, diff, pin, portWidth, invert).value;
      var out := XdrBuffer(pin, invert && UsesI(kind), invert && UsesO(kind)).value;
      var bufs := Filter(m.insts, IsBuffer);
      var count := BufferCount(diff, pin, portWidth);
      && Filter(m.insts, IsRegister) == out.m.insts
      && |bufs| == count
      && (forall b :: 0 <= b < count ==>
        && bufs[b].kind == BufferPrim(kind) && bufs[b].bit == b
        && PadOf(bufs[b]) == Some(Bit(Ref(if diff then PortP else PortIo), b))
        && (UsesO(kind) ==> bufs[b].i == Some(Bit(out.o.value, b)))
        && (UsesI(kind) ==> bufs[b].o == Some(Bit(out.i.value, b))))
      && (UsesT(kind) && HasEnable(pin.dir) ==> forall b :: 0 <= b < count ==> bufs[b].t == Some(Whole(out.t.value)))
  {
    var iInv := invert && UsesI(kind);
    var oInv := invert && UsesO(kind);
    var out := XdrBuffer(pin, iInv, oInv).value;
    var count := BufferCount(diff, pin, portWidth);
    AssembleOnlyRegisters(pin, iInv, oInv, GearingOf(pin));
    AttachBuffersShape(kind, diff, out, count, pin.width, false);
    AttachBuffersOutcome(kind, diff, out, count, pin.width, false);
    if count > 0 {
      AddedBuffersWiring(kind, diff, out, count, false);
    }
  }

  // ---------------------------------------------------------------------------------------
  // Ports

  const DifferentialIoTypes: seq<string> := [
    "LVDS25", "LVDS25E", "RSDS25", "RSDS25E", "BLVDS25", "BLVDS25E", "MLVDS25", "MLVDS25E",
    "LVPECL33", "LVPECL33E", "SSTL25D_I", "SSTL25D_II", "SSTL18D_I", "SSTL18D_II",
    "HSTL18D_I", "HSTL18D_II", "LVTTL33D", "LVCMOS33D", "LVCMOS25D", "LVCMOS18D", "LVCMOS15D",
    "LVCMOS12D", "MIPI"
  ]

  const SingleEndedIoTypes: seq<string> := [
    "PCI33", "LVTTL33", "LVCMOS33", "LVCMOS25", "LVCMOS18", "LVCMOS15", "LVCMOS12",
    "LVCMOS25R33", "LVCMOS18R33", "LVCMOS18R25", "LVCMOS15R33", "LVCMOS15R25", "LVCMOS12R33",
    "LVCMOS12R25", "LVCMOS10R33", "LVCMOS10R25", "SSTL25_I", "SSTL25_II", "SSTL18_I",
    "SSTL18_II", "HSTL18_I", "HSTL18_II"
  ]

  /** `should_skip_port_component`: only the `n` leg of a differential I/O type is skipped;
      without `IO_TYPE` (which means `LVCMOS25`) a port keeps all components. */
  lemma ShouldSkipOnlyDifferentialN(attrs: map<string, string>, component: string)
    ensures ShouldSkipPortComponent(DifferentialIoTypes, attrs, component) <==>
      component == "n" && "IO_TYPE" in attrs && attrs["IO_TYPE"] in DifferentialIoTypes
  {
    assert "LVCMOS25" !in DifferentialIoTypes;
  }

  // ---------------------------------------------------------------------------------------
  // Internal oscillator

  /** The supported OSCH frequencies, in hundredths of a MHz, as listed (15.65 twice). */
  const OschFrequencies: seq<int> := [
    208, 215, 222, 229, 238, 246, 256, 266, 277, 289,
    302, 317, 333, 350, 369, 391, 416, 429, 443, 459,
    475, 493, 512, 532, 554, 578, 605, 633, 665, 700,
    739, 782, 831, 858, 887, 917, 950, 985, 1023, 1064,
    1108, 1157, 1209, 1267, 1330, 1400, 1478, 1565, 1565, 1663,
    1773, 1900, 2046, 2217, 2418, 2660, 2956, 3325, 3800, 4433,
    5320, 6650, 8867, 13300
  ]

  /** Dropping one copy of an element that occurs twice changes no membership test. */
  lemma DropDuplicateKeepsMembership(s: seq<int>, i: nat, j: nat)
    requires i < j < |s| && s[i] == s[j]
    ensures forall x :: x in s <==> x in s[..j] + s[j + 1..]
  {
    var t := s[..j] + s[j + 1..];
    assert s[i] == t[i];
    forall x | x in s
      ensures x in t
    {
      var k :| 0 <= k < |s| && s[k] == x;
      if k < j {
        assert t[k] == x;
      } else if k > j {
        assert t[k - 1] == x;
      }
    }
  }

  /** 15.65 MHz is listed twice, and the table with the repeat dropped accepts the same
      frequencies. */
  lemma OschTableShape()
    ensures |OschFrequencies| == 64
    ensures OschFrequencies[47] == OschFrequencies[48] == 1565
    ensures forall f :: f in OschFrequencies <==> f in OschFrequencies[..48] + OschFrequencies[49..]
  {
    DropDuplicateKeepsMembership(OschFrequencies, 47, 48);
  }

  datatype OschError =
    | OschAssertion(freq: int)           // `assert` in `default_clk_constraint`
    | InvalidOschFrequency(freq: int)    // `ValueError` in `create_missing_domain`

  /** `default_clk_constraint` with the default clock `OSCH`: the frequency must be in the
      table. The constraint's value in Hz is float arithmetic and is not modelled. */
  function OschConstraint(freq: int): (r: Result<int, OschError>)
    ensures r.Success? <==> freq in OschFrequencies
    ensures r.Success? ==> r.value == freq
    ensures r.Failure? ==> r.error == OschAssertion(freq)
  {
    if freq in OschFrequencies then Success(freq) else Failure(OschAssertion(freq))
  }

  /** Where the `sync` domain created by `create_missing_domain` takes its clock from. */
  datatype SyncClock = Osch(freq: int) | Requested(resource: string)

  /** `create_missing_domain`: no module for other domains or without a default clock;
      with the default clock `OSCH` the frequency must be in the table. */
  function CreateMissingDomain(name: string, defaultClk: Option<string>, freq: int): (r: Result<Option<SyncClock>, OschError>)
    ensures name != "sync" || defaultClk.None? ==> r == Success(None)
    ensures name == "sync" && defaultClk == Some("OSCH") ==>
      (r.Success? <==> freq in OschFrequencies) &&
      (r.Success? ==> r.value == Some(Osch(freq))) &&
      (r.Failure? ==> r.error == InvalidOschFrequency(freq))
    ensures name == "sync" && defaultClk.Some? && defaultClk != Some("OSCH") ==>
      r == Success(Some(Requested(defaultClk.value)))
  {
    if name != "sync" || defaultClk.None? then Success(None)
    else if defaultClk.value == "OSCH" then
      if freq !in OschFrequencies then Failure(InvalidOschFrequency(freq))
      else Success(Some(Osch(freq)))
    else Success(Some(Requested(defaultClk.value)))
  }

  /** Both checks accept exactly the same frequencies. */
  lemma OschChecksAgree(freq: int)
    ensures OschConstraint(freq).Success? <==> CreateMissingDomain("sync", Some("OSCH"), freq).Success?
  {
  }
}
