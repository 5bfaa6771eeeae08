/** The Lattice ECP5 platform (`torii/platform/vendor/lattice/ecp5.py`): gearing and I/O
    buffer selection per pin, the per-toolchain tables, the `__init__` toolchain check,
    and the OSCG divider check of `create_missing_domain`. */
module Ecp5 {
  import opened Wrappers
  import opened Text
  import opened Netlist

  // ---------------------------------------------------------------------------------------
  // Gearing

  /** Gears `_get_xdr_buffer` handles. */
  predicate SupportedGear(xdr: nat) {
    xdr == 0 || xdr == 1 || xdr == 2 || xdr == 4 || xdr == 7
  }

  /** The input register of each gear: `get_ireg`, `get_iddr`, `get_iddrx2`, `get_iddr71b`. */
  function InputKind(xdr: nat): Prim {
    if xdr == 1 then IFS1P3DX else if xdr == 2 then IDDRX1F else if xdr == 4 then IDDRX2F else IDDR71B
  }

  /** The output register of each gear: `get_oreg`, `get_oddr`, `get_oddrx2`, `get_oddr71b`. */
  function OutputKind(xdr: nat): Prim {
    if xdr == 1 then OFS1P3DX else if xdr == 2 then ODDRX1F else if xdr == 4 then ODDRX2F else ODDR71B
  }

  /** The register for enable bit `b` (`get_oereg`): the whole of `~pin.oe` into `xdr_t[b]`. */
  function EnableReg(b: nat): Inst {
    Reg(OFS1P3DX, OClk, None, [Whole(NotOe())], [Bit(Ref(XdrT), b)])
  }

  /** `get_oereg(pin.o_clk, ~pin.oe, t)` with `t` as wide as the pin. */
  function EnableRegs(width: nat): (regs: seq<Inst>)
    ensures |regs| == width
    ensures forall b :: 0 <= b < width ==> regs[b] == EnableReg(b)
  {
    seq(width, b requires 0 <= b < width => EnableReg(b))
  }

  /** The ECP5 choices: the gear's register kinds, the fast edge clock from gear 4 on, one
      enable register per bit, a `width`-bit `t`, and `~pin.oe.replicate(pin.width)` as
      `t` at gear 0. */
  function GearingOf(pin: Pin): Gearing {
    Gearing(InputKind(pin.xdr), OutputKind(pin.xdr), pin.xdr >= 4, EnableRegs(pin.width), pin.width,
      Not(Replicate(Ref(Oe), pin.width)))
  }

  lemma EnableRegsRoles(width: nat)
    ensures forall k :: 0 <= k < width ==>
      DrivesXdrT(EnableRegs(width)[k]) && !SamplesXdrI(EnableRegs(width)[k]) && !DrivesXdrO(EnableRegs(width)[k])
  {
  }

  /** `_get_xdr_buffer`: an unsupported gear raises a `ValueError` naming the pin and the
      gear; otherwise `i`, `o` and `t` exist exactly for the pin's directions, and each is
      `pin.width` bits wide. */
  function XdrBuffer(pin: Pin, iInvert: bool, oInvert: bool): (r: Result<XdrOut, IoError>)
    ensures r.Failure? <==> !SupportedGear(pin.xdr)
    ensures r.Failure? ==> r.error == InvalidGearing(pin.name, pin.xdr)
    ensures r.Success? ==>
      && (r.value.i.Some? <==> HasInput(pin.dir))
      && (r.value.o.Some? <==> HasOutput(pin.dir))
      && (r.value.t.Some? <==> HasEnable(pin.dir))
    ensures r.Success? ==>
      && (r.value.i.Some? ==> ExprWidth(r.value.m.decls, pin.width, r.value.i.value) == pin.width)
      && (r.value.o.Some? ==> ExprWidth(r.value.m.decls, pin.width, r.value.o.value) == pin.width)
      && (r.value.t.Some? ==> ExprWidth(r.value.m.decls, pin.width, r.value.t.value) == pin.width)
  {
    if !SupportedGear(pin.xdr) then Failure(InvalidGearing(pin.name, pin.xdr))
    else
      AssembleSignals(pin, iInvert, oInvert, GearingOf(pin));
      AssembleWidths(pin, iInvert, oInvert, GearingOf(pin));
      var out := Assemble(pin, iInvert, oInvert, GearingOf(pin));
      assert ExprWidth(out.m.decls, pin.width, Ref(Oe)) == 1;
      assert ExprWidth(out.m.decls, pin.width, Replicate(Ref(Oe), pin.width)) == pin.width;
      Success(out)
  }

  /** The `ValueError` text names both the gear and the pin. */
  lemma XdrBufferErrorNamesPin(pin: Pin, iInvert: bool, oInvert: bool)
    requires !SupportedGear(pin.xdr)
    ensures var r := XdrBuffer(pin, iInvert, oInvert);
      && r.Failure?
      && IsInfix(NatToDecimal(pin.xdr), InvalidGearingMessage(r.error.pin, r.error.xdr))
      && IsInfix(pin.name, InvalidGearingMessage(r.error.pin, r.error.xdr))
  {
    InvalidGearingMessageNames(pin.name, pin.xdr);
  }

  /** Gear 0 places no register: `i` and `o` are the pin's own (possibly inverted) signals
      and `t` is `~oe` replicated to the pin width. */
  lemma XdrBufferPassthrough(pin: Pin, iInvert: bool, oInvert: bool)
    requires pin.xdr == 0
    ensures var r := XdrBuffer(pin, iInvert, oInvert);
      && r.Success? && r.value.m.insts == []
      && (HasInput(pin.dir) ==> r.value.i == Some(Ref(StreamSig(InPath, 0, iInvert))))
      && (HasOutput(pin.dir) ==> r.value.o == Some(Ref(StreamSig(OutPath, 0, oInvert))))
      && (HasEnable(pin.dir) ==> r.value.t == Some(Not(Replicate(Ref(Oe), pin.width))))
  {
    AssemblePassthrough(pin, iInvert, oInvert, GearingOf(pin));
  }

  /** From gear 1 on, there is exactly one input register per pin bit when the pin has an
      input, of the gear's kind, clocked by `i_clk` (plus `i_fclk` from gear 4 on),
      sampling bit `k` of `xdr_i` into bit `k` of each of the gear's streams in order. */
  lemma XdrBufferInputRegisters(pin: Pin, iInvert: bool, oInvert: bool)
    requires SupportedGear(pin.xdr) && pin.xdr >= 1
    ensures var ins := Filter(XdrBuffer(pin, iInvert, oInvert).value.m.insts, SamplesXdrI);
      && |ins| == (if HasInput(pin.dir) then pin.width else 0)
      && forall k :: 0 <= k < |ins| ==>
        && ins[k].kind == InputKind(pin.xdr) && ins[k].sclk == IClk
        && ins[k].eclk == (if pin.xdr >= 4 then Some(IFClk) else None)
        && ins[k].d == [Bit(Ref(XdrI), k)]
        && |ins[k].q| == pin.xdr
        && forall j :: 0 <= j < pin.xdr ==> ins[k].q[j] == Bit(Ref(StreamSig(InPath, j, iInvert)), k)
  {
    EnableRegsRoles(pin.width);
    AssembleInputRegs(pin, iInvert, oInvert, GearingOf(pin));
    InputStageFacts(pin, iInvert, GearingOf(pin));
  }

  /** Likewise one output register per pin bit when the pin has an output, of the gear's
      kind, clocked by `o_clk` (plus `o_fclk` from gear 4 on), driving bit `k` of `xdr_o`
      from bit `k` of each stream in order. */
  lemma XdrBufferOutputRegisters(pin: Pin, iInvert: bool, oInvert: bool)
    requires SupportedGear(pin.xdr) && pin.xdr >= 1
    ensures var outs := Filter(XdrBuffer(pin, iInvert, oInvert).value.m.insts, DrivesXdrO);
      && |outs| == (if HasOutput(pin.dir) then pin.width else 0)
      && forall k :: 0 <= k < |outs| ==>
        && outs[k].kind == OutputKind(pin.xdr) && outs[k].sclk == OClk
        && outs[k].eclk == (if pin.xdr >= 4 then Some(OFClk) else None)
        && outs[k].q == [Bit(Ref(XdrO), k)]
        && |outs[k].d| == pin.xdr
        && forall j :: 0 <= j < pin.xdr ==> outs[k].d[j] == Bit(Ref(StreamSig(OutPath, j, oInvert)), k)
  {
    EnableRegsRoles(pin.width);
    AssembleOutputRegs(pin, iInvert, oInvert, GearingOf(pin));
    OutputStageFacts(pin, oInvert, GearingOf(pin));
  }

  /** From gear 1 on, the enable path is one `OFS1P3DX` per pin bit on `o_clk`, each fed the
      whole of `~oe`, whatever the gear; the input, output and enable registers are all the
      registers there are. */
  lemma XdrBufferEnableRegisters(pin: Pin, iInvert: bool, oInvert: bool)
    requires SupportedGear(pin.xdr) && pin.xdr >= 1
    ensures var insts := XdrBuffer(pin, iInvert, oInvert).value.m.insts;
      var oes := Filter(insts, DrivesXdrT);
      && |oes| == (if HasEnable(pin.dir) then pin.width else 0)
      && (forall k :: 0 <= k < |oes| ==>
        oes[k] == Reg(OFS1P3DX, OClk, None, [Whole(NotOe())], [Bit(Ref(XdrT), k)]))
      && |insts| == |Filter(insts, SamplesXdrI)| + |Filter(insts, DrivesXdrO)| + |oes|
  {
    EnableRegsRoles(pin.width);
    AssembleRegisters(pin, iInvert, oInvert, GearingOf(pin));
  }

  /** The enable registers do not depend on the gear. */
  lemma EnableIndependentOfGear(pin: Pin, xdr1: nat, xdr2: nat, iInvert: bool, oInvert: bool)
    requires SupportedGear(xdr1) && xdr1 >= 1 && SupportedGear(xdr2) && xdr2 >= 1
    ensures Filter(XdrBuffer(pin.(xdr := xdr1), iInvert, oInvert).value.m.insts, DrivesXdrT) ==
            Filter(XdrBuffer(pin.(xdr := xdr2), iInvert, oInvert).value.m.insts, DrivesXdrT)
  {
    EnableRegsRoles(pin.width);
    AssembleRegisters(pin.(xdr := xdr1), iInvert, oInvert, GearingOf(pin.(xdr := xdr1)));
    AssembleRegisters(pin.(xdr := xdr2), iInvert, oInvert, GearingOf(pin.(xdr := xdr2)));
  }

  /** With an invert flag set, each of the `max(1, xdr)` streams of that path gets one `_n`
      signal and one NOT gate; with it clear the path's streams are used unchanged. Nothing
      else is combinational. */
  lemma XdrBufferInversion(pin: Pin, iInvert: bool, oInvert: bool)
    requires SupportedGear(pin.xdr)
    ensures var m := XdrBuffer(pin, iInvert, oInvert).value.m;
      var n := if pin.xdr < 2 then 1 else pin.xdr;
      && |Filter(m.decls, IsInputAux)| == |Filter(m.comb, IsInputGate)| == (if HasInput(pin.dir) && iInvert then n else 0)
      && |Filter(m.decls, IsOutputAux)| == |Filter(m.comb, IsOutputGate)| == (if HasOutput(pin.dir) && oInvert then n else 0)
      && |m.comb| == |Filter(m.comb, IsInputGate)| + |Filter(m.comb, IsOutputGate)|
      && (forall k :: 0 <= k < |Filter(m.comb, IsInputGate)| ==> Filter(m.comb, IsInputGate)[k] == NotGate(InPath, k))
      && (forall k :: 0 <= k < |Filter(m.comb, IsOutputGate)| ==> Filter(m.comb, IsOutputGate)[k] == NotGate(OutPath, k))
  {
    AssembleInputInversion(pin, iInvert, oInvert, GearingOf(pin));
    AssembleOutputInversion(pin, iInvert, oInvert, GearingOf(pin));
    AssembleOnlyGates(pin, iInvert, oInvert, GearingOf(pin));
  }

  // ---------------------------------------------------------------------------------------
  // Buffer wrappers

  /** `get_input`, `get_output`, `get_tristate`, `get_input_output` and their `get_diff_*`
      twins. The feature check runs first and rejects gears outside 0, 1, 2, 4, 7; then the
      gearing logic is built with the wrapper's invert flags, and one buffer is placed per
      pin bit with `t` subscripted per bit. */
  function GetBuffer(kind: IoKind, diff: bool, pin: Pin, invert: bool): (r: Result<Module, IoError>)
    ensures !SupportedGear(pin.xdr) ==> r == Failure(UnsupportedFeature(FeatureName(kind, diff), pin.xdr))
    ensures SupportedGear(pin.xdr) ==> (r.Failure? <==> pin.width > 0 && !Provides(kind, pin.dir, true))
    ensures SupportedGear(pin.xdr) && r.Failure? ==> r.error == MissingSignal
    ensures Compatible(kind, pin.dir) ==> (r.Success? <==> SupportedGear(pin.xdr))
  {
    if !SupportedGear(pin.xdr) then Failure(UnsupportedFeature(FeatureName(kind, diff), pin.xdr))
    else
      var out := XdrBuffer(pin, invert && UsesI(kind), invert && UsesO(kind)).value;
      SubscriptsNoneIff(kind, pin, invert && UsesI(kind), invert && UsesO(kind), GearingOf(pin), true);
      AttachBuffersOutcome(kind, diff, out, pin.width, pin.width, true);
      AttachBuffers(kind, diff, out, pin.width, pin.width, true)
  }

  /** A successful wrapper keeps the gearing logic and adds `pin.width` buffers of the
      shape's primitive (`IB`, `OB`, `OBZ`, `BB`), buffer `b` on bit `b` of `port.p` for
      differential shapes and of `port.io` otherwise, its `T` on bit `b` of `t`. */
  lemma GetBufferPlacement(kind: IoKind, diff: bool, pin: Pin, invert: bool)
    requires GetBuffer(kind, diff, pin, invert).Success?
    ensures var m := GetBuffer(kind, diff, pin, invert).value;
      var out := XdrBuffer(pin, invert && UsesI(kind), invert && UsesO(kind)).value;
      var bufs := Filter(m.insts, IsBuffer);
      && Filter(m.insts, IsRegister) == out.m.insts
      && |bufs| == pin.width
      && forall b :: 0 <= b < pin.width ==>
        && bufs[b].kind == BufferPrim(kind) && bufs[b].bit == b
        && PadOf(bufs[b]) == Some(Bit(Ref(if diff then PortP else PortIo), b))
        && (UsesT(kind) ==> bufs[b].t == Some(Bit(out.t.value, b)))
        && (UsesO(kind) ==> bufs[b].i == Some(Bit(out.o.value, b)))
        && (UsesI(kind) ==> bufs[b].o == Some(Bit(out.i.value, b)))
  {
    var out := XdrBuffer(pin, invert && UsesI(kind), invert && UsesO(kind)).value;
    EnableRegsRoles(pin.width);
    AssembleOnlyRegisters(pin, invert && UsesI(kind), invert && UsesO(kind), GearingOf(pin));
    AttachBuffersShape(kind, diff, out, pin.width, pin.width, true);
    AttachBuffersOutcome(kind, diff, out, pin.width, pin.width, true);
    if pin.width > 0 {
      AddedBuffersWiring(kind, diff, out, pin.width, true);
    }
  }

  // ---------------------------------------------------------------------------------------
  // Ports

  const DifferentialIoTypes: seq<string> := [
    "BLVDS25", "BLVDS25E", "HSUL12D", "LVCMOS18D", "LVCMOS25D", "LVCMOS33D",
    "LVDS", "LVDS25E", "LVPECL33", "LVPECL33E", "LVTTL33D", "MLVDS", "MLVDS25E",
    "SLVS", "SSTL135D_I", "SSTL135D_II", "SSTL15D_I", "SSTL15D_II", "SSTL18D_I",
    "SSTL18D_II", "SUBLVDS"
  ]

  const SingleEndedIoTypes: seq<string> := [
    "HSUL12", "LVCMOS12", "LVCMOS15", "LVCMOS18", "LVCMOS25", "LVCMOS33", "LVTTL33",
    "SSTL135_I", "SSTL135_II", "SSTL15_I", "SSTL15_II", "SSTL18_I", "SSTL18_II"
  ]

  /** `should_skip_port_component`: only the `n` leg of a differential I/O type is skipped,
      so a port without `IO_TYPE` (which means `LVCMOS25`) or with a single-ended type keeps
      every component. */
  lemma ShouldSkipOnlyDifferentialN(attrs: map<string, string>, component: string)
    ensures ShouldSkipPortComponent(DifferentialIoTypes, attrs, component) <==>
      component == "n" && "IO_TYPE" in attrs && attrs["IO_TYPE"] in DifferentialIoTypes
    ensures "IO_TYPE" in attrs && attrs["IO_TYPE"] in SingleEndedIoTypes ==>
      !ShouldSkipPortComponent(DifferentialIoTypes, attrs, component)
  {
    DefaultNotDifferential();
    if "IO_TYPE" in attrs && attrs["IO_TYPE"] in SingleEndedIoTypes {
      SingleEndedNotDifferential(attrs["IO_TYPE"]);
    }
  }

  lemma DefaultNotDifferential()
    ensures "LVCMOS25" !in DifferentialIoTypes
  {
  }

  /** No I/O type is listed both as single-ended and as differential. */
  lemma SingleEndedNotDifferential(x: string)
    requires x in SingleEndedIoTypes
    ensures x !in DifferentialIoTypes
  {
    var i :| 0 <= i < |SingleEndedIoTypes| && SingleEndedIoTypes[i] == x;
    if i < 7 {
      SingleEndedLowNotDifferential(i);
    } else {
      SingleEndedHighNotDifferential(i);
    }
  }

  lemma SingleEndedLowNotDifferential(i: nat)
    requires i < 7
    ensures SingleEndedIoTypes[i] !in DifferentialIoTypes
  {
  }

  lemma SingleEndedHighNotDifferential(i: nat)
    requires 7 <= i < |SingleEndedIoTypes|
    ensures SingleEndedIoTypes[i] !in DifferentialIoTypes
  {
  }

  // ---------------------------------------------------------------------------------------
  // Toolchains

  /** What a toolchain contributes to the build plan: the tools it requires, the names of
      its own file templates (besides the framework's build scripts), and the tool each of
      its command templates invokes, in order. Template bodies are text for external tools
      and are not modelled. */
  datatype Tables = Tables(requiredTools: seq<string>, fileNames: seq<string>, invokedTools: seq<string>)

  const TrellisTables: Tables := Tables(
    ["yosys", "nextpnr-ecp5", "ecppack"],
    ["{{name}}.il", "{{name}}.debug.v", "{{name}}.ys", "{{name}}.lpf"],
    ["yosys", "nextpnr-ecp5", "ecppack"])

  const DiamondTables: Tables := Tables(
    ["pnmainc", "ddtcmd"],
    ["build_{{name}}.sh", "{{name}}.v", "{{name}}.debug.v", "{{name}}.tcl", "{{name}}.lpf", "{{name}}.sdc"],
    ["pnmainc", "ddtcmd", "ddtcmd"])

  datatype ConfigError = ConfigError(message: string)

  /** How an f-string renders the toolchain attribute: `None` or the string itself. */
  function Render(toolchain: Option<string>): string {
    match toolchain
    case None => "None"
    case Some(s) => s
  }

  function UnknownToolchain(toolchain: Option<string>): ConfigError {
    ConfigError("Unknown toolchain '" + Render(toolchain) + "', must be either 'Trellis', or 'Diamond'")
  }

  predicate KnownToolchain(toolchain: Option<string>) {
    toolchain == Some("Trellis") || toolchain == Some("Diamond")
  }

  /** The dispatch shared by `required_tools`, `file_templates` and `command_templates`:
      the Trellis tables for `'Trellis'`, the Diamond tables for `'Diamond'`, a
      `ValueError` naming the value for anything else. */
  function ToolchainTables(toolchain: Option<string>): (r: Result<Tables, ConfigError>)
    ensures r.Success? <==> KnownToolchain(toolchain)
    ensures toolchain == Some("Trellis") ==> r == Success(TrellisTables)
    ensures toolchain == Some("Diamond") ==> r == Success(DiamondTables)
    ensures r.Failure? ==> r.error == UnknownToolchain(toolchain) && IsInfix(Render(toolchain), r.error.message)
  {
    if !KnownToolchain(toolchain) then
      InfixOfConcat("Unknown toolchain '", Render(toolchain), "', must be either 'Trellis', or 'Diamond'");
      Failure(UnknownToolchain(toolchain))
    else if toolchain == Some("Trellis") then Success(TrellisTables)
    else Success(DiamondTables)
  }

  function RequiredTools(toolchain: Option<string>): Result<seq<string>, ConfigError> {
    var t :- ToolchainTables(toolchain);
    Success(t.requiredTools)
  }

  function FileTemplates(toolchain: Option<string>): Result<seq<string>, ConfigError> {
    var t :- ToolchainTables(toolchain);
    Success(t.fileNames)
  }

  function CommandTemplates(toolchain: Option<string>): Result<seq<string>, ConfigError> {
    var t :- ToolchainTables(toolchain);
    Success(t.invokedTools)
  }

  /** The three properties agree on which toolchains they accept, and every tool a command
      template invokes is among the toolchain's required tools. */
  lemma DispatchConsistent(toolchain: Option<string>)
    ensures RequiredTools(toolchain).Success? == FileTemplates(toolchain).Success? == CommandTemplates(toolchain).Success?
    ensures RequiredTools(toolchain).Success? <==> KnownToolchain(toolchain)
    ensures CommandTemplates(toolchain).Success? ==>
      forall k :: 0 <= k < |CommandTemplates(toolchain).value| ==>
        CommandTemplates(toolchain).value[k] in RequiredTools(toolchain).value
  {
  }

  /** `__init__` as written: it checks the attribute `self.toolchain` -- still the class
      attribute when the constructor runs -- and only then stores the argument. */
  function InitAsWritten(classToolchain: Option<string>, toolchain: string): (r: Result<Option<string>, ConfigError>)
    ensures r.Success? <==> KnownToolchain(classToolchain)
    ensures r.Success? ==> r.value == Some(toolchain)
    ensures r.Failure? ==> r.error == UnknownToolchain(classToolchain)
  {
    if !KnownToolchain(classToolchain) then Failure(UnknownToolchain(classToolchain))
    else Success(Some(toolchain))
  }

  /** With the class attribute left at its default `None`, construction always fails, even
      for the default argument `'Trellis'`. */
  lemma InitAsWrittenAlwaysFails(toolchain: string)
    ensures InitAsWritten(None, toolchain) == Failure(UnknownToolchain(None))
    ensures IsInfix("None", UnknownToolchain(None).message)
  {
    InfixOfConcat("Unknown toolchain '", "None", "', must be either 'Trellis', or 'Diamond'");
  }

  /** And when a subclass presets the attribute, every unknown argument is accepted and
      only the later dispatch fails. */
  lemma InitAsWrittenAcceptsUnknown(classToolchain: Option<string>, toolchain: string)
    requires KnownToolchain(classToolchain) && !KnownToolchain(Some(toolchain))
    ensures InitAsWritten(classToolchain, toolchain) == Success(Some(toolchain))
    ensures RequiredTools(InitAsWritten(classToolchain, toolchain).value).Failure?
  {
  }

  /** `__init__` as evidently intended: validate the argument, then store it. */
  function Init(toolchain: string): (r: Result<Option<string>, ConfigError>)
    ensures r.Success? <==> KnownToolchain(Some(toolchain))
    ensures r.Success? ==> r.value == Some(toolchain)
    ensures r.Failure? ==> r.error == UnknownToolchain(Some(toolchain))
  {
    if !KnownToolchain(Some(toolchain)) then Failure(UnknownToolchain(Some(toolchain)))
    else Success(Some(toolchain))
  }

  /** A platform the intended constructor accepts always dispatches its tables, and the
      default argument is accepted. */
  lemma InitThenDispatch(toolchain: string)
    ensures Init(toolchain).Success? ==> ToolchainTables(Init(toolchain).value).Success?
    ensures Init("Trellis") == Success(Some("Trellis"))
    ensures RequiredTools(Init("Trellis").value) == Success(TrellisTables.requiredTools)
  {
  }

  // ---------------------------------------------------------------------------------------
  // Default clock

  /** The value of a platform attribute: an `int`, or anything else (shown by its repr).
      A Python `bool` is an `int`, but no `bool` lies in 2..128, so both are rejected alike. */
  datatype PyValue = PyInt(i: int) | PyOther(repr: string)

  /** The OSCG divider check: the attribute must exist and be an integer in 2..128. */
  function OscgDivider(oscgDiv: Option<PyValue>): (r: Result<int, ConfigError>)
    ensures r.Success? <==> oscgDiv.Some? && oscgDiv.value.PyInt? && 2 <= oscgDiv.value.i <= 128
    ensures r.Success? ==> r.value == oscgDiv.value.i
  {
    match oscgDiv
    case None => Failure(ConfigError("OSCG divider (oscg_div) must be an integer between 2 and 128"))
    case Some(v) =>
      if !v.PyInt? || v.i < 2 || v.i > 128 then
        Failure(ConfigError("OSCG divider (oscg_div) must be an integer between 2 and 128, not " +
          (if v.PyInt? then IntToDecimal(v.i) else v.repr)))
      else Success(v.i)
  }

  /** How the rejection message shows the attribute: the `repr` of the value. */
  function Shown(v: PyValue): string {
    if v.PyInt? then IntToDecimal(v.i) else v.repr
  }

  /** A divider that is present but invalid is rejected with a message showing it. */
  lemma OscgDividerErrorShowsValue(v: PyValue)
    requires !(v.PyInt? && 2 <= v.i <= 128)
    ensures OscgDivider(Some(v)).Failure?
    ensures IsInfix(Shown(v), OscgDivider(Some(v)).error.message)
  {
    var head := "OSCG divider (oscg_div) must be an integer between 2 and 128, not ";
    assert OscgDivider(Some(v)).error.message == head + Shown(v) + "";
    InfixOfConcat(head, Shown(v), "");
  }

  /** For an integer attribute, the OSCG domain exists exactly for the dividers 2..128,
      and the oscillator is given that very divider. */
  lemma OscgDomainDivider(d: int)
    ensures var r := CreateMissingDomain("sync", Some("OSCG"), Some(PyInt(d)));
      && (r.Success? <==> 2 <= d <= 128)
      && (r.Success? ==> r.value == Some(Oscg(d)))
  {
  }

  /** Where the `sync` domain created by `create_missing_domain` takes its clock from:
      the internal oscillator with the given divider, or the named clock resource. */
  datatype SyncClock = Oscg(div: int) | Requested(resource: string)

  /** `create_missing_domain`: no module for other domains or without a default clock; for
      `sync` with the default clock `OSCG` the divider must pass the check. */
  function CreateMissingDomain(name: string, defaultClk: Option<string>, oscgDiv: Option<PyValue>): (r: Result<Option<SyncClock>, ConfigError>)
    ensures name != "sync" || defaultClk.None? ==> r == Success(None)
    ensures name == "sync" && defaultClk == Some("OSCG") ==>
      (r.Success? <==> OscgDivider(oscgDiv).Success?) &&
      (r.Success? ==> r.value == Some(Oscg(OscgDivider(oscgDiv).value)))
    ensures name == "sync" && defaultClk.Some? && defaultClk != Some("OSCG") ==>
      r == Success(Some(Requested(defaultClk.value)))
  {
    if name != "sync" || defaultClk.None? then Success(None)
    else if defaultClk.value == "OSCG" then
      var div :- OscgDivider(oscgDiv);
      Success(Some(Oscg(div)))
    else Success(Some(Requested(defaultClk.value)))
  }
}
