/** Peripheral resource builders of `torii/platform/resources/interface.py`: each turns
    pin strings and options into an ordered list of subsignals (name, pins, direction,
    inversion, asserted width), followed by the attributes when given. `Pins`, `PinsN`,
    `Subsignal` and `Resource.family` are framework constructors and appear here as plain
    records; the `conn` argument is passed through to them unchanged and is not modelled. */
module Resources {
  import opened Wrappers
  import opened Netlist

  /** The subsignal names the builders use. */
  datatype Name =
    | Rx | Tx | Rts | Cts | Dtr | Dsr | Dcd | Ri | En
    | Cs | Clk | Copi | Cipo | Int | Reset
    | Scl | Sda | DP | DN | Pullup | VbusValid
    | Data | DirLine | Nxt | Stp | Rst | Dat

  /** The name as the resource spells it. */
  function NameText(n: Name): string {
    match n
    case Rx => "rx" case Tx => "tx" case Rts => "rts" case Cts => "cts" case Dtr => "dtr"
    case Dsr => "dsr" case Dcd => "dcd" case Ri => "ri" case En => "en"
    case Cs => "cs" case Clk => "clk" case Copi => "copi" case Cipo => "cipo" case Int => "int"
    case Reset => "reset" case Scl => "scl" case Sda => "sda" case DP => "d_p" case DN => "d_n"
    case Pullup => "pullup" case VbusValid => "vbus_valid" case Data => "data" case DirLine => "dir"
    case Nxt => "nxt" case Stp => "stp" case Rst => "rst" case Dat => "dat"
  }

  /** A `Subsignal(name, Pins(...))`; `invert` is set by `PinsN` or `invert = ...`. */
  datatype Subsignal = Subsignal(name: Name, pins: string, dir: Dir, invert: bool, assertWidth: Option<nat>)

  /** The `ios` of a resource: the subsignals in order, then the attributes if given. The
      resource is either `Resource.family(*args, default_name = ..., ios = ...)`, whose
      positional arguments pick the name and number inside the framework, or
      `Resource(name, number, *ios)`. */
  datatype Resource =
    | Family(defaultName: string, subs: seq<Subsignal>, attrs: Option<map<string, string>>)
    | Numbered(name: string, number: int, subs: seq<Subsignal>, attrs: Option<map<string, string>>)

  datatype ResourceError =
    | AssertionFailed                  // a failed `assert`
    | BadRole(role: string)            // `ValueError` for an SPI role
    | BadClkDir(clkDir: string)        // `ValueError` for a ULPI clock direction

  /** One subsignal for an optional pin string, none when it is not given. */
  function Optional(name: Name, pins: Option<string>, dir: Dir, invert: bool, width: Option<nat>): (r: seq<Subsignal>)
    ensures |r| <= 1
    ensures |r| == 1 <==> pins.Some?
    ensures |r| == 1 ==> r[0] == Subsignal(name, pins.value, dir, invert, width)
  {
    if pins.Some? then [Subsignal(name, pins.value, dir, invert, width)] else []
  }

  predicate Has(subs: seq<Subsignal>, n: Name) {
    exists j :: 0 <= j < |subs| && subs[j].name == n
  }

  /** What the framework expects of a resource: no subsignal name used twice. */
  predicate DistinctNames(subs: seq<Subsignal>) {
    forall a, b :: 0 <= a < b < |subs| ==> subs[a].name != subs[b].name
  }

  lemma HasConcat(s: seq<Subsignal>, t: seq<Subsignal>, n: Name)
    ensures Has(s + t, n) <==> Has(s, n) || Has(t, n)
  {
    if Has(s, n) {
      var j :| 0 <= j < |s| && s[j].name == n;
      assert (s + t)[j] == s[j];
    }
    if Has(t, n) {
      var j :| 0 <= j < |t| && t[j].name == n;
      assert (s + t)[|s| + j] == t[j];
    }
  }

  /** Every name of `s` ranks below `bound`. */
  predicate RankedBelow(s: seq<Subsignal>, rank: Name -> nat, bound: nat) {
    forall j :: 0 <= j < |s| ==> rank(s[j].name) < bound
  }

  predicate Increasing(s: seq<Subsignal>, rank: Name -> nat) {
    forall a, b :: 0 <= a < b < |s| ==> rank(s[a].name) < rank(s[b].name)
  }

  /** Increasing ranks imply distinct names. */
  lemma IncreasingDistinct(s: seq<Subsignal>, rank: Name -> nat)
    requires Increasing(s, rank)
    ensures DistinctNames(s)
  {
  }

  /** Appending at most one entry of the next rank keeps the ranks increasing. */
  lemma AppendNext(s: seq<Subsignal>, t: seq<Subsignal>, rank: Name -> nat, bound: nat)
    requires Increasing(s, rank) && RankedBelow(s, rank, bound)
    requires SingleOfRank(t, rank, bound)
    ensures Increasing(s + t, rank) && RankedBelow(s + t, rank, bound + 1)
  {
    assert forall j :: |s| <= j < |s + t| ==> (s + t)[j] == t[j - |s|];
  }

  /** A name ranked by its position cannot repeat. */
  lemma RankedByPosition(s: seq<Subsignal>, rank: Name -> nat)
    requires forall j :: 0 <= j < |s| ==> rank(s[j].name) == j
    ensures DistinctNames(s)
  {
    assert Increasing(s, rank);
  }

  lemma OptionalHas(name: Name, pins: Option<string>, dir: Dir, invert: bool, width: Option<nat>, n: Name)
    ensures Has(Optional(name, pins, dir, invert, width), n) <==> pins.Some? && n == name
  {
    var r := Optional(name, pins, dir, invert, width);
    if pins.Some? {
      assert r[0].name == name;
    }
  }

  /** At most one entry, of rank `v`. */
  predicate SingleOfRank(s: seq<Subsignal>, rank: Name -> nat, v: nat) {
    |s| <= 1 && forall j :: 0 <= j < |s| ==> rank(s[j].name) == v
  }

  lemma OptionalRank(name: Name, pins: Option<string>, dir: Dir, invert: bool, width: Option<nat>, rank: Name -> nat)
    ensures SingleOfRank(Optional(name, pins, dir, invert, width), rank, rank(name))
  {
  }

  lemma HasConcat4(a: seq<Subsignal>, b: seq<Subsignal>, c: seq<Subsignal>, d: seq<Subsignal>, n: Name)
    ensures Has(a + b + c + d, n) <==> Has(a, n) || Has(b, n) || Has(c, n) || Has(d, n)
  {
    HasConcat(a + b + c, d, n);
    HasConcat(a + b, c, n);
    HasConcat(a, b, n);
  }

  // ---------------------------------------------------------------------------------------
  // UART

  /** The optional modem control lines. */
  datatype UartLines = UartLines(rts: Option<string>, cts: Option<string>, dtr: Option<string>,
                                 dsr: Option<string>, dcd: Option<string>, ri: Option<string>)

  /** The control lines by position: rts, cts, dtr, dsr, dcd, ri. */
  function ControlName(k: nat): Name {
    if k == 0 then Rts else if k == 1 then Cts else if k == 2 then Dtr
    else if k == 3 then Dsr else if k == 4 then Dcd else Ri
  }

  /** The position of a control line (6 for any other name). */
  function Rank(n: Name): nat {
    match n
    case Rts => 0 case Cts => 1 case Dtr => 2 case Dsr => 3 case Dcd => 4 case Ri => 5
    case _ => 6
  }

  function Line(lines: UartLines, k: nat): Option<string> {
    if k == 0 then lines.rts else if k == 1 then lines.cts else if k == 2 then lines.dtr
    else if k == 3 then lines.dsr else if k == 4 then lines.dcd else lines.ri
  }

  predicate AnyLine(lines: UartLines) {
    lines.rts.Some? || lines.cts.Some? || lines.dtr.Some? || lines.dsr.Some? || lines.dcd.Some? || lines.ri.Some?
  }

  /** rts and dtr travel from the DTE to the DCE, the others the other way. */
  predicate DteToDce(k: nat) {
    k == 0 || k == 2
  }

  /** The direction of control line `k` for `role`: a DTE drives its own lines and reads
      the DCE's; any other role (DCE, or none when no control line is given) the reverse. */
  function LineDir(dte: bool, k: nat): Dir {
    if DteToDce(k) == dte then O else I
  }

  function LineSub(lines: UartLines, dte: bool, k: nat): seq<Subsignal> {
    Optional(ControlName(k), Line(lines, k), LineDir(dte, k), false, Some(1))
  }

  /** The subsignals of the supplied control lines, appended in the order rts, cts, dtr,
      dsr, dcd, ri. */
  function ControlLines(lines: UartLines, dte: bool): seq<Subsignal> {
    LineSub(lines, dte, 0) + LineSub(lines, dte, 1) + LineSub(lines, dte, 2) +
    LineSub(lines, dte, 3) + LineSub(lines, dte, 4) + LineSub(lines, dte, 5)
  }

  function RxTx(rx: string, tx: string): seq<Subsignal> {
    [Subsignal(Rx, rx, I, false, Some(1)), Subsignal(Tx, tx, O, false, Some(1))]
  }

  /** The UART's subsignals once the role has been checked. */
  function UartSubs(rx: string, tx: string, lines: UartLines, dte: bool): seq<Subsignal> {
    RxTx(rx, tx) + ControlLines(lines, dte)
  }

  /** `UARTResource`: a control line without a role of `'dce'` or `'dte'` fails the
      assertion. */
  function Uart(rx: string, tx: string, lines: UartLines, attrs: Option<map<string, string>>, role: Option<string>): (r: Result<Resource, ResourceError>)
    ensures r.Failure? <==> AnyLine(lines) && role != Some("dce") && role != Some("dte")
    ensures r.Failure? ==> r.error == AssertionFailed
    ensures r.Success? ==> r.value.Family? && r.value.defaultName == "uart" && r.value.attrs == attrs
  {
    if AnyLine(lines) && role != Some("dce") && role != Some("dte") then Failure(AssertionFailed)
    else Success(Family("uart", UartSubs(rx, tx, lines, role == Some("dte")), attrs))
  }

  /** `x` is the one-bit subsignal of a supplied control line, pointed by the role. */
  predicate IsLineEntry(lines: UartLines, dte: bool, x: Subsignal) {
    && Rank(x.name) < 6
    && Line(lines, Rank(x.name)).Some?
    && x.pins == Line(lines, Rank(x.name)).value
    && x.dir == LineDir(dte, Rank(x.name))
    && !x.invert
    && x.assertWidth == Some(1)
  }

  predicate AllLineEntries(lines: UartLines, dte: bool, s: seq<Subsignal>) {
    forall j :: 0 <= j < |s| ==> IsLineEntry(lines, dte, s[j])
  }

  lemma LineSubFacts(lines: UartLines, dte: bool, k: nat)
    requires k < 6
    ensures var h := LineSub(lines, dte, k);
      && AllLineEntries(lines, dte, h)
      && (forall j :: 0 <= j < |h| ==> Rank(h[j].name) == k)
      && (forall n :: Has(h, n) <==> Line(lines, k).Some? && n == ControlName(k))
  {
    assert Rank(ControlName(k)) == k;
  }

  lemma AllLineEntriesConcat(lines: UartLines, dte: bool, s: seq<Subsignal>, t: seq<Subsignal>)
    requires AllLineEntries(lines, dte, s) && AllLineEntries(lines, dte, t)
    ensures AllLineEntries(lines, dte, s + t)
  {
    assert forall j :: |s| <= j < |s + t| ==> (s + t)[j] == t[j - |s|];
  }

  /** Every control line entry is the subsignal of a supplied line. */
  lemma ControlLinesEntries(lines: UartLines, dte: bool)
    ensures AllLineEntries(lines, dte, ControlLines(lines, dte))
  {
    var h0, h1, h2 := LineSub(lines, dte, 0), LineSub(lines, dte, 1), LineSub(lines, dte, 2);
    var h3, h4, h5 := LineSub(lines, dte, 3), LineSub(lines, dte, 4), LineSub(lines, dte, 5);
    LineSubFacts(lines, dte, 0); LineSubFacts(lines, dte, 1); LineSubFacts(lines, dte, 2);
    LineSubFacts(lines, dte, 3); LineSubFacts(lines, dte, 4); LineSubFacts(lines, dte, 5);
    AllLineEntriesConcat(lines, dte, h0, h1);
    AllLineEntriesConcat(lines, dte, h0 + h1, h2);
    AllLineEntriesConcat(lines, dte, h0 + h1 + h2, h3);
    AllLineEntriesConcat(lines, dte, h0 + h1 + h2 + h3, h4);
    AllLineEntriesConcat(lines, dte, h0 + h1 + h2 + h3 + h4, h5);
  }

  /** The control lines come by strictly increasing position. */
  lemma ControlLinesIncreasing(lines: UartLines, dte: bool)
    ensures Increasing(ControlLines(lines, dte), Rank)
  {
    var h0, h1, h2 := LineSub(lines, dte, 0), LineSub(lines, dte, 1), LineSub(lines, dte, 2);
    var h3, h4, h5 := LineSub(lines, dte, 3), LineSub(lines, dte, 4), LineSub(lines, dte, 5);
    LineSubFacts(lines, dte, 0); LineSubFacts(lines, dte, 1); LineSubFacts(lines, dte, 2);
    LineSubFacts(lines, dte, 3); LineSubFacts(lines, dte, 4); LineSubFacts(lines, dte, 5);
    AppendNext([], h0, Rank, 0);
    assert [] + h0 == h0;
    AppendNext(h0, h1, Rank, 1);
    AppendNext(h0 + h1, h2, Rank, 2);
    AppendNext(h0 + h1 + h2, h3, Rank, 3);
    AppendNext(h0 + h1 + h2 + h3, h4, Rank, 4);
    AppendNext(h0 + h1 + h2 + h3 + h4, h5, Rank, 5);
  }

  lemma LineSubHas(lines: UartLines, dte: bool, k: nat, n: Name)
    ensures Has(LineSub(lines, dte, k), n) <==> Line(lines, k).Some? && n == ControlName(k)
  {
    OptionalHas(ControlName(k), Line(lines, k), LineDir(dte, k), false, Some(1), n);
  }

  /** A control line appears among the control line entries exactly when it is supplied. */
  lemma ControlLinesHas(lines: UartLines, dte: bool, m: nat)
    requires m < 6
    ensures Has(ControlLines(lines, dte), ControlName(m)) <==> Line(lines, m).Some?
  {
    var n := ControlName(m);
    var h0, h1, h2 := LineSub(lines, dte, 0), LineSub(lines, dte, 1), LineSub(lines, dte, 2);
    var h3, h4, h5 := LineSub(lines, dte, 3), LineSub(lines, dte, 4), LineSub(lines, dte, 5);
    LineSubHas(lines, dte, 0, n); LineSubHas(lines, dte, 1, n); LineSubHas(lines, dte, 2, n);
    LineSubHas(lines, dte, 3, n); LineSubHas(lines, dte, 4, n); LineSubHas(lines, dte, 5, n);
    HasConcat4(h0 + h1 + h2, h3, h4, h5, n);
    HasConcat(h0 + h1, h2, n);
    HasConcat(h0, h1, n);
  }

  /** rx and tx, then exactly the supplied control lines. */
  lemma UartSubsHas(rx: string, tx: string, lines: UartLines, dte: bool)
    ensures forall m :: 0 <= m < 6 ==> (Has(UartSubs(rx, tx, lines, dte), ControlName(m)) <==> Line(lines, m).Some?)
  {
    forall m | 0 <= m < 6
      ensures Has(UartSubs(rx, tx, lines, dte), ControlName(m)) <==> Line(lines, m).Some?
    {
      ControlLinesHas(lines, dte, m);
      HasConcat(RxTx(rx, tx), ControlLines(lines, dte), ControlName(m));
    }
  }

  /** rx and tx, then one-bit subsignals of supplied control lines by increasing position,
      pointed by the role. */
  lemma UartSubsEntries(rx: string, tx: string, lines: UartLines, dte: bool)
    ensures var s := UartSubs(rx, tx, lines, dte);
      && |s| >= 2 && s[..2] == RxTx(rx, tx)
      && Increasing(s[2..], Rank)
      && AllLineEntries(lines, dte, s[2..])
  {
    ControlLinesEntries(lines, dte);
    ControlLinesIncreasing(lines, dte);
    assert UartSubs(rx, tx, lines, dte)[2..] == ControlLines(lines, dte);
  }

  /** No name is used twice in the UART: rx and tx are not control lines, and the control
      lines come by strictly increasing position. */
  lemma UartSubsDistinct(rx: string, tx: string, lines: UartLines, dte: bool)
    ensures DistinctNames(UartSubs(rx, tx, lines, dte))
  {
    var c := ControlLines(lines, dte);
    var s := UartSubs(rx, tx, lines, dte);
    ControlLinesEntries(lines, dte);
    ControlLinesIncreasing(lines, dte);
    forall a, b | 0 <= a < b < |s|
      ensures s[a].name != s[b].name
    {
      if b >= 2 {
        assert s[b] == c[b - 2];
        assert IsLineEntry(lines, dte, c[b - 2]);
      }
      if a >= 2 {
        assert s[a] == c[a - 2];
      }
    }
  }

  /** A UART that passes the role check: rx and tx come first, then exactly the supplied
      control lines in the order rts, cts, dtr, dsr, dcd, ri, each one bit wide and pointed
      according to the role; no name is used twice. */
  lemma UartLayout(rx: string, tx: string, lines: UartLines, attrs: Option<map<string, string>>, role: Option<string>)
    requires Uart(rx, tx, lines, attrs, role).Success?
    ensures var s := Uart(rx, tx, lines, attrs, role).value.subs;
      && |s| >= 2 && s[..2] == RxTx(rx, tx)
      && (forall m :: 0 <= m < 6 ==> (Has(s, ControlName(m)) <==> Line(lines, m).Some?))
      && Increasing(s[2..], Rank)
      && AllLineEntries(lines, role == Some("dte"), s[2..])
      && DistinctNames(s)
  {
    UartSubsHas(rx, tx, lines, role == Some("dte"));
    UartSubsEntries(rx, tx, lines, role == Some("dte"));
    UartSubsDistinct(rx, tx, lines, role == Some("dte"));
  }

  /** With only rx and tx the UART has exactly those two entries, whatever the role. */
  lemma UartMinimal(rx: string, tx: string, attrs: Option<map<string, string>>, role: Option<string>)
    ensures Uart(rx, tx, UartLines(None, None, None, None, None, None), attrs, role) == Success(Family("uart", RxTx(rx, tx), attrs))
  {
    var lines := UartLines(None, None, None, None, None, None);
    var dte := role == Some("dte");
    assert forall k :: 0 <= k < 6 ==> LineSub(lines, dte, k) == [];
    assert ControlLines(lines, dte) == [];
    assert UartSubs(rx, tx, lines, dte) == RxTx(rx, tx) + [];
    assert RxTx(rx, tx) + [] == RxTx(rx, tx);
    assert !AnyLine(lines);
    assert Uart(rx, tx, lines, attrs, role) == Success(Family("uart", UartSubs(rx, tx, lines, dte), attrs));
  }

  function Flip(d: Dir): Dir {
    if d == I then O else if d == O then I else d
  }

  /** `a` is `b` with every direction flipped. */
  predicate Flipped(a: seq<Subsignal>, b: seq<Subsignal>) {
    |a| == |b| && forall j :: 0 <= j < |a| ==> a[j] == b[j].(dir := Flip(b[j].dir))
  }

  lemma FlippedConcat(a1: seq<Subsignal>, a2: seq<Subsignal>, b1: seq<Subsignal>, b2: seq<Subsignal>)
    requires Flipped(a1, b1) && Flipped(a2, b2)
    ensures Flipped(a1 + a2, b1 + b2)
  {
    assert forall j :: |a1| <= j < |a1| + |a2| ==> (a1 + a2)[j] == a2[j - |a1|] && (b1 + b2)[j] == b2[j - |a1|];
  }

  /** The DTE's control lines are the DCE's with every direction flipped. */
  lemma ControlLinesMirror(lines: UartLines)
    ensures Flipped(ControlLines(lines, true), ControlLines(lines, false))
  {
    forall k | 0 <= k < 6
      ensures Flipped(LineSub(lines, true, k), LineSub(lines, false, k))
    {
    }
    var a0, a1, a2 := LineSub(lines, true, 0), LineSub(lines, true, 1), LineSub(lines, true, 2);
    var a3, a4, a5 := LineSub(lines, true, 3), LineSub(lines, true, 4), LineSub(lines, true, 5);
    var b0, b1, b2 := LineSub(lines, false, 0), LineSub(lines, false, 1), LineSub(lines, false, 2);
    var b3, b4, b5 := LineSub(lines, false, 3), LineSub(lines, false, 4), LineSub(lines, false, 5);
    FlippedConcat(a0, a1, b0, b1);
    FlippedConcat(a0 + a1, a2, b0 + b1, b2);
    FlippedConcat(a0 + a1 + a2, a3, b0 + b1 + b2, b3);
    FlippedConcat(a0 + a1 + a2 + a3, a4, b0 + b1 + b2 + b3, b4);
    FlippedConcat(a0 + a1 + a2 + a3 + a4, a5, b0 + b1 + b2 + b3 + b4, b5);
  }

  /** Swapping the role between DCE and DTE turns every control line around and leaves
      rx, tx and the attributes alone. */
  lemma UartRoleMirror(rx: string, tx: string, lines: UartLines, attrs: Option<map<string, string>>)
    ensures var dte := Uart(rx, tx, lines, attrs, Some("dte"));
      var dce := Uart(rx, tx, lines, attrs, Some("dce"));
      && dte.Success? && dce.Success?
      && dte.value.subs[..2] == dce.value.subs[..2] == RxTx(rx, tx)
      && Flipped(dte.value.subs[2..], dce.value.subs[2..])
      && dte.value.attrs == dce.value.attrs
  {
    assert Some("dce") != Some("dte");
    ControlLinesMirror(lines);
    assert UartSubs(rx, tx, lines, true)[2..] == ControlLines(lines, true);
    assert UartSubs(rx, tx, lines, false)[2..] == ControlLines(lines, false);
  }

  // ---------------------------------------------------------------------------------------
  // IrDA

  /** `IrDAResource`: exactly one of `en` (active high) and `sd` (shutdown, active low) must
      be given; either becomes the output subsignal `en`, inverted for `sd`. */
  function IrDA(number: int, rx: string, tx: string, en: Option<string>, sd: Option<string>, attrs: Option<map<string, string>>): (r: Result<Resource, ResourceError>)
    ensures r.Failure? <==> en.Some? == sd.Some?
    ensures r.Failure? ==> r.error == AssertionFailed
    ensures r.Success? ==>
      && r.value.Numbered? && r.value.name == "irda" && r.value.number == number && r.value.attrs == attrs
      && r.value.subs == RxTx(rx, tx) + [Subsignal(En, if en.Some? then en.value else sd.value, O, sd.Some?, Some(1))]
      && DistinctNames(r.value.subs)
  {
    if en.Some? == sd.Some? then Failure(AssertionFailed)
    else Success(Numbered("irda", number, RxTx(rx, tx) + Optional(En, en, O, false, Some(1)) + Optional(En, sd, O, true, Some(1)), attrs))
  }

  // ---------------------------------------------------------------------------------------
  // SPI

  /** cs (active low) and clk: driven by a controller, read by a peripheral; a
      controller's cs has no asserted width. */
  function SpiHead(ctrl: bool, csN: string, clk: string): seq<Subsignal> {
    if ctrl then [Subsignal(Cs, csN, O, true, None), Subsignal(Clk, clk, O, false, Some(1))]
    else [Subsignal(Cs, csN, I, true, Some(1)), Subsignal(Clk, clk, I, false, Some(1))]
  }

  function CopiSub(ctrl: bool, copi: Option<string>): seq<Subsignal> {
    Optional(Copi, copi, if ctrl then O else I, false, Some(1))
  }

  function CipoSub(ctrl: bool, cipo: Option<string>): seq<Subsignal> {
    Optional(Cipo, cipo, if ctrl then I else OE, false, Some(1))
  }

  /** The interrupt line; a controller's has no asserted width. */
  function IntSub(ctrl: bool, interrupt: Option<string>): seq<Subsignal> {
    Optional(Int, interrupt, if ctrl then I else OE, false, if ctrl then None else Some(1))
  }

  /** The reset line; a controller's has no asserted width. */
  function ResetSub(ctrl: bool, reset: Option<string>): seq<Subsignal> {
    Optional(Reset, reset, if ctrl then O else I, false, if ctrl then None else Some(1))
  }

  /** The SPI subsignals for a controller (`ctrl`) or a peripheral. */
  function SpiSubs(ctrl: bool, csN: string, clk: string, copi: Option<string>, cipo: Option<string>,
                   interrupt: Option<string>, reset: Option<string>): seq<Subsignal>
  {
    SpiHead(ctrl, csN, clk) + CopiSub(ctrl, copi) + CipoSub(ctrl, cipo) + IntSub(ctrl, interrupt) + ResetSub(ctrl, reset)
  }

  /** `SPIResource`. The role is checked first, then that the bus has at least one data
      line. */
  function Spi(csN: string, clk: string, copi: Option<string>, cipo: Option<string>, interrupt: Option<string>,
               reset: Option<string>, attrs: Option<map<string, string>>, role: string): (r: Result<Resource, ResourceError>)
    ensures role != "controller" && role != "peripheral" ==> r == Failure(BadRole(role))
    ensures (role == "controller" || role == "peripheral") ==> (r.Failure? <==> copi.None? && cipo.None?)
    ensures r.Failure? && (role == "controller" || role == "peripheral") ==> r.error == AssertionFailed
    ensures r.Success? ==> r.value.Family? && r.value.defaultName == "spi" && r.value.attrs == attrs
  {
    if role != "controller" && role != "peripheral" then Failure(BadRole(role))
    else if copi.None? && cipo.None? then Failure(AssertionFailed)
    else Success(Family("spi", SpiSubs(role == "controller", csN, clk, copi, cipo, interrupt, reset), attrs))
  }

  /** The direction table of the SPI lines: the controller drives cs, clk, copi and reset
      and reads cipo and int; the peripheral reads what the controller drives and drives
      what it reads, with an output enable. */
  function SpiDir(n: Name, controller: bool): Dir {
    if n == Cipo || n == Int then (if controller then I else OE)
    else (if controller then O else I)
  }

  /** The rank of an SPI line in the order the builder appends them. */
  function SpiRank(n: Name): nat {
    match n
    case Cs => 0 case Clk => 1 case Copi => 2 case Cipo => 3 case Int => 4 case Reset => 5
    case _ => 6
  }

  lemma SpiHeadHas(ctrl: bool, csN: string, clk: string, n: Name)
    ensures Has(SpiHead(ctrl, csN, clk), n) <==> n == Cs || n == Clk
  {
    var h := SpiHead(ctrl, csN, clk);
    assert h[0].name == Cs && h[1].name == Clk;
  }

  /** The names `SpiSubs` holds: cs, clk and exactly the given optional lines. */
  lemma SpiHasName(ctrl: bool, csN: string, clk: string, copi: Option<string>, cipo: Option<string>,
                   interrupt: Option<string>, reset: Option<string>, n: Name)
    ensures Has(SpiSubs(ctrl, csN, clk, copi, cipo, interrupt, reset), n) <==>
      || n == Cs || n == Clk
      || (n == Copi && copi.Some?) || (n == Cipo && cipo.Some?)
      || (n == Int && interrupt.Some?) || (n == Reset && reset.Some?)
  {
    var h := SpiHead(ctrl, csN, clk);
    var a := CopiSub(ctrl, copi);
    var b := CipoSub(ctrl, cipo);
    var c := IntSub(ctrl, interrupt);
    var d := ResetSub(ctrl, reset);
    HasConcat4(h + a, b, c, d, n);
    HasConcat(h, a, n);
    SpiHeadHas(ctrl, csN, clk, n);
    OptionalHas(Copi, copi, if ctrl then O else I, false, Some(1), n);
    OptionalHas(Cipo, cipo, if ctrl then I else OE, false, Some(1), n);
    OptionalHas(Int, interrupt, if ctrl then I else OE, false, if ctrl then None else Some(1), n);
    OptionalHas(Reset, reset, if ctrl then O else I, false, if ctrl then None else Some(1), n);
  }

  /** Which optional SPI lines `SpiSubs` holds: exactly the given ones. */
  lemma SpiSubsHas(ctrl: bool, csN: string, clk: string, copi: Option<string>, cipo: Option<string>,
                   interrupt: Option<string>, reset: Option<string>)
    ensures var s := SpiSubs(ctrl, csN, clk, copi, cipo, interrupt, reset);
      && (Has(s, Copi) <==> copi.Some?)
      && (Has(s, Cipo) <==> cipo.Some?)
      && (Has(s, Int) <==> interrupt.Some?)
      && (Has(s, Reset) <==> reset.Some?)
  {
    SpiHasName(ctrl, csN, clk, copi, cipo, interrupt, reset, Copi);
    SpiHasName(ctrl, csN, clk, copi, cipo, interrupt, reset, Cipo);
    SpiHasName(ctrl, csN, clk, copi, cipo, interrupt, reset, Int);
    SpiHasName(ctrl, csN, clk, copi, cipo, interrupt, reset, Reset);
  }

  /** `SpiSubs` starts with cs and clk. */
  lemma SpiSubsHead(ctrl: bool, csN: string, clk: string, copi: Option<string>, cipo: Option<string>,
                    interrupt: Option<string>, reset: Option<string>)
    ensures var s := SpiSubs(ctrl, csN, clk, copi, cipo, interrupt, reset);
      && |s| >= 2
      && s[0].name == Cs && s[0].pins == csN && s[1].name == Clk && s[1].pins == clk
  {
    var h := SpiHead(ctrl, csN, clk);
    var t := CopiSub(ctrl, copi) + CipoSub(ctrl, cipo) + IntSub(ctrl, interrupt) + ResetSub(ctrl, reset);
    assert SpiSubs(ctrl, csN, clk, copi, cipo, interrupt, reset) == h + t;
  }

  /** The head of rank 0 and 1 followed by at most one entry of each of the ranks 2 to 5
      is ordered by rank. */
  lemma AppendFour(h: seq<Subsignal>, a: seq<Subsignal>, b: seq<Subsignal>, c: seq<Subsignal>, d: seq<Subsignal>,
                   rank: Name -> nat)
    requires Increasing(h, rank) && RankedBelow(h, rank, 2)
    requires SingleOfRank(a, rank, 2) && SingleOfRank(b, rank, 3)
    requires SingleOfRank(c, rank, 4) && SingleOfRank(d, rank, 5)
    ensures Increasing(h + a + b + c + d, rank)
  {
    AppendNext(h, a, rank, 2);
    AppendNext(h + a, b, rank, 3);
    AppendNext(h + a + b, c, rank, 4);
    AppendNext(h + a + b + c, d, rank, 5);
  }

  lemma SpiHeadRanked(ctrl: bool, csN: string, clk: string)
    ensures Increasing(SpiHead(ctrl, csN, clk), SpiRank) && RankedBelow(SpiHead(ctrl, csN, clk), SpiRank, 2)
  {
    var h := SpiHead(ctrl, csN, clk);
    assert |h| == 2 && SpiRank(h[0].name) == 0 && SpiRank(h[1].name) == 1;
  }

  /** `SpiSubs` keeps the order cs, clk, copi, cipo, int, reset. */
  lemma SpiSubsOrder(ctrl: bool, csN: string, clk: string, copi: Option<string>, cipo: Option<string>,
                     interrupt: Option<string>, reset: Option<string>)
    ensures Increasing(SpiSubs(ctrl, csN, clk, copi, cipo, interrupt, reset), SpiRank)
  {
    SpiHeadRanked(ctrl, csN, clk);
    OptionalRank(Copi, copi, if ctrl then O else I, false, Some(1), SpiRank);
    OptionalRank(Cipo, cipo, if ctrl then I else OE, false, Some(1), SpiRank);
    OptionalRank(Int, interrupt, if ctrl then I else OE, false, if ctrl then None else Some(1), SpiRank);
    OptionalRank(Reset, reset, if ctrl then O else I, false, if ctrl then None else Some(1), SpiRank);
    AppendFour(SpiHead(ctrl, csN, clk), CopiSub(ctrl, copi), CipoSub(ctrl, cipo), IntSub(ctrl, interrupt),
               ResetSub(ctrl, reset), SpiRank);
  }

  /** Every line is pointed by the direction table and only cs is inverted. */
  predicate SpiDirected(s: seq<Subsignal>, ctrl: bool) {
    forall j :: 0 <= j < |s| ==> s[j].dir == SpiDir(s[j].name, ctrl) && (s[j].invert <==> s[j].name == Cs)
  }

  lemma SpiDirectedConcat(s: seq<Subsignal>, t: seq<Subsignal>, ctrl: bool)
    requires SpiDirected(s, ctrl) && SpiDirected(t, ctrl)
    ensures SpiDirected(s + t, ctrl)
  {
    assert forall j :: |s| <= j < |s + t| ==> (s + t)[j] == t[j - |s|];
  }

  lemma OptionalDirected(name: Name, pins: Option<string>, ctrl: bool, width: Option<nat>)
    requires name != Cs
    ensures SpiDirected(Optional(name, pins, SpiDir(name, ctrl), false, width), ctrl)
  {
  }

  lemma SpiHeadDirected(ctrl: bool, csN: string, clk: string)
    ensures SpiDirected(SpiHead(ctrl, csN, clk), ctrl)
  {
    var h := SpiHead(ctrl, csN, clk);
    assert h[0].name == Cs && h[1].name == Clk;
  }

  lemma DirectedFive(h: seq<Subsignal>, a: seq<Subsignal>, b: seq<Subsignal>, c: seq<Subsignal>, d: seq<Subsignal>, ctrl: bool)
    requires SpiDirected(h, ctrl) && SpiDirected(a, ctrl) && SpiDirected(b, ctrl)
    requires SpiDirected(c, ctrl) && SpiDirected(d, ctrl)
    ensures SpiDirected(h + a + b + c + d, ctrl)
  {
    SpiDirectedConcat(h, a, ctrl);
    SpiDirectedConcat(h + a, b, ctrl);
    SpiDirectedConcat(h + a + b, c, ctrl);
    SpiDirectedConcat(h + a + b + c, d, ctrl);
  }

  /** Every line of `SpiSubs` is pointed by the direction table and only cs is inverted. */
  lemma SpiSubsDirections(ctrl: bool, csN: string, clk: string, copi: Option<string>, cipo: Option<string>,
                          interrupt: Option<string>, reset: Option<string>)
    ensures SpiDirected(SpiSubs(ctrl, csN, clk, copi, cipo, interrupt, reset), ctrl)
  {
    SpiHeadDirected(ctrl, csN, clk);
    OptionalDirected(Copi, copi, ctrl, Some(1));
    OptionalDirected(Cipo, cipo, ctrl, Some(1));
    OptionalDirected(Int, interrupt, ctrl, if ctrl then None else Some(1));
    OptionalDirected(Reset, reset, ctrl, if ctrl then None else Some(1));
    DirectedFive(SpiHead(ctrl, csN, clk), CopiSub(ctrl, copi), CipoSub(ctrl, cipo), IntSub(ctrl, interrupt),
                 ResetSub(ctrl, reset), ctrl);
  }

  /** The arguments an SPI bus takes its pin strings from. */
  datatype SpiLines = SpiLines(csN: string, clk: string, copi: Option<string>, cipo: Option<string>,
                               interrupt: Option<string>, reset: Option<string>)

  /** The pin string of each SPI line: the argument of the same name. */
  function SpiPins(n: Name, a: SpiLines): Option<string> {
    match n
    case Cs => Some(a.csN) case Clk => Some(a.clk) case Copi => a.copi case Cipo => a.cipo
    case Int => a.interrupt case Reset => a.reset
    case _ => None
  }

  /** The asserted width of each SPI line: one bit, except that a controller's cs, int and
      reset assert none. */
  function SpiWidth(n: Name, controller: bool): Option<nat> {
    if controller && (n == Cs || n == Int || n == Reset) then None else Some(1)
  }

  /** Every line carries the pins of its own argument and the width of the width table. */
  predicate SpiPinned(s: seq<Subsignal>, ctrl: bool, a: SpiLines) {
    forall j :: 0 <= j < |s| ==> Some(s[j].pins) == SpiPins(s[j].name, a) && s[j].assertWidth == SpiWidth(s[j].name, ctrl)
  }

  lemma SpiPinnedConcat(s: seq<Subsignal>, t: seq<Subsignal>, ctrl: bool, a: SpiLines)
    requires SpiPinned(s, ctrl, a) && SpiPinned(t, ctrl, a)
    ensures SpiPinned(s + t, ctrl, a)
  {
    assert forall j :: |s| <= j < |s + t| ==> (s + t)[j] == t[j - |s|];
  }

  lemma SpiHeadPinned(ctrl: bool, a: SpiLines)
    ensures SpiPinned(SpiHead(ctrl, a.csN, a.clk), ctrl, a)
  {
    var h := SpiHead(ctrl, a.csN, a.clk);
    assert h[0].name == Cs && h[1].name == Clk;
  }

  /** An optional line named `name` that takes its pins from its own argument and the
      width of the width table. */
  lemma OptionalPinned(name: Name, ctrl: bool, a: SpiLines, dir: Dir)
    ensures SpiPinned(Optional(name, SpiPins(name, a), dir, false, SpiWidth(name, ctrl)), ctrl, a)
  {
  }

  lemma SpiPartsPinned(ctrl: bool, a: SpiLines)
    ensures SpiPinned(CopiSub(ctrl, a.copi), ctrl, a) && SpiPinned(CipoSub(ctrl, a.cipo), ctrl, a)
    ensures SpiPinned(IntSub(ctrl, a.interrupt), ctrl, a) && SpiPinned(ResetSub(ctrl, a.reset), ctrl, a)
  {
    assert SpiPins(Copi, a) == a.copi && SpiWidth(Copi, ctrl) == Some(1);
    assert SpiPins(Cipo, a) == a.cipo && SpiWidth(Cipo, ctrl) == Some(1);
    assert SpiPins(Int, a) == a.interrupt && SpiWidth(Int, ctrl) == (if ctrl then None else Some(1));
    assert SpiPins(Reset, a) == a.reset && SpiWidth(Reset, ctrl) == (if ctrl then None else Some(1));
    OptionalPinned(Copi, ctrl, a, if ctrl then O else I);
    OptionalPinned(Cipo, ctrl, a, if ctrl then I else OE);
    OptionalPinned(Int, ctrl, a, if ctrl then I else OE);
    OptionalPinned(Reset, ctrl, a, if ctrl then O else I);
  }

  /** Every line of `SpiSubs` carries the pins of its own argument and its table width. */
  lemma SpiSubsPinned(ctrl: bool, a: SpiLines)
    ensures SpiPinned(SpiSubs(ctrl, a.csN, a.clk, a.copi, a.cipo, a.interrupt, a.reset), ctrl, a)
  {
    var h := SpiHead(ctrl, a.csN, a.clk);
    var c0, c1 := CopiSub(ctrl, a.copi), CipoSub(ctrl, a.cipo);
    var c2, c3 := IntSub(ctrl, a.interrupt), ResetSub(ctrl, a.reset);
    SpiHeadPinned(ctrl, a);
    SpiPartsPinned(ctrl, a);
    SpiPinnedConcat(h, c0, ctrl, a);
    SpiPinnedConcat(h + c0, c1, ctrl, a);
    SpiPinnedConcat(h + c0 + c1, c2, ctrl, a);
    SpiPinnedConcat(h + c0 + c1 + c2, c3, ctrl, a);
  }

  /** A successful SPI bus: cs and clk first, every line pointed by the direction table,
      carrying the pins of its own argument and the width of the width table, only cs
      inverted, each optional line present exactly when given, and the lines in
      the order cs, clk, copi, cipo, int, reset. */
  lemma SpiLayout(csN: string, clk: string, copi: Option<string>, cipo: Option<string>, interrupt: Option<string>,
                  reset: Option<string>, attrs: Option<map<string, string>>, role: string)
    requires Spi(csN, clk, copi, cipo, interrupt, reset, attrs, role).Success?
    ensures var s := Spi(csN, clk, copi, cipo, interrupt, reset, attrs, role).value.subs;
      && |s| >= 3
      && s[0].name == Cs && s[0].pins == csN && s[1].name == Clk && s[1].pins == clk
      && SpiDirected(s, role == "controller")
      && SpiPinned(s, role == "controller", SpiLines(csN, clk, copi, cipo, interrupt, reset))
      && (Has(s, Copi) <==> copi.Some?)
      && (Has(s, Cipo) <==> cipo.Some?)
      && (Has(s, Int) <==> interrupt.Some?)
      && (Has(s, Reset) <==> reset.Some?)
      && Increasing(s, SpiRank)
      && DistinctNames(s)
  {
    var ctrl := role == "controller";
    SpiSubsHas(ctrl, csN, clk, copi, cipo, interrupt, reset);
    SpiSubsHead(ctrl, csN, clk, copi, cipo, interrupt, reset);
    SpiSubsOrder(ctrl, csN, clk, copi, cipo, interrupt, reset);
    IncreasingDistinct(SpiSubs(ctrl, csN, clk, copi, cipo, interrupt, reset), SpiRank);
    SpiSubsDirections(ctrl, csN, clk, copi, cipo, interrupt, reset);
    SpiSubsPinned(ctrl, SpiLines(csN, clk, copi, cipo, interrupt, reset));
  }

  /** `p` is `c` with every direction turned from the controller's to the peripheral's
      side: outputs become inputs and inputs become output-enabled; names, pins and
      inversion stay. */
  predicate Mirrored(c: seq<Subsignal>, p: seq<Subsignal>) {
    && |c| == |p|
    && forall j :: 0 <= j < |c| ==>
      && p[j].name == c[j].name && p[j].pins == c[j].pins && p[j].invert == c[j].invert
      && p[j].dir == (if c[j].dir == O then I else OE)
  }

  lemma MirroredConcat(c1: seq<Subsignal>, c2: seq<Subsignal>, p1: seq<Subsignal>, p2: seq<Subsignal>)
    requires Mirrored(c1, p1) && Mirrored(c2, p2)
    ensures Mirrored(c1 + c2, p1 + p2)
  {
    assert forall j :: |c1| <= j < |c1| + |c2| ==> (c1 + c2)[j] == c2[j - |c1|] && (p1 + p2)[j] == p2[j - |c1|];
  }

  lemma MirroredFive(c0: seq<Subsignal>, c1: seq<Subsignal>, c2: seq<Subsignal>, c3: seq<Subsignal>, c4: seq<Subsignal>,
                     p0: seq<Subsignal>, p1: seq<Subsignal>, p2: seq<Subsignal>, p3: seq<Subsignal>, p4: seq<Subsignal>)
    requires Mirrored(c0, p0) && Mirrored(c1, p1) && Mirrored(c2, p2) && Mirrored(c3, p3) && Mirrored(c4, p4)
    ensures Mirrored(c0 + c1 + c2 + c3 + c4, p0 + p1 + p2 + p3 + p4)
  {
    MirroredConcat(c0, c1, p0, p1);
    MirroredConcat(c0 + c1, c2, p0 + p1, p2);
    MirroredConcat(c0 + c1 + c2, c3, p0 + p1 + p2, p3);
    MirroredConcat(c0 + c1 + c2 + c3, c4, p0 + p1 + p2 + p3, p4);
  }

  lemma OptionalMirrored(name: Name, pins: Option<string>, dc: Dir, wc: Option<nat>, wp: Option<nat>)
    ensures Mirrored(Optional(name, pins, dc, false, wc), Optional(name, pins, if dc == O then I else OE, false, wp))
  {
  }

  lemma SpiHeadMirrored(csN: string, clk: string)
    ensures Mirrored(SpiHead(true, csN, clk), SpiHead(false, csN, clk))
  {
  }

  /** Controller and peripheral subsignal lists mirror each other. */
  lemma SpiSubsMirror(csN: string, clk: string, copi: Option<string>, cipo: Option<string>, interrupt: Option<string>,
                      reset: Option<string>)
    ensures Mirrored(SpiSubs(true, csN, clk, copi, cipo, interrupt, reset), SpiSubs(false, csN, clk, copi, cipo, interrupt, reset))
  {
    SpiHeadMirrored(csN, clk);
    OptionalMirrored(Copi, copi, O, Some(1), Some(1));
    OptionalMirrored(Cipo, cipo, I, Some(1), Some(1));
    OptionalMirrored(Int, interrupt, I, None, Some(1));
    OptionalMirrored(Reset, reset, O, None, Some(1));
    MirroredFive(SpiHead(true, csN, clk), CopiSub(true, copi), CipoSub(true, cipo), IntSub(true, interrupt), ResetSub(true, reset),
                 SpiHead(false, csN, clk), CopiSub(false, copi), CipoSub(false, cipo), IntSub(false, interrupt), ResetSub(false, reset));
  }

  /** Switching an SPI bus from controller to peripheral keeps the lines, their pins and
      their inversion, and turns every direction around: outputs become inputs and inputs
      become output-enabled. */
  lemma SpiRoleMirror(csN: string, clk: string, copi: Option<string>, cipo: Option<string>, interrupt: Option<string>,
                      reset: Option<string>, attrs: Option<map<string, string>>)
    requires copi.Some? || cipo.Some?
    ensures var c := Spi(csN, clk, copi, cipo, interrupt, reset, attrs, "controller");
      var p := Spi(csN, clk, copi, cipo, interrupt, reset, attrs, "peripheral");
      c.Success? && p.Success? && Mirrored(c.value.subs, p.value.subs)
  {
    assert "controller" != "peripheral";
    SpiSubsMirror(csN, clk, copi, cipo, interrupt, reset);
  }

  // ---------------------------------------------------------------------------------------
  // Fixed-shape builders

  /** `I2CResource`: two bidirectional one-bit lines. */
  function I2C(scl: string, sda: string, attrs: Option<map<string, string>>): (r: Resource)
    ensures r.Family? && r.defaultName == "i2c" && r.attrs == attrs && DistinctNames(r.subs)
    ensures |r.subs| == 2 && r.subs[0].name == Scl && r.subs[1].name == Sda
    ensures forall j :: 0 <= j < |r.subs| ==> r.subs[j].dir == IO && r.subs[j].assertWidth == Some(1) && !r.subs[j].invert
    ensures r.subs[0].pins == scl && r.subs[1].pins == sda
  {
    Family("i2c", [Subsignal(Scl, scl, IO, false, Some(1)), Subsignal(Sda, sda, IO, false, Some(1))], attrs)
  }

  /** Python truthiness of an optional string: given and non-empty. */
  predicate Truthy(s: Option<string>) {
    s.Some? && s.value != ""
  }

  function IfTruthy(name: Name, pins: Option<string>, dir: Dir): (r: seq<Subsignal>)
    ensures |r| <= 1 && (|r| == 1 <==> Truthy(pins))
    ensures |r| == 1 ==> r[0] == Subsignal(name, pins.value, dir, false, Some(1))
  {
    if Truthy(pins) then [Subsignal(name, pins.value, dir, false, Some(1))] else []
  }

  /** The data pair, then `pullup` and `vbus_valid` when truthy. */
  function DirectUSBSubs(dP: string, dN: string, pullup: Option<string>, vbusValid: Option<string>): seq<Subsignal> {
    [Subsignal(DP, dP, IO, false, Some(1)), Subsignal(DN, dN, IO, false, Some(1))]
      + IfTruthy(Pullup, pullup, O) + IfTruthy(VbusValid, vbusValid, I)
  }

  lemma DirectUSBShape(dP: string, dN: string, pullup: Option<string>, vbusValid: Option<string>)
    ensures var s := DirectUSBSubs(dP, dN, pullup, vbusValid);
      && |s| == 2 + (if Truthy(pullup) then 1 else 0) + (if Truthy(vbusValid) then 1 else 0)
      && s[..2] == [Subsignal(DP, dP, IO, false, Some(1)), Subsignal(DN, dN, IO, false, Some(1))]
      && (Truthy(pullup) ==> s[2] == Subsignal(Pullup, pullup.value, O, false, Some(1)))
      && (Truthy(vbusValid) ==> s[|s| - 1] == Subsignal(VbusValid, vbusValid.value, I, false, Some(1)))
  {
  }

  lemma DirectUSBNames(dP: string, dN: string, pullup: Option<string>, vbusValid: Option<string>)
    ensures var s := DirectUSBSubs(dP, dN, pullup, vbusValid);
      && DistinctNames(s)
      && (Has(s, Pullup) <==> Truthy(pullup))
      && (Has(s, VbusValid) <==> Truthy(vbusValid))
      && forall j :: 0 <= j < |s| ==>
        s[j].dir == (if s[j].name == Pullup then O else if s[j].name == VbusValid then I else IO)
  {
    var s := DirectUSBSubs(dP, dN, pullup, vbusValid);
    DirectUSBShape(dP, dN, pullup, vbusValid);
    assert forall j :: 2 <= j < |s| ==> s[j].name == Pullup || s[j].name == VbusValid;
  }

  /** `DirectUSBResource`: the data pair, then `pullup` and `vbus_valid` when given as
      non-empty strings (an empty string is skipped like a missing one). */
  function DirectUSB(dP: string, dN: string, pullup: Option<string>, vbusValid: Option<string>, attrs: Option<map<string, string>>): (r: Resource)
    ensures r.Family? && r.defaultName == "usb" && r.attrs == attrs && DistinctNames(r.subs)
    ensures |r.subs| >= 2 && r.subs[..2] == [Subsignal(DP, dP, IO, false, Some(1)), Subsignal(DN, dN, IO, false, Some(1))]
    ensures Has(r.subs, Pullup) <==> Truthy(pullup)
    ensures Has(r.subs, VbusValid) <==> Truthy(vbusValid)
    ensures |r.subs| == 2 + (if Truthy(pullup) then 1 else 0) + (if Truthy(vbusValid) then 1 else 0)
    ensures forall j :: 0 <= j < |r.subs| ==>
      r.subs[j].dir == (if r.subs[j].name == Pullup then O else if r.subs[j].name == VbusValid then I else IO)
    ensures Truthy(pullup) ==> r.subs[2] == Subsignal(Pullup, pullup.value, O, false, Some(1))
    ensures Truthy(vbusValid) ==> r.subs[|r.subs| - 1] == Subsignal(VbusValid, vbusValid.value, I, false, Some(1))
  {
    DirectUSBShape(dP, dN, pullup, vbusValid);
    DirectUSBNames(dP, dN, pullup, vbusValid);
    Family("usb", DirectUSBSubs(dP, dN, pullup, vbusValid), attrs)
  }

  /** The position of a ULPI line. */
  function UlpiRank(n: Name): nat {
    match n
    case Data => 0 case Clk => 1 case DirLine => 2 case Nxt => 3 case Stp => 4 case Rst => 5
    case _ => 6
  }

  /** The ULPI lines for a clock of direction `clkDir`. */
  function UlpiSubs(data: string, clk: string, clkDir: Dir, dirPin: string, nxt: string, stp: string,
                    rst: Option<string>, rstInvert: bool): seq<Subsignal>
  {
    [Subsignal(Data, data, IO, false, Some(8)),
     Subsignal(Clk, clk, clkDir, false, Some(1)),
     Subsignal(DirLine, dirPin, I, false, Some(1)),
     Subsignal(Nxt, nxt, I, false, Some(1)),
     Subsignal(Stp, stp, O, false, Some(1))]
      + Optional(Rst, rst, O, rstInvert, Some(1))
  }

  lemma UlpiShape(data: string, clk: string, clkDir: Dir, dirPin: string, nxt: string, stp: string,
                  rst: Option<string>, rstInvert: bool)
    ensures var s := UlpiSubs(data, clk, clkDir, dirPin, nxt, stp, rst, rstInvert);
      && |s| == (if rst.Some? then 6 else 5)
      && s[0] == Subsignal(Data, data, IO, false, Some(8))
      && s[1] == Subsignal(Clk, clk, clkDir, false, Some(1))
      && s[2..5] == [Subsignal(DirLine, dirPin, I, false, Some(1)), Subsignal(Nxt, nxt, I, false, Some(1)),
                     Subsignal(Stp, stp, O, false, Some(1))]
      && (rst.Some? ==> s[5] == Subsignal(Rst, rst.value, O, rstInvert, Some(1)))
      && (forall j :: 0 <= j < |s| && s[j].invert ==> s[j].name == Rst)
  {
  }

  lemma UlpiNames(data: string, clk: string, clkDir: Dir, dirPin: string, nxt: string, stp: string,
                  rst: Option<string>, rstInvert: bool)
    ensures DistinctNames(UlpiSubs(data, clk, clkDir, dirPin, nxt, stp, rst, rstInvert))
  {
    var s := UlpiSubs(data, clk, clkDir, dirPin, nxt, stp, rst, rstInvert);
    assert forall j :: 0 <= j < |s| ==> UlpiRank(s[j].name) == j;
    RankedByPosition(s, UlpiRank);
  }

  /** `ULPIResource`: a clock direction other than `'i'`/`'o'` is rejected; otherwise the
      8-bit bidirectional data bus, clk in the given direction, dir, nxt, stp, then rst as
      an output inverted by `rst_invert` when given. */
  function Ulpi(data: string, clk: string, dirPin: string, nxt: string, stp: string, rst: Option<string>,
                clkDir: string, rstInvert: bool, attrs: Option<map<string, string>>): (r: Result<Resource, ResourceError>)
    ensures r.Failure? <==> clkDir != "i" && clkDir != "o"
    ensures r.Failure? ==> r.error == BadClkDir(clkDir)
    ensures r.Success? ==>
      && r.value.Family? && r.value.defaultName == "usb" && r.value.attrs == attrs && DistinctNames(r.value.subs)
      && |r.value.subs| == (if rst.Some? then 6 else 5)
      && r.value.subs[0] == Subsignal(Data, data, IO, false, Some(8))
      && r.value.subs[1] == Subsignal(Clk, clk, if clkDir == "i" then I else O, false, Some(1))
      && r.value.subs[2..5] == [Subsignal(DirLine, dirPin, I, false, Some(1)), Subsignal(Nxt, nxt, I, false, Some(1)),
                                Subsignal(Stp, stp, O, false, Some(1))]
      && (rst.Some? ==> r.value.subs[5] == Subsignal(Rst, rst.value, O, rstInvert, Some(1)))
      && (forall j :: 0 <= j < |r.value.subs| && r.value.subs[j].invert ==> r.value.subs[j].name == Rst)
  {
    if clkDir != "i" && clkDir != "o" then Failure(BadClkDir(clkDir))
    else
      var d := if clkDir == "i" then I else O;
      UlpiShape(data, clk, d, dirPin, nxt, stp, rst, rstInvert);
      UlpiNames(data, clk, d, dirPin, nxt, stp, rst, rstInvert);
      Success(Family("usb", UlpiSubs(data, clk, d, dirPin, nxt, stp, rst, rstInvert), attrs))
  }

  /** `PS2Resource`: clock in, data bidirectional. */
  function PS2(clk: string, dat: string, attrs: Option<map<string, string>>): (r: Resource)
    ensures r.Family? && r.defaultName == "ps2" && r.attrs == attrs && DistinctNames(r.subs)
    ensures |r.subs| == 2 && r.subs[0].name == Clk && r.subs[0].dir == I && r.subs[1].name == Dat && r.subs[1].dir == IO
    ensures r.subs[0].pins == clk && r.subs[1].pins == dat
    ensures forall j :: 0 <= j < |r.subs| ==> r.subs[j].assertWidth == Some(1) && !r.subs[j].invert
  {
    Family("ps2", [Subsignal(Clk, clk, I, false, Some(1)), Subsignal(Dat, dat, IO, false, Some(1))], attrs)
  }
}
