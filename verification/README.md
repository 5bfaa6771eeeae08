# Torii core logic in Dafny

A Dafny model of the pure decision logic inside the Torii HDL toolkit, with proofs of the
properties that logic promises. It covers seven pieces:

- **Lattice ECP5 I/O.** The gearing dispatcher `_get_xdr_buffer` builds the registers for a
  pin's gear. It can negate the data streams, and it decides which of `i`/`o`/`t` exist and
  how wide they are. The eight `get_*` wrappers then place one buffer per bit. The model
  also covers `should_skip_port_component`, the toolchain table dispatch, the `__init__`
  check and the OSCG divider check (`ecp5.dfy`).
- **Lattice MachXO2/MachXO3L I/O.** The same dispatcher for gears 0 to 2, with its one-bit
  enable, the wrappers, `should_skip_port_component` and the OSCH frequency table
  (`machxo.dfy`).
- **Shared netlist (`netlist.dfy`).** Both families share an abstract netlist:
  - declarations of created signals with their widths;
  - NOT gates;
  - register and buffer records.

  `Netlist.Assemble` is the dispatcher with the family-specific parts (register kinds,
  edge clocks, enable registers, the width of `t`) passed in as a `Gearing` record.
- **Peripheral resource builders** of `torii/platform/resources/interface.py`: UART, IrDA,
  SPI, I2C, direct USB, ULPI and PS/2. Each becomes an ordered list of subsignals, and a
  failed `assert` or a `ValueError` becomes a `Failure` (`resources.dfy`).
- **Coding blocks.** `Encoder`, `PriorityEncoder` and `Decoder` become functions on bit
  sequences (`coding.dfy`).
- **Bit-width arithmetic.** `log2_int` and `bits_for` (`bits.dfy`).
- **Generic helpers** of `torii/_utils.py`:
  - `flatten` over a tree datatype, and `union` as a left fold;
  - `memoize` as a cache map threaded from call to call (`pyutils.dfy`);
  - the linter magic-comment reader `get_linter_options` / `get_linter_option`
    (`linter.dfy`). It rests on Python's `str.split`, `str.strip` and decimal formatting,
    modelled in `text.dfy`.
- **Tool lookup.** `tool_env_var`, `_get_tool`, `has_tool` and `require_tool`, with the
  environment as a map and `shutil.which` as a predicate parameter (`toolchain.dfy`).

`wrappers.dfy` holds the `Option` and `Result` types used for every error path.

## Model

| member | source | states |
|---|---|---|
| Bits.Log2Int | torii/utils.py:8-14 | `log2_int(0)` is 0. Without `need_pow2` the result r is the ceiling logarithm: n ≤ 2^r and 2^(r-1) < n. With `need_pow2` and n ≥ 1, it fails exactly when n is not a power of two, and a success gives back the exponent. |
| Bits.Log2IntIsLeast | torii/utils.py:11 | For n ≥ 1, `log2_int(n, False)` is the least r with n ≤ 2^r. |
| Bits.Log2IntOfPow2 | torii/utils.py:11-14 | `log2_int(2^k)` returns k with or without `need_pow2`, so it inverts `1 << k`. |
| Bits.BitsFor | torii/utils.py:17-25 | A positive n needs the least r with n < 2^r, plus one when a sign bit is required. A non-positive n always gets a sign bit, and r is the least width with -2^(r-1) ≤ n. |
| Bits.BitsForIsLeast | torii/utils.py:17-25 | No narrower width holds n: any w that holds n is at least `bits_for(n)`. |
| Bits.BitsForSignBit | torii/utils.py:18-24 | For n > 0, requiring a sign bit adds exactly one bit. For n ≤ 0 the flag changes nothing. |
| Bits.BitsForZero | torii/utils.py:20-25 | `bits_for(0)` is 1. |
| Coding.Encoder | nmigen/lib/coding.py:6-39 | A one-hot input with bit j set gives `o = j, n = 0`. Any other input gives `o = 0, n = 1`. `o` stays within the output width. |
| Coding.PriorityEncoder | nmigen/lib/coding.py:42-74 | `n` is set exactly for an all-zero input, and then `o = 0`. Otherwise `o` is the index of the least significant set bit. |
| Coding.PriorityAgreesOnOneHot | nmigen/lib/coding.py:42-74 | On every one-hot input the priority encoder and the plain encoder give the same output. |
| Coding.Decoder | nmigen/lib/coding.py:77-117 | With `n = 0` and i below the width, the output is one-hot at i, i.e. `1 << i`. With `n = 1` or i past the width it is all zero. `PriorityDecoder` adds nothing to `Decoder`, so this describes both. |
| Coding.DecodeEncodeRoundTrip | nmigen/lib/coding.py:6-39 | For i < width, encoding the decoder's output gives back i with `n = 0`. |
| Coding.EncodeDecodeRoundTrip | nmigen/lib/coding.py:77-110 | Decoding the encoder's output for a one-hot input gives back that input. |
| Coding.OneHotValue | nmigen/lib/coding.py:77-110 | A bit vector has the value 2^j exactly when it is one-hot at j. |
| Toolchain.ToolEnvVar | torii/_toolchain/__init__.py:17-18 | Every '-' becomes '_' and every '+' becomes 'X'. Every other character is upper-cased. The length is kept, and no '-', '+' or lower-case letter is left. |
| Toolchain.ToolEnvVarIdempotent | torii/_toolchain/__init__.py:17-18 | Applying `tool_env_var` twice gives the same as once. |
| Toolchain.GetTool | torii/_toolchain/__init__.py:21-22 | `_get_tool` returns the value of the tool's variable when the environment sets it, and the name otherwise. |
| Toolchain.RequireTool | torii/_toolchain/__init__.py:29-40 | Returns the resolved path exactly when `which` finds it. Otherwise `ToolNotFound` names both the tool and the variable. The message ends with the "as specified via" wording exactly when the variable was set, and then also names its path. |
| Toolchain.HasToolIffRequireSucceeds | torii/_toolchain/__init__.py:25-40 | `has_tool` holds exactly when `require_tool` does not raise. |
| Netlist.InvalidGearingMessageNames | torii/platform/vendor/lattice/ecp5.py:630-631 | The `ValueError` text for an invalid gear contains both the gear and the pin name. |
| Netlist.AssembleSignals | torii/platform/vendor/lattice/ecp5.py:587-629 | `i` exists iff the pin has an input and `o` iff it has an output. `t` exists iff the direction is `oe` or `io`, and at gear 0 `t` is the family's combinational enable. |
| Netlist.AssembleWidths | torii/platform/vendor/lattice/ecp5.py:587-593 | `i` and `o` are `pin.width` bits wide, counting the `_n` signals an inversion creates. From gear 1 on, `t` has the family's declared width. |
| Netlist.AssemblePassthrough | torii/platform/vendor/lattice/ecp5.py:595-601 | Gear 0 places no register. `i` and `o` are the pin's own signals, or their negations when inverted, and `t` is the family's combinational enable. |
| Netlist.AssembleRegisters | torii/platform/vendor/lattice/ecp5.py:602-629 | From gear 1 on, every register belongs to exactly one of the input stage, the output stage and the enable stage, and each stage is exactly the family's registers for it. |
| Netlist.InputStageFacts | torii/platform/vendor/lattice/ecp5.py:402-422 | There is one input register per pin bit. Register k samples bit k of `xdr_i` into bit k of every stream, in stream order, and is clocked by `i_clk`. |
| Netlist.OutputStageFacts | torii/platform/vendor/lattice/ecp5.py:435-530 | There is one output register per pin bit. Register k drives bit k of `xdr_o` from bit k of every stream, in stream order, and is clocked by `o_clk`. |
| Netlist.AssembleInputInversion | torii/platform/vendor/lattice/ecp5.py:532-570 | With the input invert flag, every input stream gets exactly one `_n` signal and one NOT gate, in stream order. Without it there are none. |
| Netlist.AssembleOutputInversion | torii/platform/vendor/lattice/ecp5.py:540-585 | The same for the output path. |
| Netlist.AssembleOnlyGates | torii/platform/vendor/lattice/ecp5.py:532-585 | Every combinational statement is one of those NOT gates. |
| Netlist.AttachBuffersOutcome | torii/platform/vendor/lattice/ecp5.py:635-759 | A wrapper fails exactly when its per-bit loop subscripts a handle the pin does not have, or runs past the width of `i`/`o`. |
| Netlist.AttachBuffersShape | torii/platform/vendor/lattice/ecp5.py:635-759 | A successful wrapper keeps the gearing logic unchanged. Its registers are exactly the gearing registers and its buffers exactly the ones the loop adds. |
| Netlist.AddedBuffersWiring | torii/platform/vendor/lattice/ecp5.py:635-759 | Buffer b sits on bit b of `port.io`, or of `port.p` for the differential shapes. It takes its data and enable from bit b of the handles. |
| Netlist.SubscriptsNoneIff | torii/platform/vendor/lattice/ecp5.py:635-759 | The loop subscripts a missing handle exactly when the pin's direction lacks a signal the wrapper uses. A matching direction never does. |
| Netlist.ShouldSkipPortComponent | torii/platform/vendor/lattice/ecp5.py:390-397 | A component is skipped exactly when it is `n` and the port's `IO_TYPE` (default `LVCMOS25`) is in the family's differential list. |
| Ecp5.XdrBuffer | torii/platform/vendor/lattice/ecp5.py:399-633 | Gears outside {0, 1, 2, 4, 7} raise a `ValueError` carrying the pin and the gear. Otherwise `i`, `o` and `t` exist for exactly the pin's directions, and each is `pin.width` bits wide. |
| Ecp5.XdrBufferErrorNamesPin | torii/platform/vendor/lattice/ecp5.py:630-631 | The error for an unsupported gear names both the gear and the pin. |
| Ecp5.XdrBufferPassthrough | torii/platform/vendor/lattice/ecp5.py:595-601 | Gear 0 places no register. `i`/`o` are the possibly inverted pin signals, and `t` is `~oe` replicated to the pin width. |
| Ecp5.XdrBufferInputRegisters | torii/platform/vendor/lattice/ecp5.py:402-422 | From gear 1 on there is exactly one input register per input bit, of kind IFS1P3DX, IDDRX1F, IDDRX2F or IDDR71B by gear. Gears 4 and 7 also clock them from `i_fclk`. Each feeds bit k of each of the gear's streams. |
| Ecp5.XdrBufferOutputRegisters | torii/platform/vendor/lattice/ecp5.py:435-530 | Exactly one output register per output bit, of kind OFS1P3DX, ODDRX1F, ODDRX2F or ODDR71B by gear. Gears 4 and 7 also clock them from `o_fclk`. |
| Ecp5.XdrBufferEnableRegisters | torii/platform/vendor/lattice/ecp5.py:424-433 | From gear 1 on, the enable path is `pin.width` OFS1P3DX registers on `o_clk`, each fed the whole of `~oe`. These three stages are all the registers there are. |
| Ecp5.EnableIndependentOfGear | torii/platform/vendor/lattice/ecp5.py:607-629 | The enable registers are the same at every supported gear from 1 on. |
| Ecp5.XdrBufferInversion | torii/platform/vendor/lattice/ecp5.py:532-585 | With a path's invert flag set, each of its max(1, xdr) streams gets one `_n` signal and one NOT gate. With the flag clear the streams are used unchanged. |
| Ecp5.GetBuffer | torii/platform/vendor/lattice/ecp5.py:635-759 | An unsupported gear fails the feature check. A supported gear fails only when the pin lacks a handle the wrapper uses. A wrapper whose direction matches the pin succeeds exactly at the supported gears. |
| Ecp5.GetBufferPlacement | torii/platform/vendor/lattice/ecp5.py:635-759 | A built wrapper holds the gearing registers and one buffer per pin bit. Each buffer has the wrapper's primitive, bit b of the pad, and bit b of `i`/`o`/`t`. |
| Ecp5.ShouldSkipOnlyDifferentialN | torii/platform/vendor/lattice/ecp5.py:379-397 | Only the `n` leg of a differential I/O type is skipped. The default `LVCMOS25` and every single-ended type keep all components. |
| Ecp5.ToolchainTables | torii/platform/vendor/lattice/ecp5.py:299-327 | 'Trellis' selects the Trellis tables and 'Diamond' the Diamond tables. Any other toolchain raises an error naming it. |
| Ecp5.DispatchConsistent | torii/platform/vendor/lattice/ecp5.py:115-327 | The three table properties succeed or fail together, exactly for the known toolchains. Every tool a command template invokes is one of the required tools. |
| Ecp5.InitAsWritten | torii/platform/vendor/lattice/ecp5.py:289-297 | `__init__` as written accepts exactly when the class attribute `toolchain` names a known toolchain, whatever the argument, and then stores the argument. |
| Ecp5.InitAsWrittenAlwaysFails | torii/platform/vendor/lattice/ecp5.py:74 | With the class attribute left at `None`, every construction raises. |
| Ecp5.InitAsWrittenAcceptsUnknown | torii/platform/vendor/lattice/ecp5.py:289-297 | For every known preset class attribute and every unknown argument, construction succeeds and stores the argument, and dispatch on it later fails. |
| Ecp5.OscgDividerErrorShowsValue | torii/platform/vendor/lattice/ecp5.py:347-350 | A divider that is present but not an `int` in 2..128 is rejected with a message that shows the value. |
| Ecp5.OscgDomainDivider | torii/platform/vendor/lattice/ecp5.py:344-352 | For an `int` divider d, the OSCG `sync` domain exists exactly when 2 ≤ d ≤ 128, and the oscillator is given d itself. |
| Ecp5.Init | torii/platform/vendor/lattice/ecp5.py:289-297 | The corrected `__init__` accepts exactly the known toolchains and stores the argument. |
| Ecp5.InitThenDispatch | torii/platform/vendor/lattice/ecp5.py:289-327 | After a successful corrected `__init__`, table dispatch always succeeds. |
| Ecp5.OscgDivider | torii/platform/vendor/lattice/ecp5.py:344-350 | The OSCG divider is accepted exactly when it is present, an `int`, and between 2 and 128. |
| Ecp5.CreateMissingDomain | torii/platform/vendor/lattice/ecp5.py:335-377 | Only the `sync` domain with a default clock is created. With OSCG it succeeds exactly when the divider is valid. Otherwise the named clock is requested. |
| MachXO.XdrBuffer | amaranth/vendor/lattice_machxo_2_3l.py:246-350 | Gears other than 0, 1, 2 fail the assertion. Otherwise `i`, `o`, `t` exist for exactly the pin's directions. `i` and `o` are `pin.width` bits wide, and `t` is 1 bit whatever the width. |
| MachXO.XdrBufferPassthrough | amaranth/vendor/lattice_machxo_2_3l.py:322-328 | Gear 0 places no register, and `t` is `~oe`. |
| MachXO.XdrBufferInputRegisters | amaranth/vendor/lattice_machxo_2_3l.py:247-283 | Gear 1 places one IFS1P3DX per input bit and gear 2 one IDDRXE. There is no edge clock, and each register samples bit k of `xdr_i` into bit k of each stream. |
| MachXO.XdrBufferOutputRegisters | amaranth/vendor/lattice_machxo_2_3l.py:247-283 | Gear 1 places one OFS1P3DX per output bit and gear 2 one ODDRXE. Each drives bit k of `xdr_o`. |
| MachXO.XdrBufferEnableRegister | amaranth/vendor/lattice_machxo_2_3l.py:329-346 | At gears 1 and 2 the enable path is exactly one OFS1P3DX fed `~oe[0]`, and nothing else is placed. |
| MachXO.XdrBufferInversion | amaranth/vendor/lattice_machxo_2_3l.py:285-312 | A set invert flag gives each of the path's one or two streams one `_n` signal and one NOT gate. |
| MachXO.GetBuffer | amaranth/vendor/lattice_machxo_2_3l.py:352-452 | The feature check allows gears 0 to 2. A single-ended wrapper loops over `len(port)` and fails once that passes the pin width. A matching wrapper succeeds exactly at those gears, within the width. |
| MachXO.GetBufferPlacement | amaranth/vendor/lattice_machxo_2_3l.py:352-452 | Single-ended wrappers place one buffer per bit of the port, and differential ones one per bit of the pin on `port.p`. Tristate and bidirectional buffers all take the same whole one-bit `t`. |
| MachXO.ShouldSkipOnlyDifferentialN | amaranth/vendor/lattice_machxo_2_3l.py:226-244 | Only the `n` leg of a port whose `IO_TYPE` is differential is skipped. Without `IO_TYPE` nothing is. |
| MachXO.OschTableShape | amaranth/vendor/lattice_machxo_2_3l.py:159-167 | The table has 64 entries and lists 15.65 MHz twice. Dropping the duplicate changes no membership. |
| MachXO.OschConstraint | amaranth/vendor/lattice_machxo_2_3l.py:169-177 | The default clock constraint accepts exactly the frequencies in the table. |
| MachXO.CreateMissingDomain | amaranth/vendor/lattice_machxo_2_3l.py:179-224 | Only the `sync` domain with a default clock is created. With OSCH it succeeds exactly for a supported frequency and otherwise raises a `ValueError` carrying the frequency. Any other default clock is requested by name. |
| MachXO.OschChecksAgree | amaranth/vendor/lattice_machxo_2_3l.py:174-216 | The constraint's assertion and the domain's `ValueError` accept the same frequencies. |
| Resources.Uart | torii/platform/resources/interface.py:17-61 | Supplying a control line without role 'dce' or 'dte' fails the assertion. Otherwise the result is a `uart` family with the given attributes. |
| Resources.UartLayout | torii/platform/resources/interface.py:37-59 | rx and tx come first. Each control line is present exactly when supplied, in the order rts, cts, dtr, dsr, dcd, ri. Each is one bit wide and directed by the role, and no name repeats. |
| Resources.UartMinimal | torii/platform/resources/interface.py:37-38 | rx and tx alone give exactly those two entries, whatever the role. |
| Resources.UartRoleMirror | torii/platform/resources/interface.py:28-56 | Switching between 'dte' and 'dce' reverses every control line's direction and leaves rx, tx and the attributes alone. |
| Resources.IrDA | torii/platform/resources/interface.py:64-86 | Exactly one of en and sd must be given. Either becomes the output `en`, inverted for sd, in resource `irda`. |
| Resources.Spi | torii/platform/resources/interface.py:89-133 | A role other than controller/peripheral raises `ValueError`. A bus without copi and cipo fails the assertion. |
| Resources.SpiLayout | torii/platform/resources/interface.py:103-128 | cs and clk come first. Every line follows the role's direction table, and only cs is inverted. Each optional line is present exactly when given, in the order cs, clk, copi, cipo, int, reset. Every line carries the pins of its own argument. Every line asserts one bit, except the controller's cs, int and reset, which assert no width. |
| Resources.SpiRoleMirror | torii/platform/resources/interface.py:103-128 | The peripheral's lines are the controller's with outputs turned into inputs and inputs into output-enabled, with the same names, pins and inversion. |
| Resources.I2C | torii/platform/resources/interface.py:136-150 | Exactly two lines: scl on the `scl` pins, then sda on the `sda` pins. Both are bidirectional, one bit wide and not inverted. |
| Resources.DirectUSB | torii/platform/resources/interface.py:153-173 | d_p and d_n come first as `io` on their own pins. pullup is present exactly when truthy, as the third entry: an output on the `pullup` pins. vbus_valid is present exactly when truthy, as the last entry: an input on the `vbus_valid` pins. The length counts them, every line is one bit wide, and none is inverted. |
| Resources.Ulpi | torii/platform/resources/interface.py:176-202 | A clock direction other than 'i'/'o' raises `ValueError`. Otherwise data is 8-bit `io`, clk follows the direction, and dir, nxt (inputs) and stp (output) follow as one-bit lines. rst, when given, is a last output inverted by `rst_invert`. Every line carries its own argument's pins, nothing else is inverted, and no name repeats. |
| Resources.PS2 | torii/platform/resources/interface.py:205-217 | Exactly two lines: clk on the `clk` pins as an input, then dat on the `dat` pins as bidirectional. Both are one bit wide and not inverted. |
| PyUtils.FlattenMembership | torii/_utils.py:30-35 | A value is yielded exactly when it occurs as an atom at some depth of the nesting. |
| PyUtils.FlattenConcat | torii/_utils.py:30-35 | Leaves come out left to right: flattening a concatenation concatenates the flattenings. |
| PyUtils.FlattenIdempotent | torii/_utils.py:30-35 | Flattening the output of `flatten` again gives it back. |
| PyUtils.FlattenAtoms | torii/_utils.py:30-35 | A sequence without nested iterables (strings included) flattens to itself. |
| PyUtils.Union | torii/_utils.py:38-45 | The loop returns `None` exactly for an empty input without a start. Otherwise it returns the left fold of `\|=`, from `start`, or from the first element without one. |
| PyUtils.UnionOfSets | torii/_utils.py:38-45 | With set union as `\|=`, the result holds exactly the members of the start and of every element. |
| PyUtils.Call | torii/_utils.py:52-55 | `f` is evaluated exactly when the arguments are not cached. The cache gains just that key and keeps every older entry. With a faithful cache, the answer is `f(args)`. |
| PyUtils.RunFacts | torii/_utils.py:48-56 | Over any sequence of calls, every answer equals `f` of its arguments. `f` is evaluated for a call exactly when those arguments were neither cached nor seen earlier. |
| PyUtils.RepeatNotEvaluated | torii/_utils.py:53-55 | A repeated argument tuple is answered from the cache, so `f` runs at most once per distinct tuple. |
| Linter.Head | torii/_utils.py:110 | Only the first five lines are kept, or all of them when there are fewer. |
| Linter.SelectedGroup | torii/_utils.py:111-119 | The first `# amaranth:` line among the first five wins. Only when there is none is the first `# torii:` line taken, and nothing is taken when neither matches. |
| Linter.OnlyHeadInspected | torii/_utils.py:110 | Lines after the fifth never change the outcome. |
| Linter.AmaranthPreferred | torii/_utils.py:112-117 | Once an `# amaranth:` line matches, the `# torii:` pattern plays no part. |
| Linter.ToDict | torii/_utils.py:120 | `dict()` succeeds exactly when every item splits into two parts. Otherwise it fails on the first bad item with its length. |
| Linter.ToDictKeys | torii/_utils.py:120 | The keys are exactly the first parts of the items. |
| Linter.ToDictLastWins | torii/_utils.py:120 | A key maps to the value of its last occurrence. |
| Linter.GetLinterOptions | torii/_utils.py:103-121 | No matching comment gives the empty map. A match gives the `dict` of its split, stripped items. |
| Linter.WellFormedGroupOptions | torii/_utils.py:120 | For a comment group of `key=value` items in the shape the patterns admit, the options map holds exactly those keys, each with its last value. Keys and values may hold any character except whitespace, `=` and `,`, which covers every Unicode `\w` string. The whitespace around an item is any run of Python whitespace. |
| Linter.PairOfAssignment | torii/_utils.py:120 | One `key=value` item, with surrounding spaces, strips and splits into exactly `[key, value]`. |
| Linter.DecodeOption | torii/_utils.py:127-142 | An absent name gives the default. For bool, '1'/'yes'/'enable' give True, '0'/'no'/'disable' give False, and anything else gives the default. For int, the parsed value is returned, or the default when the text does not parse. |
| Linter.BoolWordsDisjoint | torii/_utils.py:133-136 | No word reads as both True and False. |
| Linter.ParseIntDecimal | torii/_utils.py:140 | `int(option, 0)` reads back every decimal rendering of an integer. |
| Linter.IntOptionRoundTrip | torii/_utils.py:138-142 | An int option written in decimal decodes to its value. |
| Linter.GetLinterOption | torii/_utils.py:124-143 | Fails only when the options themselves do. Otherwise the value is decoded from the options map. |
| Linter.NoCommentGivesDefault | torii/_utils.py:121-129 | Without a magic comment in the first five lines every option takes its default. |
| Linter.WellFormedCommentOption | torii/_utils.py:103-143 | For a well-formed comment, an option takes the value of its last assignment, decoded as its type asks. |
| Text.SplitPieces | torii/_utils.py:120 | `str.split(sep)` pieces joined with `sep` give back the text, and no piece holds the separator. |
| Text.SplitOfJoin | torii/_utils.py:120 | Splitting a join of separator-free pieces gives back the pieces. |
| Text.StripAround | torii/_utils.py:120 | `str.strip()` removes exactly the surrounding whitespace from a core that begins and ends with non-whitespace. Whitespace is every character `str.isspace()` accepts, Unicode separators included. |

## Left out

- The Jinja file and command templates are left out. They are text for external tools, and only their names and the tools they invoke are modelled.
- The HDL meaning of `Module`, `Signal`, `Instance` and `ClockDomain` is left out, together with the GSR/SGSR reset synchroniser wiring in `create_missing_domain`. Instances appear only as records.
- Clock frequencies as floating point are left out: the OSCH table is kept in integer hundredths of a MHz. `default_clk_constraint` is modelled only as its membership check.
- The `conn` argument, `Pins`/`PinsN` internals and the positional arguments of `Resource.family` are left out. These are framework constructors.
- `_check_feature` is left out. It is not part of this model, and the wrappers' gear restriction stands in for it.
- Attributes passed to the wrappers are left out. No attribute is rejected there.
- `linecache`, `re` and `warnings` are left out. The two magic-comment patterns are parameters returning the captured group, so the deprecation warning is not modelled. `Linter.WellFormedGroupOptions` states the regex's shape through a datatype of well-formed items.
- `os.environ` and `shutil.which` are left out. They are a map and a predicate parameter.
- Linter.DecodeOption: the int branch accepts only the ASCII subset of `int(option, 0)`: an optional sign, decimal without leading zeros, or `0x`/`0o`/`0b` with underscores between digits. Unicode digits are not modelled. Surrounding whitespace is the full set `str.isspace()` accepts.
- Linter.GetLinterOption: a `type` other than `bool` or `int` reaches `assert False`. The option type is a two-case datatype, so that branch cannot be expressed.
- PyUtils.Union: the in-place aliasing of `r |= e` on a mutable start is not modelled, because `|=` is taken as a pure operation.
- PyUtils.Flatten: Python's iterable protocol is reduced to a tree datatype. A string is always an atom.
- Toolchain.ToolEnvVar: `str.upper` is modelled for ASCII letters only.
- MachXO.OschTableShape: the table is not claimed to be sorted.
- `torii/util/typing.py`, `torii/util/decorators.py` and the remaining framework modules are left out. They are outside this core.

## Findings

| source | as written | input that shows it | evidently intended | confidence | as-written member | corrected member |
|---|---|---|---|---|---|---|
| torii/platform/vendor/lattice/ecp5.py:294 | `__init__` tests `self.toolchain`, which at that point is still the class attribute `None` (line 74), instead of the `toolchain` argument. | `ECP5Platform(toolchain = 'Trellis')` on the unmodified class raises "Unknown toolchain None". With the class attribute preset, `toolchain = 'Vivado'` is accepted. | Validate the argument: accept exactly 'Trellis' and 'Diamond', then store it. | high, not executed | Ecp5.InitAsWrittenAlwaysFails | Ecp5.InitThenDispatch |
