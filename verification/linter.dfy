/** The linter-option helpers of `torii/_utils.py`: `get_linter_options` reads a
    `# amaranth: k=v, ...` or `# torii: k=v, ...` magic comment from the first lines of a
    source file and turns it into a dictionary; `get_linter_option` decodes one entry as a
    bool or an int. The two regular expressions are parameters (a line to its `group(1)`),
    and the lines are given instead of read through `linecache`. */
module Linter {
  import opened Wrappers
  import opened Text

  /** A magic-comment pattern applied to one line: `group(1)` of a match, or `None`. */
  type Matcher = string -> Option<string>

  /** How many leading lines are searched for a magic comment. */
  const InspectedLines: nat := 5

  /** `lines[0:5]`. */
  function Head(lines: seq<string>): (r: seq<string>)
    ensures |r| <= InspectedLines && |r| <= |lines| && r == lines[..|r|]
    ensures |lines| >= InspectedLines ==> |r| == InspectedLines
    ensures |lines| < InspectedLines ==> r == lines
  {
    if |lines| <= InspectedLines then lines else lines[..InspectedLines]
  }

  /** Index of the first line the pattern matches. */
  function FirstMatch(lines: seq<string>, m: Matcher, from: nat): (r: Option<nat>)
    requires from <= |lines|
    ensures r.Some? ==> (from <= r.value < |lines| && m(lines[r.value]).Some?
      && forall j :: from <= j < r.value ==> m(lines[j]).None?)
    ensures r.None? ==> forall j :: from <= j < |lines| ==> m(lines[j]).None?
    decreases |lines| - from
  {
    if from == |lines| then None
    else if m(lines[from]).Some? then Some(from)
    else FirstMatch(lines, m, from + 1)
  }

  /** The `group(1)` the options are read from: the first `# amaranth:` line among the
      inspected ones if there is any, otherwise the first `# torii:` line, otherwise none. */
  function SelectedGroup(lines: seq<string>, amaranth: Matcher, torii: Matcher): (r: Option<string>)
    ensures (exists k :: 0 <= k < |Head(lines)| && amaranth(lines[k]).Some?) ==>
      exists k :: 0 <= k < |Head(lines)| && r == amaranth(lines[k])
        && r.Some? && forall j :: 0 <= j < k ==> amaranth(lines[j]).None?
    ensures (forall k :: 0 <= k < |Head(lines)| ==> amaranth(lines[k]).None?) ==>
      (r.None? <==> forall k :: 0 <= k < |Head(lines)| ==> torii(lines[k]).None?)
    ensures (forall k :: 0 <= k < |Head(lines)| ==> amaranth(lines[k]).None?) && r.Some? ==>
      exists k :: 0 <= k < |Head(lines)| && r == torii(lines[k])
        && forall j :: 0 <= j < k ==> torii(lines[j]).None?
  {
    var head := Head(lines);
    match FirstMatch(head, amaranth, 0)
    case Some(k) => amaranth(head[k])
    case None =>
      match FirstMatch(head, torii, 0)
      case Some(k) => torii(head[k])
      case None => None
  }

  /** Lines after the fifth never influence the selection. */
  lemma OnlyHeadInspected(lines: seq<string>, extra: seq<string>, amaranth: Matcher, torii: Matcher)
    requires |lines| >= InspectedLines
    ensures SelectedGroup(lines + extra, amaranth, torii) == SelectedGroup(lines, amaranth, torii)
  {
    assert Head(lines + extra) == Head(lines);
  }

  /** Once an `# amaranth:` comment is present, the `# torii:` pattern is irrelevant. */
  lemma AmaranthPreferred(lines: seq<string>, amaranth: Matcher, torii: Matcher, other: Matcher)
    requires exists k :: 0 <= k < |Head(lines)| && amaranth(lines[k]).Some?
    ensures SelectedGroup(lines, amaranth, torii) == SelectedGroup(lines, amaranth, other)
  {
    var head := Head(lines);
    var k :| 0 <= k < |head| && amaranth(lines[k]).Some?;
    assert amaranth(head[k]).Some?;
  }

  /** The exception `dict()` raises for a sequence element that is not a pair: its index
      and its length. */
  datatype OptionsError = NotAPair(index: nat, length: nat)

  /** `dict(pairs)`: left to right, a later key overriding an earlier one; the first element
      whose length is not 2 raises. */
  function ToDict(pairs: seq<seq<string>>): (r: Result<map<string, string>, OptionsError>)
    ensures r.Success? <==> forall i :: 0 <= i < |pairs| ==> |pairs[i]| == 2
    ensures r.Failure? ==> var e := r.error.index;
      e < |pairs| && |pairs[e]| != 2 && r.error.length == |pairs[e]|
      && forall j :: 0 <= j < e ==> |pairs[j]| == 2
    decreases |pairs|
  {
    if |pairs| == 0 then Success(map[])
    else
      var n := |pairs| - 1;
      var init := ToDict(pairs[..n]);
      assert forall i :: 0 <= i < n ==> pairs[..n][i] == pairs[i];
      if init.Failure? then init
      else if |pairs[n]| != 2 then Failure(NotAPair(n, |pairs[n]|))
      else Success(init.value[pairs[n][0] := pairs[n][1]])
  }

  /** The keys of `dict(pairs)` are the first components of the pairs. */
  lemma {:induction false} ToDictKeys(pairs: seq<seq<string>>)
    requires ToDict(pairs).Success?
    ensures forall key :: key in ToDict(pairs).value <==> exists i :: 0 <= i < |pairs| && pairs[i][0] == key
    decreases |pairs|
  {
    if |pairs| > 0 {
      var n := |pairs| - 1;
      var init := pairs[..n];
      ToDictKeys(init);
      assert forall i :: 0 <= i < n ==> init[i] == pairs[i];
      forall key | exists i :: 0 <= i < |pairs| && pairs[i][0] == key
        ensures key in ToDict(pairs).value
      {
        var i :| 0 <= i < |pairs| && pairs[i][0] == key;
        if i < n {
          assert init[i][0] == key;
        }
      }
    }
  }

  /** A key maps to the value of its last occurrence. */
  lemma {:induction false} ToDictLastWins(pairs: seq<seq<string>>, i: nat)
    requires ToDict(pairs).Success?
    requires i < |pairs| && forall j :: i < j < |pairs| ==> pairs[j][0] != pairs[i][0]
    ensures pairs[i][0] in ToDict(pairs).value && ToDict(pairs).value[pairs[i][0]] == pairs[i][1]
    decreases |pairs|
  {
    var n := |pairs| - 1;
    if i < n {
      var init := pairs[..n];
      assert init[i] == pairs[i];
      assert forall j :: i < j < n ==> init[j] == pairs[j];
      ToDictLastWins(init, i);
    }
  }

  /** `s.strip().split('=', 2)` for one comma-separated item. */
  function Pair(item: string): (r: seq<string>)
    ensures 1 <= |r| <= 3
  {
    SplitMax(Strip(item), '=', 2)
  }

  /** The dictionary built from a magic comment's `group(1)`. */
  function GroupOptions(group: string): Result<map<string, string>, OptionsError> {
    var items := Split(group, ',');
    ToDict(seq(|items|, i requires 0 <= i < |items| => Pair(items[i])))
  }

  /** `get_linter_options`: the options of the selected magic comment, or an empty
      dictionary when no inspected line carries one. */
  function GetLinterOptions(lines: seq<string>, amaranth: Matcher, torii: Matcher)
    : (r: Result<map<string, string>, OptionsError>)
    ensures SelectedGroup(lines, amaranth, torii).None? ==> r == Success(map[])
    ensures SelectedGroup(lines, amaranth, torii).Some? ==>
      r == GroupOptions(SelectedGroup(lines, amaranth, torii).value)
  {
    match SelectedGroup(lines, amaranth, torii)
    case None => Success(map[])
    case Some(g) => GroupOptions(g)
  }

  // The shape both regular expressions demand of `group(1)`: `key=value` items made of
  // word characters, separated by commas, with optional whitespace around each item.

  /** A character `\w` may match. Python's Unicode `\w` (letters, digits and `_` of every
      script) never matches whitespace, `=` or `,`, so admitting every other character
      covers all the keys and values the patterns let through. */
  predicate IsWordChar(c: char) {
    !IsSpace(c) && c != '=' && c != ','
  }

  predicate IsWord(s: string) {
    |s| > 0 && forall i :: 0 <= i < |s| ==> IsWordChar(s[i])
  }

  /** One `key=value` item with the whitespace around it. */
  datatype Assignment = Assignment(lead: string, key: string, value: string, trail: string)

  predicate WellFormed(a: Assignment) {
    AllSpace(a.lead) && IsWord(a.key) && IsWord(a.value) && AllSpace(a.trail)
  }

  function Render(a: Assignment): string {
    a.lead + a.key + "=" + a.value + a.trail
  }

  function RenderAll(assignments: seq<Assignment>): (r: seq<string>)
    ensures |r| == |assignments|
    ensures forall i :: 0 <= i < |r| ==> r[i] == Render(assignments[i])
  {
    seq(|assignments|, i requires 0 <= i < |assignments| => Render(assignments[i]))
  }

  /** One well-formed item yields its key and value. */
  lemma PairOfAssignment(a: Assignment)
    requires WellFormed(a)
    ensures Pair(Render(a)) == [a.key, a.value]
  {
    var core := a.key + "=" + a.value;
    assert Render(a) == a.lead + core + a.trail;
    assert core[0] == a.key[0];
    assert core[|core| - 1] == a.value[|a.value| - 1];
    StripAround(a.lead, core, a.trail);
    assert '=' !in a.key && '=' !in a.value;
    SplitMaxOnce(a.key, '=', a.value, 2);
  }

  lemma NoCommaInItem(a: Assignment)
    requires WellFormed(a)
    ensures ',' !in Render(a)
  {
    var r := Render(a);
    forall i | 0 <= i < |r|
      ensures r[i] != ','
    {
      if i < |a.lead| {
        assert r[i] == a.lead[i];
      } else if i < |a.lead| + |a.key| {
        assert r[i] == a.key[i - |a.lead|];
      } else if i == |a.lead| + |a.key| {
      } else if i < |a.lead| + |a.key| + 1 + |a.value| {
        assert r[i] == a.value[i - |a.lead| - |a.key| - 1];
      } else {
        assert r[i] == a.trail[i - |a.lead| - |a.key| - 1 - |a.value|];
      }
    }
  }

  /** The `[key, value]` pairs the items denote. */
  function KeyValuePairs(assignments: seq<Assignment>): (r: seq<seq<string>>)
    ensures |r| == |assignments|
    ensures forall i :: 0 <= i < |r| ==> r[i] == [assignments[i].key, assignments[i].value]
  {
    seq(|assignments|, i requires 0 <= i < |assignments| => [assignments[i].key, assignments[i].value])
  }

  /** Splitting a well-formed group at commas recovers its items. */
  lemma SplitGroup(assignments: seq<Assignment>)
    requires |assignments| >= 1
    requires forall i :: 0 <= i < |assignments| ==> WellFormed(assignments[i])
    ensures Split(Join(RenderAll(assignments), ','), ',') == RenderAll(assignments)
  {
    var items := RenderAll(assignments);
    forall i | 0 <= i < |items|
      ensures ',' !in items[i]
    {
      NoCommaInItem(assignments[i]);
    }
    SplitOfJoin(items, ',');
  }

  lemma GroupPairs(assignments: seq<Assignment>)
    requires |assignments| >= 1
    requires forall i :: 0 <= i < |assignments| ==> WellFormed(assignments[i])
    ensures GroupOptions(Join(RenderAll(assignments), ',')) == ToDict(KeyValuePairs(assignments))
  {
    var items := RenderAll(assignments);
    SplitGroup(assignments);
    var pairs := seq(|items|, i requires 0 <= i < |items| => Pair(items[i]));
    forall i | 0 <= i < |items|
      ensures pairs[i] == KeyValuePairs(assignments)[i]
    {
      PairOfAssignment(assignments[i]);
    }
    assert pairs == KeyValuePairs(assignments);
  }

  /** The dictionary of a list of pairs holds exactly their keys, each with the value of
      its last occurrence. */
  ghost predicate DictOf(d: map<string, string>, assignments: seq<Assignment>) {
    && (forall key :: key in d <==> exists i :: 0 <= i < |assignments| && assignments[i].key == key)
    && (forall i :: (0 <= i < |assignments| &&
          forall j :: i < j < |assignments| ==> assignments[j].key != assignments[i].key) ==>
          d[assignments[i].key] == assignments[i].value)
  }

  lemma KeyValueDict(assignments: seq<Assignment>)
    ensures ToDict(KeyValuePairs(assignments)).Success?
    ensures DictOf(ToDict(KeyValuePairs(assignments)).value, assignments)
  {
    var pairs := KeyValuePairs(assignments);
    var r := ToDict(pairs);
    assert r.Success?;
    ToDictKeys(pairs);
    forall key
      ensures key in r.value <==> exists i :: 0 <= i < |assignments| && assignments[i].key == key
    {
      if key in r.value {
        var i :| 0 <= i < |pairs| && pairs[i][0] == key;
        assert assignments[i].key == key;
      } else {
        forall i | 0 <= i < |assignments|
          ensures assignments[i].key != key
        {
          assert pairs[i][0] == assignments[i].key;
        }
      }
    }
    forall i | 0 <= i < |assignments| && forall j :: i < j < |assignments| ==> assignments[j].key != assignments[i].key
      ensures r.value[assignments[i].key] == assignments[i].value
    {
      assert forall j :: i < j < |pairs| ==> pairs[j][0] != pairs[i][0];
      ToDictLastWins(pairs, i);
    }
  }

  /** Any group the magic-comment patterns accept parses: every key written is in the
      dictionary, nothing else is, and a key maps to the value of its last occurrence. */
  lemma WellFormedGroupOptions(assignments: seq<Assignment>)
    requires |assignments| >= 1
    requires forall i :: 0 <= i < |assignments| ==> WellFormed(assignments[i])
    ensures var r := GroupOptions(Join(RenderAll(assignments), ','));
      r.Success? && DictOf(r.value, assignments)
  {
    GroupPairs(assignments);
    KeyValueDict(assignments);
  }

  /** The kind of value `get_linter_option` is asked for (`type is bool` or `type is int`). */
  datatype OptionType = BoolType | IntType

  datatype LintValue = BoolValue(b: bool) | IntValue(i: int)

  const TrueWords: set<string> := {"1", "yes", "enable"}
  const FalseWords: set<string> := {"0", "no", "disable"}

  // Python's `int(text, 0)`: surrounding whitespace, an optional sign, then either a
  // `0x`/`0o`/`0b` prefix (any case) and digits of that base, or decimal digits without a
  // leading zero unless every digit is zero. Single underscores may separate digits, and
  // one may follow the prefix. Only ASCII digits are modelled.

  /** The value of an ASCII digit or letter as a digit (letters count from 10). */
  function DigitValue(c: char): (r: Option<nat>)
    ensures r.Some? ==> r.value < 36
  {
    if '0' <= c <= '9' then Some(c as nat - '0' as nat)
    else if 'a' <= c <= 'z' then Some(c as nat - 'a' as nat + 10)
    else if 'A' <= c <= 'Z' then Some(c as nat - 'A' as nat + 10)
    else None
  }

  function DigitIn(c: char, base: nat): (r: Option<nat>)
    ensures r.Some? ==> r.value < base
  {
    match DigitValue(c)
    case Some(d) => if d < base then Some(d) else None
    case None => None
  }

  /** The base a prefix letter after a leading `0` selects. */
  function PrefixBase(c: char): Option<nat> {
    if c == 'x' || c == 'X' then Some(16)
    else if c == 'o' || c == 'O' then Some(8)
    else if c == 'b' || c == 'B' then Some(2)
    else None
  }

  /** Non-empty, and every underscore sits between two other characters. */
  predicate Grouped(s: string) {
    && |s| > 0 && s[0] != '_' && s[|s| - 1] != '_'
    && forall i :: 0 <= i < |s| - 1 ==> !(s[i] == '_' && s[i + 1] == '_')
  }

  function DropUnderscores(s: string): (r: string)
    ensures '_' !in s ==> r == s
  {
    if |s| == 0 then []
    else (if s[0] == '_' then [] else [s[0]]) + DropUnderscores(s[1..])
  }

  /** The number the digits denote in `base`, most significant first. */
  function FromDigits(ds: string, base: nat): Option<nat>
    decreases |ds|
  {
    if |ds| == 0 then Some(0)
    else
      var n := |ds| - 1;
      var d :- DigitIn(ds[n], base);
      var high :- FromDigits(ds[..n], base);
      Some(high * base + d)
  }

  function ParseDigits(s: string, base: nat): Option<nat> {
    if Grouped(s) then FromDigits(DropUnderscores(s), base) else None
  }

  function ParseUnsigned(body: string): Option<nat> {
    if |body| >= 2 && body[0] == '0' && PrefixBase(body[1]).Some? then
      var rest := body[2..];
      var digits := if |rest| > 0 && rest[0] == '_' then rest[1..] else rest;
      ParseDigits(digits, PrefixBase(body[1]).value)
    else
      var v :- ParseDigits(body, 10);
      if |body| > 0 && body[0] == '0' && v != 0 then None else Some(v)
  }

  /** `int(text, 0)`, with `None` for the `ValueError` case. */
  function ParseInt(text: string): Option<int> {
    var t := Strip(text);
    var negative := |t| > 0 && t[0] == '-';
    var body := if |t| > 0 && (t[0] == '-' || t[0] == '+') then t[1..] else t;
    var v :- ParseUnsigned(body);
    Some(if negative then -(v as int) else v as int)
  }

  lemma DigitCharValue(d: nat)
    requires d < 10
    ensures DigitIn(DigitChar(d), 10) == Some(d)
    ensures DigitChar(d) == '0' ==> d == 0
  {
    assert "0123456789"[d] as nat == '0' as nat + d;
  }

  lemma FromDigitsSnoc(ds: string, c: char, base: nat, high: nat, d: nat)
    requires DigitIn(c, base) == Some(d) && FromDigits(ds, base) == Some(high)
    ensures FromDigits(ds + [c], base) == Some(high * base + d)
  {
    assert (ds + [c])[..|ds|] == ds;
  }

  lemma DivModTen(n: nat)
    ensures (n / 10) * 10 + n % 10 == n
  {
  }

  /** Appending the last digit: if the leading digits read back, so does the whole. */
  lemma FromDecimalStep(n: nat)
    requires n >= 10
    requires FromDigits(NatToDecimal(n / 10), 10) == Some(n / 10)
    ensures FromDigits(NatToDecimal(n), 10) == Some(n)
  {
    var c := DigitChar(n % 10);
    DigitCharValue(n % 10);
    assert NatToDecimal(n) == NatToDecimal(n / 10) + [c];
    FromDigitsSnoc(NatToDecimal(n / 10), c, 10, n / 10, n % 10);
    DivModTen(n);
  }

  /** A single digit reads back. */
  lemma FromDecimalDigit(n: nat)
    requires n < 10
    ensures FromDigits(NatToDecimal(n), 10) == Some(n)
  {
    var c := DigitChar(n);
    DigitCharValue(n);
    assert NatToDecimal(n) == [] + [c];
    FromDigitsSnoc([], c, 10, 0, n);
  }

  lemma {:induction false} FromDecimal(n: nat)
    ensures FromDigits(NatToDecimal(n), 10) == Some(n)
  {
    if n >= 10 {
      FromDecimal(n / 10);
      FromDecimalStep(n);
    } else {
      FromDecimalDigit(n);
    }
  }

  lemma NoUnderscoreInDecimal(n: nat)
    ensures '_' !in NatToDecimal(n)
  {
    var s := NatToDecimal(n);
    assert forall i :: 0 <= i < |s| ==> s[i] != '_';
  }

  lemma ParseUnsignedDecimal(m: nat)
    ensures ParseUnsigned(NatToDecimal(m)) == Some(m)
  {
    var body := NatToDecimal(m);
    NoUnderscoreInDecimal(m);
    assert Grouped(body);
    FromDecimal(m);
    assert ParseDigits(body, 10) == Some(m);
    if |body| == 1 {
      DigitCharValue(m);
    }
  }

  /** A decimal rendering has no surrounding whitespace. */
  lemma StripDecimal(n: int)
    ensures Strip(IntToDecimal(n)) == IntToDecimal(n)
  {
    var s := IntToDecimal(n);
    assert !IsSpace(s[0]) && !IsSpace(s[|s| - 1]);
    StripAround([], s, []);
    assert [] + s + [] == s;
  }

  /** `int` of a stripped text with a leading minus sign. */
  lemma ParseMinus(text: string, v: nat)
    requires Strip(text) == text && |text| > 0 && text[0] == '-'
    requires ParseUnsigned(text[1..]) == Some(v)
    ensures ParseInt(text) == Some(-(v as int))
  {
  }

  /** `int` of a stripped text without a sign. */
  lemma ParsePlain(text: string, v: nat)
    requires Strip(text) == text && |text| > 0 && text[0] != '-' && text[0] != '+'
    requires ParseUnsigned(text) == Some(v)
    ensures ParseInt(text) == Some(v)
  {
  }

  lemma NegativeDecimal(n: int, m: nat)
    requires n < 0 && m == -n
    ensures var t := IntToDecimal(n); |t| > 0 && t[0] == '-' && t[1..] == NatToDecimal(m)
  {
    var d := NatToDecimal(m);
    assert IntToDecimal(n) == ['-'] + d;
    ConsParts('-', d);
  }

  lemma ConsParts<T>(x: T, d: seq<T>)
    ensures ([x] + d)[0] == x && ([x] + d)[1..] == d
  {
  }

  lemma NonNegativeDecimal(n: nat)
    ensures var t := IntToDecimal(n); |t| > 0 && t[0] != '-' && t[0] != '+' && t == NatToDecimal(n)
  {
    var t := NatToDecimal(n);
    assert '0' <= t[0] <= '9';
  }

  lemma ParseIntNegative(n: int)
    requires n < 0
    ensures ParseInt(IntToDecimal(n)) == Some(n)
  {
    var m: nat := -n;
    var t := IntToDecimal(n);
    StripDecimal(n);
    NegativeDecimal(n, m);
    ParseUnsignedDecimal(m);
    ParseMinus(t, m);
  }

  lemma ParseIntNonNegative(n: nat)
    ensures ParseInt(IntToDecimal(n)) == Some(n)
  {
    StripDecimal(n);
    NonNegativeDecimal(n);
    ParseUnsignedDecimal(n);
    ParsePlain(IntToDecimal(n), n);
  }

  /** `int(f'{n}', 0) == n`: the decimal rendering of an integer parses back to it. */
  lemma ParseIntDecimal(n: int)
    ensures ParseInt(IntToDecimal(n)) == Some(n)
  {
    if n < 0 {
      ParseIntNegative(n);
    } else {
      ParseIntNonNegative(n);
    }
  }

  /** `get_linter_option` once the options are known: the default for an absent name, a
      recognised boolean word, a parsed integer, and the default for anything else. */
  function DecodeOption(options: map<string, string>, name: string, ty: OptionType, default: LintValue)
    : (r: LintValue)
    ensures name !in options ==> r == default
    ensures name in options && ty == BoolType ==>
      && (options[name] in TrueWords ==> r == BoolValue(true))
      && (options[name] in FalseWords ==> r == BoolValue(false))
      && (options[name] !in TrueWords + FalseWords ==> r == default)
    ensures name in options && ty == IntType ==>
      r == match ParseInt(options[name]) case Some(v) => IntValue(v) case None => default
  {
    if name !in options then default
    else
      var option := options[name];
      match ty
      case BoolType =>
        if option in TrueWords then BoolValue(true)
        else if option in FalseWords then BoolValue(false)
        else default
      case IntType =>
        match ParseInt(option)
        case Some(v) => IntValue(v)
        case None => default
  }

  /** No word is both a true and a false spelling, so the two boolean lists never clash. */
  lemma BoolWordsDisjoint()
    ensures TrueWords * FalseWords == {}
  {
    assert "1" !in FalseWords && "yes" !in FalseWords && "enable" !in FalseWords;
  }

  /** An integer option written in decimal reads back as that integer, whatever the
      default. */
  lemma IntOptionRoundTrip(name: string, n: int, default: LintValue)
    ensures DecodeOption(map[name := IntToDecimal(n)], name, IntType, default) == IntValue(n)
  {
    ParseIntDecimal(n);
  }

  /** `get_linter_option`: read the options, then decode the entry. */
  function GetLinterOption(lines: seq<string>, amaranth: Matcher, torii: Matcher, name: string,
                           ty: OptionType, default: LintValue): (r: Result<LintValue, OptionsError>)
    ensures r.Failure? <==> GetLinterOptions(lines, amaranth, torii).Failure?
    ensures r.Success? ==> r.value == DecodeOption(GetLinterOptions(lines, amaranth, torii).value, name, ty, default)
  {
    var options :- GetLinterOptions(lines, amaranth, torii);
    Success(DecodeOption(options, name, ty, default))
  }

  /** Without a magic comment in the inspected lines every option takes its default. */
  lemma NoCommentGivesDefault(lines: seq<string>, amaranth: Matcher, torii: Matcher, name: string,
                              ty: OptionType, default: LintValue)
    requires forall k :: 0 <= k < |Head(lines)| ==> amaranth(lines[k]).None? && torii(lines[k]).None?
    ensures GetLinterOption(lines, amaranth, torii, name, ty, default) == Success(default)
  {
  }

  /** Decoding looks only at the named entry. */
  lemma DecodeLocal(o1: map<string, string>, o2: map<string, string>, name: string, ty: OptionType,
                    default: LintValue)
    requires name in o1 && name in o2 && o1[name] == o2[name]
    ensures DecodeOption(o1, name, ty, default) == DecodeOption(o2, name, ty, default)
  {
  }

  /** A well-formed magic comment never makes `get_linter_option` raise, and an option is
      decoded from the value of its last occurrence. */
  lemma WellFormedCommentOption(lines: seq<string>, amaranth: Matcher, torii: Matcher,
                                assignments: seq<Assignment>, i: nat, ty: OptionType, default: LintValue)
    requires |assignments| >= 1
    requires forall k :: 0 <= k < |assignments| ==> WellFormed(assignments[k])
    requires SelectedGroup(lines, amaranth, torii) == Some(Join(RenderAll(assignments), ','))
    requires i < |assignments| && forall j :: i < j < |assignments| ==> assignments[j].key != assignments[i].key
    ensures GetLinterOption(lines, amaranth, torii, assignments[i].key, ty, default)
      == Success(DecodeOption(map[assignments[i].key := assignments[i].value], assignments[i].key, ty, default))
  {
    var key := assignments[i].key;
    var options := GroupOptions(Join(RenderAll(assignments), ','));
    WellFormedGroupOptions(assignments);
    assert GetLinterOptions(lines, amaranth, torii) == options;
    assert key in options.value && options.value[key] == assignments[i].value;
    DecodeLocal(options.value, map[key := assignments[i].value], key, ty, default);
  }
}
