/** String helpers shared by the model: infix search, Python's `str.split` and
    `str.strip`, and decimal rendering of integers as Python's f-strings print them.
    Strings are `seq<char>`; whitespace is the full set `str.isspace()` accepts. */
module Text {

  predicate InfixAt(needle: string, hay: string, k: nat) {
    k + |needle| <= |hay| && hay[k..k + |needle|] == needle
  }

  ghost predicate IsInfix(needle: string, hay: string) {
    exists k: nat :: InfixAt(needle, hay, k)
  }

  lemma InfixOfConcat(a: string, needle: string, b: string)
    ensures IsInfix(needle, a + needle + b)
  {
    var hay := a + needle + b;
    assert InfixAt(needle, hay, |a|);
  }

  /** The pieces of a split, glued back together with the separator. */
  function Join(pieces: seq<string>, sep: char): string {
    if |pieces| == 0 then ""
    else if |pieces| == 1 then pieces[0]
    else pieces[0] + [sep] + Join(pieces[1..], sep)
  }

  /** Index of the first occurrence of `c` in `s`. */
  function IndexOf(s: string, c: char): (k: nat)
    requires c in s
    ensures k < |s| && s[k] == c && c !in s[..k]
  {
    if s[0] == c then 0 else 1 + IndexOf(s[1..], c)
  }

  /** Python's `s.split(sep, maxsplit)` for a one-character separator: at most `maxsplit`
      splits, from the left. */
  function SplitMax(s: string, sep: char, maxsplit: nat): (r: seq<string>)
    ensures 1 <= |r| <= maxsplit + 1
    decreases |s|
  {
    if maxsplit == 0 || sep !in s then [s]
    else
      var k := IndexOf(s, sep);
      [s[..k]] + SplitMax(s[k + 1..], sep, maxsplit - 1)
  }

  /** Python's `s.split(sep)`: split at every occurrence. */
  function Split(s: string, sep: char): (r: seq<string>)
    ensures |r| >= 1
  {
    SplitMax(s, sep, |s| + 1)
  }

  lemma JoinCons(a: string, rest: seq<string>, sep: char)
    requires |rest| >= 1
    ensures Join([a] + rest, sep) == a + [sep] + Join(rest, sep)
  {
    assert ([a] + rest)[1..] == rest;
  }

  lemma AroundIndex<T>(s: seq<T>, k: nat)
    requires k < |s|
    ensures s == s[..k] + [s[k]] + s[k + 1..]
  {
  }

  /** Gluing the pieces of a split back together with the separator gives the text. */
  lemma {:induction false} SplitMaxJoin(s: string, sep: char, maxsplit: nat)
    ensures Join(SplitMax(s, sep, maxsplit), sep) == s
    decreases |s|
  {
    if maxsplit > 0 && sep in s {
      var k := IndexOf(s, sep);
      var rest := SplitMax(s[k + 1..], sep, maxsplit - 1);
      SplitMaxJoin(s[k + 1..], sep, maxsplit - 1);
      JoinCons(s[..k], rest, sep);
      AroundIndex(s, k);
    }
  }

  /** Only the last piece may still hold the separator, and only once the splits ran out. */
  lemma {:induction false} SplitMaxPieces(s: string, sep: char, maxsplit: nat)
    ensures var r := SplitMax(s, sep, maxsplit);
      && (forall i :: 0 <= i < |r| - 1 ==> sep !in r[i])
      && (|r| <= maxsplit ==> sep !in r[|r| - 1])
    decreases |s|
  {
    if maxsplit > 0 && sep in s {
      var k := IndexOf(s, sep);
      var rest := SplitMax(s[k + 1..], sep, maxsplit - 1);
      SplitMaxPieces(s[k + 1..], sep, maxsplit - 1);
      var r := [s[..k]] + rest;
      assert r[0] == s[..k] && sep !in s[..k];
      assert forall i :: 1 <= i < |r| ==> r[i] == rest[i - 1];
    }
  }

  /** A split at every occurrence leaves no separator in any piece. */
  lemma SplitPieces(s: string, sep: char)
    ensures Join(Split(s, sep), sep) == s
    ensures forall i :: 0 <= i < |Split(s, sep)| ==> sep !in Split(s, sep)[i]
  {
    var r := SplitMax(s, sep, |s| + 1);
    SplitMaxJoin(s, sep, |s| + 1);
    JoinLength(r, sep);
    assert |r| <= |s| + 1;
    SplitMaxPieces(s, sep, |s| + 1);
  }

  /** The first separator of `a + [sep] + b` is the one after `a` when `a` has none. */
  lemma {:induction false} IndexAfter(a: string, sep: char, b: string)
    requires sep !in a
    ensures IndexOf(a + [sep] + b, sep) == |a|
    decreases |a|
  {
    if |a| > 0 {
      assert (a + [sep] + b)[1..] == a[1..] + [sep] + b;
      IndexAfter(a[1..], sep, b);
    }
  }

  /** `split` at the first separator: the text before it, then the split of the rest. */
  lemma SplitMaxStep(a: string, sep: char, b: string, n: nat)
    requires sep !in a && n >= 1
    ensures SplitMax(a + [sep] + b, sep, n) == [a] + SplitMax(b, sep, n - 1)
  {
    var s := a + [sep] + b;
    assert s[|a|] == sep;
    IndexAfter(a, sep, b);
    assert s[..|a|] == a && s[|a| + 1..] == b;
  }

  /** `split(sep, n)` cuts a text with a single separator into its two sides. */
  lemma SplitMaxOnce(a: string, sep: char, b: string, n: nat)
    requires sep !in a && sep !in b && n >= 1
    ensures SplitMax(a + [sep] + b, sep, n) == [a, b]
  {
    SplitMaxStep(a, sep, b, n);
  }

  lemma SplitJoinStep(pieces: seq<string>, sep: char, n: nat)
    requires |pieces| > 1 && n >= 1 && sep !in pieces[0]
    requires SplitMax(Join(pieces[1..], sep), sep, n - 1) == pieces[1..]
    ensures SplitMax(Join(pieces, sep), sep, n) == pieces
  {
    var rest := pieces[1..];
    var tail := Join(rest, sep);
    assert Join(pieces, sep) == pieces[0] + [sep] + tail;
    SplitMaxStep(pieces[0], sep, tail, n);
    assert pieces == [pieces[0]] + rest;
  }

  /** Splitting a join at a separator no piece contains gives the pieces back. */
  lemma {:induction false} SplitJoin(pieces: seq<string>, sep: char, n: nat)
    requires |pieces| >= 1 && n + 1 >= |pieces|
    requires forall i :: 0 <= i < |pieces| ==> sep !in pieces[i]
    ensures SplitMax(Join(pieces, sep), sep, n) == pieces
    decreases |pieces|
  {
    if |pieces| > 1 {
      var rest := pieces[1..];
      assert forall i :: 0 <= i < |rest| ==> sep !in rest[i];
      SplitJoin(rest, sep, n - 1);
      SplitJoinStep(pieces, sep, n);
    } else {
      assert Join(pieces, sep) == pieces[0];
      assert pieces == [pieces[0]];
    }
  }

  /** `split(sep)` undoes a join whose pieces hold no separator. */
  lemma SplitOfJoin(pieces: seq<string>, sep: char)
    requires |pieces| >= 1
    requires forall i :: 0 <= i < |pieces| ==> sep !in pieces[i]
    ensures Split(Join(pieces, sep), sep) == pieces
  {
    JoinLength(pieces, sep);
    SplitJoin(pieces, sep, |Join(pieces, sep)| + 1);
  }

  function TotalLength(pieces: seq<string>): nat {
    if |pieces| == 0 then 0 else |pieces[0]| + TotalLength(pieces[1..])
  }

  lemma {:induction false} JoinLength(pieces: seq<string>, sep: char)
    requires |pieces| >= 1
    ensures |Join(pieces, sep)| == TotalLength(pieces) + |pieces| - 1
  {
    if |pieces| > 1 {
      JoinLength(pieces[1..], sep);
    }
  }

  /** The characters Python's `str.isspace()` accepts, which are also what `str.strip()`
      removes and what the regular expression `\s` matches: the ASCII controls TAB to CR
      and FS to US, the space, NEL, NO-BREAK SPACE, and the Unicode separators. */
  predicate IsSpace(c: char) {
    || c == ' ' || '\t' <= c <= '\r' || '\U{1C}' <= c <= '\U{1F}'
    || c == '\U{85}' || c == '\U{A0}' || c == '\U{1680}'
    || '\U{2000}' <= c <= '\U{200A}' || c == '\U{2028}' || c == '\U{2029}'
    || c == '\U{202F}' || c == '\U{205F}' || c == '\U{3000}'
  }

  predicate AllSpace(s: string) {
    forall i :: 0 <= i < |s| ==> IsSpace(s[i])
  }

  function StripLeft(s: string): (r: string)
    ensures |r| <= |s|
    decreases |s|
  {
    if |s| > 0 && IsSpace(s[0]) then StripLeft(s[1..]) else s
  }

  function StripRight(s: string): (r: string)
    ensures |r| <= |s|
    decreases |s|
  {
    if |s| > 0 && IsSpace(s[|s| - 1]) then StripRight(s[..|s| - 1]) else s
  }

  /** Python's `s.strip()`: drop leading and trailing whitespace. */
  function Strip(s: string): (r: string)
    ensures |r| <= |s|
  {
    StripRight(StripLeft(s))
  }

  /** `lstrip()` drops exactly a whitespace prefix: what remains is a suffix starting with a
      non-space character. */
  lemma {:induction false} StripLeftFacts(s: string)
    ensures var r := StripLeft(s);
      && r == s[|s| - |r|..] && (|r| > 0 ==> !IsSpace(r[0])) && AllSpace(s[..|s| - |r|])
    decreases |s|
  {
    if |s| > 0 && IsSpace(s[0]) {
      StripLeftFacts(s[1..]);
      var r := StripLeft(s);
      assert s[1..][|s| - 1 - |r|..] == s[|s| - |r|..];
      assert s[..|s| - |r|] == [s[0]] + s[1..][..|s| - 1 - |r|];
    }
  }

  /** `rstrip()` drops exactly a whitespace suffix. */
  lemma {:induction false} StripRightFacts(s: string)
    ensures var r := StripRight(s);
      && r == s[..|r|] && (|r| > 0 ==> !IsSpace(r[|r| - 1])) && AllSpace(s[|r|..])
    decreases |s|
  {
    if |s| > 0 && IsSpace(s[|s| - 1]) {
      var t := s[..|s| - 1];
      StripRightFacts(t);
      var r := StripRight(s);
      assert t[..|r|] == s[..|r|];
      assert s[|r|..] == t[|r|..] + [s[|s| - 1]];
    }
  }

  lemma {:induction false} StripLeftSpaces(lead: string, s: string)
    requires AllSpace(lead)
    ensures StripLeft(lead + s) == StripLeft(s)
    decreases |lead|
  {
    if |lead| > 0 {
      assert (lead + s)[1..] == lead[1..] + s;
      StripLeftSpaces(lead[1..], s);
    } else {
      assert lead + s == s;
    }
  }

  lemma {:induction false} StripRightSpaces(s: string, trail: string)
    requires AllSpace(trail)
    ensures StripRight(s + trail) == StripRight(s)
    decreases |trail|
  {
    if |trail| > 0 {
      var n := |trail| - 1;
      assert (s + trail)[..|s + trail| - 1] == s + trail[..n];
      StripRightSpaces(s, trail[..n]);
    } else {
      assert s + trail == s;
    }
  }

  /** `strip()` removes exactly the whitespace around a core that starts and ends with a
      non-space character. */
  lemma StripAround(lead: string, core: string, trail: string)
    requires AllSpace(lead) && AllSpace(trail)
    requires |core| > 0 && !IsSpace(core[0]) && !IsSpace(core[|core| - 1])
    ensures Strip(lead + core + trail) == core
  {
    assert lead + core + trail == lead + (core + trail);
    StripLeftSpaces(lead, core + trail);
    assert StripLeft(core + trail) == core + trail;
    StripRightSpaces(core, trail);
    assert StripRight(core) == core;
  }

  function DigitChar(d: nat): char
    requires d < 10
  {
    "0123456789"[d]
  }

  /** Decimal digits of `n`, most significant first, without leading zeros. */
  function NatToDecimal(n: nat): (r: string)
    ensures |r| >= 1
    ensures forall i :: 0 <= i < |r| ==> '0' <= r[i] <= '9'
    ensures |r| > 1 ==> r[0] != '0'
  {
    if n < 10 then [DigitChar(n)] else NatToDecimal(n / 10) + [DigitChar(n % 10)]
  }

  /** How `f'{n}'` renders an integer. */
  function IntToDecimal(n: int): (r: string)
    ensures |r| >= 1
  {
    if n < 0 then "-" + NatToDecimal(-n) else NatToDecimal(n)
  }
}
