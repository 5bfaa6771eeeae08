/** The generic helpers of `torii/_utils.py`: `flatten` over nested iterables, `union` as a
    left fold of `|=`, and the `memoize` cache as an explicit map-valued state threaded
    through the calls. */
module PyUtils {
  import opened Wrappers

  /** An element `flatten` meets: a string or non-iterable value is an atom; any other
      iterable is a nested sequence of elements. */
  datatype Item<T> = Atom(value: T) | Nested(children: seq<Item<T>>)

  /** `flatten`: the atoms of the nested structure, left to right. */
  function Flatten<T>(items: seq<Item<T>>): seq<T>
    decreases items
  {
    if |items| == 0 then []
    else
      match items[0]
      case Atom(v) => [v] + Flatten(items[1..])
      case Nested(cs) => Flatten(cs) + Flatten(items[1..])
  }

  /** Values wrapped as atoms: a sequence with no nested iterable in it. */
  function Atoms<T>(xs: seq<T>): (r: seq<Item<T>>)
    ensures |r| == |xs| && forall i :: 0 <= i < |r| ==> r[i] == Atom(xs[i])
  {
    seq(|xs|, i requires 0 <= i < |xs| => Atom(xs[i]))
  }

  /** `x` occurs as an atom somewhere inside `items`, at any depth. */
  ghost predicate Occurs<T>(x: T, items: seq<Item<T>>)
    decreases items
  {
    exists i :: 0 <= i < |items| && OccursIn(x, items, i)
  }

  ghost predicate OccursIn<T>(x: T, items: seq<Item<T>>, i: int)
    requires 0 <= i < |items|
    decreases items, 0
  {
    match items[i]
    case Atom(v) => v == x
    case Nested(cs) => Occurs(x, cs)
  }

  lemma {:induction false} FlattenConcat<T>(a: seq<Item<T>>, b: seq<Item<T>>)
    ensures Flatten(a + b) == Flatten(a) + Flatten(b)
    decreases |a|
  {
    if |a| == 0 {
      assert a + b == b;
    } else {
      assert (a + b)[0] == a[0];
      assert (a + b)[1..] == a[1..] + b;
      FlattenConcat(a[1..], b);
    }
  }

  /** Flattening a sequence of plain values gives the values back. */
  lemma {:induction false} FlattenAtoms<T>(xs: seq<T>)
    ensures Flatten(Atoms(xs)) == xs
  {
    if |xs| > 0 {
      assert Atoms(xs)[1..] == Atoms(xs[1..]);
      FlattenAtoms(xs[1..]);
    }
  }

  /** The output of `flatten` holds no nested iterable, so flattening it again changes
      nothing: a corollary of `FlattenAtoms`. */
  lemma FlattenIdempotent<T>(items: seq<Item<T>>)
    ensures Flatten(Atoms(Flatten(items))) == Flatten(items)
  {
    FlattenAtoms(Flatten(items));
  }

  /** Wrapping a sequence in one more level of nesting does not change its leaves. */
  lemma FlattenNested<T>(items: seq<Item<T>>)
    ensures Flatten([Nested(items)]) == Flatten(items)
  {
    assert [Nested(items)][1..] == [];
  }

  /** A value is yielded by `flatten` exactly when it occurs as an atom at some depth. */
  lemma {:induction false} FlattenMembership<T>(x: T, items: seq<Item<T>>)
    ensures x in Flatten(items) <==> Occurs(x, items)
    decreases items
  {
    if |items| > 0 {
      var rest := items[1..];
      FlattenMembership(x, rest);
      assert Occurs(x, rest) <==> exists i :: 1 <= i < |items| && OccursIn(x, items, i) by {
        forall i | 1 <= i < |items|
          ensures OccursIn(x, items, i) <==> OccursIn(x, rest, i - 1)
        {
          assert items[i] == rest[i - 1];
        }
        if Occurs(x, rest) {
          var j :| 0 <= j < |rest| && OccursIn(x, rest, j);
          assert OccursIn(x, items, j + 1);
        }
      }
      assert Occurs(x, items) <==> OccursIn(x, items, 0) || Occurs(x, rest);
      match items[0]
      case Atom(v) =>
      case Nested(cs) =>
        FlattenMembership(x, cs);
    }
  }

  /** Left fold, the meaning of the `for e in i: r |= e` loop. */
  function FoldLeft<T>(op: (T, T) -> T, acc: T, xs: seq<T>): T
    decreases |xs|
  {
    if |xs| == 0 then acc else FoldLeft(op, op(acc, xs[0]), xs[1..])
  }

  lemma {:induction false} FoldLeftSnoc<T>(op: (T, T) -> T, acc: T, xs: seq<T>, x: T)
    ensures FoldLeft(op, acc, xs + [x]) == op(FoldLeft(op, acc, xs), x)
    decreases |xs|
  {
    if |xs| == 0 {
      assert xs + [x] == [x];
      assert [x][1..] == [];
    } else {
      assert (xs + [x])[1..] == xs[1..] + [x];
      FoldLeftSnoc(op, op(acc, xs[0]), xs[1..], x);
    }
  }

  /** What `union(i, start)` returns: `None` for an empty input without a start; otherwise
      the fold of `|=` beginning at `start`, or at the first element when there is no
      start. */
  function UnionOf<T>(op: (T, T) -> T, xs: seq<T>, start: Option<T>): Option<T> {
    match start
    case Some(s) => Some(FoldLeft(op, s, xs))
    case None => if |xs| == 0 then None else Some(FoldLeft(op, xs[0], xs[1..]))
  }

  /** `union`, with `|=` given as `op` and the accumulator treated as a value. */
  method Union<T>(xs: seq<T>, start: Option<T>, op: (T, T) -> T) returns (r: Option<T>)
    ensures r == UnionOf(op, xs, start)
    ensures r.None? <==> |xs| == 0 && start.None?
  {
    r := start;
    for k := 0 to |xs|
      invariant r == UnionOf(op, xs[..k], start)
    {
      assert xs[..k + 1] == xs[..k] + [xs[k]];
      if r.None? {
        assert k == 0;
        assert xs[..1] == [xs[0]] && xs[..1][1..] == [];
        r := Some(xs[k]);
      } else {
        match start {
          case Some(s) =>
            FoldLeftSnoc(op, s, xs[..k], xs[k]);
          case None =>
            assert xs[..k + 1][1..] == xs[1..k] + [xs[k]];
            assert xs[..k][1..] == xs[1..k];
            FoldLeftSnoc(op, xs[0], xs[1..k], xs[k]);
        }
        r := Some(op(r.value, xs[k]));
      }
    }
    assert xs[..|xs|] == xs;
  }

  /** With `|=` on sets, the fold collects every member of the start and of each element. */
  lemma {:induction false} FoldUnionMembers<T>(acc: set<T>, xs: seq<set<T>>, x: T)
    ensures x in FoldLeft((a: set<T>, b: set<T>) => a + b, acc, xs) <==>
      x in acc || exists i :: 0 <= i < |xs| && x in xs[i]
    decreases |xs|
  {
    if |xs| > 0 {
      FoldUnionMembers(acc + xs[0], xs[1..], x);
      assert forall i :: 1 <= i < |xs| ==> xs[i] == xs[1..][i - 1];
      if exists i :: 0 <= i < |xs| && x in xs[i] {
        var i :| 0 <= i < |xs| && x in xs[i];
        if i > 0 {
          assert x in xs[1..][i - 1];
        }
      }
    }
  }

  /** `union` of sets (the `|=` the callers use) is their set union. */
  lemma UnionOfSets<T>(xs: seq<set<T>>, start: Option<set<T>>, x: T)
    requires |xs| > 0 || start.Some?
    ensures var r := UnionOf((a: set<T>, b: set<T>) => a + b, xs, start);
      r.Some? && (x in r.value <==> (start.Some? && x in start.value) || exists i :: 0 <= i < |xs| && x in xs[i])
  {
    match start
    case Some(s) =>
      FoldUnionMembers(s, xs, x);
    case None =>
      FoldUnionMembers(xs[0], xs[1..], x);
      assert forall i :: 1 <= i < |xs| ==> xs[i] == xs[1..][i - 1];
      if exists i :: 0 <= i < |xs| && x in xs[i] {
        var i :| 0 <= i < |xs| && x in xs[i];
        if i > 0 {
          assert x in xs[1..][i - 1];
        }
      }
  }

  /** One call of the memoized `g`: what it returns, the cache afterwards, and whether `f`
      was evaluated. */
  datatype Step<A, B> = Step(value: B, memo: map<A, B>, evaluated: bool)

  /** Every cached entry is the value `f` gives for its key. */
  ghost predicate Faithful<A, B>(f: A -> B, memo: map<A, B>) {
    forall a :: a in memo ==> memo[a] == f(a)
  }

  /** `g(*args)`: evaluate `f` and cache the value if `args` is not cached yet, then
      answer from the cache. */
  function Call<A, B>(f: A -> B, memo: map<A, B>, args: A): (r: Step<A, B>)
    ensures r.evaluated <==> args !in memo
    ensures r.memo.Keys == memo.Keys + {args}
    ensures forall a :: a in memo ==> a in r.memo && r.memo[a] == memo[a]
    ensures Faithful(f, memo) ==> Faithful(f, r.memo) && r.value == f(args)
  {
    var memo' := if args !in memo then memo[args := f(args)] else memo;
    Step(memo'[args], memo', args !in memo)
  }

  /** A run of calls of `g`, the cache threaded from one to the next. */
  function Run<A, B>(f: A -> B, memo: map<A, B>, calls: seq<A>): (r: seq<Step<A, B>>)
    ensures |r| == |calls|
    decreases |calls|
  {
    if |calls| == 0 then []
    else
      var s := Call(f, memo, calls[0]);
      [s] + Run(f, s.memo, calls[1..])
  }

  lemma PrefixCons<A>(calls: seq<A>, i: nat)
    requires 1 <= i < |calls|
    ensures calls[i] == calls[1..][i - 1]
    ensures calls[..i] == [calls[0]] + calls[1..][..i - 1]
  {
  }

  /** Over a run: every answer equals `f` of its arguments, and `f` is evaluated for a call
      exactly when its arguments were neither cached at the start nor seen earlier in the
      run, so at most once per distinct argument tuple. */
  lemma {:induction false} RunFacts<A, B>(f: A -> B, memo: map<A, B>, calls: seq<A>)
    requires Faithful(f, memo)
    ensures var r := Run(f, memo, calls);
      forall i :: 0 <= i < |calls| ==>
        && r[i].value == f(calls[i])
        && (r[i].evaluated <==> calls[i] !in memo && calls[i] !in calls[..i])
    decreases |calls|
  {
    if |calls| > 0 {
      var s := Call(f, memo, calls[0]);
      var rest := calls[1..];
      RunFacts(f, s.memo, rest);
      var r := Run(f, memo, calls);
      forall i | 1 <= i < |calls|
        ensures r[i].value == f(calls[i])
        ensures r[i].evaluated <==> calls[i] !in memo && calls[i] !in calls[..i]
      {
        assert r[i] == Run(f, s.memo, rest)[i - 1];
        PrefixCons(calls, i);
      }
    }
  }

  /** A repeated argument tuple is answered from the cache. */
  lemma RepeatNotEvaluated<A, B>(f: A -> B, memo: map<A, B>, calls: seq<A>, i: nat, j: nat)
    requires Faithful(f, memo)
    requires i < j < |calls| && calls[i] == calls[j]
    ensures !Run(f, memo, calls)[j].evaluated
  {
    RunFacts(f, memo, calls);
    assert calls[..j][i] == calls[j];
  }
}
