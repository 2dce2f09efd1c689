/** Sequences as the source uses them: slices, stable sorting, filtering and searching in order. */
module Sequences {
  import opened Wrappers

  /** `xs[:n]` for any integer `n`. */
  function Front<T>(xs: seq<T>, n: int): seq<T> {
    if n >= 0 then xs[..if n < |xs| then n else |xs|]
    else xs[..if |xs| + n > 0 then |xs| + n else 0]
  }

  /** The elements of all groups, in order. */
  function Flat<T>(groups: seq<seq<T>>): seq<T> { if groups == [] then [] else groups[0] + Flat(groups[1..]) }

  lemma {:induction false} FlatSnoc<T>(groups: seq<seq<T>>, g: seq<T>)
    ensures Flat(groups + [g]) == Flat(groups) + g
  {
    if groups == [] {
      assert [g][1..] == [] && groups + [g] == [g];
    } else {
      assert (groups + [g])[1..] == groups[1..] + [g];
      FlatSnoc(groups[1..], g);
    }
  }

  // ------------------------------------------------------------------ sorting

  ghost predicate TotalOrder<T(!new)>(le: (T, T) -> bool) {
    && (forall x, y :: le(x, y) || le(y, x))
    && (forall x, y, z :: le(x, y) && le(y, z) ==> le(x, z))
  }

  predicate Sorted<T>(le: (T, T) -> bool, xs: seq<T>) {
    forall i, j | 0 <= i < j < |xs| :: le(xs[i], xs[j])
  }

  function Insert<T>(le: (T, T) -> bool, x: T, xs: seq<T>): seq<T> {
    if xs == [] || le(x, xs[0]) then [x] + xs else [xs[0]] + Insert(le, x, xs[1..])
  }

  function Sort<T>(le: (T, T) -> bool, xs: seq<T>): seq<T> {
    if xs == [] then [] else Insert(le, xs[0], Sort(le, xs[1..]))
  }

  lemma {:induction false} InsertContents<T>(le: (T, T) -> bool, x: T, xs: seq<T>)
    ensures multiset(Insert(le, x, xs)) == multiset(xs) + multiset{x}
  {
    if xs == [] || le(x, xs[0]) {
    } else {
      InsertContents(le, x, xs[1..]);
      assert xs == [xs[0]] + xs[1..];
    }
  }

  lemma {:induction false} SortContents<T>(le: (T, T) -> bool, xs: seq<T>)
    ensures multiset(Sort(le, xs)) == multiset(xs)
  {
    if xs != [] {
      SortContents(le, xs[1..]);
      InsertContents(le, xs[0], Sort(le, xs[1..]));
      assert xs == [xs[0]] + xs[1..];
    }
  }

  lemma SameElements<T>(le: (T, T) -> bool, xs: seq<T>)
    ensures forall x :: x in Sort(le, xs) <==> x in xs
  {
    SortContents(le, xs);
    assert forall x :: x in Sort(le, xs) <==> x in multiset(Sort(le, xs));
    assert forall x :: x in xs <==> x in multiset(xs);
  }

  lemma {:induction false} InsertSorted<T(!new)>(le: (T, T) -> bool, x: T, xs: seq<T>)
    requires TotalOrder(le) && Sorted(le, xs)
    ensures Sorted(le, Insert(le, x, xs))
  {
    if xs == [] {
    } else if le(x, xs[0]) {
      forall i | 0 <= i < |xs| ensures le(x, xs[i]) { assert i > 0 ==> le(xs[0], xs[i]); }
    } else {
      InsertSorted(le, x, xs[1..]);
      InsertContents(le, x, xs[1..]);
      var rest := Insert(le, x, xs[1..]);
      forall i | 0 <= i < |rest| ensures le(xs[0], rest[i]) {
        assert rest[i] in multiset(rest);
        assert rest[i] == x || rest[i] in xs[1..];
      }
    }
  }

  /** The result is in order. */
  lemma {:induction false} SortSorted<T(!new)>(le: (T, T) -> bool, xs: seq<T>)
    requires TotalOrder(le)
    ensures Sorted(le, Sort(le, xs))
  {
    if xs != [] {
      SortSorted(le, xs[1..]);
      InsertSorted(le, xs[0], Sort(le, xs[1..]));
    }
  }

  // ------------------------------------------------------------------ filtering

  function Filter<T>(keep: T -> bool, xs: seq<T>): seq<T> {
    if xs == [] then []
    else Filter(keep, xs[..|xs| - 1]) + (if keep(xs[|xs| - 1]) then [xs[|xs| - 1]] else [])
  }

  function Rest<T>(keep: T -> bool, xs: seq<T>): seq<T> {
    if xs == [] then []
    else Rest(keep, xs[..|xs| - 1]) + (if keep(xs[|xs| - 1]) then [] else [xs[|xs| - 1]])
  }

  lemma FilterSnoc<T>(keep: T -> bool, xs: seq<T>, x: T)
    ensures Filter(keep, xs + [x]) == Filter(keep, xs) + (if keep(x) then [x] else [])
    ensures Rest(keep, xs + [x]) == Rest(keep, xs) + (if keep(x) then [] else [x])
  {
    assert (xs + [x])[..|xs|] == xs;
  }

  lemma SnocCounts<T>(xs: seq<T>, x: T)
    ensures multiset(xs + [x]) == multiset(xs) + multiset{x}
  {}

  lemma KeptSnoc<T>(keep: T -> bool, xs: seq<T>, x: T)
    requires multiset(xs) == multiset(Filter(keep, xs)) + multiset(Rest(keep, xs))
    ensures multiset(xs + [x]) == multiset(Filter(keep, xs + [x])) + multiset(Rest(keep, xs + [x]))
  {
    FilterSnoc(keep, xs, x);
    SnocCounts(xs, x);
    if keep(x) {
      SnocCounts(Filter(keep, xs), x);
      assert Rest(keep, xs) + [] == Rest(keep, xs);
    } else {
      SnocCounts(Rest(keep, xs), x);
      assert Filter(keep, xs) + [] == Filter(keep, xs);
    }
  }

  /** Everything is kept or dropped, exactly once. */
  lemma {:induction false} KeptOrDroppedOnce<T>(keep: T -> bool, xs: seq<T>)
    ensures multiset(xs) == multiset(Filter(keep, xs)) + multiset(Rest(keep, xs))
  {
    if xs != [] {
      var front, last := xs[..|xs| - 1], xs[|xs| - 1];
      assert xs == front + [last];
      KeptOrDroppedOnce(keep, front);
      KeptSnoc(keep, front, last);
    }
  }

  lemma {:induction false} FilterIs<T>(keep: T -> bool, xs: seq<T>, x: T)
    ensures x in Filter(keep, xs) <==> x in xs && keep(x)
  {
    if xs != [] {
      FilterIs(keep, xs[..|xs| - 1], x);
      assert xs == xs[..|xs| - 1] + [xs[|xs| - 1]];
    }
  }

  lemma {:induction false} FilterAppend<T>(keep: T -> bool, xs: seq<T>, ys: seq<T>)
    ensures Filter(keep, xs + ys) == Filter(keep, xs) + Filter(keep, ys)
  {
    if ys == [] {
      assert xs + ys == xs;
    } else {
      var front, last := ys[..|ys| - 1], ys[|ys| - 1];
      FilterAppend(keep, xs, front);
      assert (xs + ys)[..|xs + ys| - 1] == xs + front;
    }
  }

  lemma {:induction false} FilterAll<T>(keep: T -> bool, xs: seq<T>)
    requires forall x | x in xs :: keep(x)
    ensures Filter(keep, xs) == xs
  {
    if xs != [] {
      FilterAll(keep, xs[..|xs| - 1]);
      assert xs == xs[..|xs| - 1] + [xs[|xs| - 1]];
    }
  }

  lemma {:induction false} FilterNone<T>(keep: T -> bool, xs: seq<T>)
    requires forall x | x in xs :: !keep(x)
    ensures Filter(keep, xs) == []
  {
    if xs != [] {
      FilterNone(keep, xs[..|xs| - 1]);
      assert xs == xs[..|xs| - 1] + [xs[|xs| - 1]];
    }
  }

  /** What is kept of a sorted list starts with the least that is kept. */
  lemma {:induction false} FilterFirst<T>(le: (T, T) -> bool, keep: T -> bool, xs: seq<T>, x: T)
    requires Sorted(le, xs) && x in Filter(keep, xs)
    ensures Filter(keep, xs) != [] && (x == Filter(keep, xs)[0] || le(Filter(keep, xs)[0], x))
  {
    var front, last := xs[..|xs| - 1], xs[|xs| - 1];
    var before := Filter(keep, front);
    if before != [] {
      FilterIs(keep, front, before[0]);
      var i :| 0 <= i < |front| && front[i] == before[0];
      assert le(xs[i], last);
      if x in before { FilterFirst(le, keep, front, x); }
    }
  }

  /** The elements that the order does not tell from `x`. */
  function Ties<T>(le: (T, T) -> bool, x: T): T -> bool { y => le(x, y) && le(y, x) }

  lemma FilterCons<T>(keep: T -> bool, x: T, xs: seq<T>)
    ensures Filter(keep, [x] + xs) == (if keep(x) then [x] else []) + Filter(keep, xs)
  {
    FilterAppend(keep, [x], xs);
    assert [x][..0] == [];
  }

  lemma {:induction false} InsertTies<T(!new)>(le: (T, T) -> bool, a: T, xs: seq<T>, x: T)
    requires TotalOrder(le)
    ensures Filter(Ties(le, x), Insert(le, a, xs)) == Filter(Ties(le, x), [a] + xs)
  {
    var same := Ties(le, x);
    if xs != [] && !le(a, xs[0]) {
      var b, rest := xs[0], xs[1..];
      InsertTies(le, a, rest, x);
      assert !(same(a) && same(b)) by { assert le(a, x) && le(x, b) ==> le(a, b); }
      FilterCons(same, b, Insert(le, a, rest));
      FilterSwap(same, a, b, rest);
      assert xs == [b] + rest;
    }
  }

  /** Two elements of which not both are kept may change places. */
  lemma FilterSwap<T>(keep: T -> bool, a: T, b: T, rest: seq<T>)
    requires !(keep(a) && keep(b))
    ensures Filter(keep, [a] + ([b] + rest)) == (if keep(b) then [b] else []) + Filter(keep, [a] + rest)
  {
    FilterCons(keep, a, [b] + rest);
    FilterCons(keep, b, rest);
    FilterCons(keep, a, rest);
  }

  /** Sorting is stable: elements the order does not tell apart stay in their order. */
  lemma {:induction false} SortStable<T(!new)>(le: (T, T) -> bool, xs: seq<T>, x: T)
    requires TotalOrder(le)
    ensures Filter(Ties(le, x), Sort(le, xs)) == Filter(Ties(le, x), xs)
  {
    if xs != [] {
      SortStable(le, xs[1..], x);
      InsertTies(le, xs[0], Sort(le, xs[1..]), x);
      FilterCons(Ties(le, x), xs[0], Sort(le, xs[1..]));
      FilterCons(Ties(le, x), xs[0], xs[1..]);
      assert xs == [xs[0]] + xs[1..];
    }
  }

  // ------------------------------------------------------------------ searching

  /** The first element that is not all right. */
  function FirstBad<T>(ok: T -> bool, xs: seq<T>): Option<nat> {
    if xs == [] then None
    else
      var n := |xs| - 1;
      var before := FirstBad(ok, xs[..n]);
      if before.Some? || ok(xs[n]) then before else Some(n)
  }

  lemma {:induction false} FirstBadStays<T>(ok: T -> bool, xs: seq<T>, n: nat)
    requires n <= |xs| && FirstBad(ok, xs[..n]).Some?
    ensures FirstBad(ok, xs) == FirstBad(ok, xs[..n])
  {
    if n < |xs| {
      assert xs[..|xs| - 1][..n] == xs[..n];
      FirstBadStays(ok, xs[..|xs| - 1], n);
    } else {
      assert xs[..n] == xs;
    }
  }

  /** Where the first is, all before it are all right. */
  lemma {:induction false} FirstBadIs<T>(ok: T -> bool, xs: seq<T>)
    ensures var f := FirstBad(ok, xs);
            && (f.Some? ==> f.value < |xs| && !ok(xs[f.value]) && forall j | 0 <= j < f.value :: ok(xs[j]))
            && (f.None? ==> forall j | 0 <= j < |xs| :: ok(xs[j]))
  {
    if xs != [] { FirstBadIs(ok, xs[..|xs| - 1]); }
  }

  lemma {:induction false} NoneBadExactly<T>(ok: T -> bool, xs: seq<T>)
    ensures FirstBad(ok, xs).None? <==> forall x | x in xs :: ok(x)
  {
    if xs != [] {
      NoneBadExactly(ok, xs[..|xs| - 1]);
      assert xs == xs[..|xs| - 1] + [xs[|xs| - 1]];
    }
  }

  /** Where all that is not all right is, in order. */
  function Bads<T>(ok: T -> bool, xs: seq<T>): seq<nat> {
    if xs == [] then []
    else Bads(ok, xs[..|xs| - 1]) + (if ok(xs[|xs| - 1]) then [] else [|xs| - 1])
  }

  lemma {:induction false} FirstOfBads<T>(ok: T -> bool, xs: seq<T>)
    ensures FirstBad(ok, xs) == if Bads(ok, xs) == [] then None else Some(Bads(ok, xs)[0])
  {
    if xs != [] { FirstOfBads(ok, xs[..|xs| - 1]); }
  }

  /** After the last one all is right; up to it the others are listed. */
  lemma {:induction false} LastOfBads<T>(ok: T -> bool, xs: seq<T>)
    requires Bads(ok, xs) != []
    ensures var m := |Bads(ok, xs)| - 1; var d := Bads(ok, xs)[m];
            && d < |xs| && !ok(xs[d]) && Bads(ok, xs[..d]) == Bads(ok, xs)[..m]
            && forall i | d < i < |xs| :: ok(xs[i])
  {
    var n := |xs| - 1;
    if ok(xs[n]) {
      LastOfBads(ok, xs[..n]);
      var d := Bads(ok, xs)[|Bads(ok, xs)| - 1];
      assert xs[..n][..d] == xs[..d];
    }
  }

  /** A loop that keeps the first position and collects the later ones. */
  method FindBad<T>(ok: T -> bool, xs: seq<T>) returns (first: Option<nat>, dups: seq<nat>)
    ensures Bads(ok, xs) == if first.Some? then [first.value] + dups else []
    ensures first == FirstBad(ok, xs)
  {
    first, dups := None, [];
    for i := 0 to |xs|
      invariant Bads(ok, xs[..i]) == if first.Some? then [first.value] + dups else []
      invariant first.None? ==> dups == []
    {
      assert xs[..i + 1][..i] == xs[..i];
      if !ok(xs[i]) {
        if first.None? {
          first := Some(i);
        } else {
          dups := dups + [i];
        }
      }
    }
    assert xs[..|xs|] == xs;
    FirstOfBads(ok, xs);
  }

  lemma SliceSplit<T>(xs: seq<T>, from: nat, to: nat)
    requires from <= to <= |xs|
    ensures xs[from..] == xs[from..to] + xs[to..] && xs[..to] == xs[..from] + xs[from..to]
  {}

  lemma {:induction false} FilterRange<T>(keep: T -> bool, xs: seq<T>, lo: nat, hi: nat)
    requires lo <= hi <= |xs| && forall i | lo <= i < hi :: keep(xs[i])
    ensures Filter(keep, xs[lo..hi]) == xs[lo..hi]
    decreases hi
  {
    if hi > lo {
      var range, front := xs[lo..hi], xs[lo..hi - 1];
      FilterRange(keep, xs, lo, hi - 1);
      assert range[..|range| - 1] == front && range[|range| - 1] == xs[hi - 1];
      assert range == front + [xs[hi - 1]];
    }
  }

  lemma FilterStretch<T>(keep: T -> bool, xs: seq<T>, from: nat, to: nat)
    requires from <= to <= |xs| && forall i | from <= i < to :: keep(xs[i])
    ensures xs[..to] + Filter(keep, xs[to..]) == xs[..from] + Filter(keep, xs[from..])
  {
    SliceSplit(xs, from, to);
    FilterRange(keep, xs, from, to);
    FilterAppend(keep, xs[from..to], xs[to..]);
  }

  lemma CutBack<T>(keep: T -> bool, xs: seq<T>, d: nat, cut: nat)
    requires d < cut <= |xs| && !keep(xs[d]) && forall i | d < i < cut :: keep(xs[i])
    ensures var ys := xs[..cut] + Filter(keep, xs[cut..]);
            d < |ys| && ys[..d] + ys[d + 1..] == xs[..d] + Filter(keep, xs[d..])
  {
    var ys := xs[..cut] + Filter(keep, xs[cut..]);
    FilterStretch(keep, xs, d + 1, cut);
    assert ys == xs[..d + 1] + Filter(keep, xs[d + 1..]);
    FilterAppend(keep, [xs[d]], xs[d + 1..]);
    assert xs[d..] == [xs[d]] + xs[d + 1..];
    assert [xs[d]][..0] == [] && Filter(keep, [xs[d]]) == [];
  }
}
