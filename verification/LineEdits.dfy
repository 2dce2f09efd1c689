/** Replacing the first of some elements of a list, deleting the others, and appending one. */
module LineEdits {
  import opened Wrappers
  import opened Sequences

  /** The element at `f` becomes `line`; of those after it only the ones to keep stay. */
  function Replaced<T>(keep: T -> bool, ls: seq<T>, f: nat, line: T): seq<T>
    requires f < |ls|
  { ls[..f] + [line] + Filter(keep, ls[f + 1..]) }

  lemma Around<T>(ls: seq<T>, f: nat)
    requires f < |ls|
    ensures ls == ls[..f] + [ls[f]] + ls[f + 1..]
  {}

  lemma DeleteAfter<T>(ys: seq<T>, f: nat, line: T, d: nat)
    requires f < d < |ys|
    ensures ys[f := line][..d] + ys[f := line][d + 1..] == (ys[..d] + ys[d + 1..])[f := line]
  {}

  /** The source's way: the first is replaced, then the others are deleted from the last on. */
  method ReplaceAndDelete<T>(keep: T -> bool, xs: seq<T>, first: nat, dups: seq<nat>, line: T) returns (ys: seq<T>)
    requires Bads(keep, xs) == [first] + dups && first < |xs|
    ensures ys == Replaced(keep, xs, first, line)
  {
    ys := xs[first := line];
    ghost var base, cut := xs, |xs|;
    assert xs[..cut] == xs && xs[cut..] == [];
    var k := |dups|;
    while k > 0
      invariant 0 <= k <= |dups| && cut <= |xs| && Bads(keep, xs[..cut]) == [first] + dups[..k]
      invariant base == xs[..cut] + Filter(keep, xs[cut..]) && first < |base| && ys == base[first := line]
    {
      k := k - 1;
      var d := dups[k];
      CutOne(keep, xs, first, dups, k, cut);
      DeleteAfter(base, first, line, d);
      ys := ys[..d] + ys[d + 1..];
      base, cut := base[..d] + base[d + 1..], d;
    }
    assert [first] + dups[..0] == [first];
    AllDeleted(keep, xs, first, cut, line);
  }

  lemma AllDeleted<T>(keep: T -> bool, xs: seq<T>, first: nat, cut: nat, line: T)
    requires cut <= |xs| && Bads(keep, xs[..cut]) == [first]
    ensures var base := xs[..cut] + Filter(keep, xs[cut..]);
            first < |base| && first < |xs| && base[first := line] == Replaced(keep, xs, first, line)
  {
    LastOfBads(keep, xs[..cut]);
    assert forall i | first < i < cut :: xs[..cut][i] == xs[i];
    FilterStretch(keep, xs, first + 1, cut);
    var kept := Filter(keep, xs[first + 1..]);
    assert (xs[..first + 1] + kept)[first := line] == xs[..first] + [line] + kept;
  }

  /** One deletion: what is left before `d` has one position less. */
  lemma CutOne<T>(keep: T -> bool, xs: seq<T>, first: nat, dups: seq<nat>, k: nat, cut: nat)
    requires k < |dups| && cut <= |xs| && Bads(keep, xs[..cut]) == [first] + dups[..k + 1]
    ensures var d := dups[k]; var base := xs[..cut] + Filter(keep, xs[cut..]);
            && first < d < |base| && d <= |xs| && Bads(keep, xs[..d]) == [first] + dups[..k]
            && base[..d] + base[d + 1..] == xs[..d] + Filter(keep, xs[d..])
  {
    var all, d := Bads(keep, xs[..cut]), dups[k];
    LastOfBads(keep, xs[..cut]);
    assert all[|all| - 1] == d && all[..|all| - 1] == [first] + dups[..k];
    assert xs[..cut][..d] == xs[..d];
    assert forall i | d < i < cut :: xs[..cut][i] == xs[i];
    CutBack(keep, xs, d, cut);
    FirstOfBads(keep, xs[..d]);
    FirstBadIs(keep, xs[..d]);
  }

  lemma OneDropped<T>(keep: T -> bool, a: seq<T>, x: T, b: seq<T>)
    requires !keep(x)
    ensures Filter(keep, a + [x] + b) == Filter(keep, a) + Filter(keep, b)
  {
    FilterAppend(keep, a + [x], b);
    FilterAppend(keep, a, [x]);
    FilterNone(keep, [x]);
  }

  lemma FilterKept<T>(keep: T -> bool, xs: seq<T>)
    ensures Filter(keep, Filter(keep, xs)) == Filter(keep, xs)
  {
    forall x | x in Filter(keep, xs) ensures keep(x) { FilterIs(keep, xs, x); }
    FilterAll(keep, Filter(keep, xs));
  }

  /** What is kept does not change. */
  lemma ReplacedRest<T>(keep: T -> bool, ls: seq<T>, f: nat, line: T)
    requires FirstBad(keep, ls) == Some(f) && f < |ls| && !keep(line)
    ensures Filter(keep, Replaced(keep, ls, f, line)) == Filter(keep, ls)
  {
    FirstBadIs(keep, ls);
    OneDropped(keep, ls[..f], line, Filter(keep, ls[f + 1..]));
    FilterKept(keep, ls[f + 1..]);
    Around(ls, f);
    OneDropped(keep, ls[..f], ls[f], ls[f + 1..]);
  }

  /** The new element is the only one that is not kept. */
  lemma ReplacedOnlyOne<T>(keep: T -> bool, ls: seq<T>, f: nat, line: T, i: nat)
    requires FirstBad(keep, ls) == Some(f) && f < |ls| && i < |Replaced(keep, ls, f, line)| && i != f
    ensures keep(Replaced(keep, ls, f, line)[i])
  {
    FirstBadIs(keep, ls);
    var kept := Filter(keep, ls[f + 1..]);
    if i < f {
      assert Replaced(keep, ls, f, line)[i] == ls[i];
    } else {
      assert Replaced(keep, ls, f, line)[i] == kept[i - f - 1];
      FilterIs(keep, ls[f + 1..], kept[i - f - 1]);
    }
  }

  lemma OnlyBad<T>(keep: T -> bool, ls: seq<T>, f: nat)
    requires f < |ls| && !keep(ls[f]) && forall i | 0 <= i < |ls| :: i != f ==> keep(ls[i])
    ensures FirstBad(keep, ls) == Some(f) && Replaced(keep, ls, f, ls[f]) == ls
  {
    FirstBadIs(keep, ls);
    var tail := ls[f + 1..];
    forall x | x in tail ensures keep(x) {
      var i :| 0 <= i < |tail| && tail[i] == x;
      assert x == ls[f + 1 + i];
    }
    FilterAll(keep, tail);
    Around(ls, f);
  }

  lemma AppendedRest<T>(keep: T -> bool, ls: seq<T>, line: T)
    requires (forall x | x in ls :: keep(x)) && !keep(line)
    ensures Filter(keep, ls + [line]) == ls
    ensures forall i | 0 <= i < |ls + [line]| :: i != |ls| ==> keep((ls + [line])[i])
  {
    FilterAll(keep, ls);
    FilterAppend(keep, ls, [line]);
    FilterNone(keep, [line]);
  }

  // ------------------------------------------------------------------ reading

  /** What `read` finds in each element, in order. */
  function Pick<T, V>(read: T -> Option<V>, ls: seq<T>): seq<V> {
    if ls == [] then []
    else
      var last := read(ls[|ls| - 1]);
      Pick(read, ls[..|ls| - 1]) + (if last.Some? then [last.value] else [])
  }

  lemma {:induction false} PickAppend<T, V>(read: T -> Option<V>, a: seq<T>, b: seq<T>)
    ensures Pick(read, a + b) == Pick(read, a) + Pick(read, b)
  {
    if b == [] {
      assert a + b == a;
    } else {
      var n := |b| - 1;
      PickAppend(read, a, b[..n]);
      assert (a + b)[..|a + b| - 1] == a + b[..n];
    }
  }

  lemma PickOne<T, V>(read: T -> Option<V>, x: T)
    ensures Pick(read, [x]) == if read(x).Some? then [read(x).value] else []
  {
    assert [x][..0] == [];
  }

  lemma {:induction false} PickNone<T, V>(read: T -> Option<V>, ls: seq<T>)
    requires forall i | 0 <= i < |ls| :: read(ls[i]).None?
    ensures Pick(read, ls) == []
  {
    if ls != [] { PickNone(read, ls[..|ls| - 1]); }
  }

  lemma {:induction false} PickFilter<T, V>(read: T -> Option<V>, keep: T -> bool, ls: seq<T>)
    requires forall i | 0 <= i < |ls| :: !keep(ls[i]) ==> read(ls[i]).None?
    ensures Pick(read, Filter(keep, ls)) == Pick(read, ls)
  {
    if ls != [] {
      var n := |ls| - 1;
      PickFilter(read, keep, ls[..n]);
      PickOne(read, ls[n]);
      if keep(ls[n]) {
        PickAppend(read, Filter(keep, ls[..n]), [ls[n]]);
      } else {
        assert Filter(keep, ls) == Filter(keep, ls[..n]);
      }
    }
  }

  lemma {:induction false} PickKept<T, V>(read: T -> Option<V>, keep: T -> bool, ls: seq<T>)
    requires forall i | 0 <= i < |ls| :: keep(ls[i]) ==> read(ls[i]).None?
    ensures Pick(read, Filter(keep, ls)) == []
  {
    if ls != [] {
      var n := |ls| - 1;
      PickKept(read, keep, ls[..n]);
      if keep(ls[n]) {
        PickAppend(read, Filter(keep, ls[..n]), [ls[n]]);
        PickOne(read, ls[n]);
      } else {
        assert Filter(keep, ls) == Filter(keep, ls[..n]);
      }
    }
  }

  lemma ReplacedPick<T, V>(read: T -> Option<V>, keep: T -> bool, ls: seq<T>, f: nat, line: T)
    requires f < |ls|
    ensures Pick(read, Replaced(keep, ls, f, line)) ==
            Pick(read, ls[..f]) + Pick(read, [line]) + Pick(read, Filter(keep, ls[f + 1..]))
  {
    PickAppend(read, ls[..f] + [line], Filter(keep, ls[f + 1..]));
    PickAppend(read, ls[..f], [line]);
  }

  /** What the replaced element says is said once. */
  lemma ReplacedPickOwn<T, V>(read: T -> Option<V>, keep: T -> bool, ls: seq<T>, f: nat, line: T, v: V)
    requires FirstBad(keep, ls) == Some(f) && f < |ls| && read(line) == Some(v)
    requires forall i | 0 <= i < |ls| :: keep(ls[i]) ==> read(ls[i]).None?
    ensures Pick(read, Replaced(keep, ls, f, line)) == [v]
  {
    FirstBadIs(keep, ls);
    var head, tail := ls[..f], ls[f + 1..];
    ReplacedPick(read, keep, ls, f, line);
    PickOne(read, line);
    forall i | 0 <= i < |head| ensures read(head[i]).None? { assert head[i] == ls[i]; }
    PickNone(read, head);
    forall i | 0 <= i < |tail| && keep(tail[i]) ensures read(tail[i]).None? { assert tail[i] == ls[f + 1 + i]; }
    PickKept(read, keep, tail);
  }

  /** What is said elsewhere stays. */
  lemma ReplacedPickOther<T, V>(read: T -> Option<V>, keep: T -> bool, ls: seq<T>, f: nat, line: T)
    requires FirstBad(keep, ls) == Some(f) && f < |ls| && read(line).None?
    requires forall i | 0 <= i < |ls| :: !keep(ls[i]) ==> read(ls[i]).None?
    ensures Pick(read, Replaced(keep, ls, f, line)) == Pick(read, ls)
  {
    FirstBadIs(keep, ls);
    var tail := ls[f + 1..];
    ReplacedPick(read, keep, ls, f, line);
    PickOne(read, line);
    forall i | 0 <= i < |tail| && !keep(tail[i]) ensures read(tail[i]).None? { assert tail[i] == ls[f + 1 + i]; }
    PickFilter(read, keep, tail);
    Around(ls, f);
    PickAppend(read, ls[..f] + [ls[f]], tail);
    PickAppend(read, ls[..f], [ls[f]]);
    PickOne(read, ls[f]);
  }

  // ------------------------------------------------------------------ all but the last are closed

  predicate Ended<T>(ok: T -> bool, closed: T -> bool, ls: seq<T>) {
    && (forall i | 0 <= i < |ls| :: ok(ls[i]))
    && (forall i | 0 <= i < |ls| - 1 :: closed(ls[i]))
  }

  lemma EndedParts<T>(ok: T -> bool, closed: T -> bool, a: seq<T>, x: T, b: seq<T>)
    requires (forall i | 0 <= i < |a| :: ok(a[i]) && closed(a[i]))
    requires ok(x) && Ended(ok, closed, b) && (b != [] ==> closed(x))
    ensures Ended(ok, closed, a + [x] + b)
  {
    var ls := a + [x] + b;
    forall i | 0 <= i < |ls| ensures ok(ls[i]) && (i < |ls| - 1 ==> closed(ls[i])) {
      if i < |a| { assert ls[i] == a[i]; } else if i > |a| { assert ls[i] == b[i - |a| - 1]; }
    }
  }

  lemma EndedFilter<T>(ok: T -> bool, closed: T -> bool, keep: T -> bool, ls: seq<T>)
    requires Ended(ok, closed, ls)
    ensures Ended(ok, closed, Filter(keep, ls))
  {
    if ls != [] {
      var n := |ls| - 1;
      var kept := Filter(keep, ls[..n]);
      forall i | 0 <= i < |kept| ensures ok(kept[i]) && closed(kept[i]) {
        FilterIs(keep, ls[..n], kept[i]);
        var j :| 0 <= j < n && ls[..n][j] == kept[i];
        assert ok(ls[j]) && closed(ls[j]);
      }
      EndedParts(ok, closed, kept, ls[n], []);
      assert kept + [ls[n]] + [] == kept + [ls[n]];
    }
  }

  lemma ReplacedEnded<T>(ok: T -> bool, closed: T -> bool, keep: T -> bool, ls: seq<T>, f: nat, line: T)
    requires Ended(ok, closed, ls) && f < |ls| && ok(line) && closed(line) == closed(ls[f])
    ensures Ended(ok, closed, Replaced(keep, ls, f, line))
  {
    var tail := ls[f + 1..];
    forall i | 0 <= i < |tail| ensures ok(tail[i]) && (i < |tail| - 1 ==> closed(tail[i])) {
      assert tail[i] == ls[f + 1 + i];
    }
    EndedFilter(ok, closed, keep, tail);
    if tail == [] { assert Filter(keep, tail) == []; }
    EndedParts(ok, closed, ls[..f], line, Filter(keep, tail));
  }

  /** The last element is closed if it is not. */
  function CloseLast<T>(closed: T -> bool, close: T -> T, ls: seq<T>): seq<T> {
    if ls != [] && !closed(ls[|ls| - 1]) then ls[..|ls| - 1] + [close(ls[|ls| - 1])] else ls
  }

  lemma AppendedEnded<T>(ok: T -> bool, closed: T -> bool, close: T -> T, ls: seq<T>, line: T)
    requires Ended(ok, closed, ls) && ok(line)
    requires ls != [] && !closed(ls[|ls| - 1]) ==> ok(close(ls[|ls| - 1])) && closed(close(ls[|ls| - 1]))
    ensures Ended(ok, closed, CloseLast(closed, close, ls) + [line])
  {
    var all := CloseLast(closed, close, ls);
    forall i | 0 <= i < |all| ensures ok(all[i]) && closed(all[i]) {
      if i < |ls| - 1 { assert all[i] == ls[i]; }
    }
    EndedParts(ok, closed, all, line, []);
    assert all + [line] + [] == all + [line];
  }

  lemma CloseLastPick<T, V>(read: T -> Option<V>, closed: T -> bool, close: T -> T, ls: seq<T>)
    requires ls != [] && !closed(ls[|ls| - 1]) ==> read(close(ls[|ls| - 1])) == read(ls[|ls| - 1])
    ensures Pick(read, CloseLast(closed, close, ls)) == Pick(read, ls)
  {
    if ls != [] && !closed(ls[|ls| - 1]) {
      var n := |ls| - 1;
      assert CloseLast(closed, close, ls)[..n] == ls[..n];
    }
  }
}
