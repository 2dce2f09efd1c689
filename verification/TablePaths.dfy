/** Setting, deleting and moving what is at a dotted path (kaine/legacy_aliases.py, the `_path_` helpers). */
module TablePaths {
  import opened Wrappers
  import opened ConfigTree
  import opened AliasTable

  datatype PathAlias = PathAlias(was: Path, now: Path)

  /** `_path_set`: tables are created on the way down, replacing values that stand in the way. */
  function Set(t: Node, p: Path, v: Node): (r: Node)
    requires t.Table? && p != []
    ensures r.Table?
    decreases p
  {
    var k := p[0];
    if |p| == 1 then Table(t.entries[k := v])
    else
      var child := if k in t.entries && t.entries[k].Table? then t.entries[k] else EmptyTable;
      Table(t.entries[k := Set(child, p[1..], v)])
  }

  /** `_path_delete_and_clean`: the tables that become empty on the way up go too. */
  function Remove(t: Node, p: Path): (r: Node)
    ensures t.Table? ==> r.Table?
    decreases p
  {
    if p == [] || !Exists(t, p) then t
    else if |p| == 1 then Table(t.entries - {p[0]})
    else
      var child := Remove(t.entries[p[0]], p[1..]);
      if child == EmptyTable then Table(t.entries - {p[0]}) else Table(t.entries[p[0] := child])
  }

  function Move(t: Node, e: PathAlias): Node
    requires t.Table? && e.now != [] && Exists(t, e.was)
  { Remove(Set(t, e.now, At(t, e.was).value), e.was) }

  // ------------------------------------------------------------------ what they do to values

  lemma {:induction false} LeafBelow(t: Node, p: Path, q: Path)
    requires Exists(t, p)
    ensures Leaf(t, p + q) == Leaf(At(t, p).value, q)
    decreases p
  {
    if p == [] {
      assert p + q == q;
    } else {
      assert (p + q)[1..] == p[1..] + q;
      LeafBelow(t.entries[p[0]], p[1..], q);
    }
  }

  /** What exists has tables all the way down to it. */
  lemma {:induction false} PrefixIsTable(t: Node, p: Path, q: Path)
    requires Exists(t, p) && q <= p
    ensures Exists(t, q) && (|q| < |p| ==> At(t, q).value.Table?)
    decreases p
  {
    if q == [] {
    } else {
      assert q[1..] <= p[1..];
      PrefixIsTable(t.entries[p[0]], p[1..], q[1..]);
    }
  }

  /** A path that leaves the way to `p` at once. */
  lemma SetAside(t: Node, p: Path, v: Node, q: Path)
    requires t.Table? && p != [] && (q == [] || q[0] != p[0] || |p| == 1)
    ensures Leaf(Set(t, p, v), q) ==
            if p <= q then Leaf(v, q[|p|..]) else if q < p then None else Leaf(t, q)
    ensures Exists(Set(t, p, v), q) ==> p <= q || q < p || Exists(t, q)
  {}

  lemma {:induction false} SetLeaf(t: Node, p: Path, v: Node, q: Path)
    requires t.Table? && p != []
    ensures Leaf(Set(t, p, v), q) ==
            if p <= q then Leaf(v, q[|p|..]) else if q < p then None else Leaf(t, q)
    ensures Exists(Set(t, p, v), q) ==> p <= q || q < p || Exists(t, q)
    decreases p
  {
    if q == [] || q[0] != p[0] || |p| == 1 {
      SetAside(t, p, v, q);
    } else {
      var k := p[0];
      var child := if k in t.entries && t.entries[k].Table? then t.entries[k] else EmptyTable;
      SetLeaf(child, p[1..], v, q[1..]);
      assert p <= q <==> p[1..] <= q[1..];
      assert q < p <==> q[1..] < p[1..];
      if p <= q {
        assert q[1..][|p[1..]|..] == q[|p|..];
      } else if q[1..] != [] && child == EmptyTable {
        assert At(child, q[1..]) == None;
        assert At(t, q) == None || t.entries[k] == EmptyTable;
      }
    }
  }

  lemma {:induction false} RemoveLeaf(t: Node, p: Path, q: Path)
    requires p != []
    ensures Leaf(Remove(t, p), q) == if p <= q then None else Leaf(t, q)
    ensures Exists(Remove(t, p), q) ==> Exists(t, q) && !(p <= q)
    decreases p
  {
    if !Exists(t, p) {
      if p <= q && Exists(t, q) { PrefixIsTable(t, q, p); }
    } else if q != [] && q[0] == p[0] && |p| > 1 {
      assert p <= q <==> p[1..] <= q[1..];
      RemoveLeaf(t.entries[p[0]], p[1..], q[1..]);
    }
  }

  /** What stands at each path after a move. */
  lemma MoveLeaf(t: Node, e: PathAlias, q: Path)
    requires t.Table? && e.was != [] && e.now != [] && Exists(t, e.was)
    ensures Leaf(Move(t, e), q) ==
            if e.was <= q then None
            else if e.now <= q then Leaf(t, e.was + q[|e.now|..])
            else if q < e.now then None
            else Leaf(t, q)
    ensures Exists(Move(t, e), q) ==> !(e.was <= q) && (e.now <= q || q < e.now || Exists(t, q))
  {
    var v := At(t, e.was).value;
    RemoveLeaf(Set(t, e.now, v), e.was, q);
    SetLeaf(t, e.now, v, q);
    if e.now <= q { LeafBelow(t, e.was, q[|e.now|..]); }
  }

  // ------------------------------------------------------------------ renaming of paths

  /** `n` holds the values of `t`, each once, under the paths `rho` gives them, and no others. */
  ghost predicate Renames(t: Node, n: Node, rho: Path -> Path) {
    && (forall p | Leaf(t, p).Some? :: Leaf(n, rho(p)) == Leaf(t, p))
    && (forall p, q | Leaf(t, p).Some? && Leaf(t, q).Some? && rho(p) == rho(q) :: p == q)
    && (forall q | Leaf(n, q).Some? :: exists p :: Leaf(t, p).Some? && rho(p) == q)
  }

  lemma ComposedForward(a: Node, b: Node, c: Node, rho: Path -> Path, sigma: Path -> Path, p: Path)
    requires Renames(a, b, rho) && Renames(b, c, sigma) && Leaf(a, p).Some?
    ensures Leaf(c, sigma(rho(p))) == Leaf(a, p)
  {
    assert Leaf(b, rho(p)) == Leaf(a, p);
  }

  lemma ComposedInjective(a: Node, b: Node, c: Node, rho: Path -> Path, sigma: Path -> Path, p: Path, q: Path)
    requires Renames(a, b, rho) && Renames(b, c, sigma) && Leaf(a, p).Some? && Leaf(a, q).Some?
    requires sigma(rho(p)) == sigma(rho(q))
    ensures p == q
  {
    assert Leaf(b, rho(p)) == Leaf(a, p) && Leaf(b, rho(q)) == Leaf(a, q);
    assert rho(p) == rho(q);
  }

  lemma ComposedOnto(a: Node, b: Node, c: Node, rho: Path -> Path, sigma: Path -> Path, q: Path) returns (p: Path)
    requires Renames(a, b, rho) && Renames(b, c, sigma) && Leaf(c, q).Some?
    ensures Leaf(a, p).Some? && sigma(rho(p)) == q
  {
    var m :| Leaf(b, m).Some? && sigma(m) == q;
    p :| Leaf(a, p).Some? && rho(p) == m;
  }

  lemma RenamesCompose(a: Node, b: Node, c: Node, rho: Path -> Path, sigma: Path -> Path, tau: Path -> Path)
    requires Renames(a, b, rho) && Renames(b, c, sigma)
    requires forall p | Leaf(a, p).Some? :: tau(p) == sigma(rho(p))
    ensures Renames(a, c, tau)
  {
    forall p | Leaf(a, p).Some? ensures Leaf(c, tau(p)) == Leaf(a, p) { ComposedForward(a, b, c, rho, sigma, p); }
    forall p, q | Leaf(a, p).Some? && Leaf(a, q).Some? && tau(p) == tau(q) ensures p == q {
      ComposedInjective(a, b, c, rho, sigma, p, q);
    }
    forall q | Leaf(c, q).Some? ensures exists p :: Leaf(a, p).Some? && tau(p) == q {
      var p := ComposedOnto(a, b, c, rho, sigma, q);
      assert tau(p) == q;
    }
  }

  lemma RenamesAgree(t: Node, n: Node, rho: Path -> Path, sigma: Path -> Path)
    requires Renames(t, n, rho) && forall p | Leaf(t, p).Some? :: rho(p) == sigma(p)
    ensures Renames(t, n, sigma)
  {
    forall q | Leaf(n, q).Some? ensures exists p :: Leaf(t, p).Some? && sigma(p) == q {
      var p :| Leaf(t, p).Some? && rho(p) == q;
      assert sigma(p) == q;
    }
  }

  function MovedPath(e: PathAlias, p: Path): Path {
    if e.was <= p then e.now + p[|e.was|..] else p
  }

  /** No value stands above the new path. */
  ghost predicate Unobstructed(t: Node, p: Path) { forall q | q < p :: Leaf(t, q) == None }

  /** No value stands above the new path, and none goes when the old path, above the new one, is deleted. */
  ghost predicate Lossless(t: Node, e: PathAlias) {
    Unobstructed(t, e.now) && (e.was <= e.now ==> forall p | e.was <= p :: Leaf(t, p) == None)
  }

  lemma MovedLeaf(t: Node, e: PathAlias, p: Path)
    requires t.Table? && e.was != [] && e.now != [] && Exists(t, e.was) && !Exists(t, e.now)
    requires Lossless(t, e) && Leaf(t, p).Some?
    ensures Leaf(Move(t, e), MovedPath(e, p)) == Leaf(t, p)
    ensures e.was <= p || !(e.now <= p)
  {
    MoveLeaf(t, e, MovedPath(e, p));
    if e.now < e.was { PrefixIsTable(t, e.was, e.now); }
    if e.was <= p {
      var q := e.now + p[|e.was|..];
      assert q[|e.now|..] == p[|e.was|..] && e.was + p[|e.was|..] == p;
      assert !(e.was <= q);
    } else if e.now <= p {
      PrefixIsTable(t, p, e.now);
    }
  }

  /** A move makes no value: each comes from the path that moved to its place. */
  lemma MovedFrom(t: Node, e: PathAlias, q: Path) returns (p: Path)
    requires t.Table? && e.was != [] && e.now != [] && Exists(t, e.was) && Leaf(Move(t, e), q).Some?
    ensures Leaf(t, p) == Leaf(Move(t, e), q) && MovedPath(e, p) == q
    ensures p == if e.now <= q then e.was + q[|e.now|..] else q
    ensures e.now <= q ==> !(e.was <= e.now)
    ensures !(e.was <= q) && !(q < e.now)
  {
    MoveLeaf(t, e, q);
    p := if e.now <= q then e.was + q[|e.now|..] else q;
    if e.now <= q { assert p[|e.was|..] == q[|e.now|..]; }
  }

  /** A move into a free place keeps every value, under its new path, exactly when no value stands
      above that place (`_path_set` overwrites it) or under an old path that is above the new one. */
  lemma MoveKeepsValuesExactly(t: Node, e: PathAlias)
    requires t.Table? && e.was != [] && e.now != [] && Exists(t, e.was) && !Exists(t, e.now)
    ensures Renames(t, Move(t, e), p => MovedPath(e, p)) <==> Lossless(t, e)
  {
    var rho := p => MovedPath(e, p);
    if Lossless(t, e) {
      forall p | Leaf(t, p).Some? ensures Leaf(Move(t, e), rho(p)) == Leaf(t, p) && (e.was <= p || !(e.now <= p)) {
        MovedLeaf(t, e, p);
      }
      forall p, q | Leaf(t, p).Some? && Leaf(t, q).Some? && rho(p) == rho(q) ensures p == q {
        if e.was <= p { assert p == e.was + p[|e.was|..] && rho(p)[|e.now|..] == p[|e.was|..]; }
        if e.was <= q { assert q == e.was + q[|e.was|..] && rho(q)[|e.now|..] == q[|e.was|..]; }
      }
      forall q | Leaf(Move(t, e), q).Some? ensures exists p :: Leaf(t, p).Some? && rho(p) == q {
        var p := MovedFrom(t, e, q);
        assert Leaf(t, p).Some? && rho(p) == q;
      }
    } else {
      var q := LostPath(t, e);
      MoveLeaf(t, e, rho(q));
    }
  }

  /** A value the move loses. */
  lemma LostPath(t: Node, e: PathAlias) returns (p: Path)
    requires !Lossless(t, e)
    ensures Leaf(t, p).Some? && (p < e.now || (e.was <= e.now && e.was <= p))
  {
    if !Unobstructed(t, e.now) {
      p :| p < e.now && Leaf(t, p) != None;
    } else {
      p :| e.was <= p && Leaf(t, p) != None;
    }
  }

  lemma SameLeavesRename(t: Node, rho: Path -> Path)
    requires forall p | Leaf(t, p).Some? :: rho(p) == p
    ensures Renames(t, t, rho)
  {
    forall q | Leaf(t, q).Some? ensures exists p :: Leaf(t, p).Some? && rho(p) == q { assert rho(q) == q; }
  }

  // ------------------------------------------------------------------ counting values

  /** The paths at which `t` has a value. */
  ghost function LeafPaths(t: Node): set<Path> {
    if !t.Table? then {[]} else set k, p | k in t.entries && p in LeafPaths(t.entries[k]) :: [k] + p
  }

  lemma {:induction false} LeafPathsAre(t: Node, p: Path)
    ensures p in LeafPaths(t) <==> Leaf(t, p).Some?
    decreases t
  {
    if t.Table? {
      if p != [] && p[0] in t.entries {
        LeafPathsAre(t.entries[p[0]], p[1..]);
        if p[1..] in LeafPaths(t.entries[p[0]]) { assert p == [p[0]] + p[1..]; }
      }
      if p in LeafPaths(t) {
        var k, q :| k in t.entries && q in LeafPaths(t.entries[k]) && p == [k] + q;
        assert p[1..] == q;
      }
    }
  }

  lemma {:induction false} SubsetCount<A>(a: set<A>, b: set<A>)
    requires a <= b
    ensures |a| <= |b|
    decreases a
  {
    if a != {} {
      var x :| x in a;
      SubsetCount(a - {x}, b - {x});
    }
  }

  lemma {:induction false} ImageCount<A, B>(a: set<A>, f: A -> B)
    ensures |set x | x in a :: f(x)| <= |a|
    ensures (forall x, y | x in a && y in a && f(x) == f(y) :: x == y) ==> |set x | x in a :: f(x)| == |a|
    decreases a
  {
    if a != {} {
      var x :| x in a;
      ImageCount(a - {x}, f);
      var rest, all := set y | y in a - {x} :: f(y), set y | y in a :: f(y);
      assert all == rest + {f(x)};
    }
  }

  lemma InjectionCount<A, B>(a: set<A>, b: set<B>, f: A -> B)
    requires forall x | x in a :: f(x) in b
    requires forall x, y | x in a && y in a && f(x) == f(y) :: x == y
    ensures |a| <= |b|
  {
    ImageCount(a, f);
    SubsetCount(set x | x in a :: f(x), b);
  }

  lemma BijectionCount<A, B>(a: set<A>, b: set<B>, f: A -> B)
    requires forall x | x in a :: f(x) in b
    requires forall x, y | x in a && y in a && f(x) == f(y) :: x == y
    requires forall y | y in b :: exists x :: x in a && f(x) == y
    ensures |a| == |b|
  {
    ImageCount(a, f);
    assert b == set x | x in a :: f(x);
  }

  ghost predicate LeavesOf(t: Node, ps: set<Path>) { forall p :: p in ps <==> Leaf(t, p).Some? }

  lemma LeafPathsAll(t: Node)
    ensures LeavesOf(t, LeafPaths(t))
  {
    forall p ensures p in LeafPaths(t) <==> Leaf(t, p).Some? { LeafPathsAre(t, p); }
  }

  /** How many values `t` has. */
  ghost function Count(t: Node): nat { |LeafPaths(t)| }

  /** A renaming of the values keeps their number. */
  lemma RenamedCount(t: Node, n: Node, rho: Path -> Path)
    requires forall p | Leaf(t, p).Some? :: Leaf(n, rho(p)).Some?
    requires forall p, q | Leaf(t, p).Some? && Leaf(t, q).Some? && rho(p) == rho(q) :: p == q
    requires forall q | Leaf(n, q).Some? :: exists p :: Leaf(t, p).Some? && rho(p) == q
    ensures Count(n) == Count(t)
  {
    LeafPathsAll(t);
    LeafPathsAll(n);
    RenamedPathsCount(t, n, rho, LeafPaths(t), LeafPaths(n));
  }

  lemma RenamedPathsCount(t: Node, n: Node, rho: Path -> Path, a: set<Path>, b: set<Path>)
    requires LeavesOf(t, a) && LeavesOf(n, b)
    requires forall p | Leaf(t, p).Some? :: Leaf(n, rho(p)).Some?
    requires forall p, q | Leaf(t, p).Some? && Leaf(t, q).Some? && rho(p) == rho(q) :: p == q
    requires forall q | Leaf(n, q).Some? :: exists p :: Leaf(t, p).Some? && rho(p) == q
    ensures |a| == |b|
  {
    forall q | q in b ensures exists p :: p in a && rho(p) == q {
      var p :| Leaf(t, p).Some? && rho(p) == q;
    }
    BijectionCount(a, b, rho);
  }

  /** The path a value came from. */
  function SourcePath(e: PathAlias, q: Path): Path {
    if e.now <= q then e.was + q[|e.now|..] else q
  }

  lemma SourceIsOne(e: PathAlias, p: Path, q: Path)
    requires !(e.was <= p) && !(e.was <= q) && SourcePath(e, p) == SourcePath(e, q)
    ensures p == q
  {
    if e.now <= p { assert SourcePath(e, p)[|e.was|..] == p[|e.now|..] && p == e.now + p[|e.now|..]; }
    if e.now <= q { assert SourcePath(e, q)[|e.was|..] == q[|e.now|..] && q == e.now + q[|e.now|..]; }
  }

  lemma MovedPathsCount(t: Node, e: PathAlias, a: set<Path>, b: set<Path>)
    requires t.Table? && e.was != [] && e.now != [] && Exists(t, e.was)
    requires LeavesOf(Move(t, e), a) && LeavesOf(t, b)
    ensures |a| <= |b| && (|a| == |b| ==> Lossless(t, e))
  {
    var back := q => SourcePath(e, q);
    forall q | q in a
      ensures back(q) in b && !(e.was <= q) && !(q < e.now) && (e.now <= q ==> !(e.was <= e.now))
    {
      var p := MovedFrom(t, e, q);
    }
    forall p, q | p in a && q in a && back(p) == back(q) ensures p == q { SourceIsOne(e, p, q); }
    if Lossless(t, e) {
      InjectionCount(a, b, back);
    } else {
      var p := LostPath(t, e);
      assert forall q | q in a :: back(q) != p;
      InjectionCount(a, b - {p}, back);
    }
  }

  /** A move makes no value, and loses one when it is not lossless. */
  lemma MovedCount(t: Node, e: PathAlias)
    requires t.Table? && e.was != [] && e.now != [] && Exists(t, e.was)
    ensures Count(Move(t, e)) <= Count(t) && (Count(Move(t, e)) == Count(t) ==> Lossless(t, e))
  {
    LeafPathsAll(t);
    LeafPathsAll(Move(t, e));
    MovedPathsCount(t, e, LeafPaths(Move(t, e)), LeafPaths(t));
  }

  // ------------------------------------------------------------------ all the dotted aliases

  predicate PathsOk(es: seq<PathAlias>) { forall e | e in es :: e.was != [] && e.now != [] }

  /** The moves in the order of the table, each refused when its target exists. */
  function MoveAll(t: Node, es: seq<PathAlias>): (r: Result<Node, NormalizeError>)
    requires t.Table? && PathsOk(es)
    ensures r.Ok? ==> r.value.Table?
    decreases es
  {
    if es == [] then Ok(t)
    else if !Exists(t, es[0].was) then MoveAll(t, es[1..])
    else if Exists(t, es[0].now) then Err(Conflict)
    else MoveAll(Move(t, es[0]), es[1..])
  }

  function MovedAllPath(es: seq<PathAlias>, p: Path): Path {
    if es == [] then p else MovedAllPath(es[1..], MovedPath(es[0], p))
  }

  /** Every move that is made is lossless. */
  ghost predicate AllLossless(t: Node, es: seq<PathAlias>)
    requires t.Table? && PathsOk(es)
    decreases es
  {
    if es == [] then true
    else if !Exists(t, es[0].was) then AllLossless(t, es[1..])
    else Lossless(t, es[0]) && AllLossless(Move(t, es[0]), es[1..])
  }

  /** An alias of something absent leaves every path that carries a value. */
  lemma AbsentStep(t: Node, e: PathAlias)
    requires !Exists(t, e.was)
    ensures Renames(t, t, p => MovedPath(e, p))
  {
    forall p | Leaf(t, p).Some? ensures MovedPath(e, p) == p {
      if e.was <= p { PrefixIsTable(t, p, e.was); }
    }
    SameLeavesRename(t, p => MovedPath(e, p));
  }

  lemma {:induction false} LosslessMovesRename(t: Node, es: seq<PathAlias>)
    requires t.Table? && PathsOk(es) && MoveAll(t, es).Ok? && AllLossless(t, es)
    ensures Renames(t, MoveAll(t, es).value, p => MovedAllPath(es, p))
    decreases es
  {
    if es == [] {
      SameLeavesRename(t, p => MovedAllPath(es, p));
    } else {
      assert es[0] in es;
      var u := if Exists(t, es[0].was) then Move(t, es[0]) else t;
      if Exists(t, es[0].was) { MoveKeepsValuesExactly(t, es[0]); } else { AbsentStep(t, es[0]); }
      LosslessMovesRename(u, es[1..]);
      RenamesCompose(t, u, MoveAll(t, es).value, p => MovedPath(es[0], p), p => MovedAllPath(es[1..], p),
                     p => MovedAllPath(es, p));
    }
  }

  lemma {:induction false} MovesCount(t: Node, es: seq<PathAlias>)
    requires t.Table? && PathsOk(es) && MoveAll(t, es).Ok?
    ensures Count(MoveAll(t, es).value) <= Count(t)
    ensures Count(MoveAll(t, es).value) == Count(t) ==> AllLossless(t, es)
    decreases es
  {
    if es != [] {
      assert es[0] in es;
      if Exists(t, es[0].was) {
        MovedCount(t, es[0]);
        MovesCount(Move(t, es[0]), es[1..]);
      } else {
        MovesCount(t, es[1..]);
      }
    }
  }

  /** The moves carry every value once to its moved path exactly when each of them is lossless. */
  lemma MoveAllRenamesExactly(t: Node, es: seq<PathAlias>)
    requires t.Table? && PathsOk(es) && MoveAll(t, es).Ok?
    ensures Renames(t, MoveAll(t, es).value, p => MovedAllPath(es, p)) <==> AllLossless(t, es)
  {
    if AllLossless(t, es) {
      LosslessMovesRename(t, es);
    } else if Renames(t, MoveAll(t, es).value, p => MovedAllPath(es, p)) {
      RenamedCount(t, MoveAll(t, es).value, p => MovedAllPath(es, p));
      MovesCount(t, es);
    }
  }

  /** Whether or not they lose any, the moves make no value. */
  lemma {:induction false} MovedAllFrom(t: Node, es: seq<PathAlias>, q: Path) returns (p: Path)
    requires t.Table? && PathsOk(es) && MoveAll(t, es).Ok? && Leaf(MoveAll(t, es).value, q).Some?
    ensures Leaf(t, p) == Leaf(MoveAll(t, es).value, q) && MovedAllPath(es, p) == q
    decreases es
  {
    if es == [] {
      p := q;
    } else {
      assert es[0] in es;
      if Exists(t, es[0].was) {
        var m := MovedAllFrom(Move(t, es[0]), es[1..], q);
        p := MovedFrom(t, es[0], m);
      } else {
        p := MovedAllFrom(t, es[1..], q);
        if es[0].was <= p { PrefixIsTable(t, p, es[0].was); }
      }
    }
  }

  /** Both paths name an item of the same table, as in every shipped dotted alias. */
  ghost predicate Siblings(e: PathAlias) {
    |e.was| == |e.now| >= 1 && e.was[..|e.was| - 1] == e.now[..|e.now| - 1] && e.was != e.now
  }

  lemma SiblingsLossless(t: Node, e: PathAlias)
    requires Siblings(e) && Exists(t, e.was)
    ensures Lossless(t, e)
  {
    forall q | q < e.now ensures Leaf(t, q) == None {
      assert e.now[..|q|] == e.now[..|e.now| - 1][..|q|] == e.was[..|q|];
      PrefixIsTable(t, e.was, q);
    }
  }

  /** Aliases that rename an item inside its table lose nothing in any layer. */
  lemma {:induction false} SiblingMovesLossless(t: Node, es: seq<PathAlias>)
    requires t.Table? && PathsOk(es) && forall e | e in es :: Siblings(e)
    ensures AllLossless(t, es)
    decreases es
  {
    if es != [] {
      assert es[0] in es;
      if Exists(t, es[0].was) {
        SiblingsLossless(t, es[0]);
        SiblingMovesLossless(Move(t, es[0]), es[1..]);
      } else {
        SiblingMovesLossless(t, es[1..]);
      }
    }
  }

  /** Moving a.b to c.d over a value at c loses that value. */
  lemma MoveOverwritesValue()
    ensures var t, e := Table(map["a" := Table(map["b" := Num(1)]), "c" := Num(5)]), PathAlias(["a", "b"], ["c", "d"]);
            && MoveAll(t, [e]) == Ok(Table(map["c" := Table(map["d" := Num(1)])]))
            && Leaf(t, ["c"]) == Some(Num(5)) && !AllLossless(t, [e])
  {
    var t, e := Table(map["a" := Table(map["b" := Num(1)]), "c" := Num(5)]), PathAlias(["a", "b"], ["c", "d"]);
    assert ["a", "b"][1..] == ["b"] && ["c", "d"][1..] == ["d"];
    assert At(t, ["c"]) == Some(Num(5)) && At(t, ["a", "b"]) == Some(Num(1)) && !Exists(t, ["c", "d"]);
    var u := Set(t, e.now, Num(1));
    assert u.entries["c"] == Table(map["d" := Num(1)]) && u.entries["a"] == t.entries["a"];
    assert Remove(u.entries["a"], ["b"]) == EmptyTable;
    assert Move(t, e) == Table(u.entries - {"a"});
    assert u.entries - {"a"} == map["c" := Table(map["d" := Num(1)])];
    assert [e][1..] == [];
    assert ["c"] < e.now;
  }

  /** The source's loop over the dotted aliases. */
  method MoveTables(t: Node, es: seq<PathAlias>) returns (r: Result<Node, NormalizeError>)
    requires t.Table? && PathsOk(es)
    ensures r == MoveAll(t, es)
  {
    var result := t;
    var i := 0;
    assert es[0..] == es;
    while i < |es|
      invariant 0 <= i <= |es| && result.Table?
      invariant MoveAll(t, es) == MoveAll(result, es[i..])
    {
      var e := es[i];
      assert es[i..][1..] == es[i + 1..];
      if Exists(result, e.was) {
        if Exists(result, e.now) {
          return Err(Conflict);
        }
        var value := At(result, e.was).value;
        result := Set(result, e.now, value);
        result := Remove(result, e.was);
      }
      i := i + 1;
    }
    r := Ok(result);
  }
}
