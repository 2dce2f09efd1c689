/** The recursive merge of configuration layers (kaine/config.py, deep_merge). */
module DeepMerge {
  import opened Wrappers
  import opened ConfigTree

  /** What `over` put over `base` means: tables merge key by key, everything else replaces. */
  function Merge(base: Node, over: Node): Node
    decreases over
  {
    if !over.Table? then over
    else
      var below := if base.Table? then base.entries else map[];
      Table(map k | k in below.Keys + over.entries.Keys ::
              if k !in over.entries then below[k]
              else Merge(if k in below then below[k] else EmptyTable, over.entries[k]))
  }

  /** The source's loop: a copy of `base`, then every item of `override` in some order. */
  method DeepMerge(base: map<string, Node>, override: map<string, Node>) returns (result: map<string, Node>)
    ensures Table(result) == Merge(Table(base), Table(override))
    decreases Table(override)
  {
    result := base;
    var todo := override.Keys;
    while todo != {}
      invariant todo <= override.Keys
      invariant result.Keys == base.Keys + (override.Keys - todo)
      invariant forall k | k in base && (k in todo || k !in override) :: result[k] == base[k]
      invariant forall k | k in override && k !in todo ::
                  result[k] == Merge(if k in base then base[k] else EmptyTable, override[k])
    {
      var key :| key in todo;
      var ov := override[key];
      if ov.Table? {
        var merged;
        if key in result && result[key].Table? {
          merged := DeepMerge(result[key].entries, ov.entries);
        } else {
          merged := DeepMerge(map[], ov.entries);
        }
        result := result[key := Table(merged)];
      } else {
        result := result[key := ov];
      }
      todo := todo - {key};
    }
    assert result == Merge(Table(base), Table(override)).entries;
  }

  // ------------------------------------------------------------------ the meaning of a merge

  /** Merging over an empty table or over a value copies. */
  lemma {:induction false} MergeOverNothing(base: Node, t: Node)
    requires base == EmptyTable || !base.Table?
    ensures Merge(base, t) == t
    decreases t
  {
    if t.Table? {
      forall k | k in t.entries ensures Merge(EmptyTable, t.entries[k]) == t.entries[k] {
        MergeOverNothing(EmptyTable, t.entries[k]);
      }
      assert Merge(base, t).entries == t.entries;
    }
  }

  /** A value of the merge is the upper layer's; else the lower layer's, unless the upper one
      put a table there or a value above it. */
  lemma {:induction false} MergeLeaf(base: Node, over: Node, p: Path)
    ensures Leaf(Merge(base, over), p) ==
            if Leaf(over, p).Some? then Leaf(over, p)
            else if Blocks(over, p) then None
            else Leaf(base, p)
    decreases p
  {
    if p != [] && over.Table? {
      var k := p[0];
      if k in over.entries {
        var b := if base.Table? && k in base.entries then base.entries[k] else EmptyTable;
        MergeLeaf(b, over.entries[k], p[1..]);
      }
    }
  }

  /** The layers of a stack merged one over another, the first lowest. */
  function Stack(layers: seq<Node>): Node {
    if layers == [] then EmptyTable
    else Merge(Stack(layers[..|layers| - 1]), layers[|layers| - 1])
  }

  predicate Sets(layers: seq<Node>, i: nat, p: Path)
    requires i < |layers|
  { Leaf(layers[i], p).Some? }

  /** The last layer that sets `p` is the one at `i`. */
  ghost predicate LastSetter(layers: seq<Node>, i: nat, p: Path) {
    i < |layers| && Sets(layers, i, p) && forall j | i < j < |layers| :: !Sets(layers, j, p)
  }

  /** No layer, no value. */
  lemma {:induction false} StackInventsNothing(layers: seq<Node>, p: Path)
    requires forall i | 0 <= i < |layers| :: !Sets(layers, i, p)
    ensures Leaf(Stack(layers), p) == None
  {
    if layers == [] {
    } else {
      var front := layers[..|layers| - 1];
      assert forall i | 0 <= i < |front| :: Sets(front, i, p) == Sets(layers, i, p);
      StackInventsNothing(front, p);
      assert !Sets(layers, |layers| - 1, p);
      MergeLeaf(Stack(front), layers[|layers| - 1], p);
    }
  }

  /** The last layer that sets `p` wins, exactly when no layer above it has a table at `p` or a
      value at a prefix of `p`. */
  lemma {:induction false} LastSetterWins(layers: seq<Node>, i: nat, p: Path)
    requires LastSetter(layers, i, p)
    ensures Leaf(Stack(layers), p) == Leaf(layers[i], p)
            <==> forall j | i < j < |layers| :: !Blocks(layers[j], p)
    ensures Leaf(Stack(layers), p) == Leaf(layers[i], p) || Leaf(Stack(layers), p) == None
  {
    var n := |layers| - 1;
    var front := layers[..n];
    MergeLeaf(Stack(front), layers[n], p);
    if i < n {
      assert forall j | 0 <= j < n :: Sets(front, j, p) == Sets(layers, j, p);
      assert LastSetter(front, i, p);
      LastSetterWins(front, i, p);
      assert !Sets(layers, n, p);
    }
  }

  // ------------------------------------------------------------------ associativity

  /** Merging `a` under `c` adds nothing to `c`. */
  predicate Covered(a: Node, c: Node) {
    a.Table? && c.Table? ==> forall k | k in a.entries :: k in c.entries && Covered(a.entries[k], c.entries[k])
  }

  lemma {:induction false} CoveredExactly(a: Node, c: Node)
    ensures Merge(a, c) == c <==> Covered(a, c)
    decreases c
  {
    if !c.Table? {
    } else if !a.Table? {
      MergeOverNothing(a, c);
    } else {
      forall k | k in a.entries && k in c.entries
        ensures Merge(a.entries[k], c.entries[k]) == c.entries[k] <==> Covered(a.entries[k], c.entries[k])
      {
        CoveredExactly(a.entries[k], c.entries[k]);
      }
      forall k | k in c.entries ensures Merge(EmptyTable, c.entries[k]) == c.entries[k] {
        MergeOverNothing(EmptyTable, c.entries[k]);
      }
      var m := Merge(a, c);
      if Covered(a, c) {
        assert m.entries == c.entries;
      } else {
        var k :| k in a.entries && !(k in c.entries && Covered(a.entries[k], c.entries[k]));
        assert k in m.entries;
        if k in c.entries { assert m.entries[k] != c.entries[k]; }
      }
    }
  }

  /** Nowhere does a value in `b` separate a table in `a` from one in `c` that lacks part of it. */
  predicate Compatible(a: Node, b: Node, c: Node) {
    if !c.Table? || !a.Table? then true
    else if !b.Table? then Covered(a, c)
    else forall k | k in a.entries && k in b.entries && k in c.entries ::
           Compatible(a.entries[k], b.entries[k], c.entries[k])
  }

  lemma {:induction false} AssociativeKey(a: Node, b: Node, c: Node, k: string)
    requires a.Table? && b.Table? && c.Table?
    requires k in a.entries || k in b.entries || k in c.entries
    requires k in a.entries && k in b.entries && k in c.entries ==>
               (Merge(Merge(a.entries[k], b.entries[k]), c.entries[k]) == Merge(a.entries[k], Merge(b.entries[k], c.entries[k]))
                <==> Compatible(a.entries[k], b.entries[k], c.entries[k]))
    ensures var l, r := Merge(Merge(a, b), c), Merge(a, Merge(b, c));
            && k in l.entries && k in r.entries
            && (l.entries[k] == r.entries[k] <==>
                (k in a.entries && k in b.entries && k in c.entries ==>
                   Compatible(a.entries[k], b.entries[k], c.entries[k])))
  {
    if k in b.entries {
      MergeOverNothing(EmptyTable, b.entries[k]);
      if k in c.entries { MergeOverNothing(EmptyTable, Merge(b.entries[k], c.entries[k])); }
    } else if k in c.entries {
      MergeOverNothing(EmptyTable, c.entries[k]);
    }
  }

  /** `deep_merge` is associative exactly on compatible layers. */
  lemma {:induction false} AssociativeExactly(a: Node, b: Node, c: Node)
    ensures Merge(Merge(a, b), c) == Merge(a, Merge(b, c)) <==> Compatible(a, b, c)
    decreases c
  {
    if !c.Table? {
    } else if !b.Table? {
      MergeOverNothing(b, c);
      if a.Table? { CoveredExactly(a, c); } else { MergeOverNothing(a, c); }
    } else if !a.Table? {
      MergeOverNothing(a, b);
      MergeOverNothing(a, Merge(b, c));
    } else {
      var l, r := Merge(Merge(a, b), c), Merge(a, Merge(b, c));
      forall k | k in a.entries || k in b.entries || k in c.entries
        ensures && k in l.entries && k in r.entries
                && (l.entries[k] == r.entries[k] <==>
                    (k in a.entries && k in b.entries && k in c.entries ==>
                       Compatible(a.entries[k], b.entries[k], c.entries[k])))
      {
        if k in a.entries && k in b.entries && k in c.entries {
          AssociativeExactly(a.entries[k], b.entries[k], c.entries[k]);
        }
        AssociativeKey(a, b, c, k);
      }
      assert l.entries.Keys == r.entries.Keys;
      if Compatible(a, b, c) {
        assert l.entries == r.entries;
      }
    }
  }

  /** A value between two tables: grouping to the right keeps a key the left fold has dropped. */
  lemma NotAssociative()
    ensures var a, b, c := Table(map["x" := Table(map["k" := Num(1)])]), Table(map["x" := Num(2)]),
                           Table(map["x" := EmptyTable]);
            && Leaf(Merge(Merge(a, b), c), ["x", "k"]) == None
            && Leaf(Merge(a, Merge(b, c)), ["x", "k"]) == Some(Num(1))
  {
    var a, b, c := Table(map["x" := Table(map["k" := Num(1)])]), Table(map["x" := Num(2)]),
                   Table(map["x" := EmptyTable]);
    var p := ["x", "k"];
    assert p[1..] == ["k"];
    assert At(c, p) == At(EmptyTable, p[1..]) == None;
    assert Blocks(c, p) == Blocks(EmptyTable, p[1..]) == false;
    assert Leaf(b, p) == None && Blocks(b, p);
    MergeLeaf(Merge(a, b), c, p);
    MergeLeaf(a, b, p);
    MergeOverNothing(b.entries["x"], EmptyTable);
    assert Merge(b, c).entries["x"] == EmptyTable;
    assert At(Merge(b, c), p) == At(EmptyTable, p[1..]);
    assert Blocks(Merge(b, c), p) == Blocks(EmptyTable, p[1..]);
    MergeLeaf(a, Merge(b, c), p);
    assert At(a, p) == At(a.entries["x"], p[1..]) == At(Num(1), p[1..][1..]);
  }
}
