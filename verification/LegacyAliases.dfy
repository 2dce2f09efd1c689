/**
 * Reading one configuration layer written with old or new names
 * (kaine/legacy_aliases.py, normalize_config_layer): table moves, module flags, dotted table
 * moves, key aliases at any depth, then stream names, state paths, module lists and listed
 * values.  The alias tables are parameters; a pending scope is an empty table.
 */
module LegacyAliases {
  import opened Wrappers
  import opened ConfigTree
  import opened AliasTable
  import opened TablePaths

  /** `[table].key = was` reads as `now`; `path` is the table path followed by the key. */
  datatype ValueAlias = ValueAlias(path: Path, was: string, now: string)

  datatype Aliases = Aliases(
    single: seq<Alias>,
    dotted: seq<PathAlias>,
    keys: seq<Alias>,
    streams: seq<Alias>,
    stateDirs: seq<Alias>,
    keysDone: bool,
    modules: seq<Alias>,
    values: seq<ValueAlias>)
  {
    predicate Inert() { single == [] && dotted == [] && keys == [] && values == [] && streams == [] }
  }

  const ModuleList: Path := ["tier", "unsupported_modules"]

  /** The alias tables are consistent: names are unique, no new name is an old one, and no path is
      empty. */
  predicate TablesOk(al: Aliases) {
    && WellFormed(al.single) && WellFormed(al.keys)
    && PathsOk(al.dotted)
    && forall v | v in al.values :: v.path != []
  }

  // ------------------------------------------------------------------ renaming passes

  /** Single-segment table moves. */
  function RenameTop(es: seq<Alias>, t: Node): Node
    requires t.Table?
  { Table(Renamed(t.entries, es)) }

  predicate HasFlags(t: Node) { t.Table? && "modules" in t.entries && t.entries["modules"].Table? }

  predicate FlagClash(es: seq<Alias>, t: Node) {
    HasFlags(t) && Clash(t.entries["modules"].entries.Keys, es)
  }

  /** Module flags inside [modules]. */
  function RenameFlags(es: seq<Alias>, t: Node): Node
    requires t.Table?
  {
    if HasFlags(t) then Table(t.entries["modules" := Table(Renamed(t.entries["modules"].entries, es))]) else t
  }

  /** Key aliases in every table. */
  function RenameKeys(es: seq<Alias>, t: Node): Node {
    if !t.Table? then t
    else Table(Renamed(map k | k in t.entries :: RenameKeys(es, t.entries[k]), es))
  }

  predicate DeepClash(es: seq<Alias>, t: Node) {
    t.Table? && (Clash(t.entries.Keys, es) || exists k | k in t.entries :: DeepClash(es, t.entries[k]))
  }

  // ------------------------------------------------------------------ value passes

  function MapValues(t: Node, f: Node -> Node): Node {
    if t.Table? then Table(map k | k in t.entries :: MapValues(t.entries[k], f)) else f(t)
  }

  /** One stream alias applied to a value: a string, or the strings of a list. */
  function StreamValue(e: Alias, v: Node): Node {
    match v
    case Str(s) => if s == e.was then Str(e.now) else v
    case List(items) => List(seq(|items|, i requires 0 <= i < |items| =>
                                   if items[i] == Str(e.was) then Str(e.now) else items[i]))
    case _ => v
  }

  function Restream(es: seq<Alias>, v: Node): Node {
    if es == [] then v else Restream(es[1..], StreamValue(es[0], v))
  }

  /** `state/<old>` and `state/<old>/...` move to the new directory name. */
  function StatePath(es: seq<Alias>, s: string): string {
    if !("state/" <= s) then s else "state/" + StateRest(es, s[6..])
  }

  function StateRest(es: seq<Alias>, rest: string): string {
    if es == [] then rest
    else if rest == es[0].was || es[0].was + "/" <= rest then es[0].now + rest[|es[0].was|..]
    else StateRest(es[1..], rest)
  }

  function Restate(es: seq<Alias>, v: Node): Node {
    if v.Str? then Str(StatePath(es, v.s)) else v
  }

  function ModuleName(es: seq<Alias>, item: Node): Node {
    if item.Str? then Str(NewName(es, item.s)) else item
  }

  function ModuleNames(es: seq<Alias>, items: seq<Node>): seq<Node> {
    seq(|items|, i requires 0 <= i < |items| => ModuleName(es, items[i]))
  }

  predicate HasModuleList(t: Node) { At(t, ModuleList).Some? && At(t, ModuleList).value.List? }

  /** A list or an inline table cannot be looked up among the module names. */
  predicate Unhashables(t: Node) {
    HasModuleList(t) && exists x | x in At(t, ModuleList).value.items :: x.List? || x.Table?
  }

  function MapModuleList(es: seq<Alias>, t: Node): Node
    requires t.Table?
  {
    if HasModuleList(t) then Set(t, ModuleList, List(ModuleNames(es, At(t, ModuleList).value.items))) else t
  }

  function ReplaceListed(vs: seq<ValueAlias>, t: Node): (r: Node)
    requires t.Table? && forall v | v in vs :: v.path != []
    ensures r.Table?
  {
    if vs == [] then t
    else ReplaceListed(vs[1..], if At(t, vs[0].path) == Some(Str(vs[0].was))
                                then Set(t, vs[0].path, Str(vs[0].now)) else t)
  }

  // ------------------------------------------------------------------ the whole normalisation

  /** The checks against the layer as it was read. */
  predicate SetTwice(al: Aliases, t: Node)
    requires t.Table?
  {
    || Clash(t.entries.Keys, al.single)
    || (exists i :: 0 <= i < |al.dotted| && Exists(t, al.dotted[i].was) && Exists(t, al.dotted[i].now))
    || FlagClash(al.single, t)
    || DeepClash(al.keys, t)
  }

  function RenameAll(al: Aliases, t: Node): (r: Result<Node, NormalizeError>)
    requires TablesOk(al) && t.Table?
    ensures r.Ok? ==> r.value.Table?
  {
    if SetTwice(al, t) then Err(Conflict)
    else
      var t1 := RenameTop(al.single, t);
      if FlagClash(al.single, t1) then Err(Conflict)
      else
        match MoveAll(RenameFlags(al.single, t1), al.dotted)
        case Err(e) => Err(e)
        case Ok(t3) => if DeepClash(al.keys, t3) then Err(Conflict) else Ok(RenameKeys(al.keys, t3))
  }

  function RewriteValues(al: Aliases, t: Node): Result<Node, NormalizeError>
    requires TablesOk(al) && t.Table?
  {
    var t5 := MapValues(t, v => Restream(al.streams, v));
    var t6 := MapValues(t5, v => Restate(al.stateDirs, v));
    if al.keysDone && Unhashables(t6) then Err(Unhashable)
    else Ok(ReplaceListed(al.values, MapModuleList(if al.keysDone then al.modules else [], t6)))
  }

  function Normalize(al: Aliases, t: Node): Result<Node, NormalizeError>
    requires TablesOk(al)
  {
    if !t.Table? then Err(NotATable)
    else if al.Inert() then Ok(t)
    else
      match RenameAll(al, t)
      case Err(e) => Err(e)
      case Ok(s) => RewriteValues(al, s)
  }

  // ------------------------------------------------------------------ the meaning

  function TopPath(es: seq<Alias>, p: Path): Path {
    if p == [] then p else [NewName(es, p[0])] + p[1..]
  }

  function FlagPath(es: seq<Alias>, p: Path): Path {
    if |p| >= 2 && p[0] == "modules" then [p[0], NewName(es, p[1])] + p[2..] else p
  }

  function KeyPath(es: seq<Alias>, p: Path): Path {
    seq(|p|, i requires 0 <= i < |p| => NewName(es, p[i]))
  }

  /** The current path of the item a layer names `p`. */
  function NewPath(al: Aliases, p: Path): Path {
    KeyPath(al.keys, MovedAllPath(al.dotted, FlagPath(al.single, TopPath(al.single, p))))
  }

  function ListedValue(vs: seq<ValueAlias>, p: Path, v: Node): Node {
    if vs == [] then v
    else ListedValue(vs[1..], p, if vs[0].path == p && v == Str(vs[0].was) then Str(vs[0].now) else v)
  }

  /** What the value passes make of the value `v` at the current path `p`. */
  function RewrittenValue(al: Aliases, p: Path, v: Node): Node {
    var streamed := Restate(al.stateDirs, Restream(al.streams, v));
    var listed := if p == ModuleList && streamed.List?
                  then List(ModuleNames(if al.keysDone then al.modules else [], streamed.items)) else streamed;
    ListedValue(al.values, p, listed)
  }

  /** The current form of the value `v` at the current path `p`; with every scope pending nothing is
      rewritten. */
  function NewValue(al: Aliases, p: Path, v: Node): Node {
    if al.Inert() then v else RewrittenValue(al, p, v)
  }

  /** `n` carries every value of `t` exactly once, at its current path and in its current form. */
  ghost predicate Carries(al: Aliases, t: Node, n: Node) {
    && (forall p | Leaf(t, p).Some? ::
          Leaf(n, NewPath(al, p)) == Some(NewValue(al, NewPath(al, p), Leaf(t, p).value)))
    && (forall p, q | Leaf(t, p).Some? && Leaf(t, q).Some? && NewPath(al, p) == NewPath(al, q) :: p == q)
    && (forall q | Leaf(n, q).Some? :: exists p :: Leaf(t, p).Some? && NewPath(al, p) == q)
  }

  // ------------------------------------------------------------------ each pass renames

  /** A renamed table whose entries are `f` of the old entries, seen one level down. */
  lemma RenamedLevel(m: map<string, Node>, es: seq<Alias>)
    requires WellFormed(es) && !Clash(m.Keys, es)
    ensures Renames(Table(m), Table(Renamed(m, es)), p => TopPath(es, p))
  {
    var t, n, rho := Table(m), Table(Renamed(m, es)), p => TopPath(es, p);
    forall p | Leaf(t, p).Some? ensures Leaf(n, rho(p)) == Leaf(t, p) {
      RenamedAt(m, es, p[0]);
      assert rho(p)[1..] == p[1..];
    }
    forall p, q | Leaf(t, p).Some? && Leaf(t, q).Some? && rho(p) == rho(q) ensures p == q {
      OldOfNew(m.Keys, es, p[0]);
      OldOfNew(m.Keys, es, q[0]);
      assert rho(p)[0] == rho(q)[0] && rho(p)[1..] == p[1..] && rho(q)[1..] == q[1..];
      assert p == [p[0]] + p[1..] && q == [q[0]] + q[1..];
    }
    forall q | Leaf(n, q).Some? ensures exists p :: Leaf(t, p).Some? && rho(p) == q {
      var j := RenamedFrom(m, es, q[0]);
      var p := [j] + q[1..];
      assert p[1..] == q[1..] && Leaf(t, p) == Leaf(n, q);
      assert rho(p) == q;
    }
  }

  /** Renaming below the keys of a table, each entry by its own renaming. */
  function BelowPath(rho: (string, Path) -> Path, p: Path): Path {
    if p == [] then p else [p[0]] + rho(p[0], p[1..])
  }

  ghost predicate EntriesRename(m: map<string, Node>, n: map<string, Node>, rho: (string, Path) -> Path) {
    && n.Keys == m.Keys
    && (forall k | k in m :: Renames(m[k], n[k], p => rho(k, p)))
  }

  lemma BelowForward(m: map<string, Node>, n: map<string, Node>, rho: (string, Path) -> Path, p: Path)
    requires EntriesRename(m, n, rho) && Leaf(Table(m), p).Some?
    ensures Leaf(Table(n), BelowPath(rho, p)) == Leaf(Table(m), p)
  {
    var k := p[0];
    assert Leaf(m[k], p[1..]).Some?;
    assert Renames(m[k], n[k], p => rho(k, p));
    assert BelowPath(rho, p)[1..] == rho(k, p[1..]);
  }

  lemma BelowInjective(m: map<string, Node>, n: map<string, Node>, rho: (string, Path) -> Path, p: Path, q: Path)
    requires EntriesRename(m, n, rho) && Leaf(Table(m), p).Some? && Leaf(Table(m), q).Some?
    requires BelowPath(rho, p) == BelowPath(rho, q)
    ensures p == q
  {
    var k := p[0];
    assert BelowPath(rho, p)[0] == k && BelowPath(rho, q)[0] == q[0];
    assert BelowPath(rho, p)[1..] == rho(k, p[1..]) && BelowPath(rho, q)[1..] == rho(k, q[1..]);
    assert Leaf(m[k], p[1..]).Some? && Leaf(m[k], q[1..]).Some?;
    var r := p => rho(k, p);
    assert Renames(m[k], n[k], r) && r(p[1..]) == r(q[1..]);
    assert p == [k] + p[1..] && q == [k] + q[1..];
  }

  lemma BelowOnto(m: map<string, Node>, n: map<string, Node>, rho: (string, Path) -> Path, q: Path) returns (p: Path)
    requires EntriesRename(m, n, rho) && Leaf(Table(n), q).Some?
    ensures Leaf(Table(m), p).Some? && BelowPath(rho, p) == q
  {
    var k := q[0];
    assert Leaf(n[k], q[1..]).Some?;
    var r := p => rho(k, p);
    assert Renames(m[k], n[k], r);
    var s :| Leaf(m[k], s).Some? && r(s) == q[1..];
    p := [k] + s;
    assert p[1..] == s && q == [k] + q[1..];
  }

  lemma BelowRenames(m: map<string, Node>, n: map<string, Node>, rho: (string, Path) -> Path)
    requires EntriesRename(m, n, rho)
    ensures Renames(Table(m), Table(n), p => BelowPath(rho, p))
  {
    forall p | Leaf(Table(m), p).Some? ensures Leaf(Table(n), BelowPath(rho, p)) == Leaf(Table(m), p) {
      BelowForward(m, n, rho, p);
    }
    forall p, q | Leaf(Table(m), p).Some? && Leaf(Table(m), q).Some? && BelowPath(rho, p) == BelowPath(rho, q)
      ensures p == q
    {
      BelowInjective(m, n, rho, p, q);
    }
    forall q | Leaf(Table(n), q).Some? ensures exists p :: Leaf(Table(m), p).Some? && BelowPath(rho, p) == q {
      var p := BelowOnto(m, n, rho, q);
    }
  }

  /** How the flags are renamed, seen from inside the entry `k` of the layer. */
  function FlagBelow(es: seq<Alias>, t: Node, k: string, p: Path): Path {
    if k == "modules" && HasFlags(t) then TopPath(es, p) else p
  }

  lemma FlagEntry(es: seq<Alias>, t: Node, k: string)
    requires t.Table? && WellFormed(es) && !FlagClash(es, t) && k in t.entries
    ensures Renames(t.entries[k], RenameFlags(es, t).entries[k], p => FlagBelow(es, t, k, p))
  {
    if k == "modules" && HasFlags(t) {
      RenamedLevel(t.entries[k].entries, es);
      assert RenameFlags(es, t).entries[k] == Table(Renamed(t.entries[k].entries, es));
      RenamesAgree(t.entries[k], Table(Renamed(t.entries[k].entries, es)),
                   p => TopPath(es, p), p => FlagBelow(es, t, k, p));
    } else {
      SameLeavesRename(t.entries[k], p => FlagBelow(es, t, k, p));
    }
  }

  lemma FlagEntries(es: seq<Alias>, t: Node)
    requires t.Table? && WellFormed(es) && !FlagClash(es, t)
    ensures EntriesRename(t.entries, RenameFlags(es, t).entries, (k, p) => FlagBelow(es, t, k, p))
  {
    var rho := (k, p) => FlagBelow(es, t, k, p);
    forall k | k in t.entries ensures Renames(t.entries[k], RenameFlags(es, t).entries[k], p => rho(k, p)) {
      FlagEntry(es, t, k);
      RenamesAgree(t.entries[k], RenameFlags(es, t).entries[k], p => FlagBelow(es, t, k, p), p => rho(k, p));
    }
  }

  lemma FlagPathBelow(es: seq<Alias>, t: Node, p: Path)
    requires Leaf(t, p).Some? && t.Table?
    ensures BelowPath((k, p) => FlagBelow(es, t, k, p), p) == FlagPath(es, p)
  {
    assert p == [p[0]] + p[1..];
    if |p| >= 2 && p[0] == "modules" {
      assert p[1..][1..] == p[2..];
      PrefixIsTable(t, p, p[..1]);
      assert At(t, p[..1]) == At(t.entries["modules"], []);
    }
  }

  lemma FlagsRename(es: seq<Alias>, t: Node)
    requires t.Table? && WellFormed(es) && !FlagClash(es, t)
    ensures Renames(t, RenameFlags(es, t), p => FlagPath(es, p))
  {
    var rho := (k, p) => FlagBelow(es, t, k, p);
    FlagEntries(es, t);
    BelowRenames(t.entries, RenameFlags(es, t).entries, rho);
    forall p | Leaf(t, p).Some? ensures BelowPath(rho, p) == FlagPath(es, p) { FlagPathBelow(es, t, p); }
    RenamesAgree(t, RenameFlags(es, t), p => BelowPath(rho, p), p => FlagPath(es, p));
  }

  lemma TopRenames(es: seq<Alias>, t: Node)
    requires t.Table? && WellFormed(es) && !Clash(t.entries.Keys, es)
    ensures Renames(t, RenameTop(es, t), p => TopPath(es, p))
  {
    RenamedLevel(t.entries, es);
  }

  lemma KeyPathStep(es: seq<Alias>, p: Path)
    ensures KeyPath(es, p) == TopPath(es, BelowPath((k, q) => KeyPath(es, q), p))
  {
    if p != [] {
      assert KeyPath(es, p) == [NewName(es, p[0])] + KeyPath(es, p[1..]);
    }
  }

  function KeysBelow(es: seq<Alias>, m: map<string, Node>): map<string, Node> {
    map k | k in m :: RenameKeys(es, m[k])
  }

  lemma {:induction false} KeysRename(es: seq<Alias>, t: Node)
    requires WellFormed(es) && !DeepClash(es, t)
    ensures Renames(t, RenameKeys(es, t), p => KeyPath(es, p))
    decreases t
  {
    if !t.Table? {
      forall p | Leaf(t, p).Some? ensures KeyPath(es, p) == p {}
      SameLeavesRename(t, p => KeyPath(es, p));
    } else {
      var below := KeysBelow(es, t.entries);
      var rho := (k: string, p) => KeyPath(es, p);
      forall k | k in t.entries ensures Renames(t.entries[k], below[k], p => rho(k, p)) {
        KeysRename(es, t.entries[k]);
        RenamesAgree(t.entries[k], below[k], p => KeyPath(es, p), p => rho(k, p));
      }
      KeysLevel(es, t.entries);
    }
  }

  lemma KeysLevel(es: seq<Alias>, m: map<string, Node>)
    requires WellFormed(es) && !Clash(m.Keys, es)
    requires EntriesRename(m, KeysBelow(es, m), (k, p) => KeyPath(es, p))
    ensures Renames(Table(m), RenameKeys(es, Table(m)), p => KeyPath(es, p))
  {
    var below := KeysBelow(es, m);
    var rho := (k: string, p) => KeyPath(es, p);
    BelowRenames(m, below, rho);
    RenamedLevel(below, es);
    forall p: Path ensures KeyPath(es, p) == TopPath(es, BelowPath(rho, p)) { KeyPathStep(es, p); }
    assert RenameKeys(es, Table(m)) == Table(Renamed(below, es));
    RenamesCompose(Table(m), Table(below), Table(Renamed(below, es)), p => BelowPath(rho, p),
                   p => TopPath(es, p), p => KeyPath(es, p));
  }

  /** The layer as the dotted moves find it. */
  function Unmoved(al: Aliases, t: Node): (r: Node)
    requires t.Table?
    ensures r.Table?
  { RenameFlags(al.single, RenameTop(al.single, t)) }

  /** No move that normalisation makes overwrites or drops a value. */
  ghost predicate MovesLossless(al: Aliases, t: Node)
    requires TablesOk(al) && t.Table?
  { AllLossless(Unmoved(al, t), al.dotted) }

  function UnmovedPath(al: Aliases, p: Path): Path { FlagPath(al.single, TopPath(al.single, p)) }

  lemma UnmovedRenames(al: Aliases, t: Node)
    requires TablesOk(al) && t.Table? && RenameAll(al, t).Ok?
    ensures Renames(t, Unmoved(al, t), p => UnmovedPath(al, p))
  {
    var t1 := RenameTop(al.single, t);
    TopRenames(al.single, t);
    FlagsRename(al.single, t1);
    RenamesCompose(t, t1, Unmoved(al, t), p => TopPath(al.single, p), p => FlagPath(al.single, p),
                   p => UnmovedPath(al, p));
  }

  lemma LosslessRenameAll(al: Aliases, t: Node)
    requires TablesOk(al) && t.Table? && RenameAll(al, t).Ok? && MovesLossless(al, t)
    ensures Renames(t, RenameAll(al, t).value, p => NewPath(al, p))
  {
    var t2 := Unmoved(al, t);
    var t3 := MoveAll(t2, al.dotted).value;
    UnmovedRenames(al, t);
    MoveAllRenamesExactly(t2, al.dotted);
    KeysRename(al.keys, t3);
    RenamesCompose(t, t2, t3, p => UnmovedPath(al, p), p => MovedAllPath(al.dotted, p),
                   p => MovedAllPath(al.dotted, UnmovedPath(al, p)));
    RenamesCompose(t, t3, RenameKeys(al.keys, t3), p => MovedAllPath(al.dotted, UnmovedPath(al, p)),
                   p => KeyPath(al.keys, p), p => NewPath(al, p));
  }

  /** A renamed layer holds as many values as the layer only if no move has lost one. */
  lemma RenameAllCount(al: Aliases, t: Node)
    requires TablesOk(al) && t.Table? && RenameAll(al, t).Ok? && Count(RenameAll(al, t).value) == Count(t)
    ensures MovesLossless(al, t)
  {
    var t2 := Unmoved(al, t);
    var t3 := MoveAll(t2, al.dotted).value;
    UnmovedRenames(al, t);
    RenamedCount(t, t2, p => UnmovedPath(al, p));
    KeysRename(al.keys, t3);
    RenamedCount(t3, RenameKeys(al.keys, t3), p => KeyPath(al.keys, p));
    MovesCount(t2, al.dotted);
  }

  /** The renaming passes together put every value once at its current path exactly when no dotted
      move overwrites or drops one. */
  lemma RenameAllRenamesExactly(al: Aliases, t: Node)
    requires TablesOk(al) && t.Table? && RenameAll(al, t).Ok?
    ensures Renames(t, RenameAll(al, t).value, p => NewPath(al, p)) <==> MovesLossless(al, t)
  {
    if MovesLossless(al, t) {
      LosslessRenameAll(al, t);
    } else if Renames(t, RenameAll(al, t).value, p => NewPath(al, p)) {
      RenamedCount(t, RenameAll(al, t).value, p => NewPath(al, p));
      RenameAllCount(al, t);
    }
  }

  /** Whether or not a move loses any, the renaming passes make no value. */
  lemma RenamedAllFrom(al: Aliases, t: Node, q: Path) returns (p: Path)
    requires TablesOk(al) && t.Table? && RenameAll(al, t).Ok? && Leaf(RenameAll(al, t).value, q).Some?
    ensures Leaf(t, p) == Leaf(RenameAll(al, t).value, q) && NewPath(al, p) == q
  {
    var t2 := Unmoved(al, t);
    var t3 := MoveAll(t2, al.dotted).value;
    KeysRename(al.keys, t3);
    UnmovedRenames(al, t);
    var keys, unmoved := p => KeyPath(al.keys, p), p => UnmovedPath(al, p);
    assert Renames(t3, RenameKeys(al.keys, t3), keys) && Renames(t, t2, unmoved);
    var m3 :| Leaf(t3, m3).Some? && keys(m3) == q;
    var m2 := MovedAllFrom(t2, al.dotted, m3);
    p :| Leaf(t, p).Some? && unmoved(p) == m2;
  }

  // ------------------------------------------------------------------ the value passes

  lemma {:induction false} MapValuesLeaf(t: Node, f: Node -> Node, p: Path)
    requires forall v: Node :: !v.Table? ==> !f(v).Table?
    ensures Leaf(MapValues(t, f), p) == if Leaf(t, p).Some? then Some(f(Leaf(t, p).value)) else None
    decreases p
  {
    if p != [] && t.Table? && p[0] in t.entries {
      MapValuesLeaf(t.entries[p[0]], f, p[1..]);
    }
  }

  lemma {:induction false} RestreamKind(es: seq<Alias>, v: Node)
    ensures Restream(es, v).Table? <==> v.Table?
    ensures Restream(es, v).Str? <==> v.Str?
    ensures Restream(es, v).List? <==> v.List?
  {
    if es == [] {
    } else {
      RestreamKind(es[1..], StreamValue(es[0], v));
    }
  }

  lemma {:induction false} ReplaceListedLeaf(vs: seq<ValueAlias>, t: Node, p: Path)
    requires t.Table? && forall v | v in vs :: v.path != []
    ensures Leaf(ReplaceListed(vs, t), p) ==
            if Leaf(t, p).Some? then Some(ListedValue(vs, p, Leaf(t, p).value)) else None
    decreases vs
  {
    if vs != [] {
      var e := vs[0];
      assert e in vs;
      var hit := At(t, e.path) == Some(Str(e.was));
      var u := if hit then Set(t, e.path, Str(e.now)) else t;
      ReplaceListedLeaf(vs[1..], u, p);
      if hit {
        SetLeaf(t, e.path, Str(e.now), p);
        if e.path <= p {
          if |p| == |e.path| { assert p == e.path; } else { NothingBelowValue(t, e.path, p); }
        } else if p < e.path {
          PrefixIsTable(t, e.path, p);
        }
      }
    }
  }

  lemma NothingBelowValue(t: Node, p: Path, q: Path)
    requires Exists(t, p) && !At(t, p).value.Table? && p < q
    ensures Leaf(t, q) == None && p[|p|..] == [] && q[|p|..] != []
  {
    if Exists(t, q) { PrefixIsTable(t, q, p); }
  }

  lemma ModuleListLeaf(es: seq<Alias>, t: Node, p: Path)
    requires t.Table?
    ensures Leaf(MapModuleList(es, t), p) ==
            if p == ModuleList && HasModuleList(t) then Some(List(ModuleNames(es, At(t, ModuleList).value.items)))
            else Leaf(t, p)
    ensures MapModuleList(es, t).Table?
  {
    if HasModuleList(t) {
      SetLeaf(t, ModuleList, List(ModuleNames(es, At(t, ModuleList).value.items)), p);
      if ModuleList <= p {
        if |p| == |ModuleList| { assert p == ModuleList; } else { NothingBelowValue(t, ModuleList, p); }
      } else if p < ModuleList {
        PrefixIsTable(t, ModuleList, p);
      }
    }
  }

  lemma RewrittenLeaf(al: Aliases, t: Node, p: Path)
    requires TablesOk(al) && t.Table? && RewriteValues(al, t).Ok?
    ensures Leaf(RewriteValues(al, t).value, p) ==
            if Leaf(t, p).Some? then Some(RewrittenValue(al, p, Leaf(t, p).value)) else None
  {
    var f, g := v => Restream(al.streams, v), v => Restate(al.stateDirs, v);
    var t5 := MapValues(t, f);
    var t6 := MapValues(t5, g);
    forall v: Node ensures Restream(al.streams, v).Table? <==> v.Table? { RestreamKind(al.streams, v); }
    MapValuesLeaf(t, f, p);
    MapValuesLeaf(t5, g, p);
    var ms := if al.keysDone then al.modules else [];
    ModuleListLeaf(ms, t6, p);
    ReplaceListedLeaf(al.values, MapModuleList(ms, t6), p);
  }

  lemma InertPath(al: Aliases, p: Path)
    requires al.Inert()
    ensures NewPath(al, p) == p
  {
    assert TopPath([], p) == p && FlagPath([], p) == p;
    assert KeyPath([], p) == p;
  }

  /** A layer comes back as it is when no table, key, value or stream alias is active, whatever directories
      or modules have been renamed; and only then is the reading of layers skipped. */
  lemma PendingStays(al: Aliases, t: Node)
    requires TablesOk(al) && t.Table?
    ensures al.single == [] && al.dotted == [] && al.keys == [] && al.values == [] && al.streams == [] ==>
              Normalize(al, t) == Ok(t)
    ensures al.Inert() ==> al.single == [] && al.dotted == [] && al.keys == []
    ensures al.Inert() ==> forall p, v :: ListedValue(al.values, p, Restream(al.streams, v)) == v
  {}

  /** Normalisation makes no value: each is the current form of one of the layer, at its current path. */
  lemma NormalizedFrom(al: Aliases, t: Node, q: Path) returns (p: Path)
    requires TablesOk(al) && Normalize(al, t).Ok? && Leaf(Normalize(al, t).value, q).Some?
    ensures Leaf(t, p).Some? && NewPath(al, p) == q
    ensures Leaf(Normalize(al, t).value, q) == Some(NewValue(al, q, Leaf(t, p).value))
  {
    if al.Inert() {
      p := q;
      InertPath(al, q);
    } else {
      var s := RenameAll(al, t).value;
      RewrittenLeaf(al, s, q);
      p := RenamedAllFrom(al, t, q);
    }
  }

  /** Normalising the layer keeps every value: nothing is moved, or no move overwrites or drops one. */
  ghost predicate KeepsValues(al: Aliases, t: Node)
    requires TablesOk(al)
  { al.Inert() || (t.Table? && MovesLossless(al, t)) }

  lemma LosslessCarries(al: Aliases, t: Node)
    requires TablesOk(al) && !al.Inert() && Normalize(al, t).Ok? && MovesLossless(al, t)
    ensures Carries(al, t, Normalize(al, t).value)
  {
    var s, n := RenameAll(al, t).value, Normalize(al, t).value;
    LosslessRenameAll(al, t);
    var rho := p => NewPath(al, p);
    assert Renames(t, s, rho);
    forall p | Leaf(t, p).Some?
      ensures Leaf(n, NewPath(al, p)) == Some(NewValue(al, NewPath(al, p), Leaf(t, p).value))
    {
      assert Leaf(s, rho(p)) == Leaf(t, p);
      RewrittenLeaf(al, s, NewPath(al, p));
    }
    forall p, q | Leaf(t, p).Some? && Leaf(t, q).Some? && NewPath(al, p) == NewPath(al, q) ensures p == q {
      assert rho(p) == rho(q);
    }
    forall q | Leaf(n, q).Some? ensures exists p :: Leaf(t, p).Some? && NewPath(al, p) == q {
      var p := NormalizedFrom(al, t, q);
    }
  }

  lemma InertCarries(al: Aliases, t: Node)
    requires al.Inert()
    ensures Carries(al, t, t)
  {
    forall p ensures NewPath(al, p) == p { InertPath(al, p); }
  }

  lemma CarriedCount(al: Aliases, t: Node)
    requires TablesOk(al) && !al.Inert() && Normalize(al, t).Ok? && Carries(al, t, Normalize(al, t).value)
    ensures Count(RenameAll(al, t).value) == Count(t)
  {
    var s, n := RenameAll(al, t).value, Normalize(al, t).value;
    RenamedCount(t, n, p => NewPath(al, p));
    forall p ensures Leaf(n, p).Some? <==> Leaf(s, p).Some? { RewrittenLeaf(al, s, p); }
    RenamedCount(s, n, p => p);
  }

  /** A normalised layer carries every value of the layer exactly once, at its current path and in
      its current form, and nothing else, exactly when no dotted move overwrites or drops a value. */
  lemma NormalizeCarriesExactly(al: Aliases, t: Node)
    requires TablesOk(al) && Normalize(al, t).Ok?
    ensures Carries(al, t, Normalize(al, t).value) <==> KeepsValues(al, t)
  {
    if al.Inert() {
      InertCarries(al, t);
    } else if MovesLossless(al, t) {
      LosslessCarries(al, t);
    } else if Carries(al, t, Normalize(al, t).value) {
      CarriedCount(al, t);
      RenameAllCount(al, t);
    }
  }

  lemma {:induction false} NoDeepClash(t: Node)
    ensures !DeepClash([], t)
    decreases t
  {
    if t.Table? {
      forall k | k in t.entries ensures !DeepClash([], t.entries[k]) { NoDeepClash(t.entries[k]); }
    }
  }

  lemma NoNamesKept(t: Node)
    requires t.Table?
    ensures RenameTop([], t) == t && RenameFlags([], t) == t && !FlagClash([], t)
  {
    RenamedIdentity(t.entries, []);
    if HasFlags(t) {
      RenamedIdentity(t.entries["modules"].entries, []);
      assert t.entries["modules" := t.entries["modules"]] == t.entries;
    }
  }

  /** With dotted aliases only, a layer comes to the moves as it is. */
  lemma DottedAlone(al: Aliases, t: Node)
    requires TablesOk(al) && al.single == [] && al.keys == [] && t.Table? && MoveAll(t, al.dotted).Ok?
    requires forall i | 0 <= i < |al.dotted| :: !(Exists(t, al.dotted[i].was) && Exists(t, al.dotted[i].now))
    ensures Unmoved(al, t) == t && RenameAll(al, t).Ok?
  {
    NoNamesKept(t);
    NoDeepClash(t);
    NoDeepClash(MoveAll(t, al.dotted).value);
    assert !SetTwice(al, t);
  }

  /** Only the dotted alias of a.b to c.d. */
  const DottedOnly: Aliases := Aliases([], [PathAlias(["a", "b"], ["c", "d"])], [], [], [], false, [], [])

  /** A layer that sets a.b and c normalises without an error, and c is gone. */
  lemma NormalizeLosesValue()
    ensures TablesOk(DottedOnly)
    ensures var t := Table(map["a" := Table(map["b" := Num(1)]), "c" := Num(5)]);
            && Leaf(t, ["c"]) == Some(Num(5)) && Normalize(DottedOnly, t).Ok?
            && !Carries(DottedOnly, t, Normalize(DottedOnly, t).value)
  {
    var t := Table(map["a" := Table(map["b" := Num(1)]), "c" := Num(5)]);
    MoveOverwritesValue();
    assert !Exists(t, ["c", "d"]) by { assert ["c", "d"][1..] == ["d"]; }
    DottedAlone(DottedOnly, t);
    NormalizeCarriesExactly(DottedOnly, t);
  }
}
