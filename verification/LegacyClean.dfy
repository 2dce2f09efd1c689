/**
 * What normalisation leaves behind (kaine/legacy_aliases.py): no old name in any position the
 * aliases govern, and therefore nothing to do for a second normalisation.
 */
module LegacyClean {
  import opened Wrappers
  import opened ConfigTree
  import opened AliasTable
  import opened TablePaths
  import opened LegacyAliases

  predicate NoSlash(s: string) { forall i | 0 <= i < |s| :: s[i] != '/' }

  predicate SlashFree(es: seq<Alias>) { forall e | e in es :: NoSlash(e.was) && NoSlash(e.now) }

  /** A move by `e` may put something at `q`: what it moves, or a table made on the way to it. */
  predicate MayCreate(e: PathAlias, q: Path) { e.now <= q || (q < e.now && !(q < e.was)) }

  predicate NamesApart(al: Aliases) {
    && News(al.keys) !! Olds(al.single)
    && "modules" !in News(al.keys)
    && WellFormed(al.streams) && WellFormed(al.stateDirs) && WellFormed(al.modules)
    && SlashFree(al.stateDirs)
    && (forall s | s in Olds(al.streams) :: !("state/" <= s))
    && News(al.modules) !! Olds(al.streams)
  }

  predicate PathsApart(al: Aliases) {
    && (forall d, i | d in al.dotted && 0 <= i < |d.was| :: d.was[i] !in News(al.keys))
    && (forall d, e | d in al.dotted && e in al.dotted :: !MayCreate(e, d.was))
    && (forall d, o | d in al.dotted && o in Olds(al.single) :: !MayCreate(d, [o]) && !MayCreate(d, ["modules", o]))
  }

  /** The directory below "state/" is no old name. */
  predicate StateClean(es: seq<Alias>, s: string) {
    forall e | e in es :: s != "state/" + e.was && !("state/" + e.was + "/" <= s)
  }

  predicate ValuesApart(al: Aliases) {
    && (forall v | v in al.values :: v.now !in Olds(al.streams) && StateClean(al.stateDirs, v.now))
    && (forall v, w | v in al.values && w in al.values && v.path == w.path :: v.now != w.was)
  }

  /** The alias tables do not feed one another: what one of them produces, no other replaces. */
  predicate Separated(al: Aliases) { NamesApart(al) && PathsApart(al) && ValuesApart(al) }

  /** No table of `t` has a key in `names`. */
  ghost predicate KeysFree(t: Node, names: set<string>) {
    forall p | p != [] && Exists(t, p) :: p[|p| - 1] !in names
  }

  ghost predicate NamesClean(al: Aliases, t: Node) {
    && (forall o | o in Olds(al.single) :: !Exists(t, [o]) && !Exists(t, ["modules", o]))
    && (forall d | d in al.dotted :: !Exists(t, d.was))
    && KeysFree(t, Olds(al.keys))
  }

  predicate StreamClean(es: seq<Alias>, v: Node) {
    && (v.Str? ==> v.s !in Olds(es))
    && (v.List? ==> forall i | 0 <= i < |v.items| :: v.items[i].Str? ==> v.items[i].s !in Olds(es))
  }

  /** A value in its current form, at its current path. */
  predicate ValueClean(al: Aliases, p: Path, v: Node) {
    && StreamClean(al.streams, v)
    && (v.Str? ==> StateClean(al.stateDirs, v.s))
    && (al.keysDone && p == ModuleList && v.List? ==>
          forall i | 0 <= i < |v.items| :: v.items[i].Str? ==> v.items[i].s !in Olds(al.modules))
    && (forall e | e in al.values :: e.path == p ==> v != Str(e.was))
  }

  /** Nothing in the layer is written with an old name. */
  ghost predicate Clean(al: Aliases, t: Node) {
    && t.Table?
    && NamesClean(al, t)
    && (forall p | Leaf(t, p).Some? :: ValueClean(al, p, Leaf(t, p).value))
    && (al.keysDone ==> !Unhashables(t))
  }

  // ------------------------------------------------------------------ a clean layer stays

  lemma BelowKey(t: Node, k: string, p: Path)
    requires t.Table? && k in t.entries
    ensures At(t, [k] + p) == At(t.entries[k], p)
  {
    assert ([k] + p)[1..] == p;
  }

  lemma KeysFreeBelow(t: Node, names: set<string>, k: string)
    requires KeysFree(t, names) && t.Table? && k in t.entries
    ensures k !in names && KeysFree(t.entries[k], names)
  {
    BelowKey(t, k, []);
    assert Exists(t, [k]) && [k] + [] == [k];
    forall p | p != [] && Exists(t.entries[k], p) ensures p[|p| - 1] !in names {
      BelowKey(t, k, p);
      assert ([k] + p)[|[k] + p| - 1] == p[|p| - 1];
    }
  }

  lemma KeysLevelStays(es: seq<Alias>, m: map<string, Node>)
    requires m.Keys !! Olds(es) && forall k | k in m :: RenameKeys(es, m[k]) == m[k]
    ensures RenameKeys(es, Table(m)) == Table(m) && !Clash(m.Keys, es)
  {
    assert KeysBelow(es, m) == m;
    assert RenameKeys(es, Table(m)) == Table(Renamed(KeysBelow(es, m), es));
    RenamedIdentity(m, es);
  }

  lemma {:induction false} FreeOfKeysStays(es: seq<Alias>, t: Node)
    requires KeysFree(t, Olds(es))
    ensures RenameKeys(es, t) == t && !DeepClash(es, t)
    decreases t
  {
    if t.Table? {
      forall k | k in t.entries
        ensures k !in Olds(es) && RenameKeys(es, t.entries[k]) == t.entries[k] && !DeepClash(es, t.entries[k])
      {
        KeysFreeBelow(t, Olds(es), k);
        FreeOfKeysStays(es, t.entries[k]);
      }
      KeysLevelStays(es, t.entries);
    }
  }

  lemma {:induction false} NothingToMove(t: Node, es: seq<PathAlias>)
    requires t.Table? && PathsOk(es) && forall d | d in es :: !Exists(t, d.was)
    ensures MoveAll(t, es) == Ok(t)
    decreases es
  {
    if es != [] {
      assert es[0] in es;
      NothingToMove(t, es[1..]);
    }
  }

  lemma CleanTopStays(al: Aliases, t: Node)
    requires t.Table? && NamesClean(al, t)
    ensures RenameTop(al.single, t) == t && !Clash(t.entries.Keys, al.single)
  {
    forall k | k in t.entries ensures k !in Olds(al.single) { assert At(t, [k]).Some?; }
    RenamedIdentity(t.entries, al.single);
  }

  lemma CleanFlagsStay(al: Aliases, t: Node)
    requires t.Table? && NamesClean(al, t)
    ensures RenameFlags(al.single, t) == t && !FlagClash(al.single, t)
  {
    if HasFlags(t) {
      var flags := t.entries["modules"].entries;
      forall k | k in flags ensures k !in Olds(al.single) {
        BelowKey(t, "modules", [k]);
        assert ["modules"] + [k] == ["modules", k];
      }
      RenamedIdentity(flags, al.single);
      assert t.entries["modules" := Table(flags)] == t.entries;
    }
  }

  lemma CleanNamesStay(al: Aliases, t: Node)
    requires TablesOk(al) && t.Table? && NamesClean(al, t)
    ensures RenameAll(al, t) == Ok(t)
  {
    CleanTopStays(al, t);
    CleanFlagsStay(al, t);
    FreeOfKeysStays(al.keys, t);
    NothingToMove(t, al.dotted);
    forall i | 0 <= i < |al.dotted| ensures !Exists(t, al.dotted[i].was) { assert al.dotted[i] in al.dotted; }
  }

  lemma {:induction false} ValuesStay(t: Node, f: Node -> Node)
    requires forall p | Leaf(t, p).Some? :: f(Leaf(t, p).value) == Leaf(t, p).value
    ensures MapValues(t, f) == t
    decreases t
  {
    if t.Table? {
      forall k | k in t.entries ensures MapValues(t.entries[k], f) == t.entries[k] {
        forall p | Leaf(t.entries[k], p).Some? ensures f(Leaf(t.entries[k], p).value) == Leaf(t.entries[k], p).value {
          BelowKey(t, k, p);
          assert Leaf(t, [k] + p) == Leaf(t.entries[k], p);
        }
        ValuesStay(t.entries[k], f);
      }
      assert MapValues(t, f).entries == t.entries;
    } else {
      assert Leaf(t, []) == Some(t);
    }
  }

  lemma {:induction false} StreamCleanStays(es: seq<Alias>, v: Node)
    requires StreamClean(es, v)
    ensures Restream(es, v) == v
  {
    if es != [] {
      assert es[0].was in Olds(es);
      assert forall o | o in Olds(es[1..]) :: o in Olds(es);
      if v.List? { assert StreamValue(es[0], v).items == v.items; }
      StreamCleanStays(es[1..], v);
    }
  }

  lemma {:induction false} SetSame(t: Node, p: Path)
    requires t.Table? && p != [] && Exists(t, p)
    ensures Set(t, p, At(t, p).value) == t
    decreases p
  {
    if |p| > 1 {
      PrefixIsTable(t, p, p[..1]);
      assert p[..1][1..] == [];
      SetSame(t.entries[p[0]], p[1..]);
    } else {
      assert p[1..] == [];
    }
  }

  lemma {:induction false} NothingListed(vs: seq<ValueAlias>, t: Node)
    requires t.Table? && (forall v | v in vs :: v.path != [] && At(t, v.path) != Some(Str(v.was)))
    ensures ReplaceListed(vs, t) == t
    decreases vs
  {
    if vs != [] {
      assert vs[0] in vs;
      NothingListed(vs[1..], t);
    }
  }

  lemma {:induction false} StateRestStays(es: seq<Alias>, rest: string)
    requires StateClean(es, "state/" + rest)
    ensures StateRest(es, rest) == rest
  {
    if es != [] {
      var e := es[0];
      assert e in es;
      assert "state/" + e.was + "/" == "state/" + (e.was + "/");
      StateRestStays(es[1..], rest);
    }
  }

  /** A string without an old directory name stays as it is. */
  lemma StateCleanStays(es: seq<Alias>, s: string)
    requires StateClean(es, s)
    ensures StatePath(es, s) == s
  {
    if "state/" <= s {
      assert s == "state/" + s[6..];
      StateRestStays(es, s[6..]);
    }
  }

  lemma CleanValuesStay(al: Aliases, t: Node)
    requires TablesOk(al) && Clean(al, t)
    ensures RewriteValues(al, t) == Ok(t)
  {
    var f, g := v => Restream(al.streams, v), v => Restate(al.stateDirs, v);
    forall p | Leaf(t, p).Some? ensures f(Leaf(t, p).value) == Leaf(t, p).value && g(Leaf(t, p).value) == Leaf(t, p).value {
      StreamCleanStays(al.streams, Leaf(t, p).value);
      if Leaf(t, p).value.Str? { StateCleanStays(al.stateDirs, Leaf(t, p).value.s); }
    }
    ValuesStay(t, f);
    ValuesStay(t, g);
    var ms := if al.keysDone then al.modules else [];
    if HasModuleList(t) {
      var v := At(t, ModuleList).value;
      assert Leaf(t, ModuleList) == Some(v);
      forall i | 0 <= i < |v.items| ensures ModuleName(ms, v.items[i]) == v.items[i] {
        if v.items[i].Str? { NewNameCases(ms, v.items[i].s); }
      }
      assert ModuleNames(ms, v.items) == v.items;
      SetSame(t, ModuleList);
    }
    forall v | v in al.values ensures At(t, v.path) != Some(Str(v.was)) {
      assert Exists(t, v.path) && !At(t, v.path).value.Table? ==> Leaf(t, v.path).Some?;
    }
    NothingListed(al.values, t);
  }

  /** A layer written with current names comes back as it is. */
  lemma CleanLayerStays(al: Aliases, t: Node)
    requires TablesOk(al) && Clean(al, t)
    ensures Normalize(al, t) == Ok(t)
  {
    CleanNamesStay(al, t);
    CleanValuesStay(al, t);
  }

  // ------------------------------------------------------------------ no old name is left

  lemma {:induction false} RenamedKeysExist(es: seq<Alias>, t: Node, p: Path)
    requires Exists(RenameKeys(es, t), p) && forall i | 0 <= i < |p| :: p[i] !in News(es)
    ensures Exists(t, p)
    decreases p
  {
    if p != [] {
      var k, below := p[0], KeysBelow(es, t.entries);
      assert RenameKeys(es, t).entries == Renamed(below, es);
      var j :| j in t.entries && NewName(es, j) == k;
      NewNameCases(es, j);
      OldNameCases(below.Keys, es, k);
      assert forall i | 0 <= i < |es| :: es[i].now in News(es);
      assert OldName(below.Keys, es, k) == k && j == k;
      assert RenameKeys(es, t).entries[k] == RenameKeys(es, t.entries[k]);
      RenamedKeysExist(es, t.entries[k], p[1..]);
    }
  }

  lemma {:induction false} RenamedKeysFree(es: seq<Alias>, t: Node, p: Path)
    requires WellFormed(es) && p != [] && Exists(RenameKeys(es, t), p)
    ensures p[|p| - 1] !in Olds(es)
    decreases p
  {
    var below := KeysBelow(es, t.entries);
    RenamedHasNoOld(below, es);
    assert p[0] in Renamed(below, es);
    if |p| > 1 {
      OldNameListed(below.Keys, es, p[0]);
      var j := OldName(below.Keys, es, p[0]);
      assert RenameKeys(es, t).entries[p[0]] == RenameKeys(es, t.entries[j]);
      RenamedKeysFree(es, t.entries[j], p[1..]);
    }
  }

  /** A move creates nothing but what stands under its new path and the way to it. */
  lemma MoveExists(t: Node, e: PathAlias, q: Path)
    requires t.Table? && e.was != [] && e.now != [] && Exists(t, e.was) && Exists(Move(t, e), q)
    ensures !(e.was <= q) && (MayCreate(e, q) || Exists(t, q))
  {
    MoveLeaf(t, e, q);
    if q < e.was { PrefixIsTable(t, e.was, q); }
  }

  lemma {:induction false} MoveAllExists(t: Node, es: seq<PathAlias>, q: Path)
    requires t.Table? && PathsOk(es) && MoveAll(t, es).Ok? && Exists(MoveAll(t, es).value, q)
    requires forall e | e in es :: !MayCreate(e, q)
    ensures Exists(t, q) && forall e | e in es :: e.was != q
    decreases es
  {
    if es != [] {
      assert es[0] in es;
      if Exists(t, es[0].was) {
        MoveAllExists(Move(t, es[0]), es[1..], q);
        MoveExists(t, es[0], q);
      } else {
        MoveAllExists(t, es[1..], q);
      }
    }
  }

  lemma TopOldsGone(al: Aliases, t: Node, o: string)
    requires TablesOk(al) && t.Table? && o in Olds(al.single)
    ensures !Exists(RenameFlags(al.single, RenameTop(al.single, t)), [o])
    ensures !Exists(RenameFlags(al.single, RenameTop(al.single, t)), ["modules", o])
  {
    var t1 := RenameTop(al.single, t);
    RenamedHasNoOld(t.entries, al.single);
    var t2 := RenameFlags(al.single, t1);
    assert t2.entries.Keys == t1.entries.Keys;
    assert ["modules"] + [o] == ["modules", o];
    if "modules" in t2.entries { BelowKey(t2, "modules", [o]); }
    if HasFlags(t1) { RenamedHasNoOld(t1.entries["modules"].entries, al.single); }
  }

  lemma RenamingLeavesNoTop(al: Aliases, t: Node, o: string)
    requires TablesOk(al) && Separated(al) && t.Table? && RenameAll(al, t).Ok? && o in Olds(al.single)
    ensures !Exists(RenameAll(al, t).value, [o]) && !Exists(RenameAll(al, t).value, ["modules", o])
  {
    var t2 := RenameFlags(al.single, RenameTop(al.single, t));
    var t3 := MoveAll(t2, al.dotted).value;
    TopOldsGone(al, t, o);
    if Exists(RenameKeys(al.keys, t3), [o]) {
      RenamedKeysExist(al.keys, t3, [o]);
      MoveAllExists(t2, al.dotted, [o]);
    }
    if Exists(RenameKeys(al.keys, t3), ["modules", o]) {
      RenamedKeysExist(al.keys, t3, ["modules", o]);
      MoveAllExists(t2, al.dotted, ["modules", o]);
    }
  }

  lemma RenamingLeavesNoDotted(al: Aliases, t: Node, d: PathAlias)
    requires TablesOk(al) && Separated(al) && t.Table? && RenameAll(al, t).Ok? && d in al.dotted
    ensures !Exists(RenameAll(al, t).value, d.was)
  {
    var t2 := RenameFlags(al.single, RenameTop(al.single, t));
    var t3 := MoveAll(t2, al.dotted).value;
    if Exists(RenameKeys(al.keys, t3), d.was) {
      RenamedKeysExist(al.keys, t3, d.was);
      MoveAllExists(t2, al.dotted, d.was);
    }
  }

  lemma RenamingLeavesNoKey(al: Aliases, t: Node)
    requires TablesOk(al) && t.Table? && RenameAll(al, t).Ok?
    ensures KeysFree(RenameAll(al, t).value, Olds(al.keys))
  {
    var t3 := MoveAll(RenameFlags(al.single, RenameTop(al.single, t)), al.dotted).value;
    forall p | p != [] && Exists(RenameKeys(al.keys, t3), p) ensures p[|p| - 1] !in Olds(al.keys) {
      RenamedKeysFree(al.keys, t3, p);
    }
  }

  lemma RenamingCleansNames(al: Aliases, t: Node)
    requires TablesOk(al) && Separated(al) && t.Table? && RenameAll(al, t).Ok?
    ensures NamesClean(al, RenameAll(al, t).value)
  {
    var s := RenameAll(al, t).value;
    forall o | o in Olds(al.single) ensures !Exists(s, [o]) && !Exists(s, ["modules", o]) {
      RenamingLeavesNoTop(al, t, o);
    }
    forall d | d in al.dotted ensures !Exists(s, d.was) { RenamingLeavesNoDotted(al, t, d); }
    RenamingLeavesNoKey(al, t);
  }

  // ------------------------------------------------------------------ rewriting values adds no path

  lemma {:induction false} MapValuesExists(t: Node, f: Node -> Node, p: Path)
    requires forall v: Node :: !v.Table? ==> !f(v).Table?
    requires Exists(MapValues(t, f), p)
    ensures Exists(t, p)
    decreases p
  {
    if p != [] { MapValuesExists(t.entries[p[0]], f, p[1..]); }
  }

  lemma NothingExistsBelow(t: Node, p: Path, q: Path)
    requires Exists(t, p) && !At(t, p).value.Table? && p < q
    ensures !Exists(t, q)
  {
    if Exists(t, q) { PrefixIsTable(t, q, p); }
  }

  lemma SetExists(t: Node, p: Path, v: Node, q: Path)
    requires t.Table? && p != [] && Exists(t, p) && !v.Table? && Exists(Set(t, p, v), q)
    ensures Exists(t, q)
  {
    SetLeaf(t, p, v, q);
    SetLeaf(t, p, v, p);
    if q < p {
      PrefixIsTable(t, p, q);
    } else if p <= q {
      assert p[|p|..] == [] && Leaf(Set(t, p, v), p) == Some(v);
      assert |p| < |q| ==> p < q;
      assert |p| == |q| ==> p == q;
      if p < q { NothingExistsBelow(Set(t, p, v), p, q); }
    }
  }

  lemma {:induction false} ReplaceListedExists(vs: seq<ValueAlias>, t: Node, p: Path)
    requires t.Table? && (forall v | v in vs :: v.path != []) && Exists(ReplaceListed(vs, t), p)
    ensures Exists(t, p)
    decreases vs
  {
    if vs != [] {
      var e := vs[0];
      assert e in vs;
      if At(t, e.path) == Some(Str(e.was)) {
        ReplaceListedExists(vs[1..], Set(t, e.path, Str(e.now)), p);
        SetExists(t, e.path, Str(e.now), p);
      } else {
        ReplaceListedExists(vs[1..], t, p);
      }
    }
  }

  lemma RewrittenExists(al: Aliases, t: Node, p: Path)
    requires TablesOk(al) && t.Table? && RewriteValues(al, t).Ok? && Exists(RewriteValues(al, t).value, p)
    ensures Exists(t, p)
  {
    var f, g := v => Restream(al.streams, v), v => Restate(al.stateDirs, v);
    var t5 := MapValues(t, f);
    var t6 := MapValues(t5, g);
    var ms := if al.keysDone then al.modules else [];
    forall v: Node ensures Restream(al.streams, v).Table? <==> v.Table? { RestreamKind(al.streams, v); }
    ReplaceListedExists(al.values, MapModuleList(ms, t6), p);
    if HasModuleList(t6) {
      SetExists(t6, ModuleList, List(ModuleNames(ms, At(t6, ModuleList).value.items)), p);
    }
    MapValuesExists(t5, g, p);
    MapValuesExists(t, f, p);
  }

  // ------------------------------------------------------------------ rewritten values are current

  /** With consistent aliases the stream passes rename each name once. */
  lemma {:induction false} RestreamIs(es: seq<Alias>, v: Node)
    requires WellFormed(es)
    ensures Restream(es, v) == if v.Str? then Str(NewName(es, v.s))
                               else if v.List? then List(ModuleNames(es, v.items)) else v
  {
    if es == [] {
      if v.List? { assert ModuleNames(es, v.items) == v.items; }
    } else {
      var e, w := es[0], StreamValue(es[0], v);
      assert WellFormed(es[1..]) by { assert Olds(es[1..]) <= Olds(es) && News(es[1..]) <= News(es); }
      RestreamIs(es[1..], w);
      assert e.now in News(es);
      NewNameCases(es[1..], e.now);
      if v.List? {
        assert ModuleNames(es[1..], w.items) == ModuleNames(es, v.items);
      }
    }
  }

  function Head(s: string): string {
    if s == "" || s[0] == '/' then "" else [s[0]] + Head(s[1..])
  }

  lemma {:induction false} HeadIs(s: string, h: string)
    requires NoSlash(h)
    ensures Head(s) == h <==> s == h || h + "/" <= s
  {
    if s == "" {
    } else if s[0] == '/' {
      if h != "" {
        assert s[0] != h[0] == (h + "/")[0];
      }
    } else if h != "" {
      HeadIs(s[1..], h[1..]);
      assert h == [h[0]] + h[1..] && s == [s[0]] + s[1..];
      assert (h + "/")[1..] == h[1..] + "/";
      if h + "/" <= s { assert h[1..] + "/" <= s[1..]; }
      if s[0] == h[0] && h[1..] + "/" <= s[1..] { assert h + "/" == [h[0]] + (h[1..] + "/"); }
    }
  }

  lemma {:induction false} HeadFacts(s: string)
    ensures NoSlash(Head(s)) && Head(s) <= s
    ensures s[|Head(s)|..] == "" || s[|Head(s)|..][0] == '/'
  {
    if s != "" && s[0] != '/' {
      HeadFacts(s[1..]);
      assert s[|Head(s)|..] == s[1..][|Head(s[1..])|..];
    }
  }

  /** The state directory is the first segment; the aliases rename it and keep the rest. */
  lemma {:induction false} StateRestIs(es: seq<Alias>, rest: string)
    requires forall e | e in es :: NoSlash(e.was)
    ensures |Head(rest)| <= |rest| && StateRest(es, rest) == NewName(es, Head(rest)) + rest[|Head(rest)|..]
  {
    HeadFacts(rest);
    if es != [] {
      assert es[0] in es;
      HeadIs(rest, es[0].was);
      StateRestIs(es[1..], rest);
    }
  }

  lemma HeadOfSegment(n: string, tail: string)
    requires NoSlash(n) && (tail == "" || tail[0] == '/')
    ensures Head(n + tail) == n
  {
    HeadIs(n + tail, n);
    if tail != "" {
      assert tail == "/" + tail[1..];
      assert n + tail == (n + "/") + tail[1..];
    }
  }

  /** Below "state/" the first segment decides. */
  lemma StateCleanIs(es: seq<Alias>, s: string)
    requires SlashFree(es)
    ensures StateClean(es, s) <==> !("state/" <= s) || Head(s[6..]) !in Olds(es)
  {
    if "state/" <= s {
      assert s == "state/" + s[6..];
      forall e | e in es ensures Head(s[6..]) == e.was <==> s == "state/" + e.was || "state/" + e.was + "/" <= s {
        HeadIs(s[6..], e.was);
        assert "state/" + e.was + "/" == "state/" + (e.was + "/");
      }
      if Head(s[6..]) in Olds(es) {
        var i :| 0 <= i < |es| && es[i].was == Head(s[6..]);
        assert es[i] in es;
      } else {
        forall e | e in es ensures Head(s[6..]) != e.was {
          var i :| 0 <= i < |es| && es[i] == e;
          assert es[i].was in Olds(es);
        }
      }
    }
  }

  /** `state/<old>` and everything below it moves to the new directory name. */
  lemma StatePathRenames(es: seq<Alias>, e: Alias, tail: string)
    requires WellFormed(es) && SlashFree(es) && e in es && (tail == "" || tail[0] == '/')
    ensures StatePath(es, "state/" + e.was + tail) == "state/" + e.now + tail
  {
    var rest := e.was + tail;
    assert ("state/" + e.was + tail)[6..] == rest && "state/" <= "state/" + e.was + tail;
    StateRestIs(es, rest);
    HeadOfSegment(e.was, tail);
    assert rest[|e.was|..] == tail;
    var i :| 0 <= i < |es| && es[i] == e;
    assert e.was in Olds(es);
    NewNameCases(es, e.was);
    assert NewName(es, e.was) == e.now;
    assert "state/" + (e.now + tail) == "state/" + e.now + tail;
  }

  lemma RenamedStateClean(es: seq<Alias>, e: Alias, tail: string)
    requires WellFormed(es) && SlashFree(es) && e in es && (tail == "" || tail[0] == '/')
    ensures StateClean(es, "state/" + e.now + tail)
  {
    var i :| 0 <= i < |es| && es[i] == e;
    assert es[i].now in News(es);
    HeadOfSegment(e.now, tail);
    assert ("state/" + e.now + tail)[6..] == e.now + tail;
    StateCleanIs(es, "state/" + e.now + tail);
  }

  /** A rewritten string has no old directory name. */
  lemma StatePathClean(es: seq<Alias>, s: string)
    requires WellFormed(es) && SlashFree(es)
    ensures StateClean(es, StatePath(es, s))
  {
    StateCleanIs(es, s);
    if StateClean(es, s) {
      StateCleanStays(es, s);
    } else {
      var rest := s[6..];
      HeadFacts(rest);
      var h, tail := Head(rest), rest[|Head(rest)|..];
      var i :| 0 <= i < |es| && es[i].was == h;
      assert es[i] in es && rest == h + tail && s == "state/" + rest == "state/" + h + tail;
      StatePathRenames(es, es[i], tail);
      RenamedStateClean(es, es[i], tail);
    }
  }

  /** And so a second rewriting changes nothing. */
  lemma StatePathSettled(es: seq<Alias>, s: string)
    requires WellFormed(es) && SlashFree(es)
    ensures StatePath(es, StatePath(es, s)) == StatePath(es, s)
  {
    StatePathClean(es, s);
    StateCleanStays(es, StatePath(es, s));
  }

  lemma {:induction false} ListedValueCases(vs: seq<ValueAlias>, p: Path, v: Node)
    ensures (ListedValue(vs, p, v) == v && forall e | e in vs :: e.path == p ==> v != Str(e.was))
         || (exists e :: e in vs && e.path == p && ListedValue(vs, p, v) == Str(e.now))
  {
    if vs != [] {
      var e := vs[0];
      assert e in vs;
      ListedValueCases(vs[1..], p, if e.path == p && v == Str(e.was) then Str(e.now) else v);
    }
  }

  lemma {:induction false} NoneListed(vs: seq<ValueAlias>, p: Path, v: Node)
    requires forall e | e in vs && e.path == p :: v != Str(e.was)
    ensures ListedValue(vs, p, v) == v
  {
    if vs != [] {
      assert vs[0] in vs;
      NoneListed(vs[1..], p, v);
    }
  }

  lemma RenamedNameIsNew(es: seq<Alias>, k: string)
    requires WellFormed(es)
    ensures NewName(es, k) !in Olds(es)
    ensures NewName(es, k) == k || NewName(es, k) in News(es)
  {
    NewNameCases(es, k);
  }

  /** The value after the stream and state passes. */
  lemma StreamedClean(al: Aliases, v: Node)
    requires Separated(al)
    ensures var w := Restate(al.stateDirs, Restream(al.streams, v));
      StreamClean(al.streams, w) && (w.Str? ==> StateClean(al.stateDirs, w.s))
  {
    RestreamIs(al.streams, v);
    if v.Str? {
      var name := NewName(al.streams, v.s);
      RenamedNameIsNew(al.streams, v.s);
      StatePathClean(al.stateDirs, name);
      assert StatePath(al.stateDirs, name) == name || "state/" <= StatePath(al.stateDirs, name);
    } else if v.List? {
      forall i | 0 <= i < |v.items| ensures v.items[i].Str? ==> NewName(al.streams, v.items[i].s) !in Olds(al.streams) {
        if v.items[i].Str? { RenamedNameIsNew(al.streams, v.items[i].s); }
      }
    }
  }

  lemma ModuleNamesClean(ms: seq<Alias>, streams: seq<Alias>, items: seq<Node>)
    requires WellFormed(ms) && News(ms) !! Olds(streams) && StreamClean(streams, List(items))
    ensures StreamClean(streams, List(ModuleNames(ms, items)))
    ensures forall i | 0 <= i < |items| :: ModuleNames(ms, items)[i].Str? ==> ModuleNames(ms, items)[i].s !in Olds(ms)
  {
    forall i | 0 <= i < |items|
      ensures items[i].Str? ==> NewName(ms, items[i].s) !in Olds(ms) && NewName(ms, items[i].s) !in Olds(streams)
    {
      if items[i].Str? { RenamedNameIsNew(ms, items[i].s); }
    }
  }

  /** The value before the listed replacements. */
  function Unlisted(al: Aliases, p: Path, v: Node): Node {
    var w := Restate(al.stateDirs, Restream(al.streams, v));
    if p == ModuleList && w.List? then List(ModuleNames(if al.keysDone then al.modules else [], w.items)) else w
  }

  predicate Settled(al: Aliases, p: Path, v: Node) {
    && StreamClean(al.streams, v)
    && (v.Str? ==> StateClean(al.stateDirs, v.s))
    && (al.keysDone && p == ModuleList && v.List? ==>
          forall i | 0 <= i < |v.items| :: v.items[i].Str? ==> v.items[i].s !in Olds(al.modules))
  }

  lemma UnlistedSettled(al: Aliases, p: Path, v: Node)
    requires Separated(al)
    ensures Settled(al, p, Unlisted(al, p, v))
  {
    var w := Restate(al.stateDirs, Restream(al.streams, v));
    StreamedClean(al, v);
    if p == ModuleList && w.List? {
      ModuleNamesClean(if al.keysDone then al.modules else [], al.streams, w.items);
    }
  }

  lemma RewrittenValueClean(al: Aliases, p: Path, v: Node)
    requires Separated(al)
    ensures ValueClean(al, p, RewrittenValue(al, p, v))
  {
    var w := Unlisted(al, p, v);
    UnlistedSettled(al, p, v);
    ListedValueCases(al.values, p, w);
    assert RewrittenValue(al, p, v) == ListedValue(al.values, p, w);
  }

  /** A rewritten module list holds what the list held, names for names. */
  lemma ModuleListStaysHashable(al: Aliases, t: Node)
    requires TablesOk(al) && t.Table? && RewriteValues(al, t).Ok? && al.keysDone
    ensures !Unhashables(RewriteValues(al, t).value)
  {
    var n := RewriteValues(al, t).value;
    var f, g := v => Restream(al.streams, v), v => Restate(al.stateDirs, v);
    var t5 := MapValues(t, f);
    var t6 := MapValues(t5, g);
    if HasModuleList(n) {
      assert Leaf(n, ModuleList).Some?;
      ReplaceListedLeaf(al.values, MapModuleList(al.modules, t6), ModuleList);
      ModuleListLeaf(al.modules, t6, ModuleList);
      ListedValueCases(al.values, ModuleList, Leaf(MapModuleList(al.modules, t6), ModuleList).value);
      assert HasModuleList(t6);
      var items := At(t6, ModuleList).value.items;
      assert At(n, ModuleList).value.items == ModuleNames(al.modules, items);
      assert forall i | 0 <= i < |items| :: items[i] in items;
    }
  }

  // ------------------------------------------------------------------ the guarantees

  lemma NamesCleanBelow(al: Aliases, s: Node, n: Node)
    requires NamesClean(al, s) && forall p | Exists(n, p) :: Exists(s, p)
    ensures NamesClean(al, n)
  {}

  lemma RewrittenNamesClean(al: Aliases, s: Node)
    requires TablesOk(al) && s.Table? && RewriteValues(al, s).Ok? && NamesClean(al, s)
    ensures NamesClean(al, RewriteValues(al, s).value)
  {
    var n := RewriteValues(al, s).value;
    forall p | Exists(n, p) ensures Exists(s, p) { RewrittenExists(al, s, p); }
    NamesCleanBelow(al, s, n);
  }

  lemma RewrittenValuesClean(al: Aliases, s: Node)
    requires TablesOk(al) && Separated(al) && s.Table? && RewriteValues(al, s).Ok?
    ensures var n := RewriteValues(al, s).value; forall p | Leaf(n, p).Some? :: ValueClean(al, p, Leaf(n, p).value)
  {
    var n := RewriteValues(al, s).value;
    forall p | Leaf(n, p).Some? ensures ValueClean(al, p, Leaf(n, p).value) {
      RewrittenLeaf(al, s, p);
      RewrittenValueClean(al, p, Leaf(s, p).value);
    }
  }

  /** A normalised layer has no old name left in any position the aliases govern. */
  lemma NormalizeLeavesNoOldName(al: Aliases, t: Node)
    requires TablesOk(al) && Separated(al) && !al.Inert() && Normalize(al, t).Ok?
    ensures Clean(al, Normalize(al, t).value)
  {
    var s := RenameAll(al, t).value;
    RenamingCleansNames(al, t);
    RewrittenNamesClean(al, s);
    RewrittenValuesClean(al, s);
    if al.keysDone { ModuleListStaysHashable(al, s); }
  }

  /** Normalising twice is normalising once. */
  lemma NormalizeIdempotent(al: Aliases, t: Node)
    requires TablesOk(al) && Separated(al) && Normalize(al, t).Ok?
    ensures Normalize(al, Normalize(al, t).value) == Normalize(al, t)
  {
    if !al.Inert() {
      NormalizeLeavesNoOldName(al, t);
      CleanLayerStays(al, Normalize(al, t).value);
    }
  }

  /** A state path in the layer comes out under the new directory name. */
  lemma NormalizedStatePath(al: Aliases, t: Node, p: Path, e: Alias, tail: string)
    requires TablesOk(al) && Separated(al) && !al.Inert() && t.Table? && Normalize(al, t).Ok? && KeepsValues(al, t)
    requires e in al.stateDirs && (tail == "" || tail[0] == '/')
    requires Leaf(t, p) == Some(Str("state/" + e.was + tail))
    requires forall v | v in al.values && v.path == NewPath(al, p) :: v.was != "state/" + e.now + tail
    ensures Leaf(Normalize(al, t).value, NewPath(al, p)) == Some(Str("state/" + e.now + tail))
  {
    var former, current := "state/" + e.was + tail, "state/" + e.now + tail;
    NormalizeCarriesExactly(al, t);
    RestreamIs(al.streams, Str(former));
    NewNameCases(al.streams, former);
    assert "state/" <= former;
    StatePathRenames(al.stateDirs, e, tail);
    NoneListed(al.values, NewPath(al, p), Str(current));
  }

  lemma OneAlias(a: Alias)
    requires a.was != a.now
    ensures WellFormed([a]) && Olds([a]) == {a.was} && News([a]) == {a.now}
  {
    assert [a][0].was in Olds([a]) && [a][0].now in News([a]);
  }

  /** An entry of each kind, as shipped. */
  const Sample: Aliases := Aliases(
    [Alias("soma", "interoception")],
    [PathAlias(["perception_feed", "womb"], ["perception_feed", "stimulus_source"])],
    [Alias("soma_stream", "interoception_stream")],
    [Alias("soma.out", "interoception.out")],
    [Alias("soma", "interoception")],
    true,
    [Alias("soma", "interoception")],
    [ValueAlias(["perception_feed", "mode"], "womb", "stimulus_source")])

  lemma SampleDotted(d: PathAlias)
    requires d in Sample.dotted
    ensures !MayCreate(d, d.was) && !MayCreate(d, ["soma"]) && !MayCreate(d, ["modules", "soma"])
    ensures forall i | 0 <= i < |d.was| :: d.was[i] != "interoception_stream"
  {
    assert d.was[0] == d.now[0] == "perception_feed" && |"perception_feed"| == 15;
    assert |d.was[1]| == 4 && |d.now[1]| == 15 && |"soma"| == 4 && |"modules"| == 7;
  }

  lemma SampleValue(v: ValueAlias)
    requires v in Sample.values
    ensures v.path != [] && v.now != "soma.out" && v.now != v.was && StateClean(Sample.stateDirs, v.now)
  {
    assert |v.now| == 15 && |v.was| == 4 && v.now[1] == 't' && v.now[2] == 'i' && "state/"[2] == 'a';
  }

  lemma SampleNames()
    ensures WellFormed(Sample.single) && WellFormed(Sample.keys) && WellFormed(Sample.streams)
    ensures Olds(Sample.single) == {"soma"} && News(Sample.single) == {"interoception"}
    ensures Olds(Sample.streams) == {"soma.out"} && News(Sample.keys) == {"interoception_stream"}
  {
    assert |"soma"| == 4 && |"interoception"| == 13 && |"interoception_stream"| == 20 && |"soma_stream"| == 11;
    assert |"soma.out"| == 8 && |"interoception.out"| == 17;
    OneAlias(Sample.single[0]);
    OneAlias(Sample.keys[0]);
    OneAlias(Sample.streams[0]);
  }

  lemma SampleNamesApart()
    ensures NamesApart(Sample)
  {
    SampleNames();
    assert |"soma"| == 4 && |"modules"| == 7 && |"soma.out"| == 8;
    assert |"interoception_stream"| == 20 && |"interoception"| == 13;
    assert "soma.out"[1] == 'o' && "state/"[1] == 't';
    forall e | e in Sample.stateDirs ensures NoSlash(e.was) && NoSlash(e.now) { assert e == Sample.stateDirs[0]; }
  }

  lemma SamplePathsApart()
    ensures PathsApart(Sample) && PathsOk(Sample.dotted)
  {
    SampleNames();
    forall d, e | d in Sample.dotted && e in Sample.dotted ensures !MayCreate(e, d.was) {
      assert d == e;
      SampleDotted(d);
    }
    forall d | d in Sample.dotted
      ensures !MayCreate(d, ["soma"]) && !MayCreate(d, ["modules", "soma"])
      ensures forall i | 0 <= i < |d.was| :: d.was[i] != "interoception_stream"
    {
      SampleDotted(d);
    }
  }

  lemma SampleValuesApart()
    ensures ValuesApart(Sample) && forall v | v in Sample.values :: v.path != []
  {
    SampleNames();
    forall v, w | v in Sample.values && w in Sample.values ensures v == w {}
    forall v | v in Sample.values
      ensures v.path != [] && v.now != "soma.out" && v.now != v.was && StateClean(Sample.stateDirs, v.now)
    {
      SampleValue(v);
    }
  }

  /** Alias tables of every kind can be consistent and separated at once. */
  lemma SampleIsSeparated()
    ensures TablesOk(Sample) && Separated(Sample) && !Sample.Inert()
  {
    SampleNames();
    SampleNamesApart();
    SamplePathsApart();
    SampleValuesApart();
  }
}
