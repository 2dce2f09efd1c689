/** The imperative form of normalize_config_layer (kaine/legacy_aliases.py:155-339): checks, then passes
    that edit the layer one alias at a time. */
module LayerNormalizer {
  import opened Wrappers
  import opened ConfigTree
  import opened AliasTable
  import opened TablePaths
  import opened LegacyAliases

  /** Whether some alias is set under both names in one table. */
  method BothSet(keys: set<string>, es: seq<Alias>) returns (both: bool)
    ensures both == Clash(keys, es)
  {
    for i := 0 to |es|
      invariant forall j | 0 <= j < i :: !(es[j].was in keys && es[j].now in keys)
    {
      if es[i].was in keys && es[i].now in keys {
        return true;
      }
    }
    both := false;
  }

  /** The walk over every table of the layer as it was read. */
  method BothSetAnywhere(t: Node, es: seq<Alias>) returns (both: bool)
    ensures both == DeepClash(es, t)
    decreases t
  {
    if !t.Table? {
      return false;
    }
    both := BothSet(t.entries.Keys, es);
    if both {
      return;
    }
    var todo := t.entries.Keys;
    while todo != {}
      invariant todo <= t.entries.Keys
      invariant forall k | k in t.entries && k !in todo :: !DeepClash(es, t.entries[k])
      decreases |todo|
    {
      var k :| k in todo;
      var below := BothSetAnywhere(t.entries[k], es);
      if below {
        return true;
      }
      todo := todo - {k};
    }
  }

  method DottedBothSet(t: Node, es: seq<PathAlias>) returns (both: bool)
    ensures both == exists i :: 0 <= i < |es| && Exists(t, es[i].was) && Exists(t, es[i].now)
  {
    for i := 0 to |es|
      invariant forall j | 0 <= j < i :: !(Exists(t, es[j].was) && Exists(t, es[j].now))
    {
      if Exists(t, es[i].was) && Exists(t, es[i].now) {
        return true;
      }
    }
    both := false;
  }

  method CheckLayer(al: Aliases, t: Node) returns (twice: bool)
    requires t.Table?
    ensures twice == SetTwice(al, t)
  {
    twice := BothSet(t.entries.Keys, al.single);
    if !twice { twice := DottedBothSet(t, al.dotted); }
    if !twice && HasFlags(t) { twice := BothSet(t.entries["modules"].entries.Keys, al.single); }
    if !twice { twice := BothSetAnywhere(t, al.keys); }
  }

  /** Key aliases, table by table. */
  method AliasKeys(es: seq<Alias>, t: Node) returns (r: Result<Node, NormalizeError>)
    requires WellFormed(es)
    ensures r == if DeepClash(es, t) then Err(Conflict) else Ok(RenameKeys(es, t))
    decreases t
  {
    if !t.Table? {
      return Ok(t);
    }
    var below: map<string, Node> := map[];
    var todo := t.entries.Keys;
    while todo != {}
      invariant todo <= t.entries.Keys && below.Keys == t.entries.Keys - todo
      invariant forall k | k in below :: !DeepClash(es, t.entries[k]) && below[k] == RenameKeys(es, t.entries[k])
      decreases |todo|
    {
      var k :| k in todo;
      var child := AliasKeys(es, t.entries[k]);
      if child.Err? {
        return Err(Conflict);
      }
      below := below[k := child.value];
      todo := todo - {k};
    }
    assert below == KeysBelow(es, t.entries);
    var renamed := RenameInPlace(below, es);
    r := if renamed.Ok? then Ok(Table(renamed.value)) else Err(Conflict);
  }

  /** The names of the module list, one at a time; a table or a list among them raises. */
  method MapModules(es: seq<Alias>, items: seq<Node>, keysDone: bool) returns (r: Result<seq<Node>, NormalizeError>)
    ensures r == if keysDone && (exists x | x in items :: x.List? || x.Table?) then Err(Unhashable)
                 else Ok(ModuleNames(if keysDone then es else [], items))
  {
    var mapped := [];
    for i := 0 to |items|
      invariant mapped == ModuleNames(if keysDone then es else [], items[..i])
      invariant keysDone ==> forall j | 0 <= j < i :: !items[j].List? && !items[j].Table?
    {
      if keysDone && (items[i].List? || items[i].Table?) {
        return Err(Unhashable);
      }
      mapped := mapped + [ModuleName(if keysDone then es else [], items[i])];
    }
    assert items[..|items|] == items;
    r := Ok(mapped);
  }

  method ReplaceValues(vs: seq<ValueAlias>, t: Node) returns (r: Node)
    requires t.Table? && forall v | v in vs :: v.path != []
    ensures r == ReplaceListed(vs, t)
  {
    r := t;
    assert vs[0..] == vs;
    for i := 0 to |vs|
      invariant r.Table? && ReplaceListed(vs, t) == ReplaceListed(vs[i..], r)
    {
      assert vs[i..][1..] == vs[i + 1..];
      if At(r, vs[i].path) == Some(Str(vs[i].was)) {
        r := Set(r, vs[i].path, Str(vs[i].now));
      }
    }
  }

  method RenameTables(al: Aliases, t: Node) returns (r: Result<Node, NormalizeError>)
    requires TablesOk(al) && t.Table?
    ensures r == RenameAll(al, t)
  {
    var twice := CheckLayer(al, t);
    if twice {
      return Err(Conflict);
    }
    var top := RenameInPlace(t.entries, al.single);
    var result := Table(top.value);
    if HasFlags(result) {
      var flags := RenameInPlace(result.entries["modules"].entries, al.single);
      if flags.Err? {
        return Err(Conflict);
      }
      result := Table(result.entries["modules" := Table(flags.value)]);
    }
    assert result == RenameFlags(al.single, RenameTop(al.single, t));
    var moved := MoveTables(result, al.dotted);
    if moved.Err? {
      return moved;
    }
    r := AliasKeys(al.keys, moved.value);
  }

  method RewriteTables(al: Aliases, t: Node) returns (r: Result<Node, NormalizeError>)
    requires TablesOk(al) && t.Table?
    ensures r == RewriteValues(al, t)
  {
    var result := MapValues(t, v => Restream(al.streams, v));
    result := MapValues(result, v => Restate(al.stateDirs, v));
    if HasModuleList(result) {
      var names := MapModules(al.modules, At(result, ModuleList).value.items, al.keysDone);
      if names.Err? {
        return Err(names.error);
      }
      result := Set(result, ModuleList, List(names.value));
    }
    result := ReplaceValues(al.values, result);
    r := Ok(result);
  }

  /** The passes in the order of the source make the function whose meaning the other modules prove. */
  method NormalizeConfigLayer(al: Aliases, layer: Node) returns (r: Result<Node, NormalizeError>)
    requires TablesOk(al)
    ensures r == Normalize(al, layer)
  {
    if !layer.Table? {
      return Err(NotATable);
    }
    if al.Inert() {
      return Ok(layer);
    }
    r := RenameTables(al, layer);
    if r.Ok? {
      r := RewriteTables(al, r.value);
    }
  }
}
