/**
 * Loading the layered configuration (kaine/config.py, _load_merged_config): each layer is read
 * with old or new names, the tier and study layers are guarded, the layers are merged in order, and
 * the result has to have the shape the runtime relies on.
 */
module LoadConfig {
  import opened Wrappers
  import opened ConfigTree
  import opened AliasTable
  import opened TablePaths
  import opened LegacyAliases
  import opened DeepMerge
  import opened ConfigShape

  /** The parsed layers of one load; a layer that is not selected, or an operator file that does
      not exist, is absent.  `tierIsProfile`: the tier and the profile are the same file. */
  datatype Sources = Sources(
    shipped: Node,
    profile: Option<Node>,
    tier: Option<Node>,
    tierIsProfile: bool,
    operator: Option<Node>,
    study: Option<Node>)

  datatype LoadError = ProfileError | TypeError | ShapeError

  const StudyTables: set<string> := {
    "language", "workspace", "experiment", "individuation",
    "planned_test", "positive_control", "audition", "supervisor" }

  /** The tables a study may set only partly, with the one key it may set. */
  const StudyKeys: map<string, string> := map["audition" := "tone_rule", "supervisor" := "enabled"]

  const Enabled: Path := ["supervisor", "enabled"]
  const Oscillator: Path := ["oscillator", "enabled"]

  function Layer(al: Aliases, raw: Node): (r: Result<Node, LoadError>)
    requires TablesOk(al)
  {
    match Normalize(al, raw)
    case Ok(n) => Ok(n)
    case Err(Conflict) => Err(ProfileError)
    case Err(_) => Err(TypeError)
  }

  // ------------------------------------------------------------------ guards

  predicate TierSetsModules(n: Node) {
    n.Table? &&
    ("modules" in n.entries ||
     ("oscillator" in n.entries && n.entries["oscillator"].Table? && "enabled" in n.entries["oscillator"].entries))
  }

  predicate SectionAllowed(n: Node, table: string, key: string)
    requires n.Table?
  { table in n.entries ==> n.entries[table].Table? && n.entries[table].entries.Keys <= {key} }

  predicate StudyAllowed(n: Node) {
    && n.Table?
    && n.entries.Keys <= StudyTables
    && (forall t | t in StudyKeys :: SectionAllowed(n, t, StudyKeys[t]))
    && (At(n, Enabled).Some? ==> At(n, Enabled) == Some(Bool(true)))
  }

  function TierLayer(al: Aliases, s: Sources): Result<Node, LoadError>
    requires TablesOk(al) && s.tier.Some?
  {
    var raw := s.tier.value;
    if !raw.Table? || "tier" !in raw.entries then Err(ProfileError)
    else
      match Layer(al, raw)
      case Err(e) => Err(e)
      case Ok(n) => if !s.tierIsProfile && TierSetsModules(n) then Err(ProfileError) else Ok(n)
  }

  function StudyLayer(al: Aliases, raw: Node): Result<Node, LoadError>
    requires TablesOk(al)
  {
    match Layer(al, raw)
    case Err(e) => Err(e)
    case Ok(n) => if StudyAllowed(n) then Ok(n) else Err(ProfileError)
  }

  /** How the reading of one layer fails: on something that is no table, on an item set under both its old
      and its new name, or on a module list with an entry that cannot be looked up. */
  lemma LayerErrors(al: Aliases, raw: Node)
    requires TablesOk(al)
    ensures !raw.Table? ==> Layer(al, raw) == Err(TypeError)
    ensures raw.Table? && !al.Inert() && SetTwice(al, raw) ==> Layer(al, raw) == Err(ProfileError)
    ensures raw.Table? && !al.Inert() && RenameAll(al, raw).Ok? ==>
              (Layer(al, raw) == Err(TypeError) <==> RewriteValues(al, RenameAll(al, raw).value).Err?)
    ensures raw.Table? && !al.Inert() && RenameAll(al, raw).Err? ==> Layer(al, raw) == Err(ProfileError)
    ensures Layer(al, raw).Ok? <==> Normalize(al, raw).Ok?
  {
    if raw.Table? && RenameAll(al, raw).Err? { RenamingConflicts(al, raw); }
  }

  lemma RenamingConflicts(al: Aliases, raw: Node)
    requires TablesOk(al) && raw.Table? && RenameAll(al, raw).Err?
    ensures RenameAll(al, raw) == Err(Conflict)
  {
    if !SetTwice(al, raw) { MovesConflict(Unmoved(al, raw), al.dotted); }
  }

  lemma {:induction false} MovesConflict(t: Node, es: seq<PathAlias>)
    requires t.Table? && PathsOk(es)
    ensures MoveAll(t, es).Err? ==> MoveAll(t, es) == Err(Conflict)
    decreases es
  {
    if es != [] {
      assert es[0] in es;
      if Exists(t, es[0].was) && !Exists(t, es[0].now) {
        MovesConflict(Move(t, es[0]), es[1..]);
      } else if !Exists(t, es[0].was) {
        MovesConflict(t, es[1..]);
      }
    }
  }

  /** A tier is refused exactly for setting [modules] or [oscillator].enabled. */
  lemma TierRefusedExactly(tier: Node)
    requires tier.Table?
    ensures TierSetsModules(tier) <==> Exists(tier, ["modules"]) || Exists(tier, Oscillator)
  {
    var rest := Oscillator[1..];
    assert ["modules"][1..] == [] && rest == ["enabled"] && rest[1..] == [];
    assert "modules" in tier.entries ==> At(tier, ["modules"]) == At(tier.entries["modules"], []);
    if "oscillator" in tier.entries {
      var o := tier.entries["oscillator"];
      assert At(tier, Oscillator) == At(o, rest);
      assert o.Table? && "enabled" in o.entries ==> At(o, rest) == At(o.entries["enabled"], []);
    }
  }

  /** What may stand at a path a study sets. */
  predicate StudyEntryOk(p: Path, v: Node)
    requires p != []
  {
    match p[0]
    case "language" => true
    case "workspace" => true
    case "experiment" => true
    case "individuation" => true
    case "planned_test" => true
    case "positive_control" => true
    case "audition" => if |p| == 1 then v.Table? else p[1] == "tone_rule"
    case "supervisor" => if |p| == 1 then v.Table? else p[1] == "enabled" && (|p| == 2 ==> v == Bool(true))
    case _ => false
  }

  lemma StudySection(study: Node, k: string)
    requires study.Table? && k in study.entries
    ensures At(study, [k]) == Some(study.entries[k])
    ensures study.entries[k].Table?
        ==> forall j | j in study.entries[k].entries :: At(study, [k, j]) == Some(study.entries[k].entries[j])
  {
    var w := study.entries[k];
    assert [k][1..] == [];
    if w.Table? {
      forall j | j in w.entries ensures At(study, [k, j]) == Some(w.entries[j]) {
        assert [k, j][1..] == [j] && [j][1..] == [];
        assert At(study, [k, j]) == At(w, [j]) == At(w.entries[j], []);
      }
    }
  }

  /** A study is accepted exactly when it sets nothing but its six tables, [audition].tone_rule and
      [supervisor].enabled, and that to true. */
  lemma StudyAcceptedExactly(study: Node)
    requires study.Table?
    ensures StudyAllowed(study) <==> forall p | p != [] && Exists(study, p) :: StudyEntryOk(p, At(study, p).value)
  {
    if StudyAllowed(study) {
      forall p | p != [] && Exists(study, p) ensures StudyEntryOk(p, At(study, p).value) { StudyPathAccepted(study, p); }
    }
    if forall p | p != [] && Exists(study, p) :: StudyEntryOk(p, At(study, p).value) { StudyPathsAccepted(study); }
  }

  lemma StudyPathAccepted(study: Node, p: Path)
    requires StudyAllowed(study) && p != [] && Exists(study, p)
    ensures StudyEntryOk(p, At(study, p).value)
  {
    var k, w := p[0], study.entries[p[0]];
    assert At(study, p) == At(w, p[1..]);
    StudySection(study, k);
    if |p| == 1 { assert p[1..] == []; }
    if |p| >= 2 { assert p[1..][0] == p[1]; }
    if k == "audition" {
      assert SectionAllowed(study, "audition", StudyKeys["audition"]);
    } else if k == "supervisor" {
      assert SectionAllowed(study, "supervisor", StudyKeys["supervisor"]);
      if |p| == 2 { assert p == Enabled; }
    }
  }

  lemma StudyPathsAccepted(study: Node)
    requires study.Table? && forall p | p != [] && Exists(study, p) :: StudyEntryOk(p, At(study, p).value)
    ensures StudyAllowed(study)
  {
    forall k | k in study.entries ensures k in StudyTables {
      StudySection(study, k);
      assert StudyEntryOk([k], At(study, [k]).value);
    }
    forall t | t in StudyKeys ensures SectionAllowed(study, t, StudyKeys[t]) {
      if t in study.entries {
        StudySection(study, t);
        assert StudyEntryOk([t], At(study, [t]).value);
        forall j | j in study.entries[t].entries ensures j == StudyKeys[t] {
          assert StudyEntryOk([t, j], At(study, [t, j]).value);
        }
      }
    }
    if At(study, Enabled).Some? { assert StudyEntryOk(Enabled, At(study, Enabled).value); }
  }

  // ------------------------------------------------------------------ the load

  /** The next layer over what is merged so far; the first error stops the load. */
  function Over(merged: Result<Node, LoadError>, layer: Result<Node, LoadError>): Result<Node, LoadError> {
    if merged.Err? then merged else if layer.Err? then layer else Ok(Merge(merged.value, layer.value))
  }

  function Below(al: Aliases, s: Sources): Result<Node, LoadError>
    requires TablesOk(al)
  {
    var shipped := Layer(al, s.shipped);
    if s.profile.Some? then Over(shipped, Layer(al, s.profile.value)) else shipped
  }

  function WithTier(al: Aliases, s: Sources): Result<Node, LoadError>
    requires TablesOk(al)
  {
    var merged := Below(al, s);
    if s.tier.None? || merged.Err? then merged
    else
      match TierLayer(al, s)
      case Err(e) => Err(e)
      case Ok(n) => if s.tierIsProfile then merged else Over(merged, Ok(n))
  }

  function WithOperator(al: Aliases, s: Sources): Result<Node, LoadError>
    requires TablesOk(al)
  {
    if s.operator.Some? then Over(WithTier(al, s), Layer(al, s.operator.value)) else WithTier(al, s)
  }

  /** All the layers, not yet checked. */
  function Merged(al: Aliases, s: Sources): Result<Node, LoadError>
    requires TablesOk(al)
  {
    if s.study.Some? then Over(WithOperator(al, s), StudyLayer(al, s.study.value)) else WithOperator(al, s)
  }

  function Shaped(merged: Result<Node, LoadError>): Result<Node, LoadError> {
    if merged.Ok? && !ShapeOk(merged.value) then Err(ShapeError) else merged
  }

  function Load(al: Aliases, s: Sources): Result<Node, LoadError>
    requires TablesOk(al)
  { Shaped(Merged(al, s)) }

  /** Merging with the source's loop. */
  method MergeOver(base: Node, over: Node) returns (merged: Node)
    requires base.Table? && over.Table?
    ensures merged == Merge(base, over) && merged.Table?
  {
    var entries := DeepMerge.DeepMerge(base.entries, over.entries);
    merged := Table(entries);
  }

  lemma NormalTable(al: Aliases, raw: Node)
    requires TablesOk(al) && Normalize(al, raw).Ok?
    ensures Normalize(al, raw).value.Table?
  {}

  lemma LayerTable(al: Aliases, raw: Node)
    requires TablesOk(al) && Layer(al, raw).Ok?
    ensures Layer(al, raw).value.Table?
  {
    NormalTable(al, raw);
  }

  /** The source's sequence of assignments to `merged`. */
  method LoadMergedConfig(al: Aliases, s: Sources) returns (r: Result<Node, LoadError>)
    requires TablesOk(al)
    ensures r == Load(al, s)
  {
    var shipped := Layer(al, s.shipped);
    if shipped.Err? {
      return shipped;
    }
    LayerTable(al, s.shipped);
    var merged := shipped.value;
    if s.profile.Some? {
      var profile := Layer(al, s.profile.value);
      if profile.Err? {
        return profile;
      }
      LayerTable(al, s.profile.value);
      merged := MergeOver(merged, profile.value);
    }
    assert Below(al, s) == Ok(merged);
    if s.tier.Some? {
      if !s.tier.value.Table? || "tier" !in s.tier.value.entries {
        return Err(ProfileError);
      }
      var tier := Layer(al, s.tier.value);
      if tier.Err? {
        return tier;
      }
      LayerTable(al, s.tier.value);
      if !s.tierIsProfile {
        if TierSetsModules(tier.value) {
          return Err(ProfileError);
        }
        merged := MergeOver(merged, tier.value);
      }
    }
    assert WithTier(al, s) == Ok(merged);
    if s.operator.Some? {
      var operator := Layer(al, s.operator.value);
      if operator.Err? {
        return operator;
      }
      LayerTable(al, s.operator.value);
      merged := MergeOver(merged, operator.value);
    }
    assert WithOperator(al, s) == Ok(merged);
    if s.study.Some? {
      var study := Layer(al, s.study.value);
      if study.Err? {
        return study;
      }
      LayerTable(al, s.study.value);
      if !StudyAllowed(study.value) {
        return Err(ProfileError);
      }
      merged := MergeOver(merged, study.value);
    }
    assert Merged(al, s) == Ok(merged);
    if !ShapeOk(merged) {
      return Err(ShapeError);
    }
    r := Ok(merged);
  }

  // ------------------------------------------------------------------ what the guards are for

  lemma MergeKey(base: Node, over: Node, k: string)
    requires base.Table? && over.Table?
    ensures At(Merge(base, over), [k]) ==
            if k !in over.entries then At(base, [k])
            else Some(Merge(if k in base.entries then base.entries[k] else EmptyTable, over.entries[k]))
  {}

  lemma SameKeyBelow(a: Node, b: Node, over: Node, k: string)
    requires a.Table? && b.Table? && over.Table? && At(a, [k]) == At(b, [k])
    ensures At(Merge(a, over), [k]) == At(Merge(b, over), [k])
  {
    MergeKey(a, over, k);
    MergeKey(b, over, k);
  }

  /** The operator and study layers over two bases that agree on a table. */
  function Above(al: Aliases, s: Sources, base: Node): Result<Node, LoadError>
    requires TablesOk(al)
  {
    var operated := if s.operator.Some? then Over(Ok(base), Layer(al, s.operator.value)) else Ok(base);
    if s.study.Some? then Over(operated, StudyLayer(al, s.study.value)) else operated
  }

  lemma AboveAgrees(al: Aliases, s: Sources, a: Node, b: Node, k: string)
    requires TablesOk(al) && a.Table? && b.Table? && At(a, [k]) == At(b, [k])
    ensures Above(al, s, a).Ok? == Above(al, s, b).Ok?
    ensures Above(al, s, a).Ok? ==> At(Above(al, s, a).value, [k]) == At(Above(al, s, b).value, [k])
  {
    if s.operator.Some? && Layer(al, s.operator.value).Ok? {
      LayerTable(al, s.operator.value);
      SameKeyBelow(a, b, Layer(al, s.operator.value).value, k);
    }
    if s.study.Some? && StudyLayer(al, s.study.value).Ok? {
      var operated := if s.operator.Some? then Over(Ok(a), Layer(al, s.operator.value)) else Ok(a);
      var other := if s.operator.Some? then Over(Ok(b), Layer(al, s.operator.value)) else Ok(b);
      if operated.Ok? { SameKeyBelow(operated.value, other.value, StudyLayer(al, s.study.value).value, k); }
    }
  }

  lemma BelowTable(al: Aliases, s: Sources)
    requires TablesOk(al) && Below(al, s).Ok?
    ensures Below(al, s).value.Table?
  {
    LayerTable(al, s.shipped);
    if s.profile.Some? { LayerTable(al, s.profile.value); }
  }

  /** With and without the tier the same layers lie over what the tier is merged into. */
  lemma TierAbove(al: Aliases, s: Sources)
    requires TablesOk(al) && Merged(al, s).Ok?
    ensures Below(al, s).Ok? && Below(al, s).value.Table?
    ensures WithTier(al, s).Ok? && WithTier(al, s).value.Table?
    ensures Merged(al, s) == Above(al, s, WithTier(al, s).value)
    ensures Merged(al, s.(tier := None)) == Above(al, s, Below(al, s).value)
  {
    var bare := s.(tier := None);
    BelowTable(al, s);
    if s.tier.Some? && !s.tierIsProfile { LayerTable(al, s.tier.value); }
    assert Below(al, bare) == Below(al, s) && WithTier(al, bare) == Below(al, s);
  }

  /** What the tier may merge: nothing when it is the profile itself. */
  function TierPart(al: Aliases, s: Sources): Node
    requires TablesOk(al)
  {
    if s.tier.Some? && !s.tierIsProfile && TierLayer(al, s).Ok? then TierLayer(al, s).value else EmptyTable
  }

  lemma TierKey(al: Aliases, s: Sources, k: string)
    requires TablesOk(al) && Merged(al, s).Ok?
    requires TierPart(al, s).Table? ==> k !in TierPart(al, s).entries
    ensures Merged(al, s.(tier := None)).Ok?
    ensures At(Merged(al, s.(tier := None)).value, [k]) == At(Merged(al, s).value, [k])
  {
    TierAbove(al, s);
    var base := Below(al, s).value;
    if s.tier.Some? && !s.tierIsProfile {
      LayerTable(al, s.tier.value);
      MergeKey(base, TierLayer(al, s).value, k);
    }
    AboveAgrees(al, s, base, WithTier(al, s).value, k);
  }

  /** Which modules run does not depend on the deployment tier: where both loads succeed, their
      [modules] tables are the same; and when a load succeeds with a tier, it fails without it at most
      for its shape, exactly when a section the tier sets would have the wrong one. */
  lemma TierKeepsModules(al: Aliases, s: Sources)
    requires TablesOk(al) && Load(al, s).Ok?
    ensures var bare := Load(al, s.(tier := None));
            && (bare.Ok? ==> At(bare.value, ["modules"]) == At(Load(al, s).value, ["modules"]))
            && (bare.Err? ==> bare == Err(ShapeError))
    ensures Merged(al, s.(tier := None)).Ok?
    ensures Load(al, s.(tier := None)).Ok? <==>
            forall k | k in Sections && TierPart(al, s).Table? && k in TierPart(al, s).entries ::
              SectionFits(Merged(al, s.(tier := None)).value, k)
  {
    var tier := TierPart(al, s);
    if tier.Table? { assert "modules" !in tier.entries; }
    TierKey(al, s, "modules");
    var bare := Merged(al, s.(tier := None)).value;
    AboveTable(al, s);
    forall k | k in Sections && !(tier.Table? && k in tier.entries) ensures SectionFits(bare, k) {
      TierKey(al, s, k);
      SameSection(bare, Load(al, s).value, k);
    }
  }

  lemma MergedTable(al: Aliases, s: Sources)
    requires TablesOk(al) && Merged(al, s).Ok?
    ensures Merged(al, s).value.Table?
  {
    OperatorTable(al, s);
    if s.study.Some? { LayerTable(al, s.study.value); }
  }

  lemma AboveTable(al: Aliases, s: Sources)
    requires TablesOk(al) && Merged(al, s).Ok? && Merged(al, s.(tier := None)).Ok?
    ensures Merged(al, s).value.Table? && Merged(al, s.(tier := None)).value.Table?
  {
    MergedTable(al, s);
    MergedTable(al, s.(tier := None));
  }

  // ------------------------------------------------------------------ the tier and the oscillator

  predicate ReplacesOscillator(tier: Node) {
    tier.Table? && "oscillator" in tier.entries && !tier.entries["oscillator"].Table?
  }

  /** One merge keeps [oscillator].enabled exactly while the tier gives no value in place of the table. */
  lemma TierOverOscillator(base: Node, tier: Node)
    requires tier.Table? && !TierSetsModules(tier)
    ensures Leaf(Merge(base, tier), Oscillator) == Leaf(base, Oscillator)
            <==> !ReplacesOscillator(tier) || Leaf(base, Oscillator) == None
  {
    assert Oscillator[1..] == ["enabled"];
    MergeLeaf(base, tier, Oscillator);
    if "oscillator" in tier.entries {
      var o := tier.entries["oscillator"];
      assert At(tier, Oscillator) == At(o, ["enabled"]) && Blocks(tier, Oscillator) == Blocks(o, ["enabled"]);
    }
  }

  /** A layer under which the oscillator section still fits leaves room for [oscillator].enabled. */
  lemma FittingLayer(base: Node, over: Node)
    requires base.Table? && over.Table? && SectionFits(Merge(base, over), "oscillator")
    ensures !Blocks(over, Oscillator)
  {
    assert Oscillator[1..] == ["enabled"];
    if "oscillator" in over.entries {
      var o := over.entries["oscillator"];
      var below := if "oscillator" in base.entries then base.entries["oscillator"] else EmptyTable;
      assert Merge(base, over).entries["oscillator"] == Merge(below, o);
      assert OscillatorOk(Merge(below, o));
      assert Blocks(over, Oscillator) == Blocks(o, ["enabled"]);
      if "enabled" in o.entries {
        assert Merge(below, o).entries["enabled"].Table? == o.entries["enabled"].Table?;
        assert Blocks(o, ["enabled"]) == Blocks(o.entries["enabled"], ["enabled"][1..]);
      }
    }
  }

  ghost predicate OperatorSetsOscillator(al: Aliases, s: Sources)
    requires TablesOk(al)
  {
    && s.operator.Some? && Layer(al, s.operator.value).Ok?
    && Leaf(Layer(al, s.operator.value).value, Oscillator).Some?
  }

  /** Over what the tier left, only the operator can say more of [oscillator].enabled. */
  lemma AboveOscillator(al: Aliases, s: Sources, base: Node)
    requires TablesOk(al) && base.Table? && Above(al, s, base).Ok? && ShapeOk(Above(al, s, base).value)
    ensures Leaf(Above(al, s, base).value, Oscillator) ==
            if OperatorSetsOscillator(al, s) then Leaf(Layer(al, s.operator.value).value, Oscillator)
            else Leaf(base, Oscillator)
  {
    var operated := if s.operator.Some? then Over(Ok(base), Layer(al, s.operator.value)) else Ok(base);
    var merged := Above(al, s, base).value;
    assert SectionFits(merged, "oscillator") by { assert "oscillator" in Sections; }
    if s.operator.Some? { LayerTable(al, s.operator.value); }
    if s.study.Some? {
      var study := StudyLayer(al, s.study.value).value;
      StudySetsNoOscillator(study);
      MergeKey(operated.value, study, "oscillator");
      MergeLeaf(operated.value, study, Oscillator);
      LayerTable(al, s.study.value);
      SameSection(merged, operated.value, "oscillator");
    }
    if s.operator.Some? {
      FittingLayer(base, Layer(al, s.operator.value).value);
      MergeLeaf(base, Layer(al, s.operator.value).value, Oscillator);
    }
  }

  lemma StudySetsNoOscillator(study: Node)
    requires StudyAllowed(study)
    ensures "oscillator" !in study.entries && Leaf(study, Oscillator) == None && !Blocks(study, Oscillator)
  {
    assert "oscillator"[0] == 'o';
    assert forall k | k in StudyTables :: k[0] != 'o';
  }

  /** The tier leaves the loaded [oscillator].enabled alone exactly when it gives no value in place of
      the table, or the layers below it do not set the switch, or the operator does. */
  lemma TierKeepsOscillatorExactly(al: Aliases, s: Sources)
    requires TablesOk(al) && Load(al, s).Ok? && Load(al, s.(tier := None)).Ok?
    ensures Leaf(Load(al, s).value, Oscillator) == Leaf(Load(al, s.(tier := None)).value, Oscillator)
            <==> !ReplacesOscillator(TierPart(al, s)) || Leaf(Below(al, s).value, Oscillator) == None
                 || OperatorSetsOscillator(al, s)
  {
    TierAbove(al, s);
    AboveOscillator(al, s, WithTier(al, s).value);
    AboveOscillator(al, s, Below(al, s).value);
    if s.tier.Some? && !s.tierIsProfile {
      LayerTable(al, s.tier.value);
      TierOverOscillator(Below(al, s).value, TierLayer(al, s).value);
    }
  }

  // ------------------------------------------------------------------ what the study may do

  /** A place a study may write. */
  ghost predicate StudyMayTouch(p: Path) {
    p != [] && p[0] in StudyTables && (p[0] in StudyKeys && |p| > 1 ==> p[1] == StudyKeys[p[0]])
  }

  /** A study changes no value outside its tables and keys. */
  lemma StudyTouchesOnlyItsKeys(base: Node, study: Node, p: Path)
    requires base.Table? && StudyAllowed(study) && !StudyMayTouch(p)
    ensures Leaf(Merge(base, study), p) == Leaf(base, p)
  {
    MergeLeaf(base, study, p);
    if p != [] && p[0] in study.entries {
      var t, section := p[0], study.entries[p[0]];
      assert t in StudyTables && t in StudyKeys && p[1] != StudyKeys[t];
      assert SectionAllowed(study, t, StudyKeys[t]);
      assert Leaf(study, p) == Leaf(section, p[1..]) && Blocks(study, p) == Blocks(section, p[1..]);
      assert p[1..][0] == p[1] && p[1] !in section.entries;
    }
  }

  /** All a study can say of [supervisor].enabled is true. */
  lemma StudySupervisor(study: Node)
    requires StudyAllowed(study)
    ensures Leaf(study, Enabled) == None || Leaf(study, Enabled) == Some(Bool(true))
    ensures Leaf(study, Enabled) == None ==> !Blocks(study, Enabled)
  {
    assert Enabled[1..] == ["enabled"];
    if "supervisor" in study.entries {
      var t := study.entries["supervisor"];
      assert "supervisor" in StudyKeys && SectionAllowed(study, "supervisor", StudyKeys["supervisor"]);
      var rest := Enabled[1..];
      assert rest[0] == "enabled" && rest[1..] == [];
      assert At(study, Enabled) == At(t, rest) && Blocks(study, Enabled) == Blocks(t, rest);
      assert "enabled" in t.entries ==> At(t, rest) == Some(t.entries["enabled"]);
    }
  }

  /** A study can switch the module supervisor on and do nothing else to it. */
  lemma StudyOnlySwitchesSupervisorOn(base: Node, study: Node)
    requires base.Table? && StudyAllowed(study)
    ensures var after := Leaf(Merge(base, study), Enabled);
            after == Leaf(base, Enabled) || after == Some(Bool(true))
    ensures Leaf(base, Enabled) == Some(Bool(true)) ==> Leaf(Merge(base, study), Enabled) == Some(Bool(true))
  {
    MergeLeaf(base, study, Enabled);
    StudySupervisor(study);
  }

  /** No section the shape check reads is one a study may set. */
  lemma StudySetsNoSection(study: Node)
    requires StudyAllowed(study)
    ensures forall k | k in Sections :: k !in study.entries
  {
    SectionsAreNotStudied();
  }

  lemma SectionsAreNotStudied()
    ensures Sections !! StudyTables
  {}

  lemma SameBelow(al: Aliases, a: Sources, b: Sources)
    requires TablesOk(al) && a.shipped == b.shipped && a.profile == b.profile
    ensures Below(al, a) == Below(al, b)
  {}

  lemma SameTier(al: Aliases, a: Sources, b: Sources)
    requires TablesOk(al) && Below(al, a) == Below(al, b) && a.tier == b.tier && a.tierIsProfile == b.tierIsProfile
    ensures WithTier(al, a) == WithTier(al, b)
  {
    if a.tier.Some? { assert TierLayer(al, a) == TierLayer(al, b); }
  }

  lemma WithoutStudy(al: Aliases, s: Sources)
    requires TablesOk(al)
    ensures Merged(al, s.(study := None)) == WithOperator(al, s)
  {
    var bare := s.(study := None);
    SameBelow(al, bare, s);
    SameTier(al, bare, s);
  }

  /** In the loaded configuration the study has changed nothing outside its tables and keys, and
      the supervisor is on if it was on without the study; without the study the load succeeds too. */
  lemma LoadedStudyIsConfined(al: Aliases, s: Sources, p: Path)
    requires TablesOk(al) && Load(al, s).Ok? && s.study.Some?
    ensures var bare := Load(al, s.(study := None));
            && bare.Ok?
            && (!StudyMayTouch(p) ==> Leaf(Load(al, s).value, p) == Leaf(bare.value, p))
            && (Leaf(bare.value, Enabled) == Some(Bool(true)) ==> Leaf(Load(al, s).value, Enabled) == Some(Bool(true)))
  {
    var bare, study := WithOperator(al, s).value, StudyLayer(al, s.study.value).value;
    WithoutStudy(al, s);
    OperatorTable(al, s);
    StudySetsNoSection(study);
    forall k | k in Sections ensures At(bare, [k]) == At(Merge(bare, study), [k]) { MergeKey(bare, study, k); }
    SameSections(bare, Merge(bare, study));
    if !StudyMayTouch(p) { StudyTouchesOnlyItsKeys(bare, study, p); }
    StudyOnlySwitchesSupervisorOn(bare, study);
  }

  lemma OperatorTable(al: Aliases, s: Sources)
    requires TablesOk(al) && WithOperator(al, s).Ok?
    ensures WithOperator(al, s).value.Table?
  {
    BelowTable(al, s);
    if s.tier.Some? { LayerTable(al, s.tier.value); }
    if s.operator.Some? { LayerTable(al, s.operator.value); }
  }

  // ------------------------------------------------------------------ what a load means

  function Optional(layer: Option<Node>): seq<Node> { if layer.Some? then [layer.value] else [] }

  ghost function RawBelow(s: Sources): seq<Node> { [s.shipped] + Optional(s.profile) }

  /** The layers that are merged, lowest first, as they were read. */
  ghost function RawLayers(s: Sources): seq<Node> {
    RawBelow(s)
    + Optional(if s.tierIsProfile then None else s.tier)
    + Optional(s.operator)
    + Optional(s.study)
  }

  ghost predicate Normalized(al: Aliases, raws: seq<Node>, ns: seq<Node>)
    requires TablesOk(al)
  { |raws| == |ns| && forall j | 0 <= j < |raws| :: Normalize(al, raws[j]) == Ok(ns[j]) }

  lemma StackSnoc(ns: seq<Node>, n: Node)
    ensures Stack(ns + [n]) == Merge(Stack(ns), n)
  {
    assert (ns + [n])[..|ns|] == ns;
  }

  /** One more layer over a merged stack. */
  lemma NormalizedSnoc(al: Aliases, raws: seq<Node>, ns: seq<Node>, raw: Node)
    requires TablesOk(al) && Normalized(al, raws, ns) && Layer(al, raw).Ok?
    ensures Normalized(al, raws + [raw], ns + [Layer(al, raw).value])
    ensures Stack(ns + [Layer(al, raw).value]) == Merge(Stack(ns), Layer(al, raw).value)
  {
    var n := Layer(al, raw).value;
    StackSnoc(ns, n);
    var raws1, ns1 := raws + [raw], ns + [n];
    forall j | 0 <= j < |raws1| ensures Normalize(al, raws1[j]) == Ok(ns1[j]) {
      if j < |raws| { assert raws1[j] == raws[j] && ns1[j] == ns[j]; }
    }
  }

  ghost predicate StackOf(al: Aliases, raws: seq<Node>, ns: seq<Node>, merged: Result<Node, LoadError>)
    requires TablesOk(al)
  { Normalized(al, raws, ns) && merged == Ok(Stack(ns)) }

  lemma OverStack(al: Aliases, raws: seq<Node>, ns: seq<Node>, below: Result<Node, LoadError>,
                  layer: Option<Node>, merged: Result<Node, LoadError>) returns (all: seq<Node>)
    requires TablesOk(al) && StackOf(al, raws, ns, below) && (layer.Some? ==> Layer(al, layer.value).Ok?)
    requires merged == if layer.Some? then Over(below, Layer(al, layer.value)) else below
    ensures StackOf(al, raws + Optional(layer), all, merged)
  {
    all := ns;
    if layer.Some? {
      NormalizedSnoc(al, raws, ns, layer.value);
      all := ns + [Layer(al, layer.value).value];
    } else {
      assert raws + Optional(layer) == raws;
    }
  }

  lemma BelowIsStack(al: Aliases, s: Sources) returns (ns: seq<Node>)
    requires TablesOk(al) && Below(al, s).Ok?
    ensures StackOf(al, RawBelow(s), ns, Below(al, s))
  {
    var n := Layer(al, s.shipped).value;
    LayerTable(al, s.shipped);
    MergeOverNothing(EmptyTable, n);
    StackSnoc([], n);
    assert [] + [n] == [n];
    ns := OverStack(al, [s.shipped], [n], Layer(al, s.shipped), s.profile, Below(al, s));
  }

  /** A load that succeeds is the merge of its normalised layers, in order. */
  lemma LoadIsStack(al: Aliases, s: Sources) returns (ns: seq<Node>)
    requires TablesOk(al) && Load(al, s).Ok?
    ensures Normalized(al, RawLayers(s), ns) && Load(al, s).value == Stack(ns)
  {
    var tier := if s.tierIsProfile then None else s.tier;
    var raws := RawBelow(s);
    var n1 := BelowIsStack(al, s);
    var n2 := OverStack(al, raws, n1, Below(al, s), tier, WithTier(al, s));
    var n3 := OverStack(al, raws + Optional(tier), n2, WithTier(al, s), s.operator, WithOperator(al, s));
    ns := OverStack(al, raws + Optional(tier) + Optional(s.operator), n3, WithOperator(al, s), s.study, Merged(al, s));
  }

  /** The layer sets the item now called `q`, under its old or its new name. */
  ghost predicate SetsItem(al: Aliases, raw: Node, q: Path) {
    exists p :: Leaf(raw, p).Some? && NewPath(al, p) == q
  }

  /** A normalised layer sets nothing the layer does not set under some name, and all it does set
      when no move loses a value. */
  lemma SetsItemExactly(al: Aliases, raw: Node, q: Path)
    requires TablesOk(al) && Normalize(al, raw).Ok?
    ensures Leaf(Normalize(al, raw).value, q).Some? ==> SetsItem(al, raw, q)
    ensures KeepsValues(al, raw) ==> (Leaf(Normalize(al, raw).value, q).Some? <==> SetsItem(al, raw, q))
  {
    if Leaf(Normalize(al, raw).value, q).Some? {
      var p := NormalizedFrom(al, raw, q);
    }
    NormalizeCarriesExactly(al, raw);
    if SetsItem(al, raw, q) {
      var p :| Leaf(raw, p).Some? && NewPath(al, p) == q;
    }
  }

  lemma CarriedAt(al: Aliases, raw: Node, p: Path)
    requires TablesOk(al) && Normalize(al, raw).Ok? && KeepsValues(al, raw) && Leaf(raw, p).Some?
    ensures Leaf(Normalize(al, raw).value, NewPath(al, p)) == Some(NewValue(al, NewPath(al, p), Leaf(raw, p).value))
  {
    NormalizeCarriesExactly(al, raw);
  }

  /** The configuration holds, for the item a layer names `p`, the value of that layer in its
      current form when no later layer sets the item under either name, exactly when no later
      layer has a table in its place or a value above it. */
  lemma LastLayerWins(al: Aliases, raws: seq<Node>, ns: seq<Node>, i: nat, p: Path)
    requires TablesOk(al) && Normalized(al, raws, ns)
    requires i < |raws| && Leaf(raws[i], p).Some? && KeepsValues(al, raws[i])
    requires forall j | i < j < |raws| :: !SetsItem(al, raws[j], NewPath(al, p))
    ensures var q := NewPath(al, p);
            Leaf(Stack(ns), q) == Some(NewValue(al, q, Leaf(raws[i], p).value))
            <==> forall j | i < j < |ns| :: !Blocks(ns[j], q)
  {
    var q := NewPath(al, p);
    forall j | i < j < |ns| ensures !Sets(ns, j, q) { SetsItemExactly(al, raws[j], q); }
    CarriedAt(al, raws[i], p);
    LastSetterWins(ns, i, q);
  }

  /** An item no layer sets under any name has no value. */
  lemma UnsetHasNoValue(al: Aliases, raws: seq<Node>, ns: seq<Node>, q: Path)
    requires TablesOk(al) && Normalized(al, raws, ns)
    requires forall j | 0 <= j < |raws| :: !SetsItem(al, raws[j], q)
    ensures Leaf(Stack(ns), q) == None
  {
    forall j | 0 <= j < |ns| ensures !Sets(ns, j, q) { SetsItemExactly(al, raws[j], q); }
    StackInventsNothing(ns, q);
  }

  /** Every load is a path lookup: each item has the current form of the value of the last of the
      selected layers that sets it under either name, whenever the later layers leave it room. */
  lemma LoadedSetting(al: Aliases, s: Sources, i: nat, p: Path) returns (ns: seq<Node>)
    requires TablesOk(al) && Load(al, s).Ok?
    requires i < |RawLayers(s)| && Leaf(RawLayers(s)[i], p).Some? && KeepsValues(al, RawLayers(s)[i])
    requires forall j | i < j < |RawLayers(s)| :: !SetsItem(al, RawLayers(s)[j], NewPath(al, p))
    ensures Normalized(al, RawLayers(s), ns)
    ensures var q := NewPath(al, p);
            Leaf(Load(al, s).value, q) == Some(NewValue(al, q, Leaf(RawLayers(s)[i], p).value))
            <==> forall j | i < j < |ns| :: !Blocks(ns[j], q)
  {
    ns := LoadIsStack(al, s);
    LastLayerWins(al, RawLayers(s), ns, i, p);
  }

  lemma LoadedNothingElse(al: Aliases, s: Sources, q: Path)
    requires TablesOk(al) && Load(al, s).Ok?
    requires forall j | 0 <= j < |RawLayers(s)| :: !SetsItem(al, RawLayers(s)[j], q)
    ensures Leaf(Load(al, s).value, q) == None
  {
    var ns := LoadIsStack(al, s);
    UnsetHasNoValue(al, RawLayers(s), ns, q);
  }

  // ------------------------------------------------------------------ two loads

  const NoAliases: Aliases := Aliases([], [], [], [], [], false, [], [])

  /** Every scope pending: the layers are merged as they are read. */
  lemma PlainLoad(shipped: Node, tier: Node, operator: Option<Node>)
    requires shipped.Table? && tier.Table? && "tier" in tier.entries && !TierSetsModules(tier)
    requires operator.Some? ==> operator.value.Table?
    ensures TablesOk(NoAliases)
    ensures var s := Sources(shipped, None, Some(tier), false, operator, None);
            var over := (base: Node) => if operator.Some? then Merge(base, operator.value) else base;
            && Load(NoAliases, s) == Shaped(Ok(over(Merge(shipped, tier))))
            && Load(NoAliases, s.(tier := None)) == Shaped(Ok(over(shipped)))
  {}

  lemma FewSections(t: Node)
    requires t.Table? && t.entries.Keys <= {"tier", "oscillator"}
    requires SectionFits(t, "tier") && SectionFits(t, "oscillator")
    ensures ShapeOk(t)
  {}

  lemma MergeOne(k: string, a: Node, b: Node)
    ensures Merge(Table(map[k := a]), Table(map[k := b])) == Table(map[k := Merge(a, b)])
  {
    assert Merge(Table(map[k := a]), Table(map[k := b])).entries == map[k := Merge(a, b)];
  }

  lemma MergeTwoOver(j: string, k: string, a: Node, x: Node, b: Node)
    requires j != k
    ensures Merge(Table(map[k := a]), Table(map[j := x, k := b])) == Table(map[j := Merge(EmptyTable, x), k := Merge(a, b)])
  {
    assert Merge(Table(map[k := a]), Table(map[j := x, k := b])).entries == map[j := Merge(EmptyTable, x), k := Merge(a, b)];
  }

  lemma MergeTwoUnder(j: string, k: string, x: Node, a: Node, b: Node)
    requires j != k
    ensures Merge(Table(map[j := x, k := a]), Table(map[k := b])) == Table(map[j := x, k := Merge(a, b)])
  {
    assert Merge(Table(map[j := x, k := a]), Table(map[k := b])).entries == map[j := x, k := Merge(a, b)];
  }

  lemma MergeNothing(t: Node)
    requires t.Table?
    ensures Merge(t, EmptyTable) == t
  {
    assert Merge(t, EmptyTable).entries == t.entries;
  }

  function TierAnd(x: Node, o: Node): Node { Table(map["tier" := x, "oscillator" := o]) }

  function OscillatorOnly(o: Node): Node { Table(map["oscillator" := o]) }

  /** The oscillator section of a tier merged over a lower one, and an upper one over that. */
  lemma MergeOscillators(a: Node, o: Node, b: Node)
    ensures Merge(OscillatorOnly(a), TierAnd(EmptyTable, o)) == TierAnd(EmptyTable, Merge(a, o))
    ensures Merge(TierAnd(EmptyTable, o), OscillatorOnly(b)) == TierAnd(EmptyTable, Merge(o, b))
    ensures Merge(OscillatorOnly(a), OscillatorOnly(b)) == OscillatorOnly(Merge(a, b))
  {
    MergeTwoOver("tier", "oscillator", a, EmptyTable, o);
    MergeTwoUnder("tier", "oscillator", EmptyTable, o, b);
    MergeOne("oscillator", a, b);
    MergeNothing(EmptyTable);
  }

  lemma OscillatorShape(o: Node)
    ensures ShapeOk(TierAnd(EmptyTable, o)) <==> OscillatorOk(o)
    ensures ShapeOk(OscillatorOnly(o)) <==> OscillatorOk(o)
  {
    assert "oscillator" in Sections;
    if OscillatorOk(o) {
      FewSections(TierAnd(EmptyTable, o));
      FewSections(OscillatorOnly(o));
    } else {
      assert !SectionFits(TierAnd(EmptyTable, o), "oscillator") && !SectionFits(OscillatorOnly(o), "oscillator");
    }
  }

  lemma OscillatorLeaf(o: Node)
    ensures Leaf(TierAnd(EmptyTable, o), Oscillator) == Leaf(OscillatorOnly(o), Oscillator) == Leaf(o, ["enabled"])
  {
    assert Oscillator[1..] == ["enabled"];
  }

  function ShippedAndTier(shipped: Node, tier: Node, operator: Option<Node>): Sources {
    Sources(shipped, None, Some(tier), false, operator, None)
  }

  /** A tier can hide a badly shaped section: with it the load succeeds, without it it fails. */
  lemma TierHidesShape(o: Node)
    requires !o.Table?
    ensures TablesOk(NoAliases)
    ensures var s := ShippedAndTier(OscillatorOnly(o), TierAnd(EmptyTable, EmptyTable), None);
            Load(NoAliases, s).Ok? && Load(NoAliases, s.(tier := None)) == Err(ShapeError)
  {
    PlainLoad(OscillatorOnly(o), TierAnd(EmptyTable, EmptyTable), None);
    MergeOscillators(o, EmptyTable, EmptyTable);
    MergeOverNothing(o, EmptyTable);
    OscillatorShape(o);
    OscillatorShape(EmptyTable);
  }

  /** What two oscillator sections merged over a lower one come to. */
  lemma EmptiedOscillator(on: Node, o: Node)
    requires on.Table? && !o.Table?
    ensures Merge(Merge(OscillatorOnly(on), TierAnd(EmptyTable, o)), OscillatorOnly(EmptyTable)) == TierAnd(EmptyTable, EmptyTable)
    ensures Merge(OscillatorOnly(on), OscillatorOnly(EmptyTable)) == OscillatorOnly(on)
  {
    MergeOscillators(on, o, EmptyTable);
    MergeOscillators(on, Merge(on, o), EmptyTable);
    MergeOverNothing(o, EmptyTable);
    MergeNothing(on);
  }

  lemma SwitchedOn(on: Node)
    requires on == Table(map["enabled" := Bool(true)])
    ensures ShapeOk(OscillatorOnly(on)) && Leaf(OscillatorOnly(on), Oscillator) == Some(Bool(true))
  {
    OscillatorShape(on);
    OscillatorLeaf(on);
    assert ["enabled"][1..] == [];
  }

  /** A tier that gives a value in place of [oscillator], under an operator layer with an empty one,
      drops the switch the shipped layer set; both loads succeed. */
  lemma TierDropsOscillator(on: Node, o: Node)
    requires on == Table(map["enabled" := Bool(true)]) && !o.Table?
    ensures TablesOk(NoAliases)
    ensures var s := ShippedAndTier(OscillatorOnly(on), TierAnd(EmptyTable, o), Some(OscillatorOnly(EmptyTable)));
            var bare := Load(NoAliases, s.(tier := None));
            && Load(NoAliases, s).Ok? && Leaf(Load(NoAliases, s).value, Oscillator) == None
            && bare.Ok? && Leaf(bare.value, Oscillator) == Some(Bool(true))
  {
    PlainLoad(OscillatorOnly(on), TierAnd(EmptyTable, o), Some(OscillatorOnly(EmptyTable)));
    EmptiedOscillator(on, o);
    OscillatorShape(EmptyTable);
    OscillatorLeaf(EmptyTable);
    SwitchedOn(on);
  }
}
