/** The shape the runtime relies on (kaine/config.py, validate_config_shape): which sections of a
    configuration are checked, and for what. */
module ConfigShape {
  import opened Wrappers
  import opened ConfigTree

  /** If the table has the key, its entry passes. */
  predicate Has(t: Node, k: string, ok: Node -> bool) {
    t.Table? && k in t.entries ==> ok(t.entries[k])
  }

  predicate IsStr(v: Node) { v.Str? }

  predicate IsBool(v: Node) { v.Bool? }

  predicate IsStrings(v: Node) { v.List? && forall i | 0 <= i < |v.items| :: v.items[i].Str? }

  predicate EmbeddingOk(v: Node) {
    v.Table? && forall k | k in {"backend", "model_id", "device", "model_path"} :: Has(v, k, IsStr)
  }

  predicate ModulesOk(v: Node) { v.Table? && forall k | k in v.entries :: v.entries[k].Bool? }

  predicate SocialCognitionOk(v: Node) { Has(v, "operator_sources", IsStrings) }

  predicate TierOk(v: Node) {
    && v.Table? && Has(v, "name", IsStr) && Has(v, "unsupported_modules", IsStrings)
    && Has(v, "oscillator_supported", IsBool)
  }

  predicate OscillatorOk(v: Node) { v.Table? && Has(v, "enabled", IsBool) }

  predicate PluginsOk(v: Node) {
    && v.Table? && Has(v, "enabled", IsStrings)
    && forall k | k in v.entries && k != "enabled" :: v.entries[k].Table?
  }

  predicate SecurityOk(v: Node) { v.Table? && Has(v, "state_encryption", OscillatorOk) }

  predicate DeploymentOk(v: Node) { v.Table? && Has(v, "tier", IsStr) }

  predicate HardwareOk(v: Node) {
    && v.Table? && Has(v, "allowed_devices", (d: Node) => IsStrings(d) && d.items != [])
    && Has(v, "cpu_threads", (n: Node) => n.Num? && n.n >= 1)
  }

  predicate StorageOk(v: Node) {
    && v.Table? && Has(v, "data_root", (d: Node) => d.Str? && d.s != "")
    && Has(v, "min_free_gb", (n: Node) => (n.Num? && n.n >= 0) || (n.Real? && n.r >= 0.0))
  }

  predicate ServiceOk(v: Node) { v.Table? && Has(v, "shared", IsBool) && Has(v, "process_names", IsStrings) }

  predicate ServicesOk(v: Node) { v.Table? && forall k | k in v.entries :: ServiceOk(v.entries[k]) }

  const Sections: set<string> := {
    "embedding", "modules", "social_cognition", "tier", "oscillator", "plugins",
    "security", "deployment", "hardware", "storage", "services" }

  /** What a checked section has to look like. */
  predicate SectionOk(k: string, v: Node) {
    && (k == "embedding" ==> EmbeddingOk(v))
    && (k == "modules" ==> ModulesOk(v))
    && (k == "social_cognition" ==> SocialCognitionOk(v))
    && (k == "tier" ==> TierOk(v))
    && (k == "oscillator" ==> OscillatorOk(v))
    && (k == "plugins" ==> PluginsOk(v))
    && (k == "security" ==> SecurityOk(v))
    && (k == "deployment" ==> DeploymentOk(v))
    && (k == "hardware" ==> HardwareOk(v))
    && (k == "storage" ==> StorageOk(v))
    && (k == "services" ==> ServicesOk(v))
  }

  predicate SectionFits(t: Node, k: string) { t.Table? && k in t.entries ==> SectionOk(k, t.entries[k]) }

  /** The configuration passes the check. */
  predicate ShapeOk(t: Node) { forall k | k in Sections :: SectionFits(t, k) }

  /** The check reads nothing but the checked sections. */
  lemma SameSections(a: Node, b: Node)
    requires a.Table? && b.Table?
    requires forall k | k in Sections :: At(a, [k]) == At(b, [k])
    ensures ShapeOk(a) <==> ShapeOk(b)
  {
    forall k | k in Sections ensures SectionFits(a, k) <==> SectionFits(b, k) { SameSection(a, b, k); }
  }

  lemma SameSection(a: Node, b: Node, k: string)
    requires a.Table? && b.Table? && At(a, [k]) == At(b, [k])
    ensures SectionFits(a, k) <==> SectionFits(b, k)
  {
    assert k in a.entries <==> k in b.entries;
    if k in a.entries {
      assert At(a, [k]) == Some(a.entries[k]) && At(b, [k]) == Some(b.entries[k]);
    }
  }

  // ------------------------------------------------------------------ path by path

  datatype Kind = Anything | ATable | AString | SomeText | ABool | Strings | SomeStrings | FromOne | NotNegative

  predicate KindOk(kind: Kind, v: Node) {
    match kind
    case Anything => true
    case ATable => v.Table?
    case AString => v.Str?
    case SomeText => v.Str? && v.s != ""
    case ABool => v.Bool?
    case Strings => v.List? && forall i | 0 <= i < |v.items| :: v.items[i].Str?
    case SomeStrings => v.List? && v.items != [] && forall i | 0 <= i < |v.items| :: v.items[i].Str?
    case FromOne => v.Num? && v.n >= 1
    case NotNegative => (v.Num? && v.n >= 0) || (v.Real? && v.r >= 0.0)
  }

  /** What the check expects at a dotted path; anything may stand where it expects nothing. */
  function Expected(p: Path): Kind {
    if |p| == 1 then if p[0] in Sections && p[0] != "social_cognition" then ATable else Anything
    else if |p| == 2 then ExpectedIn(p[0], p[1])
    else if |p| == 3 && p[..2] == ["security", "state_encryption"] && p[2] == "enabled" then ABool
    else if |p| == 3 && p[0] == "services" && p[2] == "shared" then ABool
    else if |p| == 3 && p[0] == "services" && p[2] == "process_names" then Strings
    else Anything
  }

  function ExpectedIn(section: string, k: string): Kind {
    match section
    case "embedding" => if k in {"backend", "model_id", "device", "model_path"} then AString else Anything
    case "modules" => ABool
    case "social_cognition" => if k == "operator_sources" then Strings else Anything
    case "tier" =>
      if k == "name" then AString
      else if k == "unsupported_modules" then Strings
      else if k == "oscillator_supported" then ABool
      else Anything
    case "oscillator" => if k == "enabled" then ABool else Anything
    case "plugins" => if k == "enabled" then Strings else ATable
    case "security" => if k == "state_encryption" then ATable else Anything
    case "deployment" => if k == "tier" then AString else Anything
    case "hardware" => if k == "allowed_devices" then SomeStrings else if k == "cpu_threads" then FromOne else Anything
    case "storage" => if k == "data_root" then SomeText else if k == "min_free_gb" then NotNegative else Anything
    case "services" => ATable
    case _ => Anything
  }

  /** Everything in the entry `v` of a section is what is expected at its path. */
  ghost predicate Fits(k: string, v: Node) {
    forall q | Exists(v, q) :: KindOk(Expected([k] + q), At(v, q).value)
  }

  lemma DeepPaths(v: Node, q: Path)
    requires Exists(v, q)
    ensures |q| >= 1 ==> v.Table? && q[0] in v.entries
    ensures |q| == 1 ==> At(v, q) == Some(v.entries[q[0]])
    ensures |q| >= 2 ==> v.entries[q[0]].Table? && q[1] in v.entries[q[0]].entries
    ensures |q| == 2 ==> At(v, q) == Some(v.entries[q[0]].entries[q[1]])
  {
    if |q| >= 1 {
      assert At(v, q) == At(v.entries[q[0]], q[1..]);
      if |q| >= 2 { assert q[1..][0] == q[1] && |q[1..]| == |q| - 1; }
      if |q| == 1 { assert q[1..] == []; }
      if |q| == 2 { assert q[1..][1..] == []; }
    }
  }

  lemma ShallowPaths(v: Node, j: string)
    requires v.Table? && j in v.entries
    ensures At(v, []) == Some(v) && At(v, [j]) == Some(v.entries[j])
    ensures v.entries[j].Table? ==> forall i | i in v.entries[j].entries :: At(v, [j, i]) == Some(v.entries[j].entries[i])
  {
    assert [j][1..] == [];
    if v.entries[j].Table? {
      forall i | i in v.entries[j].entries ensures At(v, [j, i]) == Some(v.entries[j].entries[i]) {
        var w := v.entries[j];
        assert [j, i][1..] == [i] && [i][1..] == [];
        assert At(v, [j, i]) == At(w, [i]) == At(w.entries[i], []);
      }
    }
  }

  /** What `SectionOk` asks of the entry, one level at a time. */
  ghost predicate FitsByLevel(k: string, v: Node) {
    && KindOk(Expected([k]), v)
    && (v.Table? ==> forall j | j in v.entries ::
          && KindOk(ExpectedIn(k, j), v.entries[j])
          && (v.entries[j].Table? ==> forall i | i in v.entries[j].entries ::
                KindOk(Expected([k, j, i]), v.entries[j].entries[i])))
  }

  lemma FitsLevels(k: string, v: Node)
    ensures Fits(k, v) <==> FitsByLevel(k, v)
  {
    if Fits(k, v) {
      assert Exists(v, []) && [k] + [] == [k];
      if v.Table? {
        forall j | j in v.entries ensures KindOk(ExpectedIn(k, j), v.entries[j]) {
          ShallowPaths(v, j);
          assert [k] + [j] == [k, j] && Expected([k, j]) == ExpectedIn(k, j);
        }
        forall j, i | j in v.entries && v.entries[j].Table? && i in v.entries[j].entries
          ensures KindOk(Expected([k, j, i]), v.entries[j].entries[i])
        {
          ShallowPaths(v, j);
          assert [k] + [j, i] == [k, j, i];
        }
      }
    }
    if FitsByLevel(k, v) {
      forall q | Exists(v, q) ensures KindOk(Expected([k] + q), At(v, q).value) {
        DeepPaths(v, q);
        if |q| == 0 {
          assert [k] + q == [k];
        } else if |q| == 1 {
          assert [k] + q == [k, q[0]] && Expected([k, q[0]]) == ExpectedIn(k, q[0]);
        } else if |q| == 2 {
          assert [k] + q == [k, q[0], q[1]];
        }
      }
    }
  }

  lemma NoDeepPaths(k: string, j: string, i: string)
    requires k in Sections && k != "services" && !(k == "security" && j == "state_encryption")
    ensures Expected([k, j, i]) == Anything
  {
    assert [k, j, i][..2] == [k, j];
  }

  /** A section no path below whose entries is checked. */
  ghost predicate FlatFits(k: string, v: Node) {
    KindOk(Expected([k]), v) && (v.Table? ==> forall j | j in v.entries :: KindOk(ExpectedIn(k, j), v.entries[j]))
  }

  lemma FlatLevels(k: string, v: Node)
    requires k in Sections && k != "services" && k != "security"
    ensures FlatFits(k, v) <==> FitsByLevel(k, v)
  {
    forall j, i ensures Expected([k, j, i]) == Anything { NoDeepPaths(k, j, i); }
  }

  lemma EmbeddingExactly(v: Node)
    ensures EmbeddingOk(v) <==> FlatFits("embedding", v)
  {
    if FlatFits("embedding", v) {
      forall k | k in {"backend", "model_id", "device", "model_path"} ensures Has(v, k, IsStr) {}
    }
    if EmbeddingOk(v) {
      forall j | j in v.entries ensures KindOk(ExpectedIn("embedding", j), v.entries[j]) {
        assert j in {"backend", "model_id", "device", "model_path"} ==> Has(v, j, IsStr);
      }
    }
  }

  lemma ModulesExactly(v: Node)
    ensures ModulesOk(v) <==> FlatFits("modules", v)
  {}

  lemma SocialCognitionExactly(v: Node)
    ensures SocialCognitionOk(v) <==> FlatFits("social_cognition", v)
  {}

  lemma TierExactly(v: Node)
    ensures TierOk(v) <==> FlatFits("tier", v)
  {}

  lemma OscillatorExactly(v: Node)
    ensures OscillatorOk(v) <==> FlatFits("oscillator", v)
  {}

  lemma PluginsExactly(v: Node)
    ensures PluginsOk(v) <==> FlatFits("plugins", v)
  {}

  lemma DeploymentExactly(v: Node)
    ensures DeploymentOk(v) <==> FlatFits("deployment", v)
  {}

  lemma HardwareExactly(v: Node)
    ensures HardwareOk(v) <==> FlatFits("hardware", v)
  {}

  lemma StorageExactly(v: Node)
    ensures StorageOk(v) <==> FlatFits("storage", v)
  {}

  lemma PlainSectionExactly(k: string, v: Node)
    requires k in Sections && k != "services" && k != "security"
    ensures SectionOk(k, v) <==> FlatFits(k, v)
  {
    match k
    case "embedding" => EmbeddingExactly(v);
    case "modules" => ModulesExactly(v);
    case "social_cognition" => SocialCognitionExactly(v);
    case "tier" => TierExactly(v);
    case "oscillator" => OscillatorExactly(v);
    case "plugins" => PluginsExactly(v);
    case "deployment" => DeploymentExactly(v);
    case "hardware" => HardwareExactly(v);
    case "storage" => StorageExactly(v);
  }

  lemma SecurityExactly(v: Node)
    ensures SecurityOk(v) <==> FitsByLevel("security", v)
  {
    forall j, i ensures Expected(["security", j, i])
                     == if j == "state_encryption" && i == "enabled" then ABool else Anything {
      assert ["security", j, i][..2] == ["security", j];
    }
  }

  lemma ServicesExactly(v: Node)
    ensures ServicesOk(v) <==> FitsByLevel("services", v)
  {
    forall j, i
      ensures Expected(["services", j, i]) ==
              if i == "shared" then ABool else if i == "process_names" then Strings else Anything
    {
      assert ["services", j, i][..2] == ["services", j];
    }
  }

  lemma SectionExactly(k: string, v: Node)
    requires k in Sections
    ensures SectionOk(k, v) <==> Fits(k, v)
  {
    FitsLevels(k, v);
    if k == "security" {
      SecurityExactly(v);
    } else if k == "services" {
      ServicesExactly(v);
    } else {
      PlainSectionExactly(k, v);
      FlatLevels(k, v);
    }
  }

  /** The check passes exactly when at every dotted path of the configuration stands what is expected there. */
  lemma ShapeExactly(t: Node)
    requires t.Table?
    ensures ShapeOk(t) <==> forall p | Exists(t, p) :: KindOk(Expected(p), At(t, p).value)
  {
    if ShapeOk(t) {
      forall p | Exists(t, p) ensures KindOk(Expected(p), At(t, p).value) {
        if p != [] {
          assert p == [p[0]] + p[1..];
          if p[0] in Sections {
            SectionExactly(p[0], t.entries[p[0]]);
          } else {
            UncheckedPath(p);
          }
        }
      }
    }
    if forall p | Exists(t, p) :: KindOk(Expected(p), At(t, p).value) {
      forall k | k in Sections && k in t.entries ensures SectionOk(k, t.entries[k]) {
        forall q | Exists(t.entries[k], q) ensures KindOk(Expected([k] + q), At(t.entries[k], q).value) {
          assert ([k] + q)[1..] == q && At(t, [k] + q) == At(t.entries[k], q);
        }
        SectionExactly(k, t.entries[k]);
      }
    }
  }

  lemma UncheckedPath(p: Path)
    requires p != [] && p[0] !in Sections
    ensures Expected(p) == Anything
  {
    if |p| >= 2 { assert p[..2][0] == p[0]; }
  }
}
