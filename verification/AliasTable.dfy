/** Old and new names, and the renaming of the keys of one table (kaine/legacy_aliases.py). */
module AliasTable {
  import opened Wrappers

  datatype Alias = Alias(was: string, now: string)

  datatype NormalizeError = NotATable | Conflict | Unhashable

  function Olds(es: seq<Alias>): set<string> { set i | 0 <= i < |es| :: es[i].was }

  function News(es: seq<Alias>): set<string> { set i | 0 <= i < |es| :: es[i].now }

  /** No name is listed twice, and no new name is an old one. */
  predicate WellFormed(es: seq<Alias>) {
    && (forall i, j | 0 <= i < j < |es| :: es[i].was != es[j].was && es[i].now != es[j].now)
    && Olds(es) !! News(es)
  }

  /** The current name for `k`. */
  function NewName(es: seq<Alias>, k: string): string {
    if es == [] then k else if es[0].was == k then es[0].now else NewName(es[1..], k)
  }

  /** The name among `keys` that `k` is the current name for. */
  function OldName(keys: set<string>, es: seq<Alias>, k: string): string {
    if es == [] then k
    else if es[0].now == k && es[0].was in keys then es[0].was
    else OldName(keys, es[1..], k)
  }

  /** Some item is set under its old and its new name. */
  predicate Clash(keys: set<string>, es: seq<Alias>) {
    exists i :: 0 <= i < |es| && es[i].was in keys && es[i].now in keys
  }

  lemma {:induction false} NewNameCases(es: seq<Alias>, k: string)
    ensures k !in Olds(es) ==> NewName(es, k) == k
    ensures k in Olds(es) ==> exists i :: 0 <= i < |es| && es[i].was == k && NewName(es, k) == es[i].now
  {
    if es != [] && es[0].was != k {
      NewNameCases(es[1..], k);
      assert k in Olds(es) <==> k in Olds(es[1..]);
      if k in Olds(es[1..]) {
        var i :| 0 <= i < |es[1..]| && es[1..][i].was == k && NewName(es[1..], k) == es[1..][i].now;
        assert es[i + 1].was == k;
      }
    }
  }

  lemma {:induction false} OldNameCases(keys: set<string>, es: seq<Alias>, k: string)
    ensures (forall i | 0 <= i < |es| :: es[i].now == k ==> es[i].was !in keys) ==> OldName(keys, es, k) == k
    ensures OldName(keys, es, k) != k ==>
              exists i :: 0 <= i < |es| && es[i].now == k && es[i].was in keys && OldName(keys, es, k) == es[i].was
    ensures (exists i :: 0 <= i < |es| && es[i].now == k && es[i].was in keys) ==> OldName(keys, es, k) in keys
  {
    if es != [] && !(es[0].now == k && es[0].was in keys) {
      OldNameCases(keys, es[1..], k);
      if OldName(keys, es[1..], k) != k {
        var i :| 0 <= i < |es[1..]| && es[1..][i].now == k && es[1..][i].was in keys
                 && OldName(keys, es[1..], k) == es[1..][i].was;
        assert es[i + 1].now == k;
      }
      if exists i :: 0 <= i < |es| && es[i].now == k && es[i].was in keys {
        var i :| 0 <= i < |es| && es[i].now == k && es[i].was in keys;
        assert es[1..][i - 1].now == k;
      }
    }
  }

  /** With no clash, a key can be told from its current name. */
  lemma OldOfNew(keys: set<string>, es: seq<Alias>, k: string)
    requires WellFormed(es) && !Clash(keys, es) && k in keys
    ensures OldName(keys, es, NewName(es, k)) == k
  {
    NewNameCases(es, k);
    OldNameCases(keys, es, NewName(es, k));
    if k in Olds(es) {
      var i :| 0 <= i < |es| && es[i].was == k && NewName(es, k) == es[i].now;
      assert es[i].now in News(es) && es[i].was in keys;
    }
  }

  function NewKeys(keys: set<string>, es: seq<Alias>): set<string> { set k | k in keys :: NewName(es, k) }

  lemma OldNameListed(keys: set<string>, es: seq<Alias>, k: string)
    requires k in NewKeys(keys, es)
    ensures OldName(keys, es, k) in keys
  {
    OldNameCases(keys, es, k);
    var j :| j in keys && NewName(es, j) == k;
    NewNameCases(es, j);
    if j in Olds(es) { assert exists i :: 0 <= i < |es| && es[i].now == k && es[i].was in keys; }
  }

  /** The table with every key under its current name. */
  function Renamed<V>(m: map<string, V>, es: seq<Alias>): map<string, V> {
    map k | k in NewKeys(m.Keys, es) :: OldNameListed(m.Keys, es, k); m[OldName(m.Keys, es, k)]
  }

  /** Renaming loses and confuses nothing. */
  lemma RenamedAt<V>(m: map<string, V>, es: seq<Alias>, k: string)
    requires WellFormed(es) && !Clash(m.Keys, es) && k in m
    ensures NewName(es, k) in Renamed(m, es) && Renamed(m, es)[NewName(es, k)] == m[k]
  {
    OldOfNew(m.Keys, es, k);
  }

  lemma RenamedFrom<V>(m: map<string, V>, es: seq<Alias>, k: string) returns (j: string)
    requires WellFormed(es) && !Clash(m.Keys, es) && k in Renamed(m, es)
    ensures j in m && NewName(es, j) == k && Renamed(m, es)[k] == m[j]
  {
    j :| j in m && NewName(es, j) == k;
    RenamedAt(m, es, j);
  }

  /** No old name is left. */
  lemma RenamedHasNoOld<V>(m: map<string, V>, es: seq<Alias>)
    requires WellFormed(es)
    ensures Renamed(m, es).Keys !! Olds(es)
  {
    forall k | k in Renamed(m, es) ensures k !in Olds(es) {
      var j :| j in m && NewName(es, j) == k;
      NewNameCases(es, j);
      if j in Olds(es) { assert k in News(es); }
    }
  }

  /** A table without old names stays as it is. */
  lemma RenamedIdentity<V>(m: map<string, V>, es: seq<Alias>)
    requires m.Keys !! Olds(es)
    ensures Renamed(m, es) == m && !Clash(m.Keys, es)
  {
    forall k | k in m ensures NewName(es, k) == k && OldName(m.Keys, es, k) == k {
      NewNameCases(es, k);
      OldNameCases(m.Keys, es, k);
      assert forall i | 0 <= i < |es| :: es[i].was in Olds(es);
    }
    assert forall i | 0 <= i < |es| :: es[i].was in Olds(es);
    assert NewKeys(m.Keys, es) == m.Keys;
  }

  lemma {:induction false} NewNameSnoc(es: seq<Alias>, e: Alias, k: string)
    requires WellFormed(es + [e])
    ensures NewName(es + [e], k) == if k == e.was then e.now else NewName(es, k)
  {
    if es != [] {
      assert (es + [e])[1..] == es[1..] + [e];
      assert (es + [e])[|es|] == e && (es + [e])[0] == es[0];
      assert WellFormed(es[1..] + [e]) by {
        assert forall i | 0 <= i < |es[1..] + [e]| :: (es[1..] + [e])[i] == (es + [e])[i + 1];
        assert Olds(es[1..] + [e]) <= Olds(es + [e]) && News(es[1..] + [e]) <= News(es + [e]);
      }
      NewNameSnoc(es[1..], e, k);
    }
  }

  lemma PrefixWellFormed(es: seq<Alias>, n: nat)
    requires WellFormed(es) && n <= |es|
    ensures WellFormed(es[..n])
  {
    assert Olds(es[..n]) <= Olds(es) && News(es[..n]) <= News(es);
  }

  /** The renamed table is the only one that holds each item under its current name and no other. */
  lemma RenamedUnique<V>(m: map<string, V>, es: seq<Alias>, r: map<string, V>)
    requires WellFormed(es) && !Clash(m.Keys, es)
    requires forall k | k in m :: NewName(es, k) in r && r[NewName(es, k)] == m[k]
    requires forall k | k in r :: k in NewKeys(m.Keys, es)
    ensures r == Renamed(m, es)
  {
    forall k | k in r ensures k in Renamed(m, es) && r[k] == Renamed(m, es)[k] {
      var j := RenamedFrom(m, es, k);
    }
  }

  /** What one more entry does to a name. */
  lemma SnocKey(es: seq<Alias>, e: Alias, keys: set<string>, k: string)
    requires WellFormed(es + [e]) && WellFormed(es) && k in keys && !Clash(keys, es)
    ensures NewName(es + [e], k) == if k == e.was then e.now else NewName(es, k)
    ensures NewName(es, k) == e.was <==> k == e.was
    ensures NewName(es, k) == e.now <==> k == e.now
  {
    var all := es + [e];
    assert all[|es|] == e && e.was in Olds(all) && e.now in News(all);
    assert forall i | 0 <= i < |es| :: all[i] == es[i] && es[i].was in Olds(all) && es[i].now in News(all);
    NewNameSnoc(es, e, k);
    NewNameCases(es, k);
    NewNameCases(es, e.now);
  }

  /** One more entry moves one more key. */
  lemma RenamedSnoc<V>(m: map<string, V>, es: seq<Alias>, e: Alias)
    requires WellFormed(es + [e]) && WellFormed(es) && !Clash(m.Keys, es)
    ensures e.was in Renamed(m, es) <==> e.was in m
    ensures e.now in Renamed(m, es) <==> e.now in m
    ensures e.was in m ==> Renamed(m, es)[e.was] == m[e.was]
  {
    forall k | k in m
      ensures NewName(es, k) in Renamed(m, es) && Renamed(m, es)[NewName(es, k)] == m[k]
      ensures NewName(es, k) == e.was <==> k == e.was
      ensures NewName(es, k) == e.now <==> k == e.now
    {
      RenamedAt(m, es, k);
      SnocKey(es, e, m.Keys, k);
    }
    forall k | k in Renamed(m, es) ensures exists j :: j in m && NewName(es, j) == k {}
  }

  lemma RenamedStep<V>(m: map<string, V>, es: seq<Alias>, e: Alias, r: map<string, V>)
    requires WellFormed(es + [e]) && WellFormed(es) && !Clash(m.Keys, es) && !Clash(m.Keys, es + [e])
    requires r == if e.was in m then (Renamed(m, es) - {e.was})[e.now := m[e.was]] else Renamed(m, es)
    ensures r == Renamed(m, es + [e])
  {
    var all := es + [e];
    assert all[|es|] == e;
    assert e.was in m ==> e.now !in m;
    forall k | k in m ensures NewName(all, k) in r && r[NewName(all, k)] == m[k] {
      SnocKey(es, e, m.Keys, k);
      RenamedAt(m, es, k);
    }
    forall k | k in r ensures k in NewKeys(m.Keys, all) {
      var j := e.was;
      if !(e.was in m && k == e.now) { j := RenamedFrom(m, es, k); }
      SnocKey(es, e, m.Keys, j);
    }
    RenamedUnique(m, all, r);
  }

  /** One turn of the loop: what the table has, and what it becomes. */
  lemma RenamedTurn<V>(m: map<string, V>, es: seq<Alias>, i: nat, cur: map<string, V>)
    requires WellFormed(es) && i < |es| && !Clash(m.Keys, es[..i]) && cur == Renamed(m, es[..i])
    ensures es[i].was in cur && es[i].now in cur ==> Clash(m.Keys, es)
    ensures !(es[i].was in cur && es[i].now in cur) ==>
              && !Clash(m.Keys, es[..i + 1])
              && Renamed(m, es[..i + 1]) ==
                 if es[i].was in cur then (cur - {es[i].was})[es[i].now := cur[es[i].was]] else cur
  {
    var e, before := es[i], es[..i];
    PrefixWellFormed(es, i);
    PrefixWellFormed(es, i + 1);
    assert es[..i + 1] == before + [e];
    RenamedSnoc(m, before, e);
    if !(e.was in m && e.now in m) {
      ClashSnoc(m.Keys, before, e);
      RenamedStep(m, before, e, if e.was in cur then (cur - {e.was})[e.now := cur[e.was]] else cur);
    }
  }

  lemma ClashSnoc(keys: set<string>, es: seq<Alias>, e: Alias)
    requires !Clash(keys, es) && !(e.was in keys && e.now in keys)
    ensures !Clash(keys, es + [e])
  {
    var all := es + [e];
    forall i | 0 <= i < |all| ensures !(all[i].was in keys && all[i].now in keys) {
      assert i < |es| ==> all[i] == es[i];
    }
  }

  /** The source's loop over the entries, which moves keys one at a time and raises on a
      collision: a simultaneous renaming, refused exactly when an item is set twice. */
  method RenameInPlace<V>(m: map<string, V>, es: seq<Alias>) returns (r: Result<map<string, V>, NormalizeError>)
    requires WellFormed(es)
    ensures r == if Clash(m.Keys, es) then Err(Conflict) else Ok(Renamed(m, es))
  {
    var cur := m;
    RenamedIdentity(m, []);
    for i := 0 to |es|
      invariant !Clash(m.Keys, es[..i])
      invariant cur == Renamed(m, es[..i])
    {
      RenamedTurn(m, es, i, cur);
      var was, now := es[i].was, es[i].now;
      if was in cur {
        if now in cur {
          return Err(Conflict);
        }
        cur := (cur - {was})[now := cur[was]];
      }
    }
    assert es[..|es|] == es;
    r := Ok(cur);
  }
}
