/** Parsed TOML: tables of tables and values, addressed by paths of keys. */
module ConfigTree {
  import opened Wrappers

  datatype Node =
    | Str(s: string)
    | Bool(b: bool)
    | Num(n: int)
    | Real(r: real)
    | Date(text: string)
    | List(items: seq<Node>)
    | Table(entries: map<string, Node>)

  type Path = seq<string>

  const EmptyTable := Table(map[])

  /** What is at `p`, a table or a value. */
  function At(t: Node, p: Path): Option<Node> {
    if p == [] then Some(t)
    else if t.Table? && p[0] in t.entries then At(t.entries[p[0]], p[1..])
    else None
  }

  predicate Exists(t: Node, p: Path) { At(t, p).Some? }

  /** The value, not a table, that `t` sets at `p`. */
  function Leaf(t: Node, p: Path): Option<Node> {
    match At(t, p)
    case Some(v) => if v.Table? then None else Some(v)
    case None => None
  }

  /** `t` leaves no room for a value at `p` coming from below: it has a table there, or a value above. */
  predicate Blocks(t: Node, p: Path) {
    if p == [] then t.Table?
    else if !t.Table? then true
    else p[0] in t.entries && Blocks(t.entries[p[0]], p[1..])
  }
}
