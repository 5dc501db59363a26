/** The schema read from the input document, standing in for the pugixml
    tree that every emitter walks: one `Node` per top-level element, its
    optional `<types>` child (compound type definitions, each a list of
    `<item>`s) and its optional `<vars>` child (a list of `<var>`s). A missing
    attribute reads as the empty string, as pugixml's `value()` does. */
module Schema {
  import opened Wrappers
  import opened LineParse

  /** An `<item>`: `multi` is the attribute's `as_bool()` reading, `des` the description. */
  datatype Item = Item(name: string, typ: string, multi: bool, des: string)

  /** A `<var>`: a top-level field; it has no multiplicity. */
  datatype Var = Var(name: string, typ: string, des: string)

  /** A `<type>` under `<types>`. */
  datatype TypeDef = TypeDef(name: string, items: seq<Item>)

  /** A top-level element: `None` where the `<types>` or `<vars>` child is absent. */
  datatype Node = Node(name: string, types: Option<seq<TypeDef>>, vars: Option<seq<Var>>)

  type Document = seq<Node>

  /** The position of the first type definition named exactly `t`, or `|tds|`. */
  function FindIndex(tds: seq<TypeDef>, t: string): (k: nat)
    ensures k <= |tds|
    ensures k < |tds| ==> tds[k].name == t
    ensures forall j :: 0 <= j < k ==> tds[j].name != t
  {
    if tds == [] then 0
    else if tds[0].name == t then 0
    else 1 + FindIndex(tds[1..], t)
  }

  /** The `find_child` of `appendTypes`: the first child of `<types>` whose
      `name` attribute equals `t`, compared case-sensitively; the null node
      (None) when there is no such child or no `<types>` at all. */
  function Lookup(types: Option<seq<TypeDef>>, t: string): (r: Option<TypeDef>)
    ensures r.Some? ==> r.value.name == t && types.Some? && r.value in types.value
    ensures r.None? <==> types.None? || forall td :: td in types.value ==> td.name != t
  {
    match types
    case None => None
    case Some(tds) =>
      var k := FindIndex(tds, t);
      if k < |tds| then Some(tds[k]) else None
  }

  /** The lookup is case-sensitive: it returns the first definition spelled
      exactly `t`, whatever definitions differ from `t` only in case. */
  lemma LookupFirstExact(tds: seq<TypeDef>, t: string, k: nat)
    requires k < |tds| && tds[k].name == t
    requires forall j :: 0 <= j < k ==> tds[j].name != t
    ensures Lookup(Some(tds), t) == Some(tds[k])
  {
  }

  /** The fields of a node in document order, with an absent section read as empty. */
  function VarsOf(n: Node): seq<Var> {
    n.vars.GetOr([])
  }

  function TypesOf(n: Node): seq<TypeDef> {
    n.types.GetOr([])
  }

  /** The emitters splice names and types into C++ and Lua text unchecked.
      The read-back properties of the emitted text are stated for documents
      whose every spliced name and type is an identifier. */
  predicate ItemNamed(it: Item) {
    IsIdent(it.name) && IsIdent(it.typ)
  }

  predicate VarNamed(v: Var) {
    IsIdent(v.name) && IsIdent(v.typ)
  }

  predicate TypeDefNamed(td: TypeDef) {
    IsIdent(td.name) && forall i :: 0 <= i < |td.items| ==> ItemNamed(td.items[i])
  }

  predicate NodeNamed(n: Node) {
    IsIdent(n.name)
    && (forall i :: 0 <= i < |TypesOf(n)| ==> TypeDefNamed(TypesOf(n)[i]))
    && (forall i :: 0 <= i < |VarsOf(n)| ==> VarNamed(VarsOf(n)[i]))
  }

  predicate DocNamed(doc: Document) {
    forall i :: 0 <= i < |doc| ==> NodeNamed(doc[i])
  }
}
