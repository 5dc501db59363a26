/** The template emitter (`exportXml` and `appendTypes`): a skeleton XML
    document with one element per node, one child element per var, and every
    compound type expanded in place. The output tree is a datatype instead of
    a pugixml document; saving it to a file is left out.

    `appendTypes` has no cycle guard, so a type that contains itself makes
    the source recurse until the stack overflows. Here the expansion carries
    a `fuel` bound on the nesting depth of compound types and answers `None`
    when the bound is reached: `None` for every fuel is exactly the case where
    the source does not terminate (`AppendTypesFuelMonotone`,
    `CyclicTypesDiverge`, `RankedTypesExpand`). */
module Template {
  import opened Wrappers
  import opened Schema
  import opened Resolve

  datatype XAttr = XAttr(key: string, value: string)

  datatype XElem = XElem(tag: string, attrs: seq<XAttr>, children: seq<XChild>)

  datatype XChild = Element(elem: XElem) | Comment(text: string)

  /** The output document: the `<?xml version encoding?>` declaration and the top-level elements. */
  datatype XDoc = XDoc(version: string, encoding: string, roots: seq<XElem>)

  /** An empty element named `tag`, as `append_child` creates it. */
  function Fresh(tag: string): XElem {
    XElem(tag, [], [])
  }

  /** `appendTypes(x, types, t)`: looks `t` up by exact name and, when found,
      appends the expansion of each of its items to `x`; appends nothing when
      no definition is named `t`. */
  function AppendTypes(x: XElem, types: Option<seq<TypeDef>>, t: string, fuel: nat): (r: Option<XElem>)
    ensures r.Some? ==> r.value.tag == x.tag
    ensures Lookup(types, t).None? ==> r == Some(x)
    decreases fuel, 0, 0
  {
    match Lookup(types, t)
    case None => Some(x)
    case Some(td) =>
      if fuel == 0 then None else AppendItems(x, types, td.items, fuel - 1)
  }

  /** The loop of `appendTypes` over the items of one definition. */
  function AppendItems(x: XElem, types: Option<seq<TypeDef>>, items: seq<Item>, fuel: nat): (r: Option<XElem>)
    ensures r.Some? ==> r.value.tag == x.tag
    decreases fuel, 1, |items|
  {
    if items == [] then Some(x)
    else
      var y :- AppendItem(x, types, items[0], fuel);
      AppendItems(y, types, items[1..], fuel)
  }

  /** One item: a multi item appends a "multi" comment and a child element
      named after the item (holding the primitive as an attribute, or the
      compound's expansion); a single primitive item becomes an attribute of
      `x`; a single compound item becomes an expanded child element. The
      attribute value is the item's type string as written. */
  function AppendItem(x: XElem, types: Option<seq<TypeDef>>, it: Item, fuel: nat): (r: Option<XElem>)
    ensures r.Some? ==> r.value.tag == x.tag
    decreases fuel, 1, 0
  {
    if it.multi then
      var child :- if IsPrimitive(it.typ) then Some(XElem(it.name, [XAttr(it.name, it.typ)], []))
                   else AppendTypes(Fresh(it.name), types, it.typ, fuel);
      Some(x.(children := x.children + [Comment("multi"), Element(child)]))
    else if IsPrimitive(it.typ) then
      Some(x.(attrs := x.attrs + [XAttr(it.name, it.typ)]))
    else
      var child :- AppendTypes(Fresh(it.name), types, it.typ, fuel);
      Some(x.(children := x.children + [Element(child)]))
  }

  /** One var of `exportXml`: a child element named after the var holding
      either the attribute `name=type` (primitive) or the expansion of the
      type (anything else). */
  function ExportVar(n: Node, v: Var, fuel: nat): (r: Option<XElem>)
    ensures r.Some? ==> r.value.tag == v.name
    ensures !IsPrimitive(v.typ) && Lookup(n.types, v.typ).None? ==> r == Some(Fresh(v.name))
  {
    if IsPrimitive(v.typ) then Some(XElem(v.name, [XAttr(v.name, v.typ)], []))
    else AppendTypes(Fresh(v.name), n.types, v.typ, fuel)
  }

  function ExportVars(n: Node, vs: seq<Var>, fuel: nat): (r: Option<seq<XElem>>)
    ensures r.Some? ==> |r.value| == |vs|
    ensures r.Some? ==> forall i :: 0 <= i < |vs| ==> r.value[i].tag == vs[i].name
    ensures r.Some? ==> forall i :: 0 <= i < |vs| ==> ExportVar(n, vs[i], fuel) == Some(r.value[i])
    ensures r.None? <==> exists i :: 0 <= i < |vs| && ExportVar(n, vs[i], fuel).None?
  {
    if vs == [] then Some([])
    else
      var first :- ExportVar(n, vs[0], fuel);
      var rest :- ExportVars(n, vs[1..], fuel);
      Some([first] + rest)
  }

  /** The element for one node: named after it, one child element per var in order. */
  function ExportNode(n: Node, fuel: nat): (r: Option<XElem>)
    ensures r.Some? ==> r.value.tag == n.name && r.value.attrs == []
    ensures r.Some? ==> |r.value.children| == |VarsOf(n)|
    ensures r.Some? ==> forall i :: 0 <= i < |VarsOf(n)| ==>
              r.value.children[i].Element? && r.value.children[i].elem.tag == VarsOf(n)[i].name
    ensures r.Some? ==> forall i :: 0 <= i < |VarsOf(n)| ==>
              ExportVar(n, VarsOf(n)[i], fuel).Some? && r.value.children[i] == Element(ExportVar(n, VarsOf(n)[i], fuel).value)
    ensures r.None? <==> exists i :: 0 <= i < |VarsOf(n)| && ExportVar(n, VarsOf(n)[i], fuel).None?
  {
    var vs :- ExportVars(n, VarsOf(n), fuel);
    Some(XElem(n.name, [], seq(|vs|, i requires 0 <= i < |vs| => Element(vs[i]))))
  }

  function ExportNodes(doc: Document, fuel: nat): (r: Option<seq<XElem>>)
    ensures r.Some? ==> |r.value| == |doc|
    ensures r.Some? ==> forall i :: 0 <= i < |doc| ==> r.value[i].tag == doc[i].name
    ensures r.Some? ==> forall i :: 0 <= i < |doc| ==> ExportNode(doc[i], fuel) == Some(r.value[i])
    ensures r.None? <==> exists i :: 0 <= i < |doc| && ExportNode(doc[i], fuel).None?
  {
    if doc == [] then Some([])
    else
      var first :- ExportNode(doc[0], fuel);
      var rest :- ExportNodes(doc[1..], fuel);
      Some([first] + rest)
  }

  /** `exportXml`: the UTF-8 declaration and one element per node, in document order. */
  function ExportXml(doc: Document, fuel: nat): (r: Option<XDoc>)
    ensures r.Some? ==> r.value.version == "1.0" && r.value.encoding == "utf-8"
    ensures r.Some? ==> |r.value.roots| == |doc|
    ensures r.Some? ==> forall i :: 0 <= i < |doc| ==> r.value.roots[i].tag == doc[i].name
    ensures r.Some? ==> forall i :: 0 <= i < |doc| ==> ExportNode(doc[i], fuel) == Some(r.value.roots[i])
    ensures r.None? <==> exists i :: 0 <= i < |doc| && ExportNode(doc[i], fuel).None?
  {
    var roots :- ExportNodes(doc, fuel);
    Some(XDoc("1.0", "utf-8", roots))
  }

  /** Fuel only bounds the depth: once an expansion succeeds, more fuel gives
      the same tree. */
  lemma {:induction false} AppendTypesFuelMonotone(x: XElem, types: Option<seq<TypeDef>>, t: string, fuel: nat, more: nat)
    requires fuel <= more && AppendTypes(x, types, t, fuel).Some?
    ensures AppendTypes(x, types, t, more) == AppendTypes(x, types, t, fuel)
    decreases fuel, 0, 0
  {
    match Lookup(types, t)
    case None =>
    case Some(td) =>
      AppendItemsFuelMonotone(x, types, td.items, fuel - 1, more - 1);
  }

  lemma {:induction false} AppendItemsFuelMonotone(x: XElem, types: Option<seq<TypeDef>>, items: seq<Item>, fuel: nat, more: nat)
    requires fuel <= more && AppendItems(x, types, items, fuel).Some?
    ensures AppendItems(x, types, items, more) == AppendItems(x, types, items, fuel)
    decreases fuel, 1, |items|
  {
    if items != [] {
      AppendItemFuelMonotone(x, types, items[0], fuel, more);
      var y := AppendItem(x, types, items[0], fuel).value;
      AppendItemsFuelMonotone(y, types, items[1..], fuel, more);
    }
  }

  lemma {:induction false} AppendItemFuelMonotone(x: XElem, types: Option<seq<TypeDef>>, it: Item, fuel: nat, more: nat)
    requires fuel <= more && AppendItem(x, types, it, fuel).Some?
    ensures AppendItem(x, types, it, more) == AppendItem(x, types, it, fuel)
    decreases fuel, 1, 0
  {
    if !IsPrimitive(it.typ) {
      AppendTypesFuelMonotone(Fresh(it.name), types, it.typ, fuel, more);
    }
  }

  /** A set of type names closed under "contains a compound item whose type is
      in the set": every type in it is defined and reaches the set again, i.e.
      the names of a dependency cycle and anything feeding it. */
  ghost predicate Cyclic(types: Option<seq<TypeDef>>, cyc: set<string>) {
    forall t {:trigger Lookup(types, t)} :: t in cyc ==>
      Lookup(types, t).Some? &&
      exists k :: 0 <= k < |Lookup(types, t).value.items| &&
        !IsPrimitive(Lookup(types, t).value.items[k].typ) &&
        Lookup(types, t).value.items[k].typ in cyc
  }

  /** Items that contain one whose expansion never finishes never finish. */
  lemma {:induction false} ItemsDiverge(x: XElem, types: Option<seq<TypeDef>>, items: seq<Item>, fuel: nat, k: nat)
    requires k < |items| && !IsPrimitive(items[k].typ)
    requires forall y :: AppendTypes(y, types, items[k].typ, fuel).None?
    ensures AppendItems(x, types, items, fuel).None?
    decreases k
  {
    assert AppendTypes(Fresh(items[k].name), types, items[k].typ, fuel).None?;
    if k > 0 {
      var first := AppendItem(x, types, items[0], fuel);
      if first.Some? {
        ItemsDiverge(first.value, types, items[1..], fuel, k - 1);
      }
    }
  }

  /** No cycle guard: expanding a type of a cycle fails for every depth
      bound, so the source's recursion never ends. */
  lemma {:induction false} CyclicTypesDiverge(x: XElem, types: Option<seq<TypeDef>>, cyc: set<string>, t: string, fuel: nat)
    requires Cyclic(types, cyc) && t in cyc
    ensures AppendTypes(x, types, t, fuel).None?
    decreases fuel
  {
    var td := Lookup(types, t).value;
    if fuel > 0 {
      var k :| 0 <= k < |td.items| && !IsPrimitive(td.items[k].typ) && td.items[k].typ in cyc;
      var u := td.items[k].typ;
      var f := fuel - 1;
      forall y: XElem
        ensures AppendTypes(y, types, u, f).None?
      {
        CyclicTypesDiverge(y, types, cyc, u, f);
      }
      assert AppendItems(x, types, td.items, f).None? by {
        ItemsDiverge(x, types, td.items, f, k);
      }
    }
  }

  /** `rank` witnesses that the definitions are acyclic: every compound item
      that names a definition names one of strictly smaller rank. */
  ghost predicate Ranked(types: Option<seq<TypeDef>>, rank: map<string, nat>) {
    forall td :: td in types.GetOr([]) ==>
      td.name in rank &&
      forall it :: it in td.items && !IsPrimitive(it.typ) && Lookup(types, it.typ).Some? ==>
        it.typ in rank && rank[it.typ] < rank[td.name]
  }

  /** Acyclic definitions always expand, given a depth bound above the rank. */
  lemma {:induction false} RankedTypesExpand(x: XElem, types: Option<seq<TypeDef>>, t: string, fuel: nat, rank: map<string, nat>)
    requires Ranked(types, rank)
    requires Lookup(types, t).Some? ==> t in rank && rank[t] < fuel
    ensures AppendTypes(x, types, t, fuel).Some?
    decreases fuel, 0, 0
  {
    match Lookup(types, t)
    case None =>
    case Some(td) =>
      assert td in types.GetOr([]);
      RankedItemsExpand(x, types, td.items, fuel - 1, rank);
  }

  lemma {:induction false} RankedItemsExpand(x: XElem, types: Option<seq<TypeDef>>, items: seq<Item>, fuel: nat, rank: map<string, nat>)
    requires Ranked(types, rank)
    requires forall it :: it in items && !IsPrimitive(it.typ) && Lookup(types, it.typ).Some? ==>
               it.typ in rank && rank[it.typ] < fuel
    ensures AppendItems(x, types, items, fuel).Some?
    decreases fuel, 1, |items|
  {
    if items != [] {
      var it := items[0];
      if !IsPrimitive(it.typ) {
        RankedTypesExpand(Fresh(it.name), types, it.typ, fuel, rank);
      }
      var y := AppendItem(x, types, it, fuel).value;
      RankedItemsExpand(y, types, items[1..], fuel, rank);
    }
  }

  /** The attribute one item adds to the element it is expanded into: `name=type` for a single primitive item. */
  function ItemAttr(it: Item): seq<XAttr> {
    if !it.multi && IsPrimitive(it.typ) then [XAttr(it.name, it.typ)] else []
  }

  /** The attributes a list of items adds, in order. */
  function ItemAttrs(items: seq<Item>): seq<XAttr> {
    if items == [] then [] else ItemAttr(items[0]) + ItemAttrs(items[1..])
  }

  /** What a child looks like from outside: a comment's text or an element's tag. */
  datatype Shape = Marker(text: string) | Child(tag: string)

  function ShapeOf(cs: seq<XChild>): (r: seq<Shape>)
    ensures |r| == |cs|
  {
    if cs == [] then []
    else [match cs[0] case Element(e) => Child(e.tag) case Comment(c) => Marker(c)] + ShapeOf(cs[1..])
  }

  /** The children one item adds: a "multi" comment and an element for a
      multi item, an element for a single compound item, nothing for a single
      primitive item. */
  function ItemChild(it: Item): seq<Shape> {
    if it.multi then [Marker("multi"), Child(it.name)]
    else if IsPrimitive(it.typ) then []
    else [Child(it.name)]
  }

  /** The children a list of items adds, in order. */
  function ItemChildren(items: seq<Item>): seq<Shape> {
    if items == [] then [] else ItemChild(items[0]) + ItemChildren(items[1..])
  }

  lemma {:induction false} ShapeOfConcat(a: seq<XChild>, b: seq<XChild>)
    ensures ShapeOf(a + b) == ShapeOf(a) + ShapeOf(b)
    decreases |a|
  {
    if a == [] {
      assert a + b == b;
    } else {
      assert (a + b)[1..] == a[1..] + b;
      ShapeOfConcat(a[1..], b);
    }
  }

  /** One item appends `ItemAttr(it)` to the attributes and `ItemChild(it)` to the children. */
  lemma AppendItemShape(x: XElem, types: Option<seq<TypeDef>>, it: Item, fuel: nat)
    requires AppendItem(x, types, it, fuel).Some?
    ensures AppendItem(x, types, it, fuel).value.attrs == x.attrs + ItemAttr(it)
    ensures ShapeOf(AppendItem(x, types, it, fuel).value.children) == ShapeOf(x.children) + ItemChild(it)
  {
    var y := AppendItem(x, types, it, fuel).value;
    if it.multi {
      var c := y.children[|x.children| + 1];
      assert y.children == x.children + [Comment("multi"), c];
      ShapeOfConcat(x.children, [Comment("multi"), c]);
      assert ShapeOf([Comment("multi"), c]) == [Marker("multi"), Child(it.name)];
      assert y.attrs == x.attrs + [];
    } else if IsPrimitive(it.typ) {
      assert y.children == x.children;
      assert ShapeOf(x.children) + [] == ShapeOf(x.children);
    } else {
      var c := y.children[|x.children|];
      assert y.children == x.children + [c];
      ShapeOfConcat(x.children, [c]);
      assert y.attrs == x.attrs + [];
    }
  }

  /** One step of the item loop: the first item succeeds and the rest continue from its result. */
  lemma AppendItemsStep(x: XElem, types: Option<seq<TypeDef>>, items: seq<Item>, fuel: nat)
    requires items != [] && AppendItems(x, types, items, fuel).Some?
    ensures AppendItem(x, types, items[0], fuel).Some?
    ensures AppendItems(x, types, items, fuel)
         == AppendItems(AppendItem(x, types, items[0], fuel).value, types, items[1..], fuel)
  {
  }

  /** Expanding items appends exactly `ItemAttrs(items)` to the attributes. */
  lemma {:induction false} AppendItemsAttrs(x: XElem, types: Option<seq<TypeDef>>, items: seq<Item>, fuel: nat)
    requires AppendItems(x, types, items, fuel).Some?
    ensures AppendItems(x, types, items, fuel).value.attrs == x.attrs + ItemAttrs(items)
    decreases |items|
  {
    if items == [] {
      assert x.attrs + [] == x.attrs;
    } else {
      AppendItemsStep(x, types, items, fuel);
      var y := AppendItem(x, types, items[0], fuel).value;
      var z := AppendItems(y, types, items[1..], fuel).value;
      AppendItemShape(x, types, items[0], fuel);
      AppendItemsAttrs(y, types, items[1..], fuel);
      assert ItemAttrs(items) == ItemAttr(items[0]) + ItemAttrs(items[1..]);
      ConcatAssoc(x.attrs, ItemAttr(items[0]), ItemAttrs(items[1..]));
    }
  }

  lemma ConcatAssoc<T>(a: seq<T>, b: seq<T>, c: seq<T>)
    ensures (a + b) + c == a + (b + c)
  {
  }

  /** Expanding items appends exactly `ItemChildren(items)` to the children. */
  lemma {:induction false} AppendItemsChildren(x: XElem, types: Option<seq<TypeDef>>, items: seq<Item>, fuel: nat)
    requires AppendItems(x, types, items, fuel).Some?
    ensures ShapeOf(AppendItems(x, types, items, fuel).value.children) == ShapeOf(x.children) + ItemChildren(items)
    decreases |items|
  {
    if items == [] {
      assert ShapeOf(x.children) + [] == ShapeOf(x.children);
    } else {
      AppendItemsStep(x, types, items, fuel);
      var y := AppendItem(x, types, items[0], fuel).value;
      var z := AppendItems(y, types, items[1..], fuel).value;
      AppendItemShape(x, types, items[0], fuel);
      AppendItemsChildren(y, types, items[1..], fuel);
      assert ItemChildren(items) == ItemChild(items[0]) + ItemChildren(items[1..]);
      ConcatAssoc(ShapeOf(x.children), ItemChild(items[0]), ItemChildren(items[1..]));
    }
  }

  /** Template expansion of a defined type into a fresh element: the single
      primitive items become its attributes, and its children are, in item
      order, a "multi" comment plus an element for each multi item and an
      element for each single compound item. */
  lemma ExpansionShape(tag: string, types: Option<seq<TypeDef>>, t: string, fuel: nat)
    requires Lookup(types, t).Some?
    requires AppendTypes(Fresh(tag), types, t, fuel).Some?
    ensures AppendTypes(Fresh(tag), types, t, fuel).value.attrs == ItemAttrs(Lookup(types, t).value.items)
    ensures ShapeOf(AppendTypes(Fresh(tag), types, t, fuel).value.children) == ItemChildren(Lookup(types, t).value.items)
  {
    var td := Lookup(types, t).value;
    AppendItemsAttrs(Fresh(tag), types, td.items, fuel - 1);
    AppendItemsChildren(Fresh(tag), types, td.items, fuel - 1);
    assert [] + ItemAttrs(td.items) == ItemAttrs(td.items);
    assert ShapeOf([]) + ItemChildren(td.items) == ItemChildren(td.items);
  }

  /** A var whose type is a primitive becomes a leaf element named after the
      var, holding the single attribute `name=type` with the type as written. */
  lemma PrimitiveVarLeaf(n: Node, v: Var, fuel: nat)
    requires IsPrimitive(v.typ)
    ensures ExportVar(n, v, fuel) == Some(XElem(v.name, [XAttr(v.name, v.typ)], []))
  {
  }

  /** One item, exactly: the element a multi item appends after its "multi"
      comment, and the element a single compound item appends, is a fresh
      element named after the item, holding `name=type` for a primitive and
      otherwise the expansion of the item's type looked up in the same
      definitions. */
  lemma AppendItemChild(x: XElem, types: Option<seq<TypeDef>>, it: Item, fuel: nat)
    requires AppendItem(x, types, it, fuel).Some?
    ensures !IsPrimitive(it.typ) ==> AppendTypes(Fresh(it.name), types, it.typ, fuel).Some?
    ensures it.multi ==>
              AppendItem(x, types, it, fuel).value.children == x.children + [Comment("multi"), Element(
                if IsPrimitive(it.typ) then XElem(it.name, [XAttr(it.name, it.typ)], [])
                else AppendTypes(Fresh(it.name), types, it.typ, fuel).value)]
    ensures !it.multi && !IsPrimitive(it.typ) ==>
              AppendItem(x, types, it, fuel).value.children
              == x.children + [Element(AppendTypes(Fresh(it.name), types, it.typ, fuel).value)]
    ensures !it.multi && IsPrimitive(it.typ) ==> AppendItem(x, types, it, fuel).value.children == x.children
  {
  }

  /** How deep the expansion of `t` nests under `rank`: one more than its
      rank when `t` is defined, nothing when it is not. */
  function Depth(types: Option<seq<TypeDef>>, rank: map<string, nat>, t: string): nat {
    if Lookup(types, t).Some? && t in rank then rank[t] + 1 else 0
  }

  /** The tree `appendTypes` builds for type `t` in a fresh element named
      `tag`, defined without a depth bound by recursion on the rank of
      acyclic definitions: the single primitive items as attributes and,
      in item order, the children `ItemsContent` lists; an undefined type
      leaves the element empty. */
  function Expansion(tag: string, types: Option<seq<TypeDef>>, t: string, rank: map<string, nat>): (r: XElem)
    requires Ranked(types, rank)
    ensures r.tag == tag
    ensures Lookup(types, t).None? ==> r == Fresh(tag)
    ensures Lookup(types, t).Some? ==> ShapeOf(r.children) == ItemChildren(Lookup(types, t).value.items)
    decreases Depth(types, rank, t), 1, 0
  {
    match Lookup(types, t)
    case None => Fresh(tag)
    case Some(td) =>
      assert td in types.GetOr([]);
      XElem(tag, ItemAttrs(td.items), ItemsContent(types, td.items, rank, rank[t]))
  }

  /** The children one item contributes to the tree: a "multi" comment and
      the item's element for a multi item, the item's element for a single
      compound item, nothing for a single primitive item. The item's element
      holds `name=type` for a primitive and the expansion of its type
      otherwise. */
  function ItemContent(types: Option<seq<TypeDef>>, it: Item, rank: map<string, nat>, bound: nat): (r: seq<XChild>)
    requires Ranked(types, rank)
    requires !IsPrimitive(it.typ) && Lookup(types, it.typ).Some? ==> it.typ in rank && rank[it.typ] < bound
    ensures ShapeOf(r) == ItemChild(it)
    decreases bound, 2, 0
  {
    if it.multi then
      [Comment("multi"), Element(if IsPrimitive(it.typ) then XElem(it.name, [XAttr(it.name, it.typ)], [])
                                 else Expansion(it.name, types, it.typ, rank))]
    else if IsPrimitive(it.typ) then []
    else [Element(Expansion(it.name, types, it.typ, rank))]
  }

  /** The children a list of items contributes, in order. */
  function ItemsContent(types: Option<seq<TypeDef>>, items: seq<Item>, rank: map<string, nat>, bound: nat): (r: seq<XChild>)
    requires Ranked(types, rank)
    requires forall it :: it in items && !IsPrimitive(it.typ) && Lookup(types, it.typ).Some? ==>
               it.typ in rank && rank[it.typ] < bound
    ensures ShapeOf(r) == ItemChildren(items)
    decreases bound, 3, |items|
  {
    if items == [] then []
    else
      var head := ItemContent(types, items[0], rank, bound);
      var tail := ItemsContent(types, items[1..], rank, bound);
      ShapeOfConcat(head, tail);
      head + tail
  }

  /** Given a depth bound above the rank, `appendTypes` on a fresh element
      builds exactly the reference tree `Expansion`. */
  lemma {:induction false} ExpansionMatches(tag: string, types: Option<seq<TypeDef>>, t: string, fuel: nat, rank: map<string, nat>)
    requires Ranked(types, rank)
    requires Lookup(types, t).Some? ==> t in rank && rank[t] < fuel
    ensures AppendTypes(Fresh(tag), types, t, fuel) == Some(Expansion(tag, types, t, rank))
    decreases fuel, 0, 1
  {
    match Lookup(types, t)
    case None =>
      ExpansionOfUndefined(tag, types, t, rank);
    case Some(td) =>
      ExpansionOfDefined(tag, types, t, td, rank);
      ItemsExpansionMatches(tag, types, td.items, fuel, rank, rank[t]);
      assert AppendTypes(Fresh(tag), types, t, fuel) == AppendItems(Fresh(tag), types, td.items, fuel - 1);
  }

  /** The items of a definition, expanded into a fresh element, give the
      reference attributes and children. */
  lemma {:induction false} ItemsExpansionMatches(tag: string, types: Option<seq<TypeDef>>, items: seq<Item>, fuel: nat,
                                                 rank: map<string, nat>, bound: nat)
    requires Ranked(types, rank) && bound < fuel
    requires forall it :: it in items && !IsPrimitive(it.typ) && Lookup(types, it.typ).Some? ==>
               it.typ in rank && rank[it.typ] < bound
    ensures AppendItems(Fresh(tag), types, items, fuel - 1)
         == Some(XElem(tag, ItemAttrs(items), ItemsContent(types, items, rank, bound)))
    decreases fuel, 0, 0
  {
    var x := Fresh(tag);
    var cs := ItemsContent(types, items, rank, bound);
    AppendItemsMatch(x, types, items, fuel - 1, rank, bound);
    EmptyConcat(ItemAttrs(items), cs);
    assert XElem(x.tag, x.attrs + ItemAttrs(items), x.children + cs) == XElem(tag, ItemAttrs(items), cs);
  }

  /** The reference tree of an undefined type is the empty element. */
  lemma ExpansionOfUndefined(tag: string, types: Option<seq<TypeDef>>, t: string, rank: map<string, nat>)
    requires Ranked(types, rank) && Lookup(types, t).None?
    ensures Expansion(tag, types, t, rank) == Fresh(tag)
  {
  }

  /** Under a rank witness, a defined type is ranked and its compound items
      name only definitions of smaller rank. */
  lemma RankedLookup(types: Option<seq<TypeDef>>, t: string, rank: map<string, nat>)
    requires Ranked(types, rank) && Lookup(types, t).Some?
    ensures t in rank
    ensures forall it :: it in Lookup(types, t).value.items && !IsPrimitive(it.typ) && Lookup(types, it.typ).Some? ==>
              it.typ in rank && rank[it.typ] < rank[t]
  {
    assert Lookup(types, t).value in types.GetOr([]);
  }

  lemma EmptyConcat<A, B>(a: seq<A>, b: seq<B>)
    ensures [] + a == a && [] + b == b
  {
  }

  /** The reference tree of a defined type: its single primitive items as
      attributes and its items' reference children. */
  lemma ExpansionOfDefined(tag: string, types: Option<seq<TypeDef>>, t: string, td: TypeDef, rank: map<string, nat>)
    requires Ranked(types, rank) && Lookup(types, t) == Some(td)
    ensures t in rank
    ensures forall it :: it in td.items && !IsPrimitive(it.typ) && Lookup(types, it.typ).Some? ==>
              it.typ in rank && rank[it.typ] < rank[t]
    ensures Expansion(tag, types, t, rank) == XElem(tag, ItemAttrs(td.items), ItemsContent(types, td.items, rank, rank[t]))
  {
    RankedLookup(types, t, rank);
  }

  /** The item loop appends exactly the reference attributes and children. */
  lemma {:induction false} AppendItemsMatch(x: XElem, types: Option<seq<TypeDef>>, items: seq<Item>, fuel: nat,
                                            rank: map<string, nat>, bound: nat)
    requires Ranked(types, rank) && bound <= fuel
    requires forall it :: it in items && !IsPrimitive(it.typ) && Lookup(types, it.typ).Some? ==>
               it.typ in rank && rank[it.typ] < bound
    ensures AppendItems(x, types, items, fuel)
         == Some(XElem(x.tag, x.attrs + ItemAttrs(items), x.children + ItemsContent(types, items, rank, bound)))
    decreases fuel, 1, |items|
  {
    if items == [] {
      assert x.attrs + [] == x.attrs && x.children + [] == x.children;
    } else {
      AppendItemMatches(x, types, items[0], fuel, rank, bound);
      var y := AppendItem(x, types, items[0], fuel).value;
      AppendItemsMatch(y, types, items[1..], fuel, rank, bound);
      ConcatAssoc(x.attrs, ItemAttr(items[0]), ItemAttrs(items[1..]));
      ConcatAssoc(x.children, ItemContent(types, items[0], rank, bound), ItemsContent(types, items[1..], rank, bound));
    }
  }

  /** One item appends exactly its reference attribute and children. */
  lemma {:induction false} AppendItemMatches(x: XElem, types: Option<seq<TypeDef>>, it: Item, fuel: nat,
                                             rank: map<string, nat>, bound: nat)
    requires Ranked(types, rank) && bound <= fuel
    requires !IsPrimitive(it.typ) && Lookup(types, it.typ).Some? ==> it.typ in rank && rank[it.typ] < bound
    ensures AppendItem(x, types, it, fuel)
         == Some(XElem(x.tag, x.attrs + ItemAttr(it), x.children + ItemContent(types, it, rank, bound)))
    decreases fuel, 1, 0
  {
    if !IsPrimitive(it.typ) {
      ExpansionMatches(it.name, types, it.typ, fuel, rank);
    }
    if it.multi || !IsPrimitive(it.typ) {
      assert x.attrs + [] == x.attrs;
    } else {
      assert x.children + [] == x.children;
    }
  }

  /** A var whose type is not a primitive becomes the expansion of its type,
      looked up in the node's own `<types>`. */
  lemma CompoundVarExpands(n: Node, v: Var, fuel: nat, rank: map<string, nat>)
    requires !IsPrimitive(v.typ) && Ranked(n.types, rank)
    requires Lookup(n.types, v.typ).Some? ==> v.typ in rank && rank[v.typ] < fuel
    ensures ExportVar(n, v, fuel) == Some(Expansion(v.name, n.types, v.typ, rank))
  {
    ExpansionMatches(v.name, n.types, v.typ, fuel, rank);
  }

  /** Whatever the depth bound, a compound var that expands at all holds the
      single primitive items of its type, found in the node's own `<types>`,
      as attributes and their children in item order. */
  lemma CompoundVarShape(n: Node, v: Var, fuel: nat)
    requires !IsPrimitive(v.typ) && Lookup(n.types, v.typ).Some? && ExportVar(n, v, fuel).Some?
    ensures ExportVar(n, v, fuel).value.attrs == ItemAttrs(Lookup(n.types, v.typ).value.items)
    ensures ShapeOf(ExportVar(n, v, fuel).value.children) == ItemChildren(Lookup(n.types, v.typ).value.items)
  {
    ExpansionShape(v.name, n.types, v.typ, fuel);
  }

  /** Every node's definitions are acyclic, witnessed by `ranks[i]` for node
      `i`, and the depth bound exceeds every rank: the whole template is
      produced. */
  lemma ExportXmlExpands(doc: Document, fuel: nat, ranks: seq<map<string, nat>>)
    requires |ranks| == |doc|
    requires forall i :: 0 <= i < |doc| ==> Ranked(doc[i].types, ranks[i])
    requires forall i, t :: 0 <= i < |doc| && t in ranks[i] ==> ranks[i][t] < fuel
    ensures ExportXml(doc, fuel).Some?
  {
    forall i | 0 <= i < |doc|
      ensures ExportNode(doc[i], fuel).Some?
    {
      forall k | 0 <= k < |VarsOf(doc[i])|
        ensures ExportVar(doc[i], VarsOf(doc[i])[k], fuel).Some?
      {
        var v := VarsOf(doc[i])[k];
        if !IsPrimitive(v.typ) {
          var td := Lookup(doc[i].types, v.typ);
          if td.Some? {
            assert td.value in doc[i].types.GetOr([]);
          }
          RankedTypesExpand(Fresh(v.name), doc[i].types, v.typ, fuel, ranks[i]);
        }
      }
    }
  }

  /** No cycle guard, document-wide: one compound var whose type lies on a
      dependency cycle of its node's `<types>` makes the whole template
      fail for every depth bound, as the source recurses without end. */
  lemma ExportXmlDiverges(doc: Document, fuel: nat, i: nat, k: nat, cyc: set<string>)
    requires i < |doc| && k < |VarsOf(doc[i])|
    requires !IsPrimitive(VarsOf(doc[i])[k].typ)
    requires Cyclic(doc[i].types, cyc) && VarsOf(doc[i])[k].typ in cyc
    ensures ExportXml(doc, fuel).None?
  {
    var v := VarsOf(doc[i])[k];
    CyclicTypesDiverge(Fresh(v.name), doc[i].types, cyc, v.typ, fuel);
    assert ExportVar(doc[i], v, fuel).None?;
    assert ExportNode(doc[i], fuel).None?;
  }
}
