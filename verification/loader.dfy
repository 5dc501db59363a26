/** `exportSource`: the C++ definitions of the generated loader classes, as a
    list of lines. Per top-level node: an empty constructor and destructor,
    one `load_<type>` function per compound type (one statement block per
    item), and `loadConfigData`, which opens the file, takes the root
    element and fills one public field per var from the root's child of the
    same name. A primitive value is read with the pugixml accessor the type
    table assigns to its kind; a compound value is read by calling its
    `load_<type>` and returning false when that fails.

    The emitted text is read back by `ParseSource` into what each generated
    statement does; `SourceRoundTrip` states that this is exactly
    `SourceOf`, the code the document calls for. */
module Loader {
  import opened Wrappers
  import opened TypeTable
  import opened Text
  import opened Resolve
  import opened Schema
  import opened LineParse
  import opened Names

  // ---------------------------------------------------------------------
  // The emitted text

  /** The accessor `gTypeTrans[getType(typ)]` of a primitive type. */
  function Accessor(typ: string): string
    requires IsPrimitive(typ)
  {
    Accessors[GetType(typ)]
  }

  /** The tail `attr").acc();` of an attribute read. */
  function AttrCall(attr: string, acc: string): string {
    attr + ("\")." + (acc + "();"))
  }

  function Opener(file: string): seq<string> {
    [CppNotice,
     "// source: " + file,
     "",
     "#include \"" + (ToLower(BaseName(file)) + "Config.h\""),
     ""]
  }

  function ClassIntro(name: string): seq<string> {
    [name + ("::" + (name + "() {")), "}", "", name + ("::~" + (name + "() {")), "}", ""]
  }

  /** The end of every generated function. */
  const FnEnd := ["    return true;", "}", ""]

  /** Inside the loop over a multi item's children: the element read into `item_`. */
  function ElementLines(it: Item): seq<string> {
    if IsPrimitive(it.typ) then
      ["        " + (it.typ + (" item_" + (" = itemNode.attribute(\"" + AttrCall(it.name, Accessor(it.typ)))))]
    else
      ["        " + (it.typ + (" item_" + ";")),
       "        if (!load_" + (it.typ + "(item_, itemNode)) {"),
       "            return false;",
       "        }"]
  }

  /** The statements filling one item of a struct. */
  function ItemLines(it: Item): seq<string> {
    if it.multi then
      ["    " + ("for" + (" (auto itemNode : node.children(\"" + (it.name + "\")) {")))]
      + (ElementLines(it) + ["        item." + (it.name + ".push_back(item_);"), "    }"])
    else if IsPrimitive(it.typ) then
      ["    " + ("item" + ("." + (it.name + (" = node.attribute(\"" + AttrCall(it.name, Accessor(it.typ))))))]
    else
      ["    " + ("if" + (" (!load_" + (it.typ + ("(item." + (it.name + (", node.child(\"" + (it.name + "\"))) {"))))))),
       "        return false;",
       "    }"]
  }

  function ItemBlocks(items: seq<Item>): seq<seq<string>> {
    seq(|items|, i requires 0 <= i < |items| => ItemLines(items[i]))
  }

  function LoaderHead(cls: string, t: string): string {
    "bool " + (cls + ("::load_" + (t + ("(" + (t + "& item, const pugi::xml_node& node) {")))))
  }

  function LoaderLines(cls: string, td: TypeDef): seq<string> {
    [LoaderHead(cls, td.name)] + (Concat(ItemBlocks(td.items)) + FnEnd)
  }

  function LoaderBlocks(cls: string, tds: seq<TypeDef>): seq<seq<string>> {
    seq(|tds|, i requires 0 <= i < |tds| => LoaderLines(cls, tds[i]))
  }

  /** The start of `loadConfigData`, up to the checked root element. */
  function ConfigHead(cls: string): seq<string> {
    ["bool " + (cls + "::loadConfigData(const std::string& fname) {"),
     "    pugi::xml_document doc;",
     "    pugi::xml_parse_result ret = doc.load_file(fname.c_str());",
     "    if (!ret) {",
     "        return false;",
     "    }",
     "",
     "    pugi::xml_node root = doc.first_child();",
     "    if (!root) {",
     "        return false;",
     "    }",
     ""]
  }

  /** The check that the var's node exists. */
  const NodeCheck := ["        if (!node) {", "            return false;", "        }"]

  /** The read of a var from its node. */
  function VarReadLines(v: Var): seq<string> {
    if IsPrimitive(v.typ) then
      ["        " + (v.name + (" = node.attribute(\"" + AttrCall(v.name, Accessor(v.typ))))]
    else
      ["        " + ("if" + (" (!load_" + (v.typ + ("(" + (v.name + ", node)) {"))))),
       "            return false;",
       "        }"]
  }

  /** The block filling one var: find the root's child named after it, fail without it, read it. */
  function VarLines(v: Var): seq<string> {
    ["    {"]
    + (["        pugi::xml_node node = root.child(\"" + (v.name + "\");")]
    + (NodeCheck + (VarReadLines(v) + ["    }"])))
  }

  function VarBlocks(vs: seq<Var>): seq<seq<string>> {
    seq(|vs|, i requires 0 <= i < |vs| => VarLines(vs[i]))
  }

  /** A node's definitions. An absent `<types>` or `<vars>` contributes nothing, like an empty one. */
  function ClassLines(n: Node): seq<string> {
    ClassIntro(n.name)
    + (Concat(LoaderBlocks(n.name, TypesOf(n)))
    + (ConfigHead(n.name) + (Concat(VarBlocks(VarsOf(n))) + FnEnd)))
  }

  function ClassBlocks(doc: Document): seq<seq<string>> {
    seq(|doc|, i requires 0 <= i < |doc| => ClassLines(doc[i]))
  }

  /** `exportSource`: the lines of the generated source for input file `file`. */
  function ExportSource(file: string, doc: Document): seq<string> {
    Opener(file) + Concat(ClassBlocks(doc))
  }

  // ---------------------------------------------------------------------
  // What the generated code does

  /** How a value is read: with an attribute accessor, or by a nested
      `load_<typ>` call whose failure makes the enclosing function return false. */
  datatype Read = Attr(attr: string, accessor: string) | Load(typ: string)

  /** The effect of one item's statements:
      `Scalar`: `item.field` is read from the current node;
      `Nested`: `item.field` is loaded from the node's first child named `child`;
      `Repeated`: for each child named `child`, an `elemType` value is read from
      that child and appended to `item.field`. */
  datatype ItemCode =
    | Scalar(field: string, read: Read)
    | Nested(field: string, typ: string, child: string)
    | Repeated(child: string, elemType: string, read: Read, field: string)

  /** A `load_<typ>` member function of class `cls`. */
  datatype LoaderCode = LoaderCode(cls: string, typ: string, items: seq<ItemCode>)

  /** A var's block in `loadConfigData`: fail unless the root has a child
      named `child`, then read `field` from it. */
  datatype VarCode = VarCode(child: string, field: string, read: Read)

  datatype ClassCode = ClassCode(name: string, loaders: seq<LoaderCode>, vars: seq<VarCode>)

  /** The file: its source line, the file it includes, and its classes. */
  datatype SourceCode = SourceCode(source: string, includes: string, classes: seq<ClassCode>)

  /** How a value of type `typ` stored in attribute or child `attr` is read. */
  function ReadOf(typ: string, attr: string): Read {
    if IsPrimitive(typ) then Attr(attr, Accessor(typ)) else Load(typ)
  }

  function ItemCodeOf(it: Item): ItemCode {
    if it.multi then Repeated(it.name, it.typ, ReadOf(it.typ, it.name), it.name)
    else if IsPrimitive(it.typ) then Scalar(it.name, ReadOf(it.typ, it.name))
    else Nested(it.name, it.typ, it.name)
  }

  function ItemCodes(items: seq<Item>): seq<ItemCode> {
    seq(|items|, i requires 0 <= i < |items| => ItemCodeOf(items[i]))
  }

  function LoaderCodeOf(cls: string, td: TypeDef): LoaderCode {
    LoaderCode(cls, td.name, ItemCodes(td.items))
  }

  function LoaderCodes(cls: string, tds: seq<TypeDef>): seq<LoaderCode> {
    seq(|tds|, i requires 0 <= i < |tds| => LoaderCodeOf(cls, tds[i]))
  }

  function VarCodeOf(v: Var): VarCode {
    VarCode(v.name, v.name, ReadOf(v.typ, v.name))
  }

  function VarCodes(vs: seq<Var>): seq<VarCode> {
    seq(|vs|, i requires 0 <= i < |vs| => VarCodeOf(vs[i]))
  }

  function ClassCodeOf(n: Node): ClassCode {
    ClassCode(n.name, LoaderCodes(n.name, TypesOf(n)), VarCodes(VarsOf(n)))
  }

  function ClassCodes(doc: Document): seq<ClassCode> {
    seq(|doc|, i requires 0 <= i < |doc| => ClassCodeOf(doc[i]))
  }

  function SourceOf(file: string, doc: Document): SourceCode {
    SourceCode(file, HeaderFile(file), ClassCodes(doc))
  }

  // ---------------------------------------------------------------------
  // Reading the text back

  /** Reads `attr").acc();`. */
  function ParseAttrCall(s: string): Option<Read> {
    var a :- TakeIdent(s);
    var r :- Lit(a.rest, "\").");
    var c :- TakeIdent(r);
    if c.rest == "();" then Some(Attr(a.token, c.token)) else None
  }

  /** The element type and read inside a multi item's loop. */
  datatype Element = Element(typ: string, read: Read)

  function ParseElement(lines: seq<string>): (r: Option<Parsed<Element>>)
    ensures r.Some? ==> |r.value.rest| < |lines|
  {
    var h :- Next(lines);
    var s :- Lit(h.value, "        ");
    var t :- TakeIdent(s);
    var s2 :- Lit(t.rest, " item_");
    if s2 == ";" then
      var h2 :- Next(h.rest);
      var s3 :- Lit(h2.value, "        if (!load_");
      var t2 :- TakeIdent(s3);
      if t2.rest != "(item_, itemNode)) {" then None
      else
        var rest :- Lit(h2.rest, ["            return false;", "        }"]);
        Some(Parsed(Element(t.token, Load(t2.token)), rest))
    else
      var s3 :- Lit(s2, " = itemNode.attribute(\"");
      var a :- ParseAttrCall(s3);
      Some(Parsed(Element(t.token, a), h.rest))
  }

  /** Reads a multi item's loop; `s` is its first line after the word `for`. */
  function ParseRepeated(s: string, more: seq<string>): (r: Option<Parsed<ItemCode>>)
    ensures r.Some? ==> |r.value.rest| < |more|
  {
    var s0 :- Lit(s, " (auto itemNode : node.children(\"");
    var c :- TakeIdent(s0);
    if c.rest != "\")) {" then None
    else
      var e :- ParseElement(more);
      var h :- Next(e.rest);
      var s1 :- Lit(h.value, "        item.");
      var f :- TakeIdent(s1);
      if f.rest != ".push_back(item_);" then None
      else
        var rest :- Lit(h.rest, ["    }"]);
        Some(Parsed(Repeated(c.token, e.value.typ, e.value.read, f.token), rest))
  }

  /** Reads a single primitive item's assignment; `s` is its line after the word `item`. */
  function ParseScalar(s: string, more: seq<string>): (r: Option<Parsed<ItemCode>>)
    ensures r.Some? ==> |r.value.rest| <= |more|
  {
    var s1 :- Lit(s, ".");
    var f :- TakeIdent(s1);
    var s2 :- Lit(f.rest, " = node.attribute(\"");
    var a :- ParseAttrCall(s2);
    Some(Parsed(Scalar(f.token, a), more))
  }

  /** Reads a single compound item's load; `s` is its first line after the word `if`. */
  function ParseNested(s: string, more: seq<string>): (r: Option<Parsed<ItemCode>>)
    ensures r.Some? ==> |r.value.rest| <= |more|
  {
    var s1 :- Lit(s, " (!load_");
    var t :- TakeIdent(s1);
    var s2 :- Lit(t.rest, "(item.");
    var f :- TakeIdent(s2);
    var s3 :- Lit(f.rest, ", node.child(\"");
    var c :- TakeIdent(s3);
    if c.rest != "\"))) {" then None
    else
      var rest :- Lit(more, ["        return false;", "    }"]);
      Some(Parsed(Nested(f.token, t.token, c.token), rest))
  }

  /** Reads one item's statements, told apart by their first word: `for`, `item` or `if`. */
  function ParseItem(lines: seq<string>): (r: Option<Parsed<ItemCode>>)
    ensures r.Some? ==> |r.value.rest| < |lines|
  {
    var h :- Next(lines);
    var s :- Lit(h.value, "    ");
    var w :- TakeIdent(s);
    if w.token == "for" then ParseRepeated(w.rest, h.rest)
    else if w.token == "item" then ParseScalar(w.rest, h.rest)
    else if w.token == "if" then ParseNested(w.rest, h.rest)
    else None
  }

  /** Reads `bool cls::load_T(T& item, ...) {`, with no items yet. */
  function ParseLoaderHead(line: string): Option<LoaderCode> {
    var s :- Lit(line, "bool ");
    var c :- TakeIdent(s);
    var s1 :- Lit(c.rest, "::load_");
    var t :- TakeIdent(s1);
    if t.rest == "(" + (t.token + "& item, const pugi::xml_node& node) {") then Some(LoaderCode(c.token, t.token, []))
    else None
  }

  function ParseLoader(lines: seq<string>): (r: Option<Parsed<LoaderCode>>)
    ensures r.Some? ==> |r.value.rest| < |lines|
  {
    var h :- Next(lines);
    var head :- ParseLoaderHead(h.value);
    var items := Blocks(ParseItem, h.rest);
    var rest :- Lit(items.rest, FnEnd);
    Some(Parsed(head.(items := items.value), rest))
  }

  /** Reads a primitive var's assignment to `field`; `s` is its line after the attribute prefix. */
  function ParseVarAttr(field: string, s: string, more: seq<string>): (r: Option<Parsed<VarCode>>)
    ensures r.Some? ==> |r.value.rest| <= |more|
  {
    var a :- ParseAttrCall(s);
    Some(Parsed(VarCode("", field, a), more))
  }

  /** Reads a compound var's load; `s` is its first line after the word `if`. */
  function ParseVarLoad(s: string, more: seq<string>): (r: Option<Parsed<VarCode>>)
    ensures r.Some? ==> |r.value.rest| <= |more|
  {
    var s1 :- Lit(s, " (!load_");
    var t :- TakeIdent(s1);
    var s2 :- Lit(t.rest, "(");
    var f :- TakeIdent(s2);
    if f.rest != ", node)) {" then None
    else
      var rest :- Lit(more, ["            return false;", "        }"]);
      Some(Parsed(VarCode("", f.token, Load(t.token)), rest))
  }

  /** The read of a var, told apart by what follows its first word. */
  function ParseVarRead(lines: seq<string>): (r: Option<Parsed<VarCode>>)
    ensures r.Some? ==> |r.value.rest| < |lines|
  {
    var h :- Next(lines);
    var s :- Lit(h.value, "        ");
    var w :- TakeIdent(s);
    match Lit(w.rest, " = node.attribute(\"")
    case Some(s1) => ParseVarAttr(w.token, s1, h.rest)
    case None => if w.token == "if" then ParseVarLoad(w.rest, h.rest) else None
  }

  function ParseVar(lines: seq<string>): (r: Option<Parsed<VarCode>>)
    ensures r.Some? ==> |r.value.rest| < |lines|
  {
    var s0 :- Lit(lines, ["    {"]);
    var h :- Next(s0);
    var s1 :- Lit(h.value, "        pugi::xml_node node = root.child(\"");
    var c :- TakeIdent(s1);
    if c.rest != "\");" then None
    else
      var s2 :- Lit(h.rest, NodeCheck);
      var v :- ParseVarRead(s2);
      var rest :- Lit(v.rest, ["    }"]);
      Some(Parsed(v.value.(child := c.token), rest))
  }

  /** Reads a class's constructor name line `N::N() {`. */
  function ParseClassName(line: string): Option<string> {
    var n :- TakeIdent(line);
    if n.rest == "::" + (n.token + "() {") then Some(n.token) else None
  }

  function ParseClass(lines: seq<string>): (r: Option<Parsed<ClassCode>>)
    ensures r.Some? ==> |r.value.rest| < |lines|
  {
    var h :- Next(lines);
    var name :- ParseClassName(h.value);
    var body :- Lit(lines, ClassIntro(name));
    var ls := Blocks(ParseLoader, body);
    var s :- Lit(ls.rest, ConfigHead(name));
    var vs := Blocks(ParseVar, s);
    var rest :- Lit(vs.rest, FnEnd);
    Some(Parsed(ClassCode(name, ls.value, vs.value), rest))
  }

  /** Reads a whole source file: the opener (recovering the source name and
      the included file) and then classes up to the end. */
  function ParseSource(lines: seq<string>): Option<SourceCode> {
    var h0 :- Next(lines);
    if h0.value != CppNotice then None
    else
      var h1 :- Next(h0.rest);
      var source :- Lit(h1.value, "// source: ");
      var s2 :- Lit(h1.rest, [""]);
      var h3 :- Next(s2);
      var inc0 :- Lit(h3.value, "#include \"");
      var inc :- DropSuffix(inc0, "\"");
      var body :- Lit(h3.rest, [""]);
      var cs := Blocks(ParseClass, body);
      if cs.rest == [] then Some(SourceCode(source, inc, cs.value)) else None
  }

  // ---------------------------------------------------------------------
  // Read-back of lines

  lemma AccessorIsIdent(typ: string)
    requires IsPrimitive(typ)
    ensures IsIdent(Accessor(typ))
  {
    var k := GetType(typ);
    assert IsIdent(Accessors[k]) by {
      assert Accessors[k] in Accessors;
    }
  }

  lemma AttrCallRoundTrip(attr: string, acc: string)
    requires IsIdent(attr) && IsIdent(acc)
    ensures ParseAttrCall(AttrCall(attr, acc)) == Some(Attr(attr, acc))
  {
    TakeIdentSplit(attr, "\")." + (acc + "();"));
    LitPrefix("\").", acc + "();");
    TakeIdentSplit(acc, "();");
  }

  /** Reading back `attr").acc();` for the attribute and accessor of a primitive value. */
  lemma PrimitiveReadRoundTrip(typ: string, attr: string)
    requires IsPrimitive(typ) && IsIdent(attr)
    ensures ParseAttrCall(AttrCall(attr, Accessor(typ))) == Some(ReadOf(typ, attr))
  {
    AccessorIsIdent(typ);
    AttrCallRoundTrip(attr, Accessor(typ));
  }

  lemma ElementRoundTrip(it: Item, rest: seq<string>)
    requires ItemNamed(it)
    ensures ParseElement(ElementLines(it) + rest) == Some(Parsed(Element(it.typ, ReadOf(it.typ, it.name)), rest))
  {
    if IsPrimitive(it.typ) {
      var call := AttrCall(it.name, Accessor(it.typ));
      var tail := " = itemNode.attribute(\"" + call;
      var line := "        " + (it.typ + (" item_" + tail));
      assert ElementLines(it) + rest == [line] + rest;
      NextOf(line, rest);
      LitPrefix("        ", it.typ + (" item_" + tail));
      TakeIdentSplit(it.typ, " item_" + tail);
      LitPrefix(" item_", tail);
      assert tail != ";" by { assert |tail| > 1; }
      LitPrefix(" = itemNode.attribute(\"", call);
      PrimitiveReadRoundTrip(it.typ, it.name);
    } else {
      var line := "        " + (it.typ + (" item_" + ";"));
      var line2 := "        if (!load_" + (it.typ + "(item_, itemNode)) {");
      var ret := ["            return false;", "        }"];
      assert ElementLines(it) + rest == [line] + ([line2] + (ret + rest));
      NextOf(line, [line2] + (ret + rest));
      LitPrefix("        ", it.typ + (" item_" + ";"));
      TakeIdentSplit(it.typ, " item_" + ";");
      LitPrefix(" item_", ";");
      NextOf(line2, ret + rest);
      LitPrefix("        if (!load_", it.typ + "(item_, itemNode)) {");
      TakeIdentSplit(it.typ, "(item_, itemNode)) {");
      LitPrefix(ret, rest);
    }
  }

  lemma RepeatedRoundTrip(it: Item, rest: seq<string>)
    requires ItemNamed(it) && it.multi
    ensures ParseItem(ItemLines(it) + rest) == Some(Parsed(ItemCodeOf(it), rest))
  {
    var head := " (auto itemNode : node.children(\"" + (it.name + "\")) {");
    var line := "    " + ("for" + head);
    var push := "        item." + (it.name + ".push_back(item_);");
    var after := [push] + (["    }"] + rest);
    var elem := ElementLines(it) + after;
    assert ItemLines(it) + rest == [line] + elem;
    NextOf(line, elem);
    LitPrefix("    ", "for" + head);
    TakeIdentSplit("for", head);
    LitPrefix(" (auto itemNode : node.children(\"", it.name + "\")) {");
    TakeIdentSplit(it.name, "\")) {");
    ElementRoundTrip(it, after);
    NextOf(push, ["    }"] + rest);
    LitPrefix("        item.", it.name + ".push_back(item_);");
    TakeIdentSplit(it.name, ".push_back(item_);");
    LitPrefix(["    }"], rest);
  }

  lemma ScalarRoundTrip(it: Item, rest: seq<string>)
    requires ItemNamed(it) && !it.multi && IsPrimitive(it.typ)
    ensures ParseItem(ItemLines(it) + rest) == Some(Parsed(ItemCodeOf(it), rest))
  {
    var call := AttrCall(it.name, Accessor(it.typ));
    var tail := " = node.attribute(\"" + call;
    var line := "    " + ("item" + ("." + (it.name + tail)));
    assert ItemLines(it) + rest == [line] + rest;
    NextOf(line, rest);
    LitPrefix("    ", "item" + ("." + (it.name + tail)));
    TakeIdentSplit("item", "." + (it.name + tail));
    LitPrefix(".", it.name + tail);
    TakeIdentSplit(it.name, tail);
    LitPrefix(" = node.attribute(\"", call);
    PrimitiveReadRoundTrip(it.typ, it.name);
  }

  lemma NestedRoundTrip(it: Item, rest: seq<string>)
    requires ItemNamed(it) && !it.multi && !IsPrimitive(it.typ)
    ensures ParseItem(ItemLines(it) + rest) == Some(Parsed(ItemCodeOf(it), rest))
  {
    var t3 := ", node.child(\"" + (it.name + "\"))) {");
    var t2 := "(item." + (it.name + t3);
    var t1 := " (!load_" + (it.typ + t2);
    var line := "    " + ("if" + t1);
    var ret := ["        return false;", "    }"];
    assert ItemLines(it) + rest == [line] + (ret + rest);
    NextOf(line, ret + rest);
    LitPrefix("    ", "if" + t1);
    TakeIdentSplit("if", t1);
    LitPrefix(" (!load_", it.typ + t2);
    TakeIdentSplit(it.typ, t2);
    LitPrefix("(item.", it.name + t3);
    TakeIdentSplit(it.name, t3);
    LitPrefix(", node.child(\"", it.name + "\"))) {");
    TakeIdentSplit(it.name, "\"))) {");
    LitPrefix(ret, rest);
  }

  /** One item's statements read back as exactly the code the item calls for, whatever follows. */
  lemma ItemRoundTrip(it: Item, rest: seq<string>)
    requires ItemNamed(it)
    ensures ParseItem(ItemLines(it) + rest) == Some(Parsed(ItemCodeOf(it), rest))
  {
    if it.multi {
      RepeatedRoundTrip(it, rest);
    } else if IsPrimitive(it.typ) {
      ScalarRoundTrip(it, rest);
    } else {
      NestedRoundTrip(it, rest);
    }
  }

  lemma VarAttrRoundTrip(v: Var, rest: seq<string>)
    requires VarNamed(v) && IsPrimitive(v.typ)
    ensures ParseVarRead(VarReadLines(v) + rest) == Some(Parsed(VarCode("", v.name, ReadOf(v.typ, v.name)), rest))
  {
    var call := AttrCall(v.name, Accessor(v.typ));
    var tail := " = node.attribute(\"" + call;
    var line := "        " + (v.name + tail);
    assert VarReadLines(v) + rest == [line] + rest;
    NextOf(line, rest);
    LitPrefix("        ", v.name + tail);
    TakeIdentSplit(v.name, tail);
    LitPrefix(" = node.attribute(\"", call);
    PrimitiveReadRoundTrip(v.typ, v.name);
  }

  lemma VarLoadTail(v: Var, rest: seq<string>)
    requires VarNamed(v)
    ensures ParseVarLoad(" (!load_" + (v.typ + ("(" + (v.name + ", node)) {"))), ["            return false;", "        }"] + rest)
         == Some(Parsed(VarCode("", v.name, Load(v.typ)), rest))
  {
    var t2 := "(" + (v.name + ", node)) {");
    LitPrefix(" (!load_", v.typ + t2);
    TakeIdentSplit(v.typ, t2);
    LitPrefix("(", v.name + ", node)) {");
    TakeIdentSplit(v.name, ", node)) {");
    LitPrefix(["            return false;", "        }"], rest);
  }

  lemma VarLoadRoundTrip(v: Var, rest: seq<string>)
    requires VarNamed(v) && !IsPrimitive(v.typ)
    ensures ParseVarRead(VarReadLines(v) + rest) == Some(Parsed(VarCode("", v.name, ReadOf(v.typ, v.name)), rest))
  {
    var t1 := " (!load_" + (v.typ + ("(" + (v.name + ", node)) {")));
    var line := "        " + ("if" + t1);
    var ret := ["            return false;", "        }"];
    assert Next(VarReadLines(v) + rest) == Some(Parsed(line, ret + rest)) by {
      assert VarReadLines(v) + rest == [line] + (ret + rest);
      NextOf(line, ret + rest);
    }
    assert Lit(line, "        ") == Some("if" + t1) by {
      LitPrefix("        ", "if" + t1);
    }
    assert TakeIdent("if" + t1) == Some(Cut("if", t1)) by {
      TakeIdentSplit("if", t1);
    }
    assert Lit(t1, " = node.attribute(\"").None? by {
      assert t1[1] == '(';
      LitMismatch(t1, " = node.attribute(\"", 1);
    }
    VarLoadTail(v, rest);
  }

  /** One var's block reads back as exactly the code the var calls for, whatever follows. */
  lemma VarRoundTrip(v: Var, rest: seq<string>)
    requires VarNamed(v)
    ensures ParseVar(VarLines(v) + rest) == Some(Parsed(VarCodeOf(v), rest))
  {
    var line := "        pugi::xml_node node = root.child(\"" + (v.name + "\");");
    var after := VarReadLines(v) + (["    }"] + rest);
    assert VarLines(v) + rest == ["    {"] + ([line] + (NodeCheck + after));
    LitPrefix(["    {"], [line] + (NodeCheck + after));
    NextOf(line, NodeCheck + after);
    LitPrefix("        pugi::xml_node node = root.child(\"", v.name + "\");");
    TakeIdentSplit(v.name, "\");");
    LitPrefix(NodeCheck, after);
    if IsPrimitive(v.typ) {
      VarAttrRoundTrip(v, ["    }"] + rest);
    } else {
      VarLoadRoundTrip(v, ["    }"] + rest);
    }
    LitPrefix(["    }"], rest);
  }

  lemma LoaderHeadRoundTrip(cls: string, t: string)
    requires IsIdent(cls) && IsIdent(t)
    ensures ParseLoaderHead(LoaderHead(cls, t)) == Some(LoaderCode(cls, t, []))
  {
    var tail := "(" + (t + "& item, const pugi::xml_node& node) {");
    LitPrefix("bool ", cls + ("::load_" + (t + tail)));
    TakeIdentSplit(cls, "::load_" + (t + tail));
    LitPrefix("::load_", t + tail);
    TakeIdentSplit(t, tail);
  }

  /** The line ending a list of items or vars is not read as one more item. */
  lemma ItemTerminator(rest: seq<string>)
    ensures ParseItem(FnEnd + rest).None?
  {
    var ret := "    return true;";
    assert Next(FnEnd + rest) == Some(Parsed(ret, ["}", ""] + rest)) by {
      assert FnEnd + rest == [ret] + (["}", ""] + rest);
      NextOf(ret, ["}", ""] + rest);
    }
    assert Lit(ret, "    ") == Some("return true;") by {
      assert ret == "    " + "return true;";
      LitPrefix("    ", "return true;");
    }
    assert TakeIdent("return true;") == Some(Cut("return", " true;")) by {
      assert "return true;" == "return" + " true;";
      TakeIdentSplit("return", " true;");
    }
  }

  lemma VarTerminator(rest: seq<string>)
    ensures ParseVar(FnEnd + rest).None?
  {
    assert (FnEnd + rest)[0] == "    return true;";
  }

  /** The head of `loadConfigData` is not read as one more `load_` function. */
  lemma LoaderTerminator(cls: string, rest: seq<string>)
    requires IsIdent(cls)
    ensures ParseLoader(ConfigHead(cls) + rest).None?
  {
    var tail := "::loadConfigData(const std::string& fname) {";
    var head := "bool " + (cls + tail);
    assert ConfigHead(cls) + rest == [head] + (ConfigHead(cls)[1..] + rest);
    NextOf(head, ConfigHead(cls)[1..] + rest);
    LitPrefix("bool ", cls + tail);
    TakeIdentSplit(cls, tail);
    assert Lit(tail, "::load_").None? by {
      LitMismatch(tail, "::load_", 6);
    }
  }

  /** The statements of a list of items read back as their codes, up to the end of the function. */
  lemma ItemsRoundTrip(items: seq<Item>, rest: seq<string>)
    requires forall i :: 0 <= i < |items| ==> ItemNamed(items[i])
    ensures Blocks(ParseItem, Concat(ItemBlocks(items)) + (FnEnd + rest))
         == Parsed(ItemCodes(items), FnEnd + rest)
  {
    var blocks := ItemBlocks(items);
    var codes := ItemCodes(items);
    forall i | 0 <= i < |blocks|
      ensures blocks[i] != []
    {
      assert ItemLines(items[i]) != [];
    }
    forall i, tail | 0 <= i < |codes|
      ensures ParseItem(blocks[i] + tail) == Some(Parsed(codes[i], tail))
    {
      ItemRoundTrip(items[i], tail);
    }
    ItemTerminator(rest);
    BlocksRoundTrip(ParseItem, codes, blocks, FnEnd + rest);
  }

  /** The steps of `ParseLoader`, stated for arbitrary lines. */
  lemma ParseLoaderSteps(lines: seq<string>, head: string, body: seq<string>, lc: LoaderCode, items: seq<ItemCode>, rest: seq<string>)
    requires Next(lines) == Some(Parsed(head, body))
    requires ParseLoaderHead(head) == Some(lc)
    requires Blocks(ParseItem, body) == Parsed(items, FnEnd + rest)
    ensures ParseLoader(lines) == Some(Parsed(lc.(items := items), rest))
  {
    LitPrefix(FnEnd, rest);
  }

  /** One `load_<type>` function reads back as exactly the code the type calls for, whatever follows. */
  lemma LoaderRoundTrip(cls: string, td: TypeDef, rest: seq<string>)
    requires IsIdent(cls) && TypeDefNamed(td)
    ensures ParseLoader(LoaderLines(cls, td) + rest) == Some(Parsed(LoaderCodeOf(cls, td), rest))
  {
    var blocks := ItemBlocks(td.items);
    var codes := LoaderCodeOf(cls, td).items;
    var after := Concat(blocks) + (FnEnd + rest);
    assert LoaderLines(cls, td) + rest == [LoaderHead(cls, td.name)] + after;
    NextOf(LoaderHead(cls, td.name), after);
    LoaderHeadRoundTrip(cls, td.name);
    ItemsRoundTrip(td.items, rest);
    ParseLoaderSteps(LoaderLines(cls, td) + rest, LoaderHead(cls, td.name), after,
                     LoaderCode(cls, td.name, []), codes, rest);
  }

  lemma LoadersRoundTrip(cls: string, tds: seq<TypeDef>, rest: seq<string>)
    requires IsIdent(cls) && forall i :: 0 <= i < |tds| ==> TypeDefNamed(tds[i])
    ensures Blocks(ParseLoader, Concat(LoaderBlocks(cls, tds)) + (ConfigHead(cls) + rest))
         == Parsed(LoaderCodes(cls, tds), ConfigHead(cls) + rest)
  {
    var blocks := LoaderBlocks(cls, tds);
    var codes := LoaderCodes(cls, tds);
    forall i | 0 <= i < |blocks|
      ensures blocks[i] != []
    {
      assert LoaderLines(cls, tds[i])[0] == LoaderHead(cls, tds[i].name);
    }
    forall i, tail | 0 <= i < |codes|
      ensures ParseLoader(blocks[i] + tail) == Some(Parsed(codes[i], tail))
    {
      LoaderRoundTrip(cls, tds[i], tail);
    }
    LoaderTerminator(cls, rest);
    BlocksRoundTrip(ParseLoader, codes, blocks, ConfigHead(cls) + rest);
  }

  lemma VarsRoundTrip(vs: seq<Var>, rest: seq<string>)
    requires forall i :: 0 <= i < |vs| ==> VarNamed(vs[i])
    ensures Blocks(ParseVar, Concat(VarBlocks(vs)) + (FnEnd + rest)) == Parsed(VarCodes(vs), FnEnd + rest)
  {
    var blocks := VarBlocks(vs);
    var codes := VarCodes(vs);
    forall i | 0 <= i < |blocks|
      ensures blocks[i] != []
    {
      assert VarLines(vs[i])[0] == "    {";
    }
    forall i, tail | 0 <= i < |codes|
      ensures ParseVar(blocks[i] + tail) == Some(Parsed(codes[i], tail))
    {
      VarRoundTrip(vs[i], tail);
    }
    VarTerminator(rest);
    BlocksRoundTrip(ParseVar, codes, blocks, FnEnd + rest);
  }

  /** The steps of `ParseClass`, stated for arbitrary lines. */
  lemma ParseClassSteps(lines: seq<string>, name: string, body: seq<string>, ls: seq<LoaderCode>,
                        afterHead: seq<string>, vs: seq<VarCode>, rest: seq<string>)
    requires Next(lines).Some? && ParseClassName(Next(lines).value.value) == Some(name)
    requires Lit(lines, ClassIntro(name)) == Some(body)
    requires Blocks(ParseLoader, body) == Parsed(ls, ConfigHead(name) + afterHead)
    requires Blocks(ParseVar, afterHead) == Parsed(vs, FnEnd + rest)
    ensures ParseClass(lines) == Some(Parsed(ClassCode(name, ls, vs), rest))
  {
    LitPrefix(ConfigHead(name), afterHead);
    LitPrefix(FnEnd, rest);
  }

  /** The constructor line names the class, whatever follows the constructor and destructor. */
  lemma ClassIntroRead(name: string, body: seq<string>)
    requires IsIdent(name)
    ensures Next(ClassIntro(name) + body).Some?
    ensures ParseClassName(Next(ClassIntro(name) + body).value.value) == Some(name)
    ensures Lit(ClassIntro(name) + body, ClassIntro(name)) == Some(body)
  {
    var intro := ClassIntro(name);
    var first := name + ("::" + (name + "() {"));
    assert intro + body == [first] + (intro[1..] + body);
    NextOf(first, intro[1..] + body);
    TakeIdentSplit(name, "::" + (name + "() {"));
    LitPrefix(intro, body);
  }

  /** One node's definitions read back as exactly the code the node calls for, whatever follows. */
  lemma ClassRoundTrip(n: Node, rest: seq<string>)
    requires NodeNamed(n)
    ensures ParseClass(ClassLines(n) + rest) == Some(Parsed(ClassCodeOf(n), rest))
  {
    var intro := ClassIntro(n.name);
    var afterHead := Concat(VarBlocks(VarsOf(n))) + (FnEnd + rest);
    var body := Concat(LoaderBlocks(n.name, TypesOf(n))) + (ConfigHead(n.name) + afterHead);
    AppendNested(intro, Concat(LoaderBlocks(n.name, TypesOf(n))), ConfigHead(n.name), Concat(VarBlocks(VarsOf(n))), FnEnd, rest);
    ClassIntroRead(n.name, body);
    LoadersRoundTrip(n.name, TypesOf(n), afterHead);
    VarsRoundTrip(VarsOf(n), rest);
    ParseClassSteps(ClassLines(n) + rest, n.name, body, LoaderCodes(n.name, TypesOf(n)), afterHead, VarCodes(VarsOf(n)), rest);
  }

  lemma ClassesRoundTrip(doc: Document)
    requires DocNamed(doc)
    ensures Blocks(ParseClass, Concat(ClassBlocks(doc)) + []) == Parsed(ClassCodes(doc), [])
  {
    var blocks := ClassBlocks(doc);
    var codes := ClassCodes(doc);
    forall i | 0 <= i < |blocks|
      ensures blocks[i] != []
    {
      assert ClassLines(doc[i])[0] == ClassIntro(doc[i].name)[0];
    }
    forall i, tail | 0 <= i < |codes|
      ensures ParseClass(blocks[i] + tail) == Some(Parsed(codes[i], tail))
    {
      ClassRoundTrip(doc[i], tail);
    }
    BlocksRoundTrip(ParseClass, codes, blocks, []);
  }

  /** The included file is the generated header: `toLower(baseName) + "Config.h"`. */
  lemma IncludeIsHeader(file: string)
    ensures DropSuffix(ToLower(BaseName(file)) + "Config.h\"", "\"") == Some(HeaderFile(file))
  {
    var b := ToLower(BaseName(file));
    assert "Config.h\"" == "Config" + (".h" + "\"");
    assert b + "Config.h\"" == HeaderFile(file) + "\"";
    DropSuffixOf(HeaderFile(file), "\"");
  }

  /** The steps of `ParseSource`, stated for arbitrary lines. */
  lemma ParseSourceSteps(lines: seq<string>, l1: string, l3: string, source: string, inc: string, body: seq<string>)
    requires lines == [CppNotice] + ([l1] + ([""] + ([l3] + ([""] + body))))
    requires Lit(l1, "// source: ") == Some(source)
    requires Lit(l3, "#include \"") == Some(inc + "\"")
    requires Blocks(ParseClass, body).rest == []
    ensures ParseSource(lines) == Some(SourceCode(source, inc, Blocks(ParseClass, body).value))
  {
    NextOf(CppNotice, [l1] + ([""] + ([l3] + ([""] + body))));
    NextOf(l1, [""] + ([l3] + ([""] + body)));
    LitPrefix([""], [l3] + ([""] + body));
    NextOf(l3, [""] + body);
    DropSuffixOf(inc, "\"");
    LitPrefix([""], body);
  }

  /** Reading the generated source back gives exactly the code the document
      calls for: the source file name, an include of the generated header,
      and per node (in order) one `load_<type>` function per type of its
      `<types>` and one block per var of its `<vars>`, each as `SourceOf`
      prescribes. */
  lemma SourceRoundTrip(file: string, doc: Document)
    requires DocNamed(doc)
    ensures ParseSource(ExportSource(file, doc)) == Some(SourceOf(file, doc))
  {
    var l1 := "// source: " + file;
    var l3 := "#include \"" + (ToLower(BaseName(file)) + "Config.h\"");
    var body := Concat(ClassBlocks(doc));
    DisplayCons5(CppNotice, l1, "", l3, "", body);
    LitPrefix("// source: ", file);
    IncludeIsHeader(file);
    LitPrefix("#include \"", ToLower(BaseName(file)) + "Config.h\"");
    ClassesRoundTrip(doc);
    assert body + [] == body;
    ParseSourceSteps(ExportSource(file, doc), l1, l3, file, HeaderFile(file), body);
  }

  // ---------------------------------------------------------------------
  // What the read-back promises, element by element

  /** The generated source names its input and includes the generated header, and has one class per node. */
  lemma SourceHeaderAndClasses(file: string, doc: Document, s: SourceCode)
    requires DocNamed(doc) && ParseSource(ExportSource(file, doc)) == Some(s)
    ensures s.source == file && s.includes == HeaderFile(file)
    ensures |s.classes| == |doc| && forall i :: 0 <= i < |doc| ==> s.classes[i].name == doc[i].name
  {
    SourceRoundTrip(file, doc);
  }

  /** Node `i` gets exactly one `load_<type>` member per type of its `<types>`, in order. */
  lemma SourceLoaders(file: string, doc: Document, s: SourceCode, i: nat)
    requires DocNamed(doc) && ParseSource(ExportSource(file, doc)) == Some(s)
    requires i < |doc|
    ensures i < |s.classes| && |s.classes[i].loaders| == |TypesOf(doc[i])|
    ensures forall j :: 0 <= j < |TypesOf(doc[i])| ==>
              s.classes[i].loaders[j].cls == doc[i].name && s.classes[i].loaders[j].typ == TypesOf(doc[i])[j].name
              && |s.classes[i].loaders[j].items| == |TypesOf(doc[i])[j].items|
  {
    SourceRoundTrip(file, doc);
  }

  /** Item `k` of type `j` of node `i`: a multi item loops over the children
      named after it and appends each element to the field of that name; a
      single compound item is loaded from the child of that name; a single
      primitive item is read from the attribute of that name. A primitive
      value is read with `gTypeTrans[getType(type)]`, a compound one with
      `load_<type>`. */
  lemma SourceItemCode(file: string, doc: Document, s: SourceCode, i: nat, j: nat, k: nat)
    requires DocNamed(doc) && ParseSource(ExportSource(file, doc)) == Some(s)
    requires i < |doc| && j < |TypesOf(doc[i])| && k < |TypesOf(doc[i])[j].items|
    ensures i < |s.classes| && j < |s.classes[i].loaders| && k < |s.classes[i].loaders[j].items|
    ensures var c := s.classes[i].loaders[j].items[k];
            var it := TypesOf(doc[i])[j].items[k];
            (c.Repeated? <==> it.multi)
            && (c.Nested? <==> !it.multi && !IsPrimitive(it.typ))
            && (c.Repeated? ==> c.child == it.name && c.field == it.name && c.elemType == it.typ)
            && (c.Nested? ==> c.child == it.name && c.field == it.name && c.typ == it.typ)
            && (c.Scalar? ==> c.field == it.name)
            && (!c.Nested? && IsPrimitive(it.typ) ==> c.read == Attr(it.name, Accessors[GetType(it.typ)]))
            && (!c.Nested? && !IsPrimitive(it.typ) ==> c.read == Load(it.typ))
  {
    SourceRoundTrip(file, doc);
    SourceLoaders(file, doc, s, i);
  }

  /** Var `k` of node `i`: its block fails unless the root has a child named
      after the var, and reads the field of that name from that child, with
      `gTypeTrans[getType(type)]` for a primitive and `load_<type>` otherwise. */
  lemma SourceVarCode(file: string, doc: Document, s: SourceCode, i: nat, k: nat)
    requires DocNamed(doc) && ParseSource(ExportSource(file, doc)) == Some(s)
    requires i < |doc| && k < |VarsOf(doc[i])|
    ensures i < |s.classes| && |s.classes[i].vars| == |VarsOf(doc[i])|
    ensures var c := s.classes[i].vars[k];
            var v := VarsOf(doc[i])[k];
            c.child == v.name && c.field == v.name
            && (IsPrimitive(v.typ) ==> c.read == Attr(v.name, Accessors[GetType(v.typ)]))
            && (!IsPrimitive(v.typ) ==> c.read == Load(v.typ))
  {
    SourceRoundTrip(file, doc);
  }
}
