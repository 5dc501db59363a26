/** `exportLua`: the Lua loader script, as a list of lines. Per top-level
    node: a function `load<Node>Config(file)` holding one local
    `load_<type>` function per compound type, then the reads of the vars
    from the root element into a `configData` table. A string or uint64
    value is kept as the raw attribute text, a bool is compared with the
    text "true", any other primitive goes through `tonumber`, and a
    compound value is read by calling its `load_<type>`.

    As written, the branch taken when a bool attribute reads "true" assigns
    `true` only for a multi item; for a single item and for a var it
    assigns `false`, so those fields end up false whatever the attribute
    says. The model keeps this (see `ItemFlagOutcome` and
    `SingleFlagsStayFalse`).

    The emitted text is read back by `ParseLua`; `LuaRoundTrip` states that
    it yields exactly `LuaOf`, the script the document calls for. */
module Lua {
  import opened Wrappers
  import opened Text
  import opened TypeTable
  import opened Resolve
  import opened Schema
  import opened LineParse
  import opened Names

  // ---------------------------------------------------------------------
  // What the generated script does

  /** How one value is read into a target:
      `Raw`: the attribute text `src["@attr"]` as it is;
      `Flag`: false, then `onTrue` when the attribute text is "true";
      `Number`: `tonumber(src["@attr"])`;
      `Call`: `load_<typ>(arg)`. */
  datatype Value =
    | Raw(attr: string)
    | Flag(attr: string, onTrue: string)
    | Number(attr: string)
    | Call(typ: string, arg: string)

  /** A single item sets `item.field`; a multi item sets `item.field` to an
      empty table, then for each child `v` named `child` reads `value` from
      `v` and appends it to `item.appendTo`. */
  datatype LuaItem =
    | Single(field: string, value: Value)
    | Multi(field: string, child: string, value: Value, appendTo: string)

  datatype LuaLoader = LuaLoader(typ: string, items: seq<LuaItem>)

  /** A var sets `configData.field`. */
  datatype LuaVar = LuaVar(field: string, value: Value)

  datatype LuaFunction = LuaFunction(name: string, loaders: seq<LuaLoader>, vars: seq<LuaVar>)

  datatype LuaScript = LuaScript(source: string, functions: seq<LuaFunction>)

  /** The read of a value of type `typ` from attribute `attr`; `onTrue` is
      what the bool branch assigns and `arg` what a compound loader is given. */
  function ValueOf(typ: string, attr: string, onTrue: string, arg: string): Value {
    if !IsPrimitive(typ) then Call(typ, arg)
    else if GetType(typ) == TypeEnumString || GetType(typ) == TypeEnumUint64 then Raw(attr)
    else if GetType(typ) == TypeEnumBool then Flag(attr, onTrue)
    else Number(attr)
  }

  function ItemOf(it: Item): LuaItem {
    if it.multi then Multi(it.name, it.name, ValueOf(it.typ, it.name, "true", "v"), it.name)
    else Single(it.name, ValueOf(it.typ, it.name, "false", "xmlNode." + it.name))
  }

  function ItemsOf(items: seq<Item>): seq<LuaItem> {
    seq(|items|, i requires 0 <= i < |items| => ItemOf(items[i]))
  }

  function LoaderOf(td: TypeDef): LuaLoader {
    LuaLoader(td.name, ItemsOf(td.items))
  }

  function LoadersOf(tds: seq<TypeDef>): seq<LuaLoader> {
    seq(|tds|, i requires 0 <= i < |tds| => LoaderOf(tds[i]))
  }

  function VarOf(v: Var): LuaVar {
    LuaVar(v.name, ValueOf(v.typ, v.name, "false", "xmlNode." + v.name))
  }

  function VarsOfVars(vs: seq<Var>): seq<LuaVar> {
    seq(|vs|, i requires 0 <= i < |vs| => VarOf(vs[i]))
  }

  function FunctionOf(n: Node): LuaFunction {
    LuaFunction(n.name, LoadersOf(TypesOf(n)), VarsOfVars(VarsOf(n)))
  }

  function FunctionsOf(doc: Document): seq<LuaFunction> {
    seq(|doc|, i requires 0 <= i < |doc| => FunctionOf(doc[i]))
  }

  function LuaOf(file: string, doc: Document): LuaScript {
    LuaScript(file, FunctionsOf(doc))
  }

  // ---------------------------------------------------------------------
  // The emitted text

  /** `src["@attr` followed by `close`. */
  function AttrRef(src: string, attr: string, close: string): string {
    src + ("[\"@" + (attr + close))
  }

  /** The right-hand side of the first line reading `v` from node `src`; a
      bool starts as `false`. */
  function Rhs(src: string, v: Value): string {
    match v
    case Raw(a) => AttrRef(src, a, "\"]")
    case Flag(_, _) => "false"
    case Number(a) => "tonumber(" + AttrRef(src, a, "\"])")
    case Call(t, arg) => "load_" + (t + ("(" + (arg + ")")))
  }

  /** The three lines after `lhs = false` that assign `t` when the attribute reads "true". */
  function FlagLines(ind: string, lhs: string, src: string, a: string, t: string): seq<string> {
    [ind + ("if " + AttrRef(src, a, "\"] == \"true\" then")),
     ind + ("    " + (lhs + (" = " + t))),
     ind + "end"]
  }

  /** The lines reading `v` into `lhs` (declared with `decl`, "" or "local "),
      indented by `ind`, with `src` the node read from. */
  function ValueLines(ind: string, decl: string, lhs: string, src: string, v: Value): seq<string> {
    [ind + (decl + (lhs + (" = " + Rhs(src, v))))]
    + (if v.Flag? then FlagLines(ind, lhs, src, v.attr, v.onTrue) else [])
  }

  /** The loop of a multi item: for each child `v` named `name`, read `v`
      into `item_` and append it to `item.name`. */
  function MultiLoop(name: string, v: Value): seq<string> {
    ["        for k, v in pairs(xmlNode:children()) do"]
    + (["            if v:name() == \"" + (name + "\" then")]
    + (ValueLines("                ", "local ", "item_", "v", v)
    + ["                table.insert(item." + (name + ", item_);"),
       "            end",
       "        end"]))
  }

  /** A multi item reads each element from the loop variable `v`, and its
      bool branch assigns true; a single item reads from `xmlNode`, and its
      bool branch assigns false. */
  function ItemLines(it: Item): seq<string> {
    if it.multi then
      ["        " + ("item." + (it.name + (" = " + "{}")))] + MultiLoop(it.name, ValueOf(it.typ, it.name, "true", "v"))
    else ValueLines("        ", "", "item." + it.name, "xmlNode", ValueOf(it.typ, it.name, "false", "xmlNode." + it.name))
  }

  function ItemBlocks(items: seq<Item>): seq<seq<string>> {
    seq(|items|, i requires 0 <= i < |items| => ItemLines(items[i]))
  }

  function LoaderHead(t: string): string {
    "    local function load_" + (t + "(xmlNode) ")
  }

  const LoaderEnd := ["        return item", "    end", ""]

  function LoaderLines(td: TypeDef): seq<string> {
    [LoaderHead(td.name), "        local item = {}"] + (Concat(ItemBlocks(td.items)) + LoaderEnd)
  }

  function LoaderBlocks(tds: seq<TypeDef>): seq<seq<string>> {
    seq(|tds|, i requires 0 <= i < |tds| => LoaderLines(tds[i]))
  }

  function VarLines(v: Var): seq<string> {
    ValueLines("    ", "", "configData." + v.name, "xmlNode", ValueOf(v.typ, v.name, "false", "xmlNode." + v.name))
  }

  function VarBlocks(vs: seq<Var>): seq<seq<string>> {
    seq(|vs|, i requires 0 <= i < |vs| => VarLines(vs[i]))
  }

  function FunctionHead(name: string): seq<string> {
    ["function load" + (name + "Config(file)"), ""]
  }

  /** Opening the file and selecting the root element named after the node. */
  function ConfigHead(name: string): seq<string> {
    ["    local configData = {}",
     "\tlocal xml = xmlParser:loadFile(file)",
     "    local xmlNode = xml." + name,
     ""]
  }

  const FunctionEnd := ["    return configData", "end"]

  /** A node's function. An absent `<types>` or `<vars>` contributes nothing, like an empty one. */
  function FunctionLines(n: Node): seq<string> {
    FunctionHead(n.name)
    + (Concat(LoaderBlocks(TypesOf(n)))
    + (ConfigHead(n.name) + (Concat(VarBlocks(VarsOf(n))) + FunctionEnd)))
  }

  function FunctionBlocks(doc: Document): seq<seq<string>> {
    seq(|doc|, i requires 0 <= i < |doc| => FunctionLines(doc[i]))
  }

  const Requires := ["", "local xmlParser = require(\"xmlSimple\")", ""]

  function Opener(file: string): seq<string> {
    [LuaNotice, "-- source: " + file] + Requires
  }

  /** `exportLua`: the lines of the generated script for input file `file`. */
  function ExportLua(file: string, doc: Document): seq<string> {
    Opener(file) + Concat(FunctionBlocks(doc))
  }

  // ---------------------------------------------------------------------
  // Reading the text back

  /** Reads `src["@attr` followed by `close`. */
  function ParseAttrRef(src: string, s: string, close: string): Option<string> {
    var s1 :- Lit(s, src);
    var s2 :- Lit(s1, "[\"@");
    var a :- TakeIdent(s2);
    if a.rest == close then Some(a.token) else None
  }

  /** Reads the three lines after `lhs = false`. */
  function ParseFlag(ind: string, lhs: string, src: string, more: seq<string>): (r: Option<Parsed<Value>>)
    ensures r.Some? ==> |r.value.rest| <= |more|
  {
    var h2 :- Next(more);
    var s1 :- Lit(h2.value, ind);
    var s2 :- Lit(s1, "if ");
    var a :- ParseAttrRef(src, s2, "\"] == \"true\" then");
    var h3 :- Next(h2.rest);
    var t1 :- Lit(h3.value, ind);
    var t2 :- Lit(t1, "    ");
    var t3 :- Lit(t2, lhs);
    var t :- Lit(t3, " = ");
    var rest :- Lit(h3.rest, [ind + "end"]);
    Some(Parsed(Flag(a, t), rest))
  }

  /** Reads the right-hand side of a one-line read. */
  function ParseRhs(src: string, s: string): Option<Value> {
    match Lit(s, "tonumber(")
    case Some(s1) =>
      var a :- ParseAttrRef(src, s1, "\"])");
      Some(Number(a))
    case None =>
      match Lit(s, "load_")
      case Some(s1) =>
        var t :- TakeIdent(s1);
        var s2 :- Lit(t.rest, "(");
        var arg :- DropSuffix(s2, ")");
        Some(Call(t.token, arg))
      case None =>
        var a :- ParseAttrRef(src, s, "\"]");
        Some(Raw(a))
  }

  /** Reads a value into the known target `lhs`, told apart by its right-hand side. */
  function ParseValue(ind: string, decl: string, lhs: string, src: string, lines: seq<string>): (r: Option<Parsed<Value>>)
    ensures r.Some? ==> |r.value.rest| < |lines|
  {
    var h :- Next(lines);
    var s1 :- Lit(h.value, ind);
    var s2 :- Lit(s1, decl);
    var s3 :- Lit(s2, lhs);
    var s4 :- Lit(s3, " = ");
    if s4 == "false" then ParseFlag(ind, lhs, src, h.rest)
    else
      var v :- ParseRhs(src, s4);
      Some(Parsed(v, h.rest))
  }

  /** Reads a multi item's loop after its `item.field = {}` line. */
  function ParseMulti(field: string, more: seq<string>): (r: Option<Parsed<LuaItem>>)
    ensures r.Some? ==> |r.value.rest| < |more|
  {
    var r0 :- Lit(more, ["        for k, v in pairs(xmlNode:children()) do"]);
    var h :- Next(r0);
    var s :- Lit(h.value, "            if v:name() == \"");
    var c :- TakeIdent(s);
    if c.rest != "\" then" then None
    else
      var v :- ParseValue("                ", "local ", "item_", "v", h.rest);
      var h2 :- Next(v.rest);
      var s2 :- Lit(h2.value, "                table.insert(item.");
      var f :- TakeIdent(s2);
      if f.rest != ", item_);" then None
      else
        var rest :- Lit(h2.rest, ["            end", "        end"]);
        Some(Parsed(Multi(field, c.token, v.value, f.token), rest))
  }

  /** Reads one item: `item.field = {}` starts a multi item, any other right-hand side a single one. */
  function ParseItem(lines: seq<string>): (r: Option<Parsed<LuaItem>>)
    ensures r.Some? ==> |r.value.rest| < |lines|
  {
    var h :- Next(lines);
    var s1 :- Lit(h.value, "        ");
    var s2 :- Lit(s1, "item.");
    var n :- TakeIdent(s2);
    var s3 :- Lit(n.rest, " = ");
    if s3 == "{}" then ParseMulti(n.token, h.rest)
    else
      var v :- ParseValue("        ", "", "item." + n.token, "xmlNode", lines);
      Some(Parsed(Single(n.token, v.value), v.rest))
  }

  function ParseLoader(lines: seq<string>): (r: Option<Parsed<LuaLoader>>)
    ensures r.Some? ==> |r.value.rest| < |lines|
  {
    var h :- Next(lines);
    var s :- Lit(h.value, "    local function load_");
    var t :- TakeIdent(s);
    if t.rest != "(xmlNode) " then None
    else
      var r :- Lit(h.rest, ["        local item = {}"]);
      var items := Blocks(ParseItem, r);
      var rest :- Lit(items.rest, LoaderEnd);
      Some(Parsed(LuaLoader(t.token, items.value), rest))
  }

  function ParseVar(lines: seq<string>): (r: Option<Parsed<LuaVar>>)
    ensures r.Some? ==> |r.value.rest| < |lines|
  {
    var h :- Next(lines);
    var s1 :- Lit(h.value, "    ");
    var s2 :- Lit(s1, "configData.");
    var n :- TakeIdent(s2);
    var v :- ParseValue("    ", "", "configData." + n.token, "xmlNode", lines);
    Some(Parsed(LuaVar(n.token, v.value), v.rest))
  }

  function ParseFunction(lines: seq<string>): (r: Option<Parsed<LuaFunction>>)
    ensures r.Some? ==> |r.value.rest| < |lines|
  {
    var h :- Next(lines);
    var s :- Lit(h.value, "function load");
    var name :- DropSuffix(s, "Config(file)");
    var body :- Lit(lines, FunctionHead(name));
    var ls := Blocks(ParseLoader, body);
    var r :- Lit(ls.rest, ConfigHead(name));
    var vs := Blocks(ParseVar, r);
    var rest :- Lit(vs.rest, FunctionEnd);
    Some(Parsed(LuaFunction(name, ls.value, vs.value), rest))
  }

  /** Reads a whole script: the opener (recovering the source name), then functions up to the end. */
  function ParseLua(lines: seq<string>): Option<LuaScript> {
    var h0 :- Next(lines);
    if h0.value != LuaNotice then None
    else
      var h1 :- Next(h0.rest);
      var source :- Lit(h1.value, "-- source: ");
      var body :- Lit(h1.rest, Requires);
      var fs := Blocks(ParseFunction, body);
      if fs.rest == [] then Some(LuaScript(source, fs.value)) else None
  }

  // ---------------------------------------------------------------------
  // Reading back, line by line

  /** The nodes a value is read from: the loop variable or the loader's argument. */
  predicate IsSource(src: string) {
    src == "v" || src == "xmlNode"
  }

  /** The names a value's text carries are identifiers. */
  predicate ValueNamed(v: Value) {
    match v
    case Raw(a) => IsIdent(a)
    case Flag(a, _) => IsIdent(a)
    case Number(a) => IsIdent(a)
    case Call(t, _) => IsIdent(t)
  }

  lemma AttrRefRoundTrip(src: string, a: string, close: string)
    requires IsIdent(a) && close != [] && !IsIdentChar(close[0])
    ensures ParseAttrRef(src, AttrRef(src, a, close), close) == Some(a)
  {
    LitPrefix(src, "[\"@" + (a + close));
    LitPrefix("[\"@", a + close);
    TakeIdentSplit(a, close);
  }

  /** The first right-hand side tells the reads apart: it is `false` exactly
      for a bool, and never the `{}` that opens a multi item. */
  lemma RhsDispatch(src: string, v: Value)
    requires IsSource(src)
    ensures Rhs(src, v) == "false" <==> v.Flag?
    ensures Rhs(src, v) != "{}"
  {
    var s := Rhs(src, v);
    if !v.Flag? {
      assert s[0] != 'f' && s[0] != '{';
    }
  }

  /** A one-line right-hand side reads back as its value. */
  lemma RhsRoundTrip(src: string, v: Value)
    requires IsSource(src) && ValueNamed(v) && !v.Flag?
    ensures ParseRhs(src, Rhs(src, v)) == Some(v)
  {
    var s := Rhs(src, v);
    match v
    case Raw(a) =>
      LitMismatch(s, "tonumber(", 0);
      LitMismatch(s, "load_", 0);
      AttrRefRoundTrip(src, a, "\"]");
    case Number(a) =>
      LitPrefix("tonumber(", AttrRef(src, a, "\"])"));
      AttrRefRoundTrip(src, a, "\"])");
    case Call(t, arg) =>
      LitMismatch(s, "tonumber(", 0);
      LitPrefix("load_", t + ("(" + (arg + ")")));
      TakeIdentSplit(t, "(" + (arg + ")"));
      LitPrefix("(", arg + ")");
      DropSuffixOf(arg, ")");
  }

  lemma FlagRoundTrip(ind: string, lhs: string, src: string, a: string, t: string, rest: seq<string>)
    requires IsIdent(a)
    ensures ParseFlag(ind, lhs, src, FlagLines(ind, lhs, src, a, t) + rest) == Some(Parsed(Flag(a, t), rest))
  {
    var cond := AttrRef(src, a, "\"] == \"true\" then");
    var l2 := ind + ("if " + cond);
    var l3 := ind + ("    " + (lhs + (" = " + t)));
    assert FlagLines(ind, lhs, src, a, t) + rest == [l2] + ([l3] + ([ind + "end"] + rest));
    NextOf(l2, [l3] + ([ind + "end"] + rest));
    LitPrefix(ind, "if " + cond);
    LitPrefix("if ", cond);
    AttrRefRoundTrip(src, a, "\"] == \"true\" then");
    NextOf(l3, [ind + "end"] + rest);
    LitPrefix(ind, "    " + (lhs + (" = " + t)));
    LitPrefix("    ", lhs + (" = " + t));
    LitPrefix(lhs, " = " + t);
    LitPrefix(" = ", t);
    LitPrefix([ind + "end"], rest);
  }

  /** The lines reading a value into a known target read back as that value, whatever follows. */
  lemma ValueRoundTrip(ind: string, decl: string, lhs: string, src: string, v: Value, rest: seq<string>)
    requires IsSource(src) && ValueNamed(v)
    ensures ParseValue(ind, decl, lhs, src, ValueLines(ind, decl, lhs, src, v) + rest) == Some(Parsed(v, rest))
  {
    var rhs := Rhs(src, v);
    var first := ind + (decl + (lhs + (" = " + rhs)));
    var more := (if v.Flag? then FlagLines(ind, lhs, src, v.attr, v.onTrue) else []) + rest;
    assert ValueLines(ind, decl, lhs, src, v) + rest == [first] + more;
    NextOf(first, more);
    LitPrefix(ind, decl + (lhs + (" = " + rhs)));
    LitPrefix(decl, lhs + (" = " + rhs));
    LitPrefix(lhs, " = " + rhs);
    LitPrefix(" = ", rhs);
    RhsDispatch(src, v);
    if v.Flag? {
      FlagRoundTrip(ind, lhs, src, v.attr, v.onTrue, rest);
    } else {
      RhsRoundTrip(src, v);
      assert more == rest;
    }
  }

  /** The first line of an item, `item.<name> = <rhs>`, names the item and shows its right-hand side. */
  lemma ItemHeadRead(name: string, rhs: string)
    requires IsIdent(name)
    ensures var line := "        " + ("item." + (name + (" = " + rhs)));
            Lit(line, "        ") == Some("item." + (name + (" = " + rhs)))
            && Lit("item." + (name + (" = " + rhs)), "item.") == Some(name + (" = " + rhs))
            && TakeIdent(name + (" = " + rhs)) == Some(Cut(name, " = " + rhs))
            && Lit(" = " + rhs, " = ") == Some(rhs)
  {
    LitPrefix("        ", "item." + (name + (" = " + rhs)));
    LitPrefix("item.", name + (" = " + rhs));
    TakeIdentSplit(name, " = " + rhs);
    LitPrefix(" = ", rhs);
  }

  /** The steps of `ParseItem` for a multi item, stated for arbitrary lines. */
  lemma ParseMultiItemSteps(lines: seq<string>, name: string, more: seq<string>)
    requires IsIdent(name)
    requires lines == ["        " + ("item." + (name + (" = " + "{}")))] + more
    ensures ParseItem(lines) == ParseMulti(name, more)
  {
    NextOf("        " + ("item." + (name + (" = " + "{}"))), more);
    ItemHeadRead(name, "{}");
  }

  /** The steps of `ParseItem` for a single item, stated for arbitrary lines. */
  lemma ParseSingleItemSteps(lines: seq<string>, name: string, rhs: string, more: seq<string>, v: Value, rest: seq<string>)
    requires IsIdent(name) && rhs != "{}"
    requires lines == ["        " + ("item." + (name + (" = " + rhs)))] + more
    requires ParseValue("        ", "", "item." + name, "xmlNode", lines) == Some(Parsed(v, rest))
    ensures ParseItem(lines) == Some(Parsed(Single(name, v), rest))
  {
    NextOf("        " + ("item." + (name + (" = " + rhs))), more);
    ItemHeadRead(name, rhs);
  }

  /** A single item reads back as the item's `Single`, whatever follows. */
  lemma SingleRoundTrip(it: Item, rest: seq<string>)
    requires ItemNamed(it) && !it.multi
    ensures ParseItem(ItemLines(it) + rest) == Some(Parsed(ItemOf(it), rest))
  {
    var v := ValueOf(it.typ, it.name, "false", "xmlNode." + it.name);
    var rhs := Rhs("xmlNode", v);
    var lhs := "item." + it.name;
    var more := (if v.Flag? then FlagLines("        ", lhs, "xmlNode", v.attr, v.onTrue) else []) + rest;
    assert ItemLines(it) + rest == ["        " + ("" + (lhs + (" = " + rhs)))] + more;
    assert "" + (lhs + (" = " + rhs)) == "item." + (it.name + (" = " + rhs));
    RhsDispatch("xmlNode", v);
    ValueRoundTrip("        ", "", lhs, "xmlNode", v, rest);
    ParseSingleItemSteps(ItemLines(it) + rest, it.name, rhs, more, v, rest);
  }

  /** The steps of `ParseMulti`, stated for arbitrary lines. */
  lemma ParseMultiSteps(name: string, more: seq<string>, m3: string, body: seq<string>, v: Value,
                        ins: string, rest: seq<string>)
    requires IsIdent(name)
    requires more == ["        for k, v in pairs(xmlNode:children()) do"] + ([m3] + body)
    requires Lit(m3, "            if v:name() == \"") == Some(name + "\" then")
    requires ParseValue("                ", "local ", "item_", "v", body)
          == Some(Parsed(v, [ins] + (["            end", "        end"] + rest)))
    requires Lit(ins, "                table.insert(item.") == Some(name + ", item_);")
    ensures ParseMulti(name, more) == Some(Parsed(Multi(name, name, v, name), rest))
  {
    LitPrefix(["        for k, v in pairs(xmlNode:children()) do"], [m3] + body);
    NextOf(m3, body);
    TakeIdentSplit(name, "\" then");
    NextOf(ins, ["            end", "        end"] + rest);
    TakeIdentSplit(name, ", item_);");
    LitPrefix(["            end", "        end"], rest);
  }

  /** The loop of a multi item, after its `item.field = {}` line, reads back
      as a loop over the children named `name` appending to `item.name`. */
  lemma MultiLoopRoundTrip(name: string, v: Value, rest: seq<string>)
    requires IsIdent(name) && ValueNamed(v)
    ensures ParseMulti(name, MultiLoop(name, v) + rest) == Some(Parsed(Multi(name, name, v, name), rest))
  {
    var m3 := "            if v:name() == \"" + (name + "\" then");
    var ins := "                table.insert(item." + (name + ", item_);");
    var after := [ins] + (["            end", "        end"] + rest);
    var vl := ValueLines("                ", "local ", "item_", "v", v);
    assert MultiLoop(name, v) + rest == ["        for k, v in pairs(xmlNode:children()) do"] + ([m3] + (vl + after));
    LitPrefix("            if v:name() == \"", name + "\" then");
    ValueRoundTrip("                ", "local ", "item_", "v", v, after);
    LitPrefix("                table.insert(item.", name + ", item_);");
    ParseMultiSteps(name, MultiLoop(name, v) + rest, m3, vl + after, v, ins, rest);
  }

  /** A multi item reads back as the item's `Multi`, whatever follows. */
  lemma MultiRoundTrip(it: Item, rest: seq<string>)
    requires ItemNamed(it) && it.multi
    ensures ParseItem(ItemLines(it) + rest) == Some(Parsed(ItemOf(it), rest))
  {
    var v := ValueOf(it.typ, it.name, "true", "v");
    var more := MultiLoop(it.name, v) + rest;
    assert ItemLines(it) + rest == ["        " + ("item." + (it.name + (" = " + "{}")))] + more;
    ParseMultiItemSteps(ItemLines(it) + rest, it.name, more);
    MultiLoopRoundTrip(it.name, v, rest);
  }

  lemma ItemRoundTrip(it: Item, rest: seq<string>)
    requires ItemNamed(it)
    ensures ParseItem(ItemLines(it) + rest) == Some(Parsed(ItemOf(it), rest))
  {
    if it.multi {
      MultiRoundTrip(it, rest);
    } else {
      SingleRoundTrip(it, rest);
    }
  }

  // ---------------------------------------------------------------------
  // Reading back, block by block

  /** The end of a loader is not read as one more item. */
  lemma ItemTerminator(rest: seq<string>)
    ensures ParseItem(LoaderEnd + rest).None?
  {
    var ret := "        return item";
    assert LoaderEnd + rest == [ret] + (LoaderEnd[1..] + rest);
    NextOf(ret, LoaderEnd[1..] + rest);
    assert Lit(ret, "        ") == Some("return item") by {
      assert ret == "        " + "return item";
      LitPrefix("        ", "return item");
    }
    LitMismatch("return item", "item.", 0);
  }

  /** The opening of the config table is not read as one more loader. */
  lemma LoaderTerminator(name: string, rest: seq<string>)
    ensures ParseLoader(ConfigHead(name) + rest).None?
  {
    var head := "    local configData = {}";
    assert ConfigHead(name) + rest == [head] + (ConfigHead(name)[1..] + rest);
    NextOf(head, ConfigHead(name)[1..] + rest);
    LitMismatch(head, "    local function load_", 10);
  }

  /** The end of a function is not read as one more var. */
  lemma VarTerminator(rest: seq<string>)
    ensures ParseVar(FunctionEnd + rest).None?
  {
    var ret := "    return configData";
    assert FunctionEnd + rest == [ret] + (FunctionEnd[1..] + rest);
    NextOf(ret, FunctionEnd[1..] + rest);
    assert Lit(ret, "    ") == Some("return configData") by {
      assert ret == "    " + "return configData";
      LitPrefix("    ", "return configData");
    }
    LitMismatch("return configData", "configData.", 0);
  }

  lemma ItemsRoundTrip(items: seq<Item>, rest: seq<string>)
    requires forall i :: 0 <= i < |items| ==> ItemNamed(items[i])
    ensures Blocks(ParseItem, Concat(ItemBlocks(items)) + (LoaderEnd + rest))
         == Parsed(ItemsOf(items), LoaderEnd + rest)
  {
    var blocks := ItemBlocks(items);
    var codes := ItemsOf(items);
    forall i | 0 <= i < |blocks|
      ensures blocks[i] != []
    {
      assert |ItemLines(items[i])| > 0;
    }
    forall i, tail | 0 <= i < |codes|
      ensures ParseItem(blocks[i] + tail) == Some(Parsed(codes[i], tail))
    {
      ItemRoundTrip(items[i], tail);
    }
    ItemTerminator(rest);
    BlocksRoundTrip(ParseItem, codes, blocks, LoaderEnd + rest);
  }

  /** The steps of `ParseLoader`, stated for arbitrary lines. */
  lemma ParseLoaderSteps(lines: seq<string>, t: string, body: seq<string>, items: seq<LuaItem>, rest: seq<string>)
    requires IsIdent(t)
    requires Next(lines) == Some(Parsed(LoaderHead(t), ["        local item = {}"] + body))
    requires Blocks(ParseItem, body) == Parsed(items, LoaderEnd + rest)
    ensures ParseLoader(lines) == Some(Parsed(LuaLoader(t, items), rest))
  {
    LitPrefix("    local function load_", t + "(xmlNode) ");
    TakeIdentSplit(t, "(xmlNode) ");
    LitPrefix(["        local item = {}"], body);
    LitPrefix(LoaderEnd, rest);
  }

  lemma LoaderSplit(td: TypeDef, rest: seq<string>)
    ensures LoaderLines(td) + rest
         == [LoaderHead(td.name)] + (["        local item = {}"] + (Concat(ItemBlocks(td.items)) + (LoaderEnd + rest)))
  {
    var items := Concat(ItemBlocks(td.items));
    ConsTwo(LoaderHead(td.name), "        local item = {}", items + LoaderEnd, rest);
    assert (items + LoaderEnd) + rest == items + (LoaderEnd + rest);
  }

  /** One `load_<type>` function reads back as exactly the loader the type calls for, whatever follows. */
  lemma LoaderRoundTrip(td: TypeDef, rest: seq<string>)
    requires TypeDefNamed(td)
    ensures ParseLoader(LoaderLines(td) + rest) == Some(Parsed(LoaderOf(td), rest))
  {
    var body := Concat(ItemBlocks(td.items)) + (LoaderEnd + rest);
    LoaderSplit(td, rest);
    NextOf(LoaderHead(td.name), ["        local item = {}"] + body);
    ItemsRoundTrip(td.items, rest);
    ParseLoaderSteps(LoaderLines(td) + rest, td.name, body, ItemsOf(td.items), rest);
  }

  lemma LoadersRoundTrip(name: string, tds: seq<TypeDef>, rest: seq<string>)
    requires forall i :: 0 <= i < |tds| ==> TypeDefNamed(tds[i])
    ensures Blocks(ParseLoader, Concat(LoaderBlocks(tds)) + (ConfigHead(name) + rest))
         == Parsed(LoadersOf(tds), ConfigHead(name) + rest)
  {
    var blocks := LoaderBlocks(tds);
    var codes := LoadersOf(tds);
    forall i | 0 <= i < |blocks|
      ensures blocks[i] != []
    {
      assert LoaderLines(tds[i])[0] == LoaderHead(tds[i].name);
    }
    forall i, tail | 0 <= i < |codes|
      ensures ParseLoader(blocks[i] + tail) == Some(Parsed(codes[i], tail))
    {
      LoaderRoundTrip(tds[i], tail);
    }
    LoaderTerminator(name, rest);
    BlocksRoundTrip(ParseLoader, codes, blocks, ConfigHead(name) + rest);
  }

  /** The steps of `ParseVar`, stated for arbitrary lines. */
  lemma ParseVarSteps(lines: seq<string>, name: string, rhs: string, more: seq<string>, v: Value, rest: seq<string>)
    requires IsIdent(name)
    requires lines == ["    " + ("configData." + (name + (" = " + rhs)))] + more
    requires ParseValue("    ", "", "configData." + name, "xmlNode", lines) == Some(Parsed(v, rest))
    ensures ParseVar(lines) == Some(Parsed(LuaVar(name, v), rest))
  {
    NextOf("    " + ("configData." + (name + (" = " + rhs))), more);
    LitPrefix("    ", "configData." + (name + (" = " + rhs)));
    LitPrefix("configData.", name + (" = " + rhs));
    TakeIdentSplit(name, " = " + rhs);
  }

  /** One var's lines read back as exactly the read the var calls for, whatever follows. */
  lemma VarRoundTrip(v: Var, rest: seq<string>)
    requires VarNamed(v)
    ensures ParseVar(VarLines(v) + rest) == Some(Parsed(VarOf(v), rest))
  {
    var val := ValueOf(v.typ, v.name, "false", "xmlNode." + v.name);
    var rhs := Rhs("xmlNode", val);
    var lhs := "configData." + v.name;
    var more := (if val.Flag? then FlagLines("    ", lhs, "xmlNode", val.attr, val.onTrue) else []) + rest;
    assert VarLines(v) + rest == ["    " + ("" + (lhs + (" = " + rhs)))] + more;
    assert "" + (lhs + (" = " + rhs)) == "configData." + (v.name + (" = " + rhs));
    ValueRoundTrip("    ", "", lhs, "xmlNode", val, rest);
    ParseVarSteps(VarLines(v) + rest, v.name, rhs, more, val, rest);
  }

  lemma VarsRoundTrip(vs: seq<Var>, rest: seq<string>)
    requires forall i :: 0 <= i < |vs| ==> VarNamed(vs[i])
    ensures Blocks(ParseVar, Concat(VarBlocks(vs)) + (FunctionEnd + rest)) == Parsed(VarsOfVars(vs), FunctionEnd + rest)
  {
    var blocks := VarBlocks(vs);
    var codes := VarsOfVars(vs);
    forall i | 0 <= i < |blocks|
      ensures blocks[i] != []
    {
      assert |VarLines(vs[i])| > 0;
    }
    forall i, tail | 0 <= i < |codes|
      ensures ParseVar(blocks[i] + tail) == Some(Parsed(codes[i], tail))
    {
      VarRoundTrip(vs[i], tail);
    }
    VarTerminator(rest);
    BlocksRoundTrip(ParseVar, codes, blocks, FunctionEnd + rest);
  }

  /** The function's first line names the node, whatever follows. */
  lemma FunctionHeadRead(name: string, body: seq<string>)
    ensures Next(FunctionHead(name) + body).Some?
    ensures Lit(Next(FunctionHead(name) + body).value.value, "function load") == Some(name + "Config(file)")
    ensures DropSuffix(name + "Config(file)", "Config(file)") == Some(name)
    ensures Lit(FunctionHead(name) + body, FunctionHead(name)) == Some(body)
  {
    var first := "function load" + (name + "Config(file)");
    assert FunctionHead(name) + body == [first] + ([""] + body);
    NextOf(first, [""] + body);
    LitPrefix("function load", name + "Config(file)");
    DropSuffixOf(name, "Config(file)");
    LitPrefix(FunctionHead(name), body);
  }

  /** The steps of `ParseFunction`, stated for arbitrary lines. */
  lemma ParseFunctionSteps(lines: seq<string>, name: string, body: seq<string>, ls: seq<LuaLoader>,
                           afterHead: seq<string>, vs: seq<LuaVar>, rest: seq<string>)
    requires Next(lines).Some? && Lit(Next(lines).value.value, "function load") == Some(name + "Config(file)")
    requires DropSuffix(name + "Config(file)", "Config(file)") == Some(name)
    requires Lit(lines, FunctionHead(name)) == Some(body)
    requires Blocks(ParseLoader, body) == Parsed(ls, ConfigHead(name) + afterHead)
    requires Blocks(ParseVar, afterHead) == Parsed(vs, FunctionEnd + rest)
    ensures ParseFunction(lines) == Some(Parsed(LuaFunction(name, ls, vs), rest))
  {
    LitPrefix(ConfigHead(name), afterHead);
    LitPrefix(FunctionEnd, rest);
  }

  /** One node's function reads back as exactly the function the node calls for, whatever follows. */
  lemma FunctionRoundTrip(n: Node, rest: seq<string>)
    requires NodeNamed(n)
    ensures ParseFunction(FunctionLines(n) + rest) == Some(Parsed(FunctionOf(n), rest))
  {
    var head := FunctionHead(n.name);
    var loaders := Concat(LoaderBlocks(TypesOf(n)));
    var afterHead := Concat(VarBlocks(VarsOf(n))) + (FunctionEnd + rest);
    var body := loaders + (ConfigHead(n.name) + afterHead);
    AppendNested(head, loaders, ConfigHead(n.name), Concat(VarBlocks(VarsOf(n))), FunctionEnd, rest);
    FunctionHeadRead(n.name, body);
    LoadersRoundTrip(n.name, TypesOf(n), afterHead);
    VarsRoundTrip(VarsOf(n), rest);
    ParseFunctionSteps(FunctionLines(n) + rest, n.name, body, LoadersOf(TypesOf(n)), afterHead,
                       VarsOfVars(VarsOf(n)), rest);
  }

  lemma FunctionsRoundTrip(doc: Document)
    requires DocNamed(doc)
    ensures Blocks(ParseFunction, Concat(FunctionBlocks(doc)) + []) == Parsed(FunctionsOf(doc), [])
  {
    var blocks := FunctionBlocks(doc);
    var codes := FunctionsOf(doc);
    forall i | 0 <= i < |blocks|
      ensures blocks[i] != []
    {
      assert FunctionLines(doc[i])[0] == FunctionHead(doc[i].name)[0];
    }
    forall i, tail | 0 <= i < |codes|
      ensures ParseFunction(blocks[i] + tail) == Some(Parsed(codes[i], tail))
    {
      FunctionRoundTrip(doc[i], tail);
    }
    BlocksRoundTrip(ParseFunction, codes, blocks, []);
  }

  /** The steps of `ParseLua`, stated for arbitrary lines. */
  lemma ParseLuaSteps(lines: seq<string>, l1: string, source: string, body: seq<string>)
    requires lines == [LuaNotice] + ([l1] + (Requires + body))
    requires Lit(l1, "-- source: ") == Some(source)
    requires Blocks(ParseFunction, body).rest == []
    ensures ParseLua(lines) == Some(LuaScript(source, Blocks(ParseFunction, body).value))
  {
    NextOf(LuaNotice, [l1] + (Requires + body));
    NextOf(l1, Requires + body);
    LitPrefix(Requires, body);
  }

  /** Reading the generated script back gives exactly the script the document
      calls for: the source file name, and per node (in order) one function
      holding one `load_<type>` per type of its `<types>` and one read per
      var of its `<vars>`, each as `LuaOf` prescribes. */
  lemma LuaRoundTrip(file: string, doc: Document)
    requires DocNamed(doc)
    ensures ParseLua(ExportLua(file, doc)) == Some(LuaOf(file, doc))
  {
    var l1 := "-- source: " + file;
    var body := Concat(FunctionBlocks(doc));
    ConsTwo(LuaNotice, l1, Requires, body);
    LitPrefix("-- source: ", file);
    FunctionsRoundTrip(doc);
    assert body + [] == body;
    ParseLuaSteps(ExportLua(file, doc), l1, file, body);
  }

  // ---------------------------------------------------------------------
  // What the read-back promises, element by element

  /** How a value is read, by the lower-cased name of its declared type:
      "string" and "uint64" keep the attribute text, "bool" compares it with
      "true", the other primitives go through `tonumber`, and any other type
      is loaded by calling its `load_<type>`. */
  lemma ValueOfKinds(typ: string, attr: string, onTrue: string, arg: string)
    ensures var v := ValueOf(typ, attr, onTrue, arg);
            (v.Raw? <==> ToLower(typ) == "string" || ToLower(typ) == "uint64")
            && (v.Flag? <==> ToLower(typ) == "bool")
            && (v.Call? <==> ToLower(typ) !in PrimitiveNames)
            && (v.Number? <==> ToLower(typ) in PrimitiveNames && ToLower(typ) != "string"
                               && ToLower(typ) != "uint64" && ToLower(typ) != "bool")
            && (v.Call? ==> v.typ == typ && v.arg == arg)
            && (!v.Call? ==> v.attr == attr)
            && (v.Flag? ==> v.onTrue == onTrue)
  {
    GetTypeIff(typ, TypeEnumString);
    GetTypeIff(typ, TypeEnumUint64);
    GetTypeIff(typ, TypeEnumBool);
    NotPrimitiveIff(typ);
    assert PrimitiveNames[TypeEnumUint64] == "uint64";
    BoolAndStringEntries();
  }

  /** The generated script names its input and has one function per node,
      each with one loader per type of the node's `<types>` and one read per
      var of its `<vars>`. */
  lemma LuaFunctions(file: string, doc: Document, s: LuaScript)
    requires DocNamed(doc) && ParseLua(ExportLua(file, doc)) == Some(s)
    ensures s.source == file && |s.functions| == |doc|
    ensures forall i :: 0 <= i < |doc| ==>
              s.functions[i].name == doc[i].name
              && |s.functions[i].loaders| == |TypesOf(doc[i])|
              && |s.functions[i].vars| == |VarsOf(doc[i])|
  {
    LuaRoundTrip(file, doc);
  }

  /** Loader `j` of node `i` is `load_<type name>` and reads one item per item of the type. */
  lemma LuaLoaders(file: string, doc: Document, s: LuaScript, i: nat, j: nat)
    requires DocNamed(doc) && ParseLua(ExportLua(file, doc)) == Some(s)
    requires i < |doc| && j < |TypesOf(doc[i])|
    ensures i < |s.functions| && j < |s.functions[i].loaders|
    ensures s.functions[i].loaders[j].typ == TypesOf(doc[i])[j].name
    ensures |s.functions[i].loaders[j].items| == |TypesOf(doc[i])[j].items|
  {
    LuaRoundTrip(file, doc);
  }

  /** Item `k` of type `j` of node `i`: a multi item loops over the children
      named after it, reads each from the loop variable and appends it to the
      field of that name, and its bool branch assigns true; a single item
      reads the field of that name from the loader's argument, and its bool
      branch assigns false. */
  lemma LuaItemRead(file: string, doc: Document, s: LuaScript, i: nat, j: nat, k: nat)
    requires DocNamed(doc) && ParseLua(ExportLua(file, doc)) == Some(s)
    requires i < |doc| && j < |TypesOf(doc[i])| && k < |TypesOf(doc[i])[j].items|
    ensures i < |s.functions| && j < |s.functions[i].loaders| && k < |s.functions[i].loaders[j].items|
    ensures var c := s.functions[i].loaders[j].items[k];
            var it := TypesOf(doc[i])[j].items[k];
            (c.Multi? <==> it.multi)
            && c.field == it.name
            && (c.Multi? ==> c.child == it.name && c.appendTo == it.name)
            && (c.value.Call? ==> c.value.arg == (if it.multi then "v" else "xmlNode." + it.name))
            && (c.value.Flag? ==> c.value.onTrue == (if it.multi then "true" else "false"))
            && (c.value.Call? <==> ToLower(it.typ) !in PrimitiveNames)
            && (c.value.Flag? <==> ToLower(it.typ) == "bool")
            && (c.value.Raw? <==> ToLower(it.typ) == "string" || ToLower(it.typ) == "uint64")
            && (c.value.Call? ==> c.value.typ == it.typ)
            && (!c.value.Call? ==> c.value.attr == it.name)
  {
    LuaRoundTrip(file, doc);
    var it := TypesOf(doc[i])[j].items[k];
    if it.multi {
      ValueOfKinds(it.typ, it.name, "true", "v");
    } else {
      ValueOfKinds(it.typ, it.name, "false", "xmlNode." + it.name);
    }
  }

  /** Var `k` of node `i` sets the `configData` field named after it from
      the attribute (or, for a compound type, the child) of that name. */
  lemma LuaVarRead(file: string, doc: Document, s: LuaScript, i: nat, k: nat)
    requires DocNamed(doc) && ParseLua(ExportLua(file, doc)) == Some(s)
    requires i < |doc| && k < |VarsOf(doc[i])|
    ensures i < |s.functions| && k < |s.functions[i].vars|
    ensures var c := s.functions[i].vars[k];
            var v := VarsOf(doc[i])[k];
            c.field == v.name
            && (c.value.Call? <==> ToLower(v.typ) !in PrimitiveNames)
            && (c.value.Flag? <==> ToLower(v.typ) == "bool")
            && (c.value.Raw? <==> ToLower(v.typ) == "string" || ToLower(v.typ) == "uint64")
            && (c.value.Call? ==> c.value.typ == v.typ && c.value.arg == "xmlNode." + v.name)
            && (!c.value.Call? ==> c.value.attr == v.name)
            && (c.value.Flag? ==> c.value.onTrue == "false")
  {
    LuaRoundTrip(file, doc);
    var v := VarsOf(doc[i])[k];
    ValueOfKinds(v.typ, v.name, "false", "xmlNode." + v.name);
  }

  /** What the lines `lhs = false; if <attr> == "true" then lhs = onTrue end`
      leave in `lhs` when the attribute's text is `text`. */
  function FlagResult(v: Value, text: string): string
    requires v.Flag?
  {
    if text == "true" then v.onTrue else "false"
  }

  /** A multi bool item gets true exactly when the attribute reads "true"; a
      single bool item gets false whatever the attribute reads, because the
      branch for "true" assigns false. */
  lemma ItemFlagOutcome(file: string, doc: Document, s: LuaScript, i: nat, j: nat, k: nat, text: string)
    requires DocNamed(doc) && ParseLua(ExportLua(file, doc)) == Some(s)
    requires i < |doc| && j < |TypesOf(doc[i])| && k < |TypesOf(doc[i])[j].items|
    requires ToLower(TypesOf(doc[i])[j].items[k].typ) == "bool"
    ensures i < |s.functions| && j < |s.functions[i].loaders| && k < |s.functions[i].loaders[j].items|
    ensures var c := s.functions[i].loaders[j].items[k];
            c.value.Flag?
            && (TypesOf(doc[i])[j].items[k].multi ==> (FlagResult(c.value, text) == "true" <==> text == "true"))
            && (!TypesOf(doc[i])[j].items[k].multi ==> FlagResult(c.value, text) == "false")
  {
    LuaItemRead(file, doc, s, i, j, k);
  }

  /** A bool var of the root element ends up false whatever its attribute
      reads: the branch for "true" assigns false. */
  lemma SingleFlagsStayFalse(file: string, doc: Document, s: LuaScript, i: nat, k: nat, text: string)
    requires DocNamed(doc) && ParseLua(ExportLua(file, doc)) == Some(s)
    requires i < |doc| && k < |VarsOf(doc[i])|
    requires ToLower(VarsOf(doc[i])[k].typ) == "bool"
    ensures i < |s.functions| && k < |s.functions[i].vars|
    ensures s.functions[i].vars[k].value.Flag? && FlagResult(s.functions[i].vars[k].value, text) == "false"
  {
    LuaVarRead(file, doc, s, i, k);
  }
}
