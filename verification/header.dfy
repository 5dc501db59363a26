/** `exportHeader`: the C++ declarations of the generated loader classes, one
    class per top-level node, as a list of lines. Each compound type becomes a
    nested struct with one field per item (`vector<T>` for a multi item, `T`
    verbatim otherwise) followed by a private `load_<type>` declaration per
    type; each var becomes a public field of its type as written. A
    non-empty description becomes a trailing `//` comment, passed through
    the locale transcoder `utf82Gbk`, which here is the parameter `tr`.

    The emitted text is read back by `ParseHeader`; `HeaderRoundTrip` states
    that it yields exactly `HeaderOf`, the declarations the document calls
    for. */
module Header {
  import opened Wrappers
  import opened Schema
  import opened LineParse
  import opened Names

  // ---------------------------------------------------------------------
  // The emitted text

  /** The file opener: notice, source line, include guard, includes. */
  function Opener(source: string, guard: string): seq<string> {
    [CppNotice,
     "// source: " + source,
     "",
     "#ifndef _XMLGEN_" + (guard + "_H_"),
     "#define _XMLGEN_" + (guard + "_H_"),
     "",
     "#include <string>",
     "#include <vector>",
     "#include \"pugixml.hpp\"",
     "using namespace std;",
     ""]
  }

  function Closer(guard: string): string {
    "#endif // _XMLGEN_" + (guard + "_H_")
  }

  /** The trailing comment of a field: nothing for an empty description. */
  function Comment(des: string, tr: string -> string): string {
    if des == "" then "" else "//" + tr(des)
  }

  /** `type<sep>name;comment`, the common shape of every field line. */
  function Typed(typ: string, sep: string, name: string, des: string, tr: string -> string): string {
    typ + (sep + (name + (";" + Comment(des, tr))))
  }

  /** A struct field: `vector<T> name;` for a multi item, `T name;` otherwise. */
  function ItemDecl(it: Item, tr: string -> string): string {
    if it.multi then "        " + ("vector<" + Typed(it.typ, "> ", it.name, it.des, tr))
    else "        " + Typed(it.typ, " ", it.name, it.des, tr)
  }

  function ItemDecls(items: seq<Item>, tr: string -> string): seq<string> {
    seq(|items|, i requires 0 <= i < |items| => ItemDecl(items[i], tr))
  }

  function StructHead(name: string): string {
    "    struct " + (name + " {")
  }

  const StructEnd := "    };"

  function StructLines(td: TypeDef, tr: string -> string): seq<string> {
    [StructHead(td.name)] + ItemDecls(td.items, tr) + [StructEnd]
  }

  function Structs(tds: seq<TypeDef>, tr: string -> string): seq<string> {
    if tds == [] then [] else StructLines(tds[0], tr) + Structs(tds[1..], tr)
  }

  function LoaderDecl(t: string): string {
    "    bool load_" + (t + ("(" + (t + "& item, const pugi::xml_node& node);")))
  }

  function LoaderDecls(tds: seq<TypeDef>): seq<string> {
    seq(|tds|, i requires 0 <= i < |tds| => LoaderDecl(tds[i].name))
  }

  /** The `<types>` part of a class: nothing without `<types>`; otherwise the
      structs and the loader declarations, each under `private:`. */
  function TypesSection(types: Option<seq<TypeDef>>, tr: string -> string): seq<string> {
    match types
    case None => []
    case Some(tds) => ["private:"] + Structs(tds, tr) + ["private:"] + LoaderDecls(tds)
  }

  /** A public field for a var: its type as written, never wrapped in `vector`. */
  function VarDecl(v: Var, tr: string -> string): string {
    "    " + Typed(v.typ, " ", v.name, v.des, tr)
  }

  function VarDecls(vs: seq<Var>, tr: string -> string): seq<string> {
    seq(|vs|, i requires 0 <= i < |vs| => VarDecl(vs[i], tr))
  }

  function VarsSection(vars: Option<seq<Var>>, tr: string -> string): seq<string> {
    match vars
    case None => []
    case Some(vs) => ["public:"] + VarDecls(vs, tr)
  }

  function ClassHead(name: string): seq<string> {
    ["class " + (name + " {"),
     "public:",
     "    " + (name + "();"),
     "    ~" + (name + "();"),
     "",
     "    bool loadConfigData(const std::string& fname);"]
  }

  const ClassEnd := ["};", ""]

  function ClassLines(n: Node, tr: string -> string): seq<string> {
    ClassHead(n.name) + TypesSection(n.types, tr) + VarsSection(n.vars, tr) + ClassEnd
  }

  function Classes(doc: Document, tr: string -> string): seq<string> {
    if doc == [] then [] else ClassLines(doc[0], tr) + Classes(doc[1..], tr)
  }

  /** `exportHeader`: the lines of the generated header for input file `file`. */
  function ExportHeader(file: string, doc: Document, tr: string -> string): seq<string> {
    Opener(file, Guard(file)) + Classes(doc, tr) + [Closer(Guard(file))]
  }

  // ---------------------------------------------------------------------
  // What the header declares

  /** A declared field: its type as written, whether it is a `vector`, its
      name and its comment (None when there is none). */
  datatype Field = Field(typ: string, multi: bool, name: string, note: Option<string>)

  datatype StructView = StructView(name: string, fields: seq<Field>)

  /** The `<types>` part: the nested structs and the names of the declared `load_` methods. */
  datatype TypesView = TypesView(structs: seq<StructView>, loaders: seq<string>)

  datatype ClassView = ClassView(name: string, types: Option<TypesView>, vars: Option<seq<Field>>)

  datatype HeaderView = HeaderView(source: string, guard: string, classes: seq<ClassView>)

  /** The comment a description calls for. */
  function Note(des: string, tr: string -> string): Option<string> {
    if des == "" then None else Some(tr(des))
  }

  function ItemField(it: Item, tr: string -> string): Field {
    Field(it.typ, it.multi, it.name, Note(it.des, tr))
  }

  function VarField(v: Var, tr: string -> string): Field {
    Field(v.typ, false, v.name, Note(v.des, tr))
  }

  function StructOf(td: TypeDef, tr: string -> string): StructView {
    StructView(td.name, seq(|td.items|, i requires 0 <= i < |td.items| => ItemField(td.items[i], tr)))
  }

  function StructsOf(tds: seq<TypeDef>, tr: string -> string): seq<StructView> {
    seq(|tds|, i requires 0 <= i < |tds| => StructOf(tds[i], tr))
  }

  function LoaderNames(tds: seq<TypeDef>): seq<string> {
    seq(|tds|, i requires 0 <= i < |tds| => tds[i].name)
  }

  function VarFields(vs: seq<Var>, tr: string -> string): seq<Field> {
    seq(|vs|, i requires 0 <= i < |vs| => VarField(vs[i], tr))
  }

  function TypesViewOf(types: Option<seq<TypeDef>>, tr: string -> string): Option<TypesView> {
    match types
    case None => None
    case Some(tds) => Some(TypesView(StructsOf(tds, tr), LoaderNames(tds)))
  }

  function VarsViewOf(vars: Option<seq<Var>>, tr: string -> string): Option<seq<Field>> {
    match vars
    case None => None
    case Some(vs) => Some(VarFields(vs, tr))
  }

  /** The declarations a node calls for: one struct and one loader per type,
      in order, and one field per var. */
  function ClassOf(n: Node, tr: string -> string): ClassView {
    ClassView(n.name, TypesViewOf(n.types, tr), VarsViewOf(n.vars, tr))
  }

  function ClassesOf(doc: Document, tr: string -> string): seq<ClassView> {
    seq(|doc|, i requires 0 <= i < |doc| => ClassOf(doc[i], tr))
  }

  /** What the header for `file` declares: the source name, the guard and one class per node. */
  function HeaderOf(file: string, doc: Document, tr: string -> string): HeaderView {
    HeaderView(file, Guard(file), ClassesOf(doc, tr))
  }

  // ---------------------------------------------------------------------
  // Reading the text back

  function ParseNote(s: string): Option<Option<string>> {
    if s == "" then Some(None)
    else
      var c :- Lit(s, "//");
      Some(Some(c))
  }

  /** Reads `type<sep>name;comment`. */
  function ParseTyped(s: string, sep: string, multi: bool): Option<Field> {
    var t :- TakeIdent(s);
    var r :- Lit(t.rest, sep);
    var n :- TakeIdent(r);
    var r2 :- Lit(n.rest, ";");
    var note :- ParseNote(r2);
    Some(Field(t.token, multi, n.token, note))
  }

  function ParseItemDecl(line: string): Option<Field> {
    var r :- Lit(line, "        ");
    match Lit(r, "vector<")
    case Some(r1) => ParseTyped(r1, "> ", true)
    case None => ParseTyped(r, " ", false)
  }

  function ParseVarDecl(line: string): Option<Field> {
    var r :- Lit(line, "    ");
    ParseTyped(r, " ", false)
  }

  function ParseStructHead(line: string): Option<string> {
    var r :- Lit(line, "    struct ");
    var n :- TakeIdent(r);
    if n.rest == " {" then Some(n.token) else None
  }

  function ParseLoaderDecl(line: string): Option<string> {
    var r :- Lit(line, "    bool load_");
    var t :- TakeIdent(r);
    if t.rest == "(" + (t.token + "& item, const pugi::xml_node& node);") then Some(t.token) else None
  }

  function ParseStruct(lines: seq<string>): (r: Option<Parsed<StructView>>)
    ensures r.Some? ==> |r.value.rest| < |lines|
  {
    if lines == [] then None
    else
      var name :- ParseStructHead(lines[0]);
      var fs := Many(ParseItemDecl, lines[1..]);
      var rest :- Lit(fs.rest, [StructEnd]);
      Some(Parsed(StructView(name, fs.value), rest))
  }

  function ParseStructs(lines: seq<string>): (r: Option<Parsed<seq<StructView>>>)
    ensures r.Some? ==> |r.value.rest| <= |lines|
    decreases |lines|
  {
    if lines != [] && ParseStructHead(lines[0]).Some? then
      var s :- ParseStruct(lines);
      var ss :- ParseStructs(s.rest);
      Some(Parsed([s.value] + ss.value, ss.rest))
    else Some(Parsed([], lines))
  }

  function ParseTypesSection(lines: seq<string>): (r: Option<Parsed<Option<TypesView>>>)
    ensures r.Some? ==> |r.value.rest| <= |lines|
  {
    if lines != [] && lines[0] == "private:" then
      var ss :- ParseStructs(lines[1..]);
      var r :- Lit(ss.rest, ["private:"]);
      var ls := Many(ParseLoaderDecl, r);
      Some(Parsed(Some(TypesView(ss.value, ls.value)), ls.rest))
    else Some(Parsed(None, lines))
  }

  function ParseVarsSection(lines: seq<string>): (r: Parsed<Option<seq<Field>>>)
    ensures |r.rest| <= |lines|
  {
    if lines != [] && lines[0] == "public:" then
      var vs := Many(ParseVarDecl, lines[1..]);
      Parsed(Some(vs.value), vs.rest)
    else Parsed(None, lines)
  }

  function ParseClassName(line: string): Option<string> {
    var r :- Lit(line, "class ");
    var n :- TakeIdent(r);
    if n.rest == " {" then Some(n.token) else None
  }

  function ParseClass(lines: seq<string>): (r: Option<Parsed<ClassView>>)
    ensures r.Some? ==> |r.value.rest| < |lines|
  {
    if lines == [] then None
    else
      var name :- ParseClassName(lines[0]);
      var body :- Lit(lines, ClassHead(name));
      var ts :- ParseTypesSection(body);
      var vs := ParseVarsSection(ts.rest);
      var rest :- Lit(vs.rest, ClassEnd);
      Some(Parsed(ClassView(name, ts.value, vs.value), rest))
  }

  function ParseClasses(lines: seq<string>): (r: Option<Parsed<seq<ClassView>>>)
    ensures r.Some? ==> |r.value.rest| <= |lines|
    decreases |lines|
  {
    if lines != [] && ParseClassName(lines[0]).Some? then
      var c :- ParseClass(lines);
      var cs :- ParseClasses(c.rest);
      Some(Parsed([c.value] + cs.value, cs.rest))
    else Some(Parsed([], lines))
  }

  /** Reads a whole header: the opener (recovering the source name and the
      guard), the classes, and the closer with the same guard. */
  function ParseHeader(lines: seq<string>): Option<HeaderView> {
    if |lines| < |Opener("", "")| then None
    else
      var source :- Lit(lines[1], "// source: ");
      var g :- Lit(lines[3], "#ifndef _XMLGEN_");
      var guard :- DropSuffix(g, "_H_");
      var body :- Lit(lines, Opener(source, guard));
      var cs :- ParseClasses(body);
      if cs.rest == [Closer(guard)] then Some(HeaderView(source, guard, cs.value)) else None
  }

  // ---------------------------------------------------------------------
  // Read-back of single lines

  lemma NoteRoundTrip(des: string, tr: string -> string)
    ensures ParseNote(Comment(des, tr)) == Some(Note(des, tr))
  {
    if des != "" {
      LitPrefix("//", tr(des));
    }
  }

  lemma TypedRoundTrip(typ: string, sep: string, name: string, des: string, tr: string -> string, multi: bool)
    requires IsIdent(typ) && IsIdent(name) && sep != [] && !IsIdentChar(sep[0])
    ensures ParseTyped(Typed(typ, sep, name, des, tr), sep, multi) == Some(Field(typ, multi, name, Note(des, tr)))
  {
    var tail := ";" + Comment(des, tr);
    TakeIdentSplit(typ, sep + (name + tail));
    LitPrefix(sep, name + tail);
    TakeIdentSplit(name, tail);
    LitPrefix(";", Comment(des, tr));
    NoteRoundTrip(des, tr);
  }

  /** A type name followed by a space never looks like the start of `vector<`. */
  lemma NotVectorPrefix(typ: string, r: string)
    requires IsIdent(typ) && r != [] && r[0] == ' '
    ensures Lit(typ + r, "vector<") == None
  {
    var s := typ + r;
    if |typ| < 7 {
      assert s[|typ|] == ' ';
    } else {
      assert s[6] == typ[6];
    }
  }

  /** A struct field line reads back as the item's type (verbatim), its
      multiplicity (from the `vector<` wrapper), its name and its comment. */
  lemma ItemDeclRoundTrip(it: Item, tr: string -> string)
    requires ItemNamed(it)
    ensures ParseItemDecl(ItemDecl(it, tr)) == Some(ItemField(it, tr))
  {
    if it.multi {
      var t := Typed(it.typ, "> ", it.name, it.des, tr);
      LitPrefix("        ", "vector<" + t);
      LitPrefix("vector<", t);
      TypedRoundTrip(it.typ, "> ", it.name, it.des, tr, true);
    } else {
      var t := Typed(it.typ, " ", it.name, it.des, tr);
      LitPrefix("        ", t);
      NotVectorPrefix(it.typ, " " + (it.name + (";" + Comment(it.des, tr))));
      TypedRoundTrip(it.typ, " ", it.name, it.des, tr, false);
    }
  }

  /** A var line reads back as a field that is never a vector. */
  lemma VarDeclRoundTrip(v: Var, tr: string -> string)
    requires VarNamed(v)
    ensures ParseVarDecl(VarDecl(v, tr)) == Some(VarField(v, tr))
  {
    var t := Typed(v.typ, " ", v.name, v.des, tr);
    LitPrefix("    ", t);
    TypedRoundTrip(v.typ, " ", v.name, v.des, tr, false);
  }

  lemma LoaderDeclRoundTrip(t: string)
    requires IsIdent(t)
    ensures ParseLoaderDecl(LoaderDecl(t)) == Some(t)
  {
    var tail := "(" + (t + "& item, const pugi::xml_node& node);");
    LitPrefix("    bool load_", t + tail);
    TakeIdentSplit(t, tail);
  }

  lemma StructHeadRoundTrip(t: string)
    requires IsIdent(t)
    ensures ParseStructHead(StructHead(t)) == Some(t)
  {
    LitPrefix("    struct ", t + " {");
    TakeIdentSplit(t, " {");
  }

  lemma ClassNameRoundTrip(t: string)
    requires IsIdent(t)
    ensures ParseClassName(ClassHead(t)[0]) == Some(t)
  {
    LitPrefix("class ", t + " {");
    TakeIdentSplit(t, " {");
  }

  /** The lines that end each list are not read as one more element of it. */
  lemma Terminators()
    ensures ParseItemDecl(StructEnd).None?
    ensures ParseStructHead("private:").None?
    ensures ParseLoaderDecl("public:").None? && ParseLoaderDecl("};").None?
    ensures ParseVarDecl("};").None?
  {
    assert !("        " <= StructEnd);
    assert !("    struct " <= "private:");
    assert !("    bool load_" <= "public:") && !("    bool load_" <= "};");
    assert !("    " <= "};");
  }

  // ---------------------------------------------------------------------
  // Read-back of blocks

  lemma StructRoundTrip(td: TypeDef, tr: string -> string, rest: seq<string>)
    requires TypeDefNamed(td)
    ensures ParseStruct(StructLines(td, tr) + rest) == Some(Parsed(StructOf(td, tr), rest))
  {
    var decls := ItemDecls(td.items, tr);
    var tail := decls + ([StructEnd] + rest);
    var lines := StructLines(td, tr) + rest;
    assert lines == [StructHead(td.name)] + tail;
    assert lines[0] == StructHead(td.name) && lines[1..] == tail;
    StructHeadRoundTrip(td.name);
    forall i | 0 <= i < |td.items|
      ensures ParseItemDecl(decls[i]) == Some(StructOf(td, tr).fields[i])
    {
      ItemDeclRoundTrip(td.items[i], tr);
    }
    ManyRoundTrip(ParseItemDecl, StructOf(td, tr).fields, decls, [StructEnd] + rest);
    LitPrefix([StructEnd], rest);
  }

  /** One step of `ParseStructs`, stated for arbitrary lines. */
  lemma ParseStructsCons(lines: seq<string>, s: Parsed<StructView>, ss: Parsed<seq<StructView>>)
    requires lines != [] && ParseStructHead(lines[0]).Some?
    requires ParseStruct(lines) == Some(s) && ParseStructs(s.rest) == Some(ss)
    ensures ParseStructs(lines) == Some(Parsed([s.value] + ss.value, ss.rest))
  {
  }

  lemma StructsSplit(tds: seq<TypeDef>, tr: string -> string, rest: seq<string>)
    requires tds != []
    ensures Structs(tds, tr) + rest == StructLines(tds[0], tr) + (Structs(tds[1..], tr) + rest)
    ensures (Structs(tds, tr) + rest)[0] == StructHead(tds[0].name)
    ensures [StructOf(tds[0], tr)] + StructsOf(tds[1..], tr) == StructsOf(tds, tr)
  {
    var a := StructLines(tds[0], tr);
    var more := Structs(tds[1..], tr) + rest;
    assert Structs(tds, tr) + rest == a + more;
    assert a[0] == StructHead(tds[0].name);
    assert (a + more)[0] == a[0];
  }

  lemma {:induction false} StructsRoundTrip(tds: seq<TypeDef>, tr: string -> string, rest: seq<string>)
    requires forall i :: 0 <= i < |tds| ==> TypeDefNamed(tds[i])
    requires rest == [] || ParseStructHead(rest[0]).None?
    ensures ParseStructs(Structs(tds, tr) + rest) == Some(Parsed(StructsOf(tds, tr), rest))
    decreases |tds|
  {
    if tds == [] {
      assert Structs(tds, tr) + rest == rest;
      assert StructsOf(tds, tr) == [];
    } else {
      var more := Structs(tds[1..], tr) + rest;
      StructsSplit(tds, tr, rest);
      StructHeadRoundTrip(tds[0].name);
      StructRoundTrip(tds[0], tr, more);
      StructsRoundTrip(tds[1..], tr, rest);
      ParseStructsCons(Structs(tds, tr) + rest, Parsed(StructOf(tds[0], tr), more), Parsed(StructsOf(tds[1..], tr), rest));
    }
  }

  lemma TypesSectionSplit(tds: seq<TypeDef>, tr: string -> string, rest: seq<string>)
    ensures TypesSection(Some(tds), tr) + rest
         == ["private:"] + (Structs(tds, tr) + (["private:"] + (LoaderDecls(tds) + rest)))
  {
  }

  lemma TypesSectionRoundTrip(types: Option<seq<TypeDef>>, tr: string -> string, rest: seq<string>)
    requires forall i :: 0 <= i < |types.GetOr([])| ==> TypeDefNamed(types.GetOr([])[i])
    requires rest == [] || (rest[0] != "private:" && ParseLoaderDecl(rest[0]).None?)
    ensures ParseTypesSection(TypesSection(types, tr) + rest) == Some(Parsed(TypesViewOf(types, tr), rest))
  {
    if types.Some? {
      var tds := types.value;
      assert tds == types.GetOr([]);
      var loaders := LoaderDecls(tds);
      var after := ["private:"] + (loaders + rest);
      var lines := TypesSection(types, tr) + rest;
      TypesSectionSplit(tds, tr, rest);
      assert lines[0] == "private:" && lines[1..] == Structs(tds, tr) + after;
      assert after[0] == "private:";
      StructsRoundTrip(tds, tr, after);
      LitPrefix(["private:"], loaders + rest);
      forall i | 0 <= i < |tds|
        ensures ParseLoaderDecl(loaders[i]) == Some(LoaderNames(tds)[i])
      {
        LoaderDeclRoundTrip(tds[i].name);
      }
      ManyRoundTrip(ParseLoaderDecl, LoaderNames(tds), loaders, rest);
    } else {
      assert TypesSection(types, tr) + rest == rest;
    }
  }

  lemma VarsSectionRoundTrip(vars: Option<seq<Var>>, tr: string -> string, rest: seq<string>)
    requires forall i :: 0 <= i < |vars.GetOr([])| ==> VarNamed(vars.GetOr([])[i])
    requires rest == [] || (rest[0] != "public:" && ParseVarDecl(rest[0]).None?)
    ensures ParseVarsSection(VarsSection(vars, tr) + rest) == Parsed(VarsViewOf(vars, tr), rest)
  {
    if vars.Some? {
      var vs := vars.value;
      assert vs == vars.GetOr([]);
      var decls := VarDecls(vs, tr);
      var lines := VarsSection(vars, tr) + rest;
      assert lines == ["public:"] + (decls + rest);
      assert lines[0] == "public:" && lines[1..] == decls + rest;
      forall i | 0 <= i < |vs|
        ensures ParseVarDecl(decls[i]) == Some(VarFields(vs, tr)[i])
      {
        VarDeclRoundTrip(vs[i], tr);
      }
      ManyRoundTrip(ParseVarDecl, VarFields(vs, tr), decls, rest);
    }
  }

  /** The line after a class's types section: `public:` when it has vars, the class end otherwise. */
  lemma AfterTypes(vars: Option<seq<Var>>, tr: string -> string, rest: seq<string>)
    ensures (VarsSection(vars, tr) + (ClassEnd + rest))[0] == if vars.Some? then "public:" else "};"
  {
    var e := ClassEnd + rest;
    assert e[0] == "};";
    if vars.Some? {
      assert VarsSection(vars, tr) + e == ["public:"] + (VarDecls(vars.value, tr) + e);
    } else {
      assert VarsSection(vars, tr) + e == e;
    }
  }

  lemma ClassSplit(n: Node, tr: string -> string, rest: seq<string>)
    ensures ClassLines(n, tr) + rest
         == ClassHead(n.name) + (TypesSection(n.types, tr) + (VarsSection(n.vars, tr) + (ClassEnd + rest)))
    ensures (ClassLines(n, tr) + rest)[0] == ClassHead(n.name)[0]
  {
    var head := ClassHead(n.name);
    var tail := TypesSection(n.types, tr) + (VarsSection(n.vars, tr) + (ClassEnd + rest));
    AppendLeft(head, TypesSection(n.types, tr), VarsSection(n.vars, tr), ClassEnd, rest);
    assert (head + tail)[0] == head[0];
  }

  /** The steps of `ParseClass`, stated for arbitrary lines. */
  lemma ParseClassSteps(lines: seq<string>, name: string, body: seq<string>, tv: Option<TypesView>,
                        afterTypes: seq<string>, vv: Option<seq<Field>>, afterVars: seq<string>, rest: seq<string>)
    requires lines != [] && ParseClassName(lines[0]) == Some(name)
    requires Lit(lines, ClassHead(name)) == Some(body)
    requires ParseTypesSection(body) == Some(Parsed(tv, afterTypes))
    requires ParseVarsSection(afterTypes) == Parsed(vv, afterVars)
    requires Lit(afterVars, ClassEnd) == Some(rest)
    ensures ParseClass(lines) == Some(Parsed(ClassView(name, tv, vv), rest))
  {
  }

  lemma ClassRoundTrip(n: Node, tr: string -> string, rest: seq<string>)
    requires NodeNamed(n)
    ensures ParseClass(ClassLines(n, tr) + rest) == Some(Parsed(ClassOf(n, tr), rest))
  {
    var lines := ClassLines(n, tr) + rest;
    var afterVars := ClassEnd + rest;
    var afterTypes := VarsSection(n.vars, tr) + afterVars;
    var body := TypesSection(n.types, tr) + afterTypes;
    assert lines != [] && ParseClassName(lines[0]) == Some(n.name) by {
      ClassSplit(n, tr, rest);
      ClassNameRoundTrip(n.name);
    }
    assert Lit(lines, ClassHead(n.name)) == Some(body) by {
      ClassSplit(n, tr, rest);
      LitPrefix(ClassHead(n.name), body);
    }
    Terminators();
    assert ParseTypesSection(body) == Some(Parsed(TypesViewOf(n.types, tr), afterTypes)) by {
      AfterTypes(n.vars, tr, rest);
      var first := afterTypes[0];
      assert first == "public:" || first == "};";
      assert first != "private:" && ParseLoaderDecl(first).None?;
      assert TypesOf(n) == n.types.GetOr([]);
      TypesSectionRoundTrip(n.types, tr, afterTypes);
    }
    assert ParseVarsSection(afterTypes) == Parsed(VarsViewOf(n.vars, tr), afterVars) by {
      assert afterVars[0] == "};";
      assert VarsOf(n) == n.vars.GetOr([]);
      VarsSectionRoundTrip(n.vars, tr, afterVars);
    }
    assert Lit(afterVars, ClassEnd) == Some(rest) by {
      LitPrefix(ClassEnd, rest);
    }
    ParseClassSteps(lines, n.name, body, TypesViewOf(n.types, tr), afterTypes,
                    VarsViewOf(n.vars, tr), afterVars, rest);
  }

  /** One step of `ParseClasses`, stated for arbitrary lines. */
  lemma ParseClassesCons(lines: seq<string>, c: Parsed<ClassView>, cs: Parsed<seq<ClassView>>)
    requires lines != [] && ParseClassName(lines[0]).Some?
    requires ParseClass(lines) == Some(c) && ParseClasses(c.rest) == Some(cs)
    ensures ParseClasses(lines) == Some(Parsed([c.value] + cs.value, cs.rest))
  {
  }

  lemma ClassesSplit(doc: Document, tr: string -> string, rest: seq<string>)
    requires doc != []
    ensures Classes(doc, tr) + rest == ClassLines(doc[0], tr) + (Classes(doc[1..], tr) + rest)
    ensures (Classes(doc, tr) + rest)[0] == ClassHead(doc[0].name)[0]
    ensures [ClassOf(doc[0], tr)] + ClassesOf(doc[1..], tr) == ClassesOf(doc, tr)
  {
    var a := ClassLines(doc[0], tr);
    var more := Classes(doc[1..], tr) + rest;
    assert Classes(doc, tr) + rest == a + more;
    ClassSplit(doc[0], tr, []);
    assert a + [] == a;
    assert (a + more)[0] == a[0];
  }

  lemma {:induction false} ClassesRoundTrip(doc: Document, tr: string -> string, rest: seq<string>)
    requires DocNamed(doc)
    requires rest == [] || ParseClassName(rest[0]).None?
    ensures ParseClasses(Classes(doc, tr) + rest) == Some(Parsed(ClassesOf(doc, tr), rest))
    decreases |doc|
  {
    if doc == [] {
      assert Classes(doc, tr) + rest == rest;
      assert ClassesOf(doc, tr) == [];
    } else {
      var more := Classes(doc[1..], tr) + rest;
      ClassesSplit(doc, tr, rest);
      ClassNameRoundTrip(doc[0].name);
      ClassRoundTrip(doc[0], tr, more);
      ClassesRoundTrip(doc[1..], tr, rest);
      ParseClassesCons(Classes(doc, tr) + rest, Parsed(ClassOf(doc[0], tr), more), Parsed(ClassesOf(doc[1..], tr), rest));
    }
  }

  /** The steps of `ParseHeader`, stated for arbitrary lines. */
  lemma ParseHeaderSteps(lines: seq<string>, source: string, guard: string, body: seq<string>, cs: seq<ClassView>)
    requires |lines| >= |Opener("", "")|
    requires Lit(lines[1], "// source: ") == Some(source)
    requires Lit(lines[3], "#ifndef _XMLGEN_") == Some(guard + "_H_")
    requires Lit(lines, Opener(source, guard)) == Some(body)
    requires ParseClasses(body) == Some(Parsed(cs, [Closer(guard)]))
    ensures ParseHeader(lines) == Some(HeaderView(source, guard, cs))
  {
    DropSuffixOf(guard, "_H_");
  }

  /** Reading the generated header back gives exactly the declarations the
      document calls for: the source file name, the upper-cased guard, and
      per node (in order) its class with one struct per type (one field per
      item: type verbatim, `vector` exactly for multi items, a comment exactly
      for a non-empty description), one `load_<type>` declaration per type,
      and one field per var, never a vector. */
  lemma HeaderRoundTrip(file: string, doc: Document, tr: string -> string)
    requires DocNamed(doc)
    ensures ParseHeader(ExportHeader(file, doc, tr)) == Some(HeaderOf(file, doc, tr))
  {
    var g := Guard(file);
    var opener := Opener(file, g);
    var body := Classes(doc, tr) + [Closer(g)];
    var lines := ExportHeader(file, doc, tr);
    assert lines == opener + body;
    assert lines[1] == "// source: " + file && lines[3] == "#ifndef _XMLGEN_" + (g + "_H_") by {
      assert lines[1] == opener[1] && lines[3] == opener[3];
    }
    LitPrefix("// source: ", file);
    LitPrefix("#ifndef _XMLGEN_", g + "_H_");
    LitPrefix(opener, body);
    assert ParseClasses(body) == Some(Parsed(ClassesOf(doc, tr), [Closer(g)])) by {
      assert Closer(g)[0] == '#';
      ClassesRoundTrip(doc, tr, [Closer(g)]);
    }
    ParseHeaderSteps(lines, file, g, body, ClassesOf(doc, tr));
  }

  /** Read back from the header, the field for item `k` of type `j` of node
      `i` has the item's type as written, is a `vector` exactly when the item
      is multi, and has a comment exactly when the item's description is
      non-empty. */
  lemma HeaderItemField(file: string, doc: Document, tr: string -> string, h: HeaderView, i: nat, j: nat, k: nat)
    requires DocNamed(doc) && ParseHeader(ExportHeader(file, doc, tr)) == Some(h)
    requires i < |doc| && doc[i].types.Some?
    requires j < |doc[i].types.value| && k < |doc[i].types.value[j].items|
    ensures i < |h.classes| && h.classes[i].types.Some?
    ensures j < |h.classes[i].types.value.structs|
    ensures h.classes[i].types.value.structs[j].name == doc[i].types.value[j].name
    ensures k < |h.classes[i].types.value.structs[j].fields|
    ensures var f := h.classes[i].types.value.structs[j].fields[k];
            var it := doc[i].types.value[j].items[k];
            f.typ == it.typ && f.multi == it.multi && f.name == it.name && (f.note.None? <==> it.des == "")
  {
    HeaderRoundTrip(file, doc, tr);
  }

  /** Read back from the header, node `i` declares exactly one `load_<type>`
      method per type of its `<types>`, in order, and none without `<types>`. */
  lemma HeaderLoaders(file: string, doc: Document, tr: string -> string, h: HeaderView, i: nat)
    requires DocNamed(doc) && ParseHeader(ExportHeader(file, doc, tr)) == Some(h)
    requires i < |doc|
    ensures i < |h.classes| && h.classes[i].name == doc[i].name
    ensures h.classes[i].types.Some? <==> doc[i].types.Some?
    ensures h.classes[i].types.Some? ==>
              |h.classes[i].types.value.loaders| == |doc[i].types.value|
              && forall j :: 0 <= j < |doc[i].types.value| ==>
                   h.classes[i].types.value.loaders[j] == doc[i].types.value[j].name
  {
    HeaderRoundTrip(file, doc, tr);
  }

  /** Read back from the header, the field for var `k` of node `i` has the
      var's type as written and is never a `vector`. */
  lemma HeaderVarField(file: string, doc: Document, tr: string -> string, h: HeaderView, i: nat, k: nat)
    requires DocNamed(doc) && ParseHeader(ExportHeader(file, doc, tr)) == Some(h)
    requires i < |doc| && doc[i].vars.Some? && k < |doc[i].vars.value|
    ensures i < |h.classes| && h.classes[i].vars.Some? && k < |h.classes[i].vars.value|
    ensures var f := h.classes[i].vars.value[k];
            var v := doc[i].vars.value[k];
            f.typ == v.typ && !f.multi && f.name == v.name && (f.note.None? <==> v.des == "")
  {
    HeaderRoundTrip(file, doc, tr);
  }
}
