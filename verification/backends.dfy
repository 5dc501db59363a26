/** The three code emitters (`exportHeader`, `exportSource`, `exportLua`)
    branch on the same two facts about every item and var: whether it is
    multi, and whether `getType` resolves its type to a primitive. Read back
    from the text each one emits, they agree on both. */
module Backends {
  import opened Wrappers
  import opened Schema
  import opened Resolve
  import Header
  import Loader
  import Lua

  /** For item `k` of type `j` of node `i`: the header declares a `vector`
      field exactly when the C++ loader loops over the children and exactly
      when the Lua loader does; and the C++ loader calls `load_<type>`
      exactly when the Lua loader does, for the type the header declares. */
  lemma ItemBackendsAgree(file: string, doc: Document, tr: string -> string,
                          h: Header.HeaderView, src: Loader.SourceCode, lua: Lua.LuaScript,
                          i: nat, j: nat, k: nat)
    requires DocNamed(doc)
    requires Header.ParseHeader(Header.ExportHeader(file, doc, tr)) == Some(h)
    requires Loader.ParseSource(Loader.ExportSource(file, doc)) == Some(src)
    requires Lua.ParseLua(Lua.ExportLua(file, doc)) == Some(lua)
    requires i < |doc| && doc[i].types.Some?
    requires j < |doc[i].types.value| && k < |doc[i].types.value[j].items|
    ensures i < |h.classes| && h.classes[i].types.Some? && j < |h.classes[i].types.value.structs|
    ensures k < |h.classes[i].types.value.structs[j].fields|
    ensures i < |src.classes| && j < |src.classes[i].loaders| && k < |src.classes[i].loaders[j].items|
    ensures i < |lua.functions| && j < |lua.functions[i].loaders| && k < |lua.functions[i].loaders[j].items|
    ensures var f := h.classes[i].types.value.structs[j].fields[k];
            var c := src.classes[i].loaders[j].items[k];
            var l := lua.functions[i].loaders[j].items[k];
            (f.multi <==> c.Repeated?) && (f.multi <==> l.Multi?)
            && ((c.Nested? || c.read.Load?) <==> l.value.Call?)
            && (c.Nested? ==> c.typ == f.typ)
            && (!c.Nested? && c.read.Load? ==> c.read.typ == f.typ)
            && (l.value.Call? ==> l.value.typ == f.typ)
  {
    Header.HeaderItemField(file, doc, tr, h, i, j, k);
    Loader.SourceItemCode(file, doc, src, i, j, k);
    Lua.LuaItemRead(file, doc, lua, i, j, k);
    NotPrimitiveIff(doc[i].types.value[j].items[k].typ);
  }

  /** For var `k` of node `i`: the C++ loader calls `load_<type>` exactly
      when the Lua loader does, for the type the header declares. */
  lemma VarBackendsAgree(file: string, doc: Document, tr: string -> string,
                         h: Header.HeaderView, src: Loader.SourceCode, lua: Lua.LuaScript,
                         i: nat, k: nat)
    requires DocNamed(doc)
    requires Header.ParseHeader(Header.ExportHeader(file, doc, tr)) == Some(h)
    requires Loader.ParseSource(Loader.ExportSource(file, doc)) == Some(src)
    requires Lua.ParseLua(Lua.ExportLua(file, doc)) == Some(lua)
    requires i < |doc| && doc[i].vars.Some? && k < |doc[i].vars.value|
    ensures i < |h.classes| && h.classes[i].vars.Some? && k < |h.classes[i].vars.value|
    ensures i < |src.classes| && k < |src.classes[i].vars|
    ensures i < |lua.functions| && k < |lua.functions[i].vars|
    ensures var f := h.classes[i].vars.value[k];
            var c := src.classes[i].vars[k];
            var l := lua.functions[i].vars[k];
            !f.multi
            && (c.read.Load? <==> l.value.Call?)
            && (c.read.Load? ==> c.read.typ == f.typ && l.value.typ == f.typ)
  {
    Header.HeaderVarField(file, doc, tr, h, i, k);
    Loader.SourceVarCode(file, doc, src, i, k);
    Lua.LuaVarRead(file, doc, lua, i, k);
    NotPrimitiveIff(doc[i].vars.value[k].typ);
  }
}
