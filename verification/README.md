# XmlGen, modelled in Dafny

XmlGen reads one XML schema file (`Foo.xml`) and writes four files from it:
- `fooConfig.xml`, a template of the data file;
- `fooConfig.h`, the C++ declarations of the loader classes;
- `fooConfig.cpp`, the C++ definitions of the loader classes, built on pugixml;
- `fooConfig.lua`, the same loaders for Lua.

The schema has one element per configuration node. Each node can hold:
- a `<types>` child with compound types, each made of `<item>`s with `name`, `type`, `multi` and `des` attributes;
- a `<vars>` child with `<var>`s, the node's top-level fields.

A type name is resolved case-insensitively against ten primitive kinds (`getType`). Any other name is taken to be a compound type.

This project models the core of `src/xmlgen.cpp` and `src/xmlgen.h`:

| module (file) | models |
|---|---|
| `TypeTable` (type_table.dfy) | `TypeEnum`, `gTypeDef`, `gTypeTrans` |
| `Text` (text.dfy) | `Lower`, `Upper`, `toLower`, `toUpper`, `strip` |
| `Resolve` (resolve.dfy) | `getType` |
| `Utf8` (utf8.dfy) | `wstrToUtf8Real`, `utf8toWStrReal` |
| `Names` (names.dfy) | the output file names and the include guard every emitter derives from `m_file` |
| `Schema` (schema.dfy) | the input document as the emitters see it through pugixml, and `find_child` by name |
| `Template` (template.dfy) | `exportXml`, `appendTypes` |
| `Header` (header.dfy) | `exportHeader` |
| `Loader` (loader.dfy) | `exportSource` |
| `Lua` (lua.dfy) | `exportLua` |
| `Backends` (backends.dfy) | what the three code emitters agree on |
| `LineParse` (line_parse.dfy), `Wrappers` (wrappers.dfy) | small readers and `Option`; they model no code of the program |

Each text emitter returns the lines of its file; each line is written followed by "\n". Each emitter has a partner: a reader that takes the emitted lines back to what the text declares or does.

Every round-trip lemma is stated for documents whose spliced names and types are identifiers (`DocNamed`). For those documents, it states that the reader recovers exactly what the document calls for: the `...Of` reference definition, which is written independently of the printer. The corollaries then state that promise element by element.

## Model

| member | source | states |
|---|---|---|
| TypeTable.KindsAreContiguous | src/xmlgen.h:7-19 | the ten kinds are 0..9, and `TypeEnum_max` is 10, the size of both tables |
| TypeTable.PrimitiveNamesDistinct | src/xmlgen.h:20 | no two kinds share a name in `gTypeDef`, so at most one kind matches a name |
| TypeTable.PrimitiveNamesLowerCase | src/xmlgen.h:20 | every `gTypeDef` name is lower case, so it can match a lower-cased input |
| TypeTable.AccessorsNotInjective | src/xmlgen.h:21 | `gTypeTrans` maps int and int32 to `as_int`, and uint and uint32 to `as_uint`; every entry is non-empty |
| TypeTable.BoolAndStringEntries | src/xmlgen.h:20-21 | the bool entry is `bool`/`as_bool` and the string entry is `string`/`as_string` |
| Text.ToLower | src/xmlgen.cpp:27-31 | same length; each character is lowered independently by the ASCII rule |
| Text.ToUpper | src/xmlgen.cpp:32-36 | same length; each character is raised independently by the ASCII rule |
| Text.Lower | src/xmlgen.cpp:11-18 | the in-place loop yields exactly `toLower` of its input |
| Text.Upper | src/xmlgen.cpp:19-26 | the in-place loop yields exactly `toUpper` of its input |
| Text.ToLowerRewritesOnlyUpper | src/xmlgen.cpp:11-18 | only 'A'..'Z' change, each becomes a lower-case letter, and no upper-case letter is left |
| Text.ToLowerFixedPoint | src/xmlgen.cpp:27-31 | `toLower(s) == s` exactly when `s` has no upper-case ASCII letter |
| Text.ToLowerIdempotent | src/xmlgen.cpp:27-31 | lowering twice equals lowering once |
| Text.ToLowerAfterToUpper | src/xmlgen.cpp:27-36 | lowering after raising equals lowering |
| Text.Strip | src/xmlgen.cpp:7-9 | the result is a prefix of the name that is shorter by the suffix's length, or the whole name when the unsigned subtraction wraps |
| Text.StripUndoesSuffix | src/xmlgen.cpp:7-9 | stripping an appended suffix gives back the base |
| Text.StripIgnoresSuffixContent | src/xmlgen.cpp:7-9 | only the suffix's length matters, never its characters |
| Resolve.ScanFrom | src/xmlgen.cpp:45-50 | the loop returns the first index at or after `i` whose name matches, or the sentinel |
| Resolve.GetType | src/xmlgen.cpp:43-51 | the result is the first kind named like the lowered input, or `TypeEnum_max` |
| Resolve.GetTypeIff | src/xmlgen.cpp:43-51 | `getType(s) == k` exactly when `toLower(s)` is the name of `k` |
| Resolve.CanonicalNameResolves | src/xmlgen.cpp:43-51 | every name in `gTypeDef` resolves to its own kind |
| Resolve.GetTypeCaseInsensitive | src/xmlgen.cpp:43-51 | lowering or raising the input never changes the kind |
| Resolve.NotPrimitiveIff | src/xmlgen.cpp:43-51 | a type is compound exactly when its lowered name is none of the ten names |
| Utf8.EncodeChar | src/xmlgen.cpp:56-75 | the byte count and lead-byte range per range of the code point; continuation bytes are 0x80..0xBF; a value above 0x10FFFF becomes a space |
| Utf8.Encode | src/xmlgen.cpp:53-77 | at least one byte per code point, and no bytes only for no input |
| Utf8.EncodeConcat | src/xmlgen.cpp:55-76 | encoding a concatenation is the concatenation of the encodings |
| Utf8.RunConcat | src/xmlgen.cpp:83-118 | the decoder loop over `a + b` runs over `b` from where `a` left off |
| Utf8.RunEncodeChar | src/xmlgen.cpp:83-118 | from an idle state, one code point's bytes decode to that code point and leave the decoder idle |
| Utf8.RunEncode | src/xmlgen.cpp:83-118 | from an idle state, encoded code points decode to themselves and leave the decoder idle |
| Utf8.DecodeEncode | src/xmlgen.cpp:53-121 | decoding the encoding of code points up to 0x10FFFF gives them back |
| Utf8.RunFromLead | src/xmlgen.cpp:102-113 | a lead byte resets the decoder whatever state it was in |
| Utf8.RunContinuations | src/xmlgen.cpp:92-98 | continuation bytes that do not complete a sequence emit nothing and only count down |
| Utf8.RunPartial | src/xmlgen.cpp:83-118 | a cut-short multi-byte sequence emits nothing and leaves the decoder waiting |
| Utf8.RunAfterPartial | src/xmlgen.cpp:85-113 | after a partial sequence, an ASCII code point gets one space before it, and any other code point drops the partial one |
| Utf8.RunAfterEncode | src/xmlgen.cpp:83-118 | an encoded prefix decodes to itself, whatever bytes follow |
| Utf8.RunTruncated | src/xmlgen.cpp:83-120 | what a partial sequence between two encoded runs decodes to |
| Utf8.DecodeTruncatedSequence | src/xmlgen.cpp:85-120 | a cut-short sequence becomes one space at the end of the input or before ASCII, and vanishes before another lead byte |
| Utf8.DecodeStrayByte | src/xmlgen.cpp:92-117 | a continuation byte outside a sequence, or a byte 0xF8..0xFF, becomes one space and decoding goes on |
| Utf8.DecodeAcceptsOverlong | src/xmlgen.cpp:102-109 | overlong forms are accepted: 0xC0 0xAF decodes to '/' and 0xE0 0x80 0x80 to 0 |
| Utf8.SurrogatesPassThrough | src/xmlgen.cpp:63-67 | surrogate code points are encoded and decoded like any other |
| Names.OutputNames | src/xmlgen.cpp:207-208 | for `base.xml` the outputs are `toLower(base)` + "Config" + extension (lines 242, 334, 442 likewise), and the guard is `toUpper(base)` |
| Names.OutputNamesDistinct | src/xmlgen.cpp:241-242 | the four output names are pairwise different |
| Names.OutputNamesIgnoreCase | src/xmlgen.cpp:207-208 | input names that differ only in case share their output names |
| Schema.FindIndex | src/xmlgen.cpp:560 | the first type definition with exactly the name asked for, or none |
| Schema.Lookup | src/xmlgen.cpp:560-561 | `find_child` gives a definition with that exact name, and gives none exactly when no definition has it or there is no `<types>` |
| Schema.LookupFirstExact | src/xmlgen.cpp:560 | the lookup is case-sensitive and returns the first exact match |
| Template.AppendTypes | src/xmlgen.cpp:559-591 | the element keeps its tag, and an unknown type appends nothing; what a defined type builds is stated by Template.ExpansionMatches |
| Template.AppendItems | src/xmlgen.cpp:562-589 | the element keeps its tag |
| Template.AppendItem | src/xmlgen.cpp:563-588 | the element keeps its tag |
| Template.ExportVar | src/xmlgen.cpp:223-233 | the var's element is named after the var; a compound var whose type the node's `<types>` does not define stays an empty element |
| Template.ExportVars | src/xmlgen.cpp:222-234 | one element per var, in order, each exactly the element that var alone exports; the list fails exactly when some var's expansion does |
| Template.ExportNode | src/xmlgen.cpp:217-235 | one element named after the node, with no attributes, whose child `i` is exactly the element var `i` exports; it fails exactly when some var's expansion does |
| Template.ExportNodes | src/xmlgen.cpp:216-236 | one element per node, in document order, each exactly that node's element; it fails exactly when some node's does |
| Template.ExportXml | src/xmlgen.cpp:206-238 | a version 1.0, utf-8 declaration and one root per node, root `i` being exactly node `i`'s element; it fails exactly when some node's does |
| Template.ExportXmlExpands | src/xmlgen.cpp:216-236 | when every node's definitions are acyclic and the depth bound exceeds their ranks, the whole template is produced |
| Template.ExportXmlDiverges | src/xmlgen.cpp:230-233 | one compound var whose type lies on a dependency cycle of its node's `<types>` makes the whole template fail for every depth bound |
| Template.AppendTypesFuelMonotone | src/xmlgen.cpp:559-591 | once an expansion finishes within a depth bound, a larger bound gives the same tree |
| Template.AppendItemsFuelMonotone | src/xmlgen.cpp:562-589 | the same for the item loop |
| Template.AppendItemFuelMonotone | src/xmlgen.cpp:567-588 | the same for one item |
| Template.ItemsDiverge | src/xmlgen.cpp:576-586 | one compound item whose expansion never ends stops the whole item loop from ending |
| Template.CyclicTypesDiverge | src/xmlgen.cpp:559-591 | with no cycle guard, expanding a type on a dependency cycle fails for every depth bound |
| Template.RankedTypesExpand | src/xmlgen.cpp:559-591 | acyclic definitions always expand, given a depth bound above their rank |
| Template.RankedItemsExpand | src/xmlgen.cpp:562-589 | the same for the item loop |
| Template.AppendItemShape | src/xmlgen.cpp:567-588 | one item adds `name=type` for a single primitive, a "multi" comment plus an element for a multi item, and an element for a single compound |
| Template.AppendItemsAttrs | src/xmlgen.cpp:581-583 | the item loop adds exactly the single primitive items as attributes, in order |
| Template.AppendItemsChildren | src/xmlgen.cpp:567-587 | the item loop adds exactly the comments and elements listed above, in order |
| Template.ExpansionShape | src/xmlgen.cpp:559-591 | a defined type expands to those attributes and children |
| Template.PrimitiveVarLeaf | src/xmlgen.cpp:226-229 | a primitive var becomes a leaf element holding `name=type`, with the type as written |
| Template.AppendItemChild | src/xmlgen.cpp:567-587 | a multi item appends a "multi" comment and then an element holding `name=type` for a primitive (line 573) or the recursive expansion of its type (line 576); a single compound item appends the recursive expansion (lines 585-586); a single primitive appends no child |
| Template.Expansion | src/xmlgen.cpp:559-591 | the reference tree for a type, defined without a depth bound for acyclic definitions: an undefined type leaves the element empty, and a defined type's children follow its items in order |
| Template.ItemContent | src/xmlgen.cpp:567-588 | the reference children of one item: a "multi" comment plus its element, its element, or nothing |
| Template.ItemsContent | src/xmlgen.cpp:562-589 | the reference children of an item list, in item order |
| Template.ExpansionMatches | src/xmlgen.cpp:559-591 | for acyclic definitions and a depth bound above the rank, `appendTypes` on a fresh element builds exactly the reference tree, at every nesting level |
| Template.AppendItemsMatch | src/xmlgen.cpp:562-589 | the item loop appends exactly the reference attributes and children |
| Template.AppendItemMatches | src/xmlgen.cpp:567-588 | one item appends exactly its reference attribute and children |
| Template.CompoundVarExpands | src/xmlgen.cpp:230-233 | a compound var's element is the reference expansion of its type, looked up in the node's own `<types>` |
| Template.CompoundVarShape | src/xmlgen.cpp:230-233 | for any depth bound, a compound var that expands holds its type's single primitive items as attributes and their children in item order |
| Header.NoteRoundTrip | src/xmlgen.cpp:290-292 | a comment is emitted exactly for a non-empty description, and reads back as its transcoded text |
| Header.ItemDeclRoundTrip | src/xmlgen.cpp:279-293 | a struct field reads back as the item's type verbatim, `vector<>` exactly when multi, its name and its comment |
| Header.VarDeclRoundTrip | src/xmlgen.cpp:310-317 | a var field reads back as the var's type, name and comment, never a vector |
| Header.LoaderDeclRoundTrip | src/xmlgen.cpp:300-301 | a `load_` declaration reads back as its type's name |
| Header.StructRoundTrip | src/xmlgen.cpp:276-295 | a struct reads back as one field per item, in order |
| Header.StructsRoundTrip | src/xmlgen.cpp:275-296 | the structs read back as one per type, in order |
| Header.TypesSectionRoundTrip | src/xmlgen.cpp:272-303 | the types part is present exactly with `<types>`, and holds the structs and then one `load_` declaration per type |
| Header.VarsSectionRoundTrip | src/xmlgen.cpp:306-319 | the vars part is present exactly with `<vars>`, and holds one field per var |
| Header.ClassRoundTrip | src/xmlgen.cpp:260-323 | a node's class reads back as exactly `ClassOf` |
| Header.ClassesRoundTrip | src/xmlgen.cpp:259-324 | the classes read back as one per node, in order |
| Header.HeaderRoundTrip | src/xmlgen.cpp:240-330 | the header reads back as exactly `HeaderOf`: the source name, the upper-cased guard and one class per node |
| Header.HeaderItemField | src/xmlgen.cpp:278-293 | each item's field has its type as written, is a vector exactly for multi, and has a comment exactly for a non-empty description |
| Header.HeaderLoaders | src/xmlgen.cpp:298-302 | one `load_<type>` per type, in order, and none without `<types>` |
| Header.HeaderVarField | src/xmlgen.cpp:309-318 | each var's field has its type as written and is never a vector |
| Loader.AttrCallRoundTrip | src/xmlgen.cpp:366 | the attribute call reads back as the attribute name and the accessor |
| Loader.PrimitiveReadRoundTrip | src/xmlgen.cpp:366 | a primitive element reads back as `gTypeTrans[getType(type)]` of the attribute named after the item |
| Loader.ElementRoundTrip | src/xmlgen.cpp:365-374 | an element of a multi item reads as an attribute for a primitive, and as a `load_<type>` call that fails the load for a compound |
| Loader.RepeatedRoundTrip | src/xmlgen.cpp:363-376 | a multi item reads back as a loop over the children named after it, pushing each element onto the field |
| Loader.ScalarRoundTrip | src/xmlgen.cpp:379-380 | a single primitive item reads back as the node's attribute of that name with the kind's accessor |
| Loader.NestedRoundTrip | src/xmlgen.cpp:382-386 | a single compound item reads back as a `load_<type>` of the child of that name, failing the load when it fails |
| Loader.ItemRoundTrip | src/xmlgen.cpp:358-388 | every item reads back as exactly `ItemCodeOf` |
| Loader.VarAttrRoundTrip | src/xmlgen.cpp:420-421 | a primitive var reads back as the child's attribute of that name with the kind's accessor |
| Loader.VarLoadRoundTrip | src/xmlgen.cpp:423-427 | a compound var reads back as a `load_<type>` of the child |
| Loader.VarRoundTrip | src/xmlgen.cpp:415-428 | a var's block fails unless the root has the child, then reads exactly `VarCodeOf` |
| Loader.LoaderHeadRoundTrip | src/xmlgen.cpp:357 | the `load_` head reads back as its class and type |
| Loader.ItemsRoundTrip | src/xmlgen.cpp:358-390 | the items of a type read back as their codes, up to `return true` |
| Loader.LoaderRoundTrip | src/xmlgen.cpp:356-391 | a `load_<type>` function reads back as exactly `LoaderCodeOf` |
| Loader.LoadersRoundTrip | src/xmlgen.cpp:353-393 | the loaders read back as one per type, in order |
| Loader.VarsRoundTrip | src/xmlgen.cpp:409-430 | the var blocks read back as one per var, in order |
| Loader.ClassRoundTrip | src/xmlgen.cpp:345-434 | a node's definitions read back as exactly `ClassCodeOf` |
| Loader.ClassesRoundTrip | src/xmlgen.cpp:344-435 | the classes read back as one per node, in order |
| Loader.IncludeIsHeader | src/xmlgen.cpp:341 | the included file is the generated header's name |
| Loader.SourceRoundTrip | src/xmlgen.cpp:332-438 | the source reads back as exactly `SourceOf` |
| Loader.SourceHeaderAndClasses | src/xmlgen.cpp:338-346 | the source names its input, includes the generated header, and has one class per node |
| Loader.SourceLoaders | src/xmlgen.cpp:353-357 | one `load_<type>` per type, for that class and type, with one statement per item |
| Loader.SourceItemCode | src/xmlgen.cpp:358-388 | a loop exactly for multi, a nested load exactly for a single compound, the name reused for child and field, and a primitive read through `gTypeTrans` |
| Loader.SourceVarCode | src/xmlgen.cpp:411-428 | each var reads the field of its name from the root's child of its name, through `gTypeTrans` or `load_<type>` |
| Lua.RhsDispatch | src/xmlgen.cpp:495-511 | a first right-hand side is `false` exactly for a bool, and never `{}` |
| Lua.RhsRoundTrip | src/xmlgen.cpp:496-510 | a one-line read reads back as raw text, `tonumber` or a `load_<type>` call |
| Lua.FlagRoundTrip | src/xmlgen.cpp:499-504 | the bool branch reads back as its attribute and the value it assigns |
| Lua.ValueRoundTrip | src/xmlgen.cpp:472-488 | the lines reading a value read back as that value |
| Lua.SingleRoundTrip | src/xmlgen.cpp:494-512 | a single item reads back as the item's `Single` |
| Lua.MultiLoopRoundTrip | src/xmlgen.cpp:470-492 | a multi loop reads back as a loop over the children named after the item, appending to the field of that name |
| Lua.MultiRoundTrip | src/xmlgen.cpp:468-493 | a multi item reads back as the item's `Multi` |
| Lua.ItemRoundTrip | src/xmlgen.cpp:463-513 | every item reads back as exactly `ItemOf` |
| Lua.ItemsRoundTrip | src/xmlgen.cpp:463-514 | the items of a type read back in order, up to `return item` |
| Lua.LoaderRoundTrip | src/xmlgen.cpp:459-517 | a `load_<type>` function reads back as exactly `LoaderOf` |
| Lua.LoadersRoundTrip | src/xmlgen.cpp:457-518 | the loaders read back as one per type, in order |
| Lua.VarRoundTrip | src/xmlgen.cpp:529-548 | a var reads back as exactly `VarOf` |
| Lua.VarsRoundTrip | src/xmlgen.cpp:526-550 | the vars read back as one per var, in order |
| Lua.FunctionRoundTrip | src/xmlgen.cpp:455-553 | a node's function reads back as exactly `FunctionOf` |
| Lua.FunctionsRoundTrip | src/xmlgen.cpp:454-554 | the functions read back as one per node, in order |
| Lua.LuaRoundTrip | src/xmlgen.cpp:440-557 | the script reads back as exactly `LuaOf` |
| Lua.ValueOfKinds | src/xmlgen.cpp:472-488 | by lowered type name: string and uint64 stay raw, bool is compared with "true", other primitives use `tonumber`, and anything else calls `load_<type>` |
| Lua.LuaFunctions | src/xmlgen.cpp:448-455 | the script names its input and has one function per node, with one loader per type and one read per var |
| Lua.LuaLoaders | src/xmlgen.cpp:459-462 | each loader is `load_<type name>` and has one read per item |
| Lua.LuaItemRead | src/xmlgen.cpp:463-512 | a loop exactly for multi, the name reused for child, field and append target, and the read kind by type |
| Lua.LuaVarRead | src/xmlgen.cpp:528-548 | each var sets the `configData` field of its name, with the read kind by type |
| Lua.ItemFlagOutcome | src/xmlgen.cpp:476-481 | a multi bool item becomes true exactly for the text "true"; a single bool item stays false whatever the text (lines 499-504) |
| Lua.SingleFlagsStayFalse | src/xmlgen.cpp:536-541 | a bool var stays false whatever its attribute reads |
| Backends.ItemBackendsAgree | src/xmlgen.cpp:283-288 | the header's vector, the C++ loop and the Lua loop all appear exactly for multi items; C++ and Lua call `load_<type>` for the same items (lines 365-383 and 472-510) |
| Backends.VarBackendsAgree | src/xmlgen.cpp:420-427 | C++ and Lua call `load_<type>` for the same vars (lines 532-547), with the type the header declares |

## Left out

- File output, `std::ofstream` and `save_file`: each emitter returns its lines or its tree, and writing them is not modelled.
- The `generate` driver, `XmlGen`'s constructor and destructor, and `src/main.cpp`: they only sequence the emitters and do I/O.
- pugixml: the input is the `Schema.Document` value that pugixml would present. Parsing and `as_bool` are left out; `multi` is already a bool. Any element under `<types>` or `<vars>` is taken as a `<type>`, `<item>` or `<var>`.
- `utf82Gbk`, `gbk2Utf8`, `WD2CH` and `CH2WD` call the C++ locale facilities. The header emitter receives the transcoding as the parameter `tr`, and the others are not modelled.
- `hasAttr` is never called by the core.
- Utf8: `wchar_t` is an unbounded natural, so its 16- or 32-bit width is not modelled, and neither is its sign. On Linux it is a signed 32-bit type, and a negative value would take the one-byte branch at src/xmlgen.cpp:57. The `nat` excludes negative values, and the decoder never produces one. The decoder's `w << 6` cannot overflow for the byte patterns it accepts.
- Template: `appendTypes` has no cycle guard, and the model bounds its recursion depth with `fuel`. `None` for every fuel stands for the source's unbounded recursion, which overflows the stack.
- Header.HeaderRoundTrip, Loader.SourceRoundTrip, Lua.LuaRoundTrip and their corollaries are stated only for documents whose names and types are identifiers (`DocNamed`). The emitters splice any text unchecked, so other documents can produce text that reads back differently.
- Header.NoteRoundTrip: a line is one list element, so a transcoded description holding a line break stays inside its field's line. In the written file it would start a new line, and that split is not modelled.
- Template.AppendItem: its own contract states only that the element keeps its tag. What it appends is stated by Template.AppendItemChild, Template.AppendItemShape and Template.AppendItemMatches.
- Template.AppendItems: its own contract states only that the element keeps its tag. What it appends is stated by Template.AppendItemsAttrs, Template.AppendItemsChildren and Template.AppendItemsMatch.
- Template.AppendTypes: its own contract states only the tag and the undefined-type case. The full tree is stated by Template.ExpansionMatches, but only for definitions with a rank witness (`Ranked`). Where some unrelated definition is cyclic, only the one-step Template.AppendItemChild and the shape lemmas apply.
- Loader.SourceRoundTrip and Lua.LuaRoundTrip: an absent `<types>` or `<vars>` emits the same text as an empty one, so the read-back views cannot tell them apart. The header's view can.
