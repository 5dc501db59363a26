/** The names every emitter derives from the input file name `m_file`: the
    base name (`strip(m_file, ".xml")`) and the four output file names, all
    built on the lower-cased base name. */
module Names {
  import opened Text

  const XmlSuffix := ".xml"

  /** The first line of both generated C++ files. */
  const CppNotice := "// Generate by the xml generator compiler. DO NOT EDIT!!!"

  /** The first line of the generated Lua file. */
  const LuaNotice := "-- Generate by the xml generator compiler. DO NOT EDIT!!!"

  function BaseName(file: string): string {
    Strip(file, XmlSuffix)
  }

  /** The stem shared by the four output files. */
  function Stem(file: string): string {
    ToLower(BaseName(file)) + "Config"
  }

  function XmlFile(file: string): string { Stem(file) + ".xml" }
  function HeaderFile(file: string): string { Stem(file) + ".h" }
  function SourceFile(file: string): string { Stem(file) + ".cpp" }
  function LuaFile(file: string): string { Stem(file) + ".lua" }

  /** The include guard's middle part, `toUpper(baseName)`. */
  function Guard(file: string): string {
    ToUpper(BaseName(file))
  }

  /** For an input named `base + ".xml"`, every output is named after the
      lower-cased `base` followed by "Config" and its own extension, and the
      guard is the upper-cased `base`. */
  lemma {:induction false} OutputNames(base: string)
    ensures XmlFile(base + XmlSuffix) == ToLower(base) + "Config.xml"
    ensures HeaderFile(base + XmlSuffix) == ToLower(base) + "Config.h"
    ensures SourceFile(base + XmlSuffix) == ToLower(base) + "Config.cpp"
    ensures LuaFile(base + XmlSuffix) == ToLower(base) + "Config.lua"
    ensures Guard(base + XmlSuffix) == ToUpper(base)
  {
    StripUndoesSuffix(base, XmlSuffix);
    var s := ToLower(base);
    assert (s + "Config") + ".xml" == s + "Config.xml";
    assert (s + "Config") + ".h" == s + "Config.h";
    assert (s + "Config") + ".cpp" == s + "Config.cpp";
    assert (s + "Config") + ".lua" == s + "Config.lua";
  }

  /** The four output files never collide: their names differ in the last characters. */
  lemma OutputNamesDistinct(file: string)
    ensures XmlFile(file) != HeaderFile(file) && XmlFile(file) != SourceFile(file)
    ensures XmlFile(file) != LuaFile(file) && HeaderFile(file) != SourceFile(file)
    ensures HeaderFile(file) != LuaFile(file) && SourceFile(file) != LuaFile(file)
  {
    var s := Stem(file);
    assert XmlFile(file)[|s|..] == ".xml";
    assert HeaderFile(file)[|s|..] == ".h";
    assert SourceFile(file)[|s|..] == ".cpp";
    assert LuaFile(file)[|s|..] == ".lua";
  }

  /** Input names that differ only in letter case give the same output names. */
  lemma OutputNamesIgnoreCase(f1: string, f2: string)
    requires |f1| == |f2| && ToLower(f1) == ToLower(f2)
    ensures Stem(f1) == Stem(f2)
  {
    assert forall i :: 0 <= i < |BaseName(f1)| ==> BaseName(f1)[i] == f1[i] && BaseName(f2)[i] == f2[i];
    assert forall i :: 0 <= i < |f1| ==> LowerChar(f1[i]) == LowerChar(f2[i]) by {
      forall i | 0 <= i < |f1| ensures LowerChar(f1[i]) == LowerChar(f2[i]) {
        assert ToLower(f1)[i] == ToLower(f2)[i];
      }
    }
    assert ToLower(BaseName(f1)) == ToLower(BaseName(f2));
  }
}
