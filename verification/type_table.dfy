/** The primitive vocabulary of xmlgen.h: the `TypeEnum` kinds, the table of
    canonical names (`gTypeDef`) and the table of pugixml accessor names
    (`gTypeTrans`), both indexed by kind. */
module TypeTable {

  const TypeEnumInt: nat := 0
  const TypeEnumInt32: nat := 1
  const TypeEnumInt64: nat := 2
  const TypeEnumUint: nat := 3
  const TypeEnumUint32: nat := 4
  const TypeEnumUint64: nat := 5
  const TypeEnumFloat: nat := 6
  const TypeEnumDouble: nat := 7
  const TypeEnumBool: nat := 8
  const TypeEnumString: nat := 9
  /** The sentinel kind: "not a primitive". */
  const TypeEnumMax: nat := 10

  /** A primitive kind, i.e. a valid index into both tables. */
  type Kind = k: nat | k < TypeEnumMax

  /** `gTypeDef`: the canonical (lower-case) name of each kind. */
  const PrimitiveNames: seq<string> :=
    ["int", "int32", "int64", "uint", "uint32", "uint64", "float", "double", "bool", "string"]

  /** `gTypeTrans`: the pugixml attribute accessor used to read each kind. */
  const Accessors: seq<string> :=
    ["as_int", "as_int", "as_llong", "as_uint", "as_uint", "as_ullong", "as_float", "as_double", "as_bool", "as_string"]

  /** The kinds are the contiguous range 0..9 and the sentinel is the size of both tables. */
  lemma KindsAreContiguous()
    ensures [TypeEnumInt, TypeEnumInt32, TypeEnumInt64, TypeEnumUint, TypeEnumUint32,
             TypeEnumUint64, TypeEnumFloat, TypeEnumDouble, TypeEnumBool, TypeEnumString]
            == [0, 1, 2, 3, 4, 5, 6, 7, 8, 9]
    ensures TypeEnumMax == |PrimitiveNames| == |Accessors| == 10
  {
  }

  /** No two kinds share a canonical name, so at most one kind matches a name. */
  lemma PrimitiveNamesDistinct()
    ensures forall i, j :: 0 <= i < j < TypeEnumMax ==> PrimitiveNames[i] != PrimitiveNames[j]
  {
  }

  /** Every canonical name is entirely lower case, so a lower-cased input can match it. */
  lemma PrimitiveNamesLowerCase()
    ensures forall k, c :: 0 <= k < TypeEnumMax && 0 <= c < |PrimitiveNames[k]| ==>
              !('A' <= PrimitiveNames[k][c] <= 'Z')
  {
  }

  /** The accessor table is total but not injective: int and int32 both read
      `as_int`, uint and uint32 both read `as_uint`. */
  lemma AccessorsNotInjective()
    ensures Accessors[TypeEnumInt] == Accessors[TypeEnumInt32] == "as_int"
    ensures Accessors[TypeEnumUint] == Accessors[TypeEnumUint32] == "as_uint"
    ensures forall k :: 0 <= k < TypeEnumMax ==> |Accessors[k]| > 0
  {
  }

  /** The two kinds the script backend treats specially. */
  lemma BoolAndStringEntries()
    ensures PrimitiveNames[TypeEnumBool] == "bool" && Accessors[TypeEnumBool] == "as_bool"
    ensures PrimitiveNames[TypeEnumString] == "string" && Accessors[TypeEnumString] == "as_string"
  {
  }
}
