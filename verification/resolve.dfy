/** `getType` of xmlgen.cpp: case-insensitive resolution of a type name
    against the primitive vocabulary, with `TypeEnumMax` as "not primitive". */
module Resolve {
  import opened TypeTable
  import opened Text

  /** The scan of `getType` from index `i` on: the first kind at or after `i`
      whose canonical name equals `low`, or the sentinel. */
  function ScanFrom(low: string, i: nat): (k: nat)
    requires i <= TypeEnumMax
    ensures i <= k <= TypeEnumMax
    ensures k < TypeEnumMax ==> PrimitiveNames[k] == low
    ensures forall j :: i <= j < k ==> PrimitiveNames[j] != low
    decreases TypeEnumMax - i
  {
    if i == TypeEnumMax then TypeEnumMax
    else if low == PrimitiveNames[i] then i
    else ScanFrom(low, i + 1)
  }

  /** `getType`: the first kind whose canonical name equals the lower-cased
      input, or `TypeEnumMax` when no kind matches. */
  function GetType(s: string): (k: nat)
    ensures k <= TypeEnumMax
    ensures k < TypeEnumMax ==> PrimitiveNames[k] == ToLower(s)
    ensures forall j :: 0 <= j < k ==> PrimitiveNames[j] != ToLower(s)
  {
    ScanFrom(ToLower(s), 0)
  }

  /** The "primitive or not" decision every emitter branches on (`type < TypeEnum_max`). */
  predicate IsPrimitive(s: string) {
    GetType(s) < TypeEnumMax
  }

  /** Resolution is exact: for each kind, `getType` yields that kind if and
      only if the lower-cased input is its canonical name. */
  lemma GetTypeIff(s: string, k: nat)
    requires k < TypeEnumMax
    ensures GetType(s) == k <==> ToLower(s) == PrimitiveNames[k]
  {
    PrimitiveNamesDistinct();
  }

  /** Every canonical name resolves to its own kind. */
  lemma CanonicalNameResolves(k: nat)
    requires k < TypeEnumMax
    ensures GetType(PrimitiveNames[k]) == k
  {
    PrimitiveNamesLowerCase();
    ToLowerFixedPoint(PrimitiveNames[k]);
    GetTypeIff(PrimitiveNames[k], k);
  }

  /** Resolution ignores ASCII case: a name, its lower-cased form and its
      upper-cased form resolve to the same kind (or all to the sentinel). */
  lemma GetTypeCaseInsensitive(s: string)
    ensures GetType(ToLower(s)) == GetType(s)
    ensures GetType(ToUpper(s)) == GetType(s)
  {
    ToLowerIdempotent(s);
    ToLowerAfterToUpper(s);
  }

  /** A name resolves to no primitive exactly when its lower-cased form is
      none of the canonical names. */
  lemma NotPrimitiveIff(s: string)
    ensures !IsPrimitive(s) <==> ToLower(s) !in PrimitiveNames
  {
    if ToLower(s) in PrimitiveNames {
      var k :| 0 <= k < |PrimitiveNames| && PrimitiveNames[k] == ToLower(s);
      GetTypeIff(s, k);
    }
  }
}
