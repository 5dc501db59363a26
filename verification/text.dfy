/** The ASCII-only case mapping (`Lower`, `Upper`, `toLower`, `toUpper`) and
    the suffix removal `strip` of xmlgen.cpp. Characters stand for the bytes
    of a `std::string`; only 'A'..'Z' and 'a'..'z' are ever rewritten, so the
    abstraction loses nothing. */
module Text {

  predicate IsUpperChar(c: char) {
    'A' <= c <= 'Z'
  }

  predicate IsLowerChar(c: char) {
    'a' <= c <= 'z'
  }

  /** One step of `Lower`: 'A'..'Z' move by 'a' - 'A', every other character stays. */
  function LowerChar(c: char): char {
    if IsUpperChar(c) then (c as int + ('a' as int - 'A' as int)) as char else c
  }

  /** One step of `Upper`: 'a'..'z' move by 'A' - 'a', every other character stays. */
  function UpperChar(c: char): char {
    if IsLowerChar(c) then (c as int + ('A' as int - 'a' as int)) as char else c
  }

  /** `toLower`: a copy of `s` with every ASCII upper-case letter lowered. */
  function ToLower(s: string): (r: string)
    ensures |r| == |s|
    ensures forall i :: 0 <= i < |s| ==> r[i] == LowerChar(s[i])
  {
    if s == [] then [] else [LowerChar(s[0])] + ToLower(s[1..])
  }

  /** `toUpper`: a copy of `s` with every ASCII lower-case letter raised. */
  function ToUpper(s: string): (r: string)
    ensures |r| == |s|
    ensures forall i :: 0 <= i < |s| ==> r[i] == UpperChar(s[i])
  {
    if s == [] then [] else [UpperChar(s[0])] + ToUpper(s[1..])
  }

  /** `Lower`: the in-place loop over the string, here over a copy. */
  method Lower(s: string) returns (out: string)
    ensures out == ToLower(s)
  {
    out := s;
    var i := 0;
    while i < |out|
      invariant i <= |out| == |s|
      invariant forall j :: 0 <= j < i ==> out[j] == LowerChar(s[j])
      invariant forall j :: i <= j < |out| ==> out[j] == s[j]
    {
      if 'A' <= out[i] <= 'Z' {
        out := out[i := (out[i] as int + ('a' as int - 'A' as int)) as char];
      }
      i := i + 1;
    }
  }

  /** `Upper`: the in-place loop over the string, here over a copy. */
  method Upper(s: string) returns (out: string)
    ensures out == ToUpper(s)
  {
    out := s;
    var i := 0;
    while i < |out|
      invariant i <= |out| == |s|
      invariant forall j :: 0 <= j < i ==> out[j] == UpperChar(s[j])
      invariant forall j :: i <= j < |out| ==> out[j] == s[j]
    {
      if 'a' <= out[i] <= 'z' {
        out := out[i := (out[i] as int + ('A' as int - 'a' as int)) as char];
      }
      i := i + 1;
    }
  }

  /** Only the letters 'A'..'Z' are rewritten, and the result holds none of them. */
  lemma ToLowerRewritesOnlyUpper(s: string)
    ensures forall i :: 0 <= i < |s| && !IsUpperChar(s[i]) ==> ToLower(s)[i] == s[i]
    ensures forall i :: 0 <= i < |s| && IsUpperChar(s[i]) ==> IsLowerChar(ToLower(s)[i])
    ensures forall i :: 0 <= i < |s| ==> !IsUpperChar(ToLower(s)[i])
  {
  }

  /** A string is a fixed point of `toLower` exactly when it holds no upper-case letter. */
  lemma ToLowerFixedPoint(s: string)
    ensures ToLower(s) == s <==> forall i :: 0 <= i < |s| ==> !IsUpperChar(s[i])
  {
    if forall i :: 0 <= i < |s| ==> !IsUpperChar(s[i]) {
      assert forall i :: 0 <= i < |s| ==> ToLower(s)[i] == s[i];
    } else {
      var i :| 0 <= i < |s| && IsUpperChar(s[i]);
      assert ToLower(s)[i] != s[i];
    }
  }

  /** Lowering twice is lowering once. */
  lemma ToLowerIdempotent(s: string)
    ensures ToLower(ToLower(s)) == ToLower(s)
  {
    ToLowerRewritesOnlyUpper(s);
    ToLowerFixedPoint(ToLower(s));
  }

  /** Raising first does not change what lowering yields. */
  lemma ToLowerAfterToUpper(s: string)
    ensures ToLower(ToUpper(s)) == ToLower(s)
  {
    assert forall i :: 0 <= i < |s| ==> ToLower(ToUpper(s))[i] == ToLower(s)[i];
  }

  /** `strip`: drops as many trailing characters as `suffix` has, without
      looking at them. When `suffix` is longer than `fname` the unsigned
      subtraction wraps around and `substr` returns all of `fname`. */
  function Strip(fname: string, suffix: string): (r: string)
    ensures r <= fname
    ensures |r| == if |suffix| <= |fname| then |fname| - |suffix| else |fname|
  {
    if |suffix| <= |fname| then fname[..|fname| - |suffix|] else fname
  }

  /** Removing a suffix that was appended gives back the base name. */
  lemma StripUndoesSuffix(base: string, suffix: string)
    ensures Strip(base + suffix, suffix) == base
  {
  }

  /** Only the length of the suffix matters: `strip` never compares characters. */
  lemma StripIgnoresSuffixContent(fname: string, s1: string, s2: string)
    requires |s1| == |s2|
    ensures Strip(fname, s1) == Strip(fname, s2)
  {
  }
}
