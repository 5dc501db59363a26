/** Small readers used to read emitted text back: a literal prefix, a literal
    suffix, and a maximal identifier. They are the inverse side of the
    emitters' string concatenations; they stand for no code of the program
    itself. Lines are strings without their trailing "\n"; a file is its
    lines, each followed by "\n". */
module LineParse {
  import opened Wrappers

  /** The characters of a C++ or Lua identifier. */
  predicate IsIdentChar(c: char) {
    'a' <= c <= 'z' || 'A' <= c <= 'Z' || '0' <= c <= '9' || c == '_'
  }

  /** A non-empty run of identifier characters. */
  predicate IsIdent(s: string) {
    |s| > 0 && forall i :: 0 <= i < |s| ==> IsIdentChar(s[i])
  }

  /** What follows an identifier without extending it: the end, or a non-identifier character. */
  predicate EndsIdent(s: string) {
    s == [] || !IsIdentChar(s[0])
  }

  /** A value read from the front of a list of lines, and the lines after it. */
  datatype Parsed<+T> = Parsed(value: T, rest: seq<string>)

  /** An identifier cut from the front of a string, and the text after it. */
  datatype Cut = Cut(token: string, rest: string)

  /** The rest of `s` after the literal prefix `p`, or None when `s` does not start with `p`. */
  function Lit<T(==)>(s: seq<T>, p: seq<T>): (r: Option<seq<T>>)
    ensures r.Some? <==> p <= s
    ensures r.Some? ==> s == p + r.value
  {
    if p <= s then Some(s[|p|..]) else None
  }

  /** The part of `s` before the literal suffix `q`, or None when `s` does not end with `q`. */
  function DropSuffix<T(==)>(s: seq<T>, q: seq<T>): (r: Option<seq<T>>)
    ensures r.Some? ==> s == r.value + q
    ensures r.None? <==> !(|q| <= |s| && s[|s| - |q|..] == q)
  {
    if |q| <= |s| && s[|s| - |q|..] == q then Some(s[..|s| - |q|]) else None
  }

  lemma LitPrefix<T>(p: seq<T>, r: seq<T>)
    ensures Lit(p + r, p) == Some(r)
  {
    assert (p + r)[|p|..] == r;
  }

  /** A mismatch at position `k` rules the prefix out. */
  lemma LitMismatch<T>(s: seq<T>, p: seq<T>, k: nat)
    requires k < |p| && k < |s| && s[k] != p[k]
    ensures Lit(s, p).None?
  {
  }

  lemma DropSuffixOf<T>(m: seq<T>, q: seq<T>)
    ensures DropSuffix(m + q, q) == Some(m)
  {
    assert (m + q)[|m|..] == q;
    assert (m + q)[..|m|] == m;
  }

  /** The length of the longest identifier-character prefix of `s`. */
  function IdentLen(s: string): (k: nat)
    ensures k <= |s|
    ensures forall i :: 0 <= i < k ==> IsIdentChar(s[i])
    ensures k < |s| ==> !IsIdentChar(s[k])
  {
    if s == [] || !IsIdentChar(s[0]) then 0 else 1 + IdentLen(s[1..])
  }

  /** The longest identifier at the front of `s`; None when `s` does not start with one. */
  function TakeIdent(s: string): (r: Option<Cut>)
    ensures r.None? <==> !(|s| > 0 && IsIdentChar(s[0]))
    ensures r.Some? ==> IsIdent(r.value.token) && EndsIdent(r.value.rest) && s == r.value.token + r.value.rest
  {
    var k := IdentLen(s);
    if k == 0 then None else Some(Cut(s[..k], s[k..]))
  }

  /** Reading an identifier back: an identifier followed by a non-identifier
      character (or nothing) is cut exactly at its end. */
  lemma TakeIdentSplit(t: string, r: string)
    requires IsIdent(t) && EndsIdent(r)
    ensures TakeIdent(t + r) == Some(Cut(t, r))
  {
    var s := t + r;
    assert s[..|t|] == t && s[|t|..] == r;
  }

  /** Reads lines with `read` for as long as it accepts them. */
  function Many<T>(read: string -> Option<T>, lines: seq<string>): (r: Parsed<seq<T>>)
    ensures |r.rest| <= |lines|
    decreases |lines|
  {
    if lines != [] && read(lines[0]).Some? then
      var tail := Many(read, lines[1..]);
      Parsed([read(lines[0]).value] + tail.value, tail.rest)
    else Parsed([], lines)
  }

  /** Lines that each read back as one value, followed by a line `read`
      rejects (or by nothing), read back as exactly those values. */
  lemma {:induction false} ManyRoundTrip<T>(read: string -> Option<T>, xs: seq<T>, printed: seq<string>, rest: seq<string>)
    requires |printed| == |xs|
    requires forall i :: 0 <= i < |xs| ==> read(printed[i]) == Some(xs[i])
    requires rest == [] || read(rest[0]).None?
    ensures Many(read, printed + rest) == Parsed(xs, rest)
    decreases |xs|
  {
    if xs == [] {
      assert printed + rest == rest;
    } else {
      assert (printed + rest)[0] == printed[0];
      assert (printed + rest)[1..] == printed[1..] + rest;
      ManyRoundTrip(read, xs[1..], printed[1..], rest);
      assert [xs[0]] + xs[1..] == xs;
    }
  }

  /** The first line and the lines after it. */
  function Next(lines: seq<string>): (r: Option<Parsed<string>>)
    ensures r.Some? ==> |r.value.rest| < |lines|
  {
    if lines == [] then None else Some(Parsed(lines[0], lines[1..]))
  }

  lemma NextOf(line: string, rest: seq<string>)
    ensures Next([line] + rest) == Some(Parsed(line, rest))
  {
    assert ([line] + rest)[1..] == rest;
  }

  /** The lines of a list of blocks, one block after the other. */
  function Concat(blocks: seq<seq<string>>): seq<string> {
    if blocks == [] then [] else blocks[0] + Concat(blocks[1..])
  }

  /** Reads blocks with `read` for as long as it accepts one and consumes at least a line. */
  function Blocks<T>(read: seq<string> -> Option<Parsed<T>>, lines: seq<string>): (r: Parsed<seq<T>>)
    ensures |r.rest| <= |lines|
    decreases |lines|
  {
    var first := read(lines);
    if first.Some? && |first.value.rest| < |lines| then
      var tail := Blocks(read, first.value.rest);
      Parsed([first.value.value] + tail.value, tail.rest)
    else Parsed([], lines)
  }

  /** Non-empty blocks that each read back as one value whatever follows
      them, followed by lines `read` rejects, read back as exactly those values. */
  lemma {:induction false} BlocksRoundTrip<T>(read: seq<string> -> Option<Parsed<T>>, xs: seq<T>,
                                              printed: seq<seq<string>>, rest: seq<string>)
    requires |printed| == |xs|
    requires forall i :: 0 <= i < |xs| ==> printed[i] != []
    requires forall i, tail :: 0 <= i < |xs| ==> read(printed[i] + tail) == Some(Parsed(xs[i], tail))
    requires read(rest).None?
    ensures Blocks(read, Concat(printed) + rest) == Parsed(xs, rest)
    decreases |xs|
  {
    if xs == [] {
      assert Concat(printed) + rest == rest;
    } else {
      var more := Concat(printed[1..]) + rest;
      assert Concat(printed) + rest == printed[0] + more;
      assert read(printed[0] + more) == Some(Parsed(xs[0], more));
      BlocksRoundTrip(read, xs[1..], printed[1..], rest);
      assert [xs[0]] + xs[1..] == xs;
    }
  }

  /** Appending lines after a right-nested concatenation appends them to its last part. */
  lemma AppendNested<T>(a: seq<T>, b: seq<T>, c: seq<T>, d: seq<T>, e: seq<T>, r: seq<T>)
    ensures (a + (b + (c + (d + e)))) + r == a + (b + (c + (d + (e + r))))
  {
  }

  lemma DisplayCons5<T>(x1: T, x2: T, x3: T, x4: T, x5: T, r: seq<T>)
    ensures [x1, x2, x3, x4, x5] + r == [x1] + ([x2] + ([x3] + ([x4] + ([x5] + r))))
  {
  }

  lemma AppendLeft<T>(a: seq<T>, b: seq<T>, c: seq<T>, d: seq<T>, r: seq<T>)
    ensures (a + b + c + d) + r == a + (b + (c + (d + r)))
  {
  }

  lemma ConsTwo<T>(x1: T, x2: T, c: seq<T>, r: seq<T>)
    ensures ([x1, x2] + c) + r == [x1] + ([x2] + (c + r))
  {
  }
}
