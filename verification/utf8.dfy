/** The UTF-8 codec of xmlgen.cpp (`wstrToUtf8Real`, `utf8toWStrReal`):
    the byte layout of section 3 of RFC 3629 without its validity checks.
    Code points are natural numbers (the platform's `wchar_t` width is
    abstracted away); bytes are naturals below 256. The bit operations of the
    source are written arithmetically: `x >> n` is `x / 2^n`, `x & m` with
    `m = 2^n - 1` is `x % 2^n`, and `lead | bits` is `lead + bits` because the
    bits never overlap the lead pattern. */
module Utf8 {

  type Byte = b: nat | b < 256

  /** The replacement the decoder emits for malformed input, and the byte the
      encoder emits for a value above `MaxCodePoint`: a space. */
  const Err: nat := 0x20

  /** The largest value the encoder writes as a multi-byte sequence. */
  const MaxCodePoint: nat := 0x10FFFF

  predicate IsContinuation(b: Byte) {
    0x80 <= b <= 0xBF
  }

  predicate ValidCodePoints(s: seq<nat>) {
    forall i :: 0 <= i < |s| ==> s[i] <= MaxCodePoint
  }

  /** The bytes written for one code point. */
  function EncodeChar(w: nat): (r: seq<Byte>)
    ensures w <= 0x7F ==> r == [w]
    ensures 0x7F < w <= 0x7FF ==> |r| == 2 && 0xC2 <= r[0] <= 0xDF
    ensures 0x7FF < w <= 0xFFFF ==> |r| == 3 && 0xE0 <= r[0] <= 0xEF
    ensures 0xFFFF < w <= MaxCodePoint ==> |r| == 4 && 0xF0 <= r[0] <= 0xF4
    ensures MaxCodePoint < w ==> r == [Err]
    ensures forall k :: 0 < k < |r| ==> IsContinuation(r[k])
  {
    if w <= 0x7F then [w]
    else if w <= 0x7FF then
      [0xC0 + (w / 0x40) % 0x20, 0x80 + w % 0x40]
    else if w <= 0xFFFF then
      [0xE0 + (w / 0x1000) % 0x10, 0x80 + (w / 0x40) % 0x40, 0x80 + w % 0x40]
    else if w <= MaxCodePoint then
      [0xF0 + (w / 0x40000) % 0x8, 0x80 + (w / 0x1000) % 0x40, 0x80 + (w / 0x40) % 0x40, 0x80 + w % 0x40]
    else [Err]
  }

  /** `wstrToUtf8Real`: the code points encoded one after the other. */
  function Encode(src: seq<nat>): (r: seq<Byte>)
    ensures |r| >= |src|
    ensures src == [] <==> r == []
  {
    if src == [] then [] else EncodeChar(src[0]) + Encode(src[1..])
  }

  /** The decoder's two local variables: the code point being assembled and
      the number of continuation bytes still expected. */
  datatype DecoderState = DecoderState(w: nat, bytes: nat)

  const Start := DecoderState(0, 0)

  /** One iteration of the loop of `utf8toWStrReal`: the next state and the
      code points pushed onto the output. */
  function Step(st: DecoderState, c: Byte): (DecoderState, seq<nat>)
  {
    if c <= 0x7F then
      (DecoderState(st.w, 0), if st.bytes > 0 then [Err, c] else [c])
    else if c <= 0xBF then
      if st.bytes > 0 then
        var w := st.w * 0x40 + c % 0x40;
        (DecoderState(w, st.bytes - 1), if st.bytes == 1 then [w] else [])
      else (st, [Err])
    else if c <= 0xDF then (DecoderState(c % 0x20, 1), [])
    else if c <= 0xEF then (DecoderState(c % 0x10, 2), [])
    else if c <= 0xF7 then (DecoderState(c % 0x8, 3), [])
    else (DecoderState(st.w, 0), [Err])
  }

  /** The loop of `utf8toWStrReal` over `src`: the final state and the output. */
  function Run(st: DecoderState, src: seq<Byte>): (DecoderState, seq<nat>)
    decreases |src|
  {
    if src == [] then (st, [])
    else
      var first := Step(st, src[0]);
      var rest := Run(first.0, src[1..]);
      (rest.0, first.1 + rest.1)
  }

  /** `utf8toWStrReal`: the loop from the initial state, then one `Err` when
      the input ends inside a sequence. */
  function Decode(src: seq<Byte>): seq<nat>
  {
    var run := Run(Start, src);
    if run.0.bytes > 0 then run.1 + [Err] else run.1
  }

  /** Running over two pieces is running over the first, then over the second
      from where the first left off. */
  lemma {:induction false} RunConcat(st: DecoderState, a: seq<Byte>, b: seq<Byte>)
    ensures Run(st, a + b) == (Run(Run(st, a).0, b).0, Run(st, a).1 + Run(Run(st, a).0, b).1)
    decreases |a|
  {
    if a == [] {
      assert a + b == b;
      assert Run(st, a) == (st, []);
      assert [] + Run(st, b).1 == Run(st, b).1;
    } else {
      var first := Step(st, a[0]);
      assert (a + b)[0] == a[0];
      assert (a + b)[1..] == a[1..] + b;
      RunConcat(first.0, a[1..], b);
      var mid := Run(first.0, a[1..]);
      var last := Run(mid.0, b);
      assert Run(st, a) == (mid.0, first.1 + mid.1);
      assert Run(st, a + b) == (last.0, first.1 + (mid.1 + last.1));
      assert first.1 + (mid.1 + last.1) == (first.1 + mid.1) + last.1;
    }
  }

  /** Running over a single byte is one step. */
  lemma RunOne(st: DecoderState, c: Byte)
    ensures Run(st, [c]) == Step(st, c)
  {
    assert [c][1..] == [];
    assert Step(st, c).1 + [] == Step(st, c).1;
  }

  lemma {:induction false} EncodeConcat(a: seq<nat>, b: seq<nat>)
    ensures Encode(a + b) == Encode(a) + Encode(b)
    decreases |a|
  {
    if a == [] {
      assert a + b == b;
    } else {
      assert (a + b)[0] == a[0];
      assert (a + b)[1..] == a[1..] + b;
      EncodeConcat(a[1..], b);
    }
  }

  lemma DivMod64(x: nat)
    ensures (x / 0x40) * 0x40 + x % 0x40 == x
  {
  }

  lemma DivDiv64(x: nat)
    ensures x / 0x40 / 0x40 == x / 0x1000
    ensures x / 0x1000 / 0x40 == x / 0x40000
  {
  }

  /** Two bytes, each one step: the pieces of `Run` over a two-byte input. */
  lemma RunTwo(st: DecoderState, c0: Byte, c1: Byte)
    ensures Run(st, [c0, c1]) == (Step(Step(st, c0).0, c1).0, Step(st, c0).1 + Step(Step(st, c0).0, c1).1)
  {
    assert [c0, c1][1..] == [c1];
    RunOne(Step(st, c0).0, c1);
  }

  lemma RunEncodeTwo(st: DecoderState, w: nat)
    requires st.bytes == 0 && 0x7F < w <= 0x7FF
    ensures Run(st, EncodeChar(w)) == (DecoderState(w, 0), [w])
  {
    var e := EncodeChar(w);
    DivMod64(w);
    var s1 := DecoderState(w / 0x40, 1);
    assert Step(st, e[0]) == (s1, []);
    assert Step(s1, e[1]) == (DecoderState(w, 0), [w]);
    assert e == [e[0], e[1]];
    RunTwo(st, e[0], e[1]);
    assert [] + [w] == [w];
    assert Run(st, [e[0], e[1]]) == (DecoderState(w, 0), [w]);
  }

  lemma RunEncodeThree(st: DecoderState, w: nat)
    requires st.bytes == 0 && 0x7FF < w <= 0xFFFF
    ensures Run(st, EncodeChar(w)) == (DecoderState(w, 0), [w])
  {
    var e := EncodeChar(w);
    DivMod64(w);
    DivMod64(w / 0x40);
    DivDiv64(w);
    var s1 := DecoderState(w / 0x1000, 2);
    var s2 := DecoderState(w / 0x40, 1);
    assert Step(st, e[0]) == (s1, []);
    assert Step(s1, e[1]) == (s2, []);
    assert Step(s2, e[2]) == (DecoderState(w, 0), [w]);
    assert e == [e[0]] + [e[1], e[2]];
    RunConcat(st, [e[0]], [e[1], e[2]]);
    RunOne(st, e[0]);
    RunTwo(s1, e[1], e[2]);
    assert [] + [w] == [w];
    assert Run(s1, [e[1], e[2]]) == (DecoderState(w, 0), [w]);
    assert Run(st, [e[0]] + [e[1], e[2]]) == (DecoderState(w, 0), [] + [w]);
  }

  lemma RunEncodeFour(st: DecoderState, w: nat)
    requires st.bytes == 0 && 0xFFFF < w <= MaxCodePoint
    ensures Run(st, EncodeChar(w)) == (DecoderState(w, 0), [w])
  {
    var e := EncodeChar(w);
    DivMod64(w);
    DivMod64(w / 0x40);
    DivMod64(w / 0x1000);
    DivDiv64(w);
    var s1 := DecoderState(w / 0x40000, 3);
    var s2 := DecoderState(w / 0x1000, 2);
    var s3 := DecoderState(w / 0x40, 1);
    assert Step(st, e[0]) == (s1, []);
    assert Step(s1, e[1]) == (s2, []);
    assert Step(s2, e[2]) == (s3, []);
    assert Step(s3, e[3]) == (DecoderState(w, 0), [w]);
    assert e == [e[0], e[1]] + [e[2], e[3]];
    RunConcat(st, [e[0], e[1]], [e[2], e[3]]);
    RunTwo(st, e[0], e[1]);
    RunTwo(s2, e[2], e[3]);
    assert [] + [w] == [w];
    assert Run(st, [e[0], e[1]]) == (s2, []);
    assert Run(s2, [e[2], e[3]]) == (DecoderState(w, 0), [w]);
    assert Run(st, [e[0], e[1]] + [e[2], e[3]]) == (DecoderState(w, 0), [] + [w]);
  }

  /** From an idle state, the bytes of one code point decode to that code
      point and leave the decoder idle again. */
  lemma RunEncodeChar(st: DecoderState, w: nat)
    requires st.bytes == 0 && w <= MaxCodePoint
    ensures Run(st, EncodeChar(w)).0.bytes == 0
    ensures Run(st, EncodeChar(w)).1 == [w]
  {
    if w <= 0x7F {
      RunOne(st, w);
    } else if w <= 0x7FF {
      RunEncodeTwo(st, w);
    } else if w <= 0xFFFF {
      RunEncodeThree(st, w);
    } else {
      RunEncodeFour(st, w);
    }
  }

  /** From an idle state, an encoded sequence decodes to itself and leaves
      the decoder idle. */
  lemma {:induction false} RunEncode(st: DecoderState, s: seq<nat>)
    requires st.bytes == 0 && ValidCodePoints(s)
    ensures Run(st, Encode(s)).0.bytes == 0
    ensures Run(st, Encode(s)).1 == s
    decreases |s|
  {
    if s != [] {
      RunConcat(st, EncodeChar(s[0]), Encode(s[1..]));
      RunEncodeChar(st, s[0]);
      RunEncode(Run(st, EncodeChar(s[0])).0, s[1..]);
      assert s == [s[0]] + s[1..];
    }
  }

  /** Round trip: decoding the encoding of code points up to 0x10FFFF gives
      them back (surrogates included: neither side rejects them). */
  lemma DecodeEncode(s: seq<nat>)
    requires ValidCodePoints(s)
    ensures Decode(Encode(s)) == s
  {
    RunEncode(Start, s);
  }

  /** A lead byte resets the decoder whatever state it was in. */
  lemma {:induction false} RunFromLead(s1: DecoderState, s2: DecoderState, x: seq<Byte>)
    requires x != [] && 0xC0 <= x[0] <= 0xF7
    ensures Run(s1, x) == Run(s2, x)
  {
  }

  /** Continuation bytes that do not complete the sequence only count down. */
  lemma {:induction false} RunContinuations(st: DecoderState, cs: seq<Byte>)
    requires st.bytes > |cs|
    requires forall i :: 0 <= i < |cs| ==> IsContinuation(cs[i])
    ensures Run(st, cs).1 == []
    ensures Run(st, cs).0.bytes == st.bytes - |cs|
    decreases |cs|
  {
    if cs != [] {
      RunContinuations(Step(st, cs[0]).0, cs[1..]);
    }
  }

  /** A proper prefix of the encoding of a multi-byte code point emits
      nothing and leaves the decoder expecting more bytes. */
  lemma RunPartial(st: DecoderState, w: nat, k: nat)
    requires 0x7F < w <= MaxCodePoint && 0 < k < |EncodeChar(w)|
    ensures Run(st, EncodeChar(w)[..k]).1 == []
    ensures Run(st, EncodeChar(w)[..k]).0.bytes > 0
  {
    var e := EncodeChar(w);
    var first := Step(st, e[0]);
    assert first.1 == [] && first.0.bytes == |e| - 1;
    assert e[..k] == [e[0]] + e[1..k];
    RunConcat(st, [e[0]], e[1..k]);
    RunOne(st, e[0]);
    RunContinuations(first.0, e[1..k]);
  }

  /** What follows a partial sequence: an ASCII code point is preceded by
      one `Err`; any other code point's lead byte discards the partial one. */
  lemma RunAfterPartial(st: DecoderState, b: seq<nat>)
    requires st.bytes > 0 && ValidCodePoints(b) && b != []
    ensures Run(st, Encode(b)).0.bytes == 0
    ensures b[0] <= 0x7F ==> Run(st, Encode(b)).1 == [Err] + b
    ensures 0x7F < b[0] ==> Run(st, Encode(b)).1 == b
  {
    assert Encode(b) == EncodeChar(b[0]) + Encode(b[1..]);
    if b[0] <= 0x7F {
      RunConcat(st, [b[0]], Encode(b[1..]));
      RunOne(st, b[0]);
      var s1 := Step(st, b[0]).0;
      RunEncode(s1, b[1..]);
      assert b == [b[0]] + b[1..];
    } else {
      RunFromLead(st, Start, Encode(b));
      RunEncode(Start, b);
    }
  }

  /** Decoding the encoding of `a` followed by more bytes: `a`, then what the
      rest decodes to from an idle state. */
  lemma RunAfterEncode(a: seq<nat>, rest: seq<Byte>)
    requires ValidCodePoints(a)
    ensures Run(Start, Encode(a) + rest).1 == a + Run(Run(Start, Encode(a)).0, rest).1
    ensures Run(Start, Encode(a) + rest).0 == Run(Run(Start, Encode(a)).0, rest).0
    ensures Run(Start, Encode(a)).0.bytes == 0
  {
    RunEncode(Start, a);
    RunConcat(Start, Encode(a), rest);
  }

  /** Running over three pieces, one after the other. */
  lemma RunThree(st: DecoderState, x: seq<Byte>, y: seq<Byte>, z: seq<Byte>)
    ensures Run(st, x + y + z).0 == Run(Run(Run(st, x).0, y).0, z).0
    ensures Run(st, x + y + z).1 == Run(st, x).1 + Run(Run(st, x).0, y).1 + Run(Run(Run(st, x).0, y).0, z).1
  {
    RunConcat(st, x + y, z);
    RunConcat(st, x, y);
  }

  /** The run over `Encode(a) + p + Encode(b)` when `p` is a partial sequence. */
  lemma RunTruncated(a: seq<nat>, p: seq<Byte>, b: seq<nat>)
    requires ValidCodePoints(a) && ValidCodePoints(b)
    requires Run(Run(Start, Encode(a)).0, p).1 == []
    requires Run(Run(Start, Encode(a)).0, p).0.bytes > 0
    ensures b == [] ==> Run(Start, Encode(a) + p + Encode(b)).1 == a
    ensures b == [] ==> Run(Start, Encode(a) + p + Encode(b)).0.bytes > 0
    ensures b != [] ==> Run(Start, Encode(a) + p + Encode(b)).0.bytes == 0
    ensures b != [] && b[0] <= 0x7F ==> Run(Start, Encode(a) + p + Encode(b)).1 == a + [Err] + b
    ensures b != [] && 0x7F < b[0] ==> Run(Start, Encode(a) + p + Encode(b)).1 == a + b
  {
    var ea := Encode(a);
    var eb := Encode(b);
    RunThree(Start, ea, p, eb);
    RunEncode(Start, a);
    var sa := Run(Start, ea).0;
    var sp := Run(sa, p).0;
    var out := Run(Start, ea + p + eb).1;
    assert out == a + [] + Run(sp, eb).1;
    assert a + [] == a;
    if b == [] {
      assert eb == [];
    } else {
      RunAfterPartial(sp, b);
      if b[0] <= 0x7F {
        assert out == a + ([Err] + b);
      } else {
        assert out == a + b;
      }
    }
  }

  /** Decoder error policy for a sequence cut short: the partial code point
      becomes one `Err` when the input ends or an ASCII byte follows (the
      ASCII character is kept), and vanishes without trace when the next
      code point's lead byte arrives. */
  lemma DecodeTruncatedSequence(a: seq<nat>, w: nat, k: nat, b: seq<nat>)
    requires ValidCodePoints(a) && ValidCodePoints(b)
    requires 0x7F < w <= MaxCodePoint && 0 < k < |EncodeChar(w)|
    ensures b == [] ==> Decode(Encode(a) + EncodeChar(w)[..k] + Encode(b)) == a + [Err]
    ensures b != [] && b[0] <= 0x7F ==> Decode(Encode(a) + EncodeChar(w)[..k] + Encode(b)) == a + [Err] + b
    ensures b != [] && 0x7F < b[0] ==> Decode(Encode(a) + EncodeChar(w)[..k] + Encode(b)) == a + b
  {
    RunPartial(Run(Start, Encode(a)).0, w, k);
    RunTruncated(a, EncodeChar(w)[..k], b);
  }

  /** Decoder error policy for a byte that cannot occur where it stands: a
      continuation byte outside a sequence, or a byte 0xF8..0xFF, becomes one
      `Err` and decoding carries on. */
  lemma DecodeStrayByte(a: seq<nat>, c: Byte, b: seq<nat>)
    requires ValidCodePoints(a) && ValidCodePoints(b)
    requires IsContinuation(c) || 0xF8 <= c
    ensures Decode(Encode(a) + [c] + Encode(b)) == a + [Err] + b
  {
    RunEncode(Start, a);
    var ra := Run(Start, Encode(a));
    RunConcat(Start, Encode(a), [c]);
    RunConcat(Start, Encode(a) + [c], Encode(b));
    RunOne(ra.0, c);
    var s1 := Step(ra.0, c).0;
    assert s1.bytes == 0;
    RunEncode(s1, b);
  }

  /** The decoder accepts overlong forms: 0xC0 0xAF decodes to '/' (0x2F)
      and 0xE0 0x80 0x80 to 0. */
  lemma DecodeAcceptsOverlong()
    ensures Decode([0xC0, 0xAF]) == [0x2F]
    ensures Decode([0xE0, 0x80, 0x80]) == [0]
  {
    RunTwo(Start, 0xC0, 0xAF);
    assert [0xE0, 0x80, 0x80] == [0xE0] + [0x80, 0x80];
    RunConcat(Start, [0xE0], [0x80, 0x80]);
    RunOne(Start, 0xE0);
    RunTwo(DecoderState(0, 2), 0x80, 0x80);
  }

  /** Surrogate code points are neither rejected by the encoder nor by the decoder. */
  lemma SurrogatesPassThrough()
    ensures EncodeChar(0xD800) == [0xED, 0xA0, 0x80]
    ensures Decode(Encode([0xD800, 0xDFFF])) == [0xD800, 0xDFFF]
  {
    DecodeEncode([0xD800, 0xDFFF]);
  }
}
