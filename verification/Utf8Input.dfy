/** Decoding terminal input byte by byte. */
module Utf8Input {
  import opened Options

  type Byte = b: int | 0 <= b < 256

  predicate IsScalar(c: int) { 0 <= c < 0xD800 || 0xE000 <= c <= 0x10FFFF }

  predicate AllScalars(cs: seq<int>) { forall i :: 0 <= i < |cs| ==> IsScalar(cs[i]) }

  /** Section 3 of RFC 3629. */
  function Utf8(c: int): seq<Byte>
    requires IsScalar(c)
  {
    if c < 0x80 then [c]
    else if c < 0x800 then [0xC0 + c / 64, 0x80 + c % 64]
    else if c < 0x10000 then [0xE0 + c / 4096, 0x80 + c / 64 % 64, 0x80 + c % 64]
    else [0xF0 + c / 262144, 0x80 + c / 4096 % 64, 0x80 + c / 64 % 64, 0x80 + c % 64]
  }

  function Encoded(cs: seq<int>): seq<Byte>
    requires AllScalars(cs)
  {
    if cs == [] then [] else Utf8(cs[0]) + Encoded(cs[1..])
  }

  datatype State = State(remaining: nat, acc: nat)

  /** What one byte does, and the code it completes, if any. A byte that fits nowhere is taken
      for a code of its own. */
  function Step(s: State, b: Byte): (State, Option<int>) {
    if b < 0x80 then (s, Some(b as int))
    else if 0xC0 <= b < 0xE0 then (State(1, b - 0xC0), None)
    else if 0xE0 <= b < 0xF0 then (State(2, b - 0xE0), None)
    else if 0xF0 <= b < 0xF8 then (State(3, b - 0xF0), None)
    else if b < 0xC0 && s.remaining > 0 then
      var acc := s.acc * 64 + (b - 0x80);
      (State(s.remaining - 1, acc), if s.remaining == 1 then Some(acc as int) else None)
    else (s.(remaining := 0), Some(b as int))
  }

  function Feed(s: State, bytes: seq<Byte>): (State, seq<int>)
    decreases |bytes|
  {
    if bytes == [] then (s, [])
    else
      var (next, code) := Step(s, bytes[0]);
      var (last, codes) := Feed(next, bytes[1..]);
      (last, Codes(code) + codes)
  }

  function Codes(code: Option<int>): seq<int> { if code.Some? then [code.value] else [] }

  class Decoder {
    var remaining: nat
    var acc: nat
    var emitted: seq<int>

    constructor ()
      ensures remaining == 0 && emitted == []
    {
      remaining, acc, emitted := 0, 0, [];
    }

    method HandleByte(b: Byte)
      modifies this
      ensures State(remaining, acc) == Step(old(State(remaining, acc)), b).0
      ensures emitted == old(emitted) + Codes(Step(old(State(remaining, acc)), b).1)
    {
      assert emitted + [] == emitted;
      if b < 0x80 {
        emitted := emitted + [b];
      } else if 0xC0 <= b < 0xE0 {
        remaining, acc := 1, b - 0xC0;
      } else if 0xE0 <= b < 0xF0 {
        remaining, acc := 2, b - 0xE0;
      } else if 0xF0 <= b < 0xF8 {
        remaining, acc := 3, b - 0xF0;
      } else if b < 0xC0 && remaining > 0 {
        acc := acc * 64 + (b - 0x80);
        remaining := remaining - 1;
        if remaining == 0 { emitted := emitted + [acc]; }
      } else {
        remaining := 0;
        emitted := emitted + [b];
      }
    }

    method ReadBytes(bytes: seq<Byte>)
      modifies this
      ensures State(remaining, acc) == Feed(old(State(remaining, acc)), bytes).0
      ensures emitted == old(emitted) + Feed(old(State(remaining, acc)), bytes).1
      ensures forall text :: AllScalars(text) && bytes == Encoded(text) ==> emitted == old(emitted) + text
    {
      for i := 0 to |bytes|
        invariant Feed(State(remaining, acc), bytes[i..]).0 == Feed(old(State(remaining, acc)), bytes).0
        invariant emitted + Feed(State(remaining, acc), bytes[i..]).1 == old(emitted) + Feed(old(State(remaining, acc)), bytes).1
      {
        assert bytes[i..][0] == bytes[i] && bytes[i..][1..] == bytes[i + 1..];
        ghost var code, rest := Step(State(remaining, acc), bytes[i]).1, Feed(Step(State(remaining, acc), bytes[i]).0, bytes[i + 1..]).1;
        assert emitted + (Codes(code) + rest) == emitted + Codes(code) + rest;
        HandleByte(bytes[i]);
      }
      assert bytes[|bytes|..] == [] && emitted + [] == emitted;
      forall text | AllScalars(text) && bytes == Encoded(text) ensures emitted == old(emitted) + text {
        DecodeEncoded(old(State(remaining, acc)), text);
      }
    }
  }

  lemma {:induction false} FeedConcat(s: State, a: seq<Byte>, b: seq<Byte>)
    ensures Feed(s, a + b) == (Feed(Feed(s, a).0, b).0, Feed(s, a).1 + Feed(Feed(s, a).0, b).1)
    decreases |a|
  {
    if a == [] {
      assert a + b == b && Feed(s, a).1 + Feed(s, b).1 == Feed(s, b).1;
    } else {
      assert (a + b)[1..] == a[1..] + b;
      var (next, code) := Step(s, a[0]);
      FeedConcat(next, a[1..], b);
      var x, y := Feed(next, a[1..]).1, Feed(Feed(next, a[1..]).0, b).1;
      assert Codes(code) + (x + y) == Codes(code) + x + y;
    }
  }

  /** The digits of a code in base 64 put together again. */
  lemma Digits(c: int)
    requires IsScalar(c)
    ensures c / 64 * 64 + c % 64 == c
    ensures (c / 4096 * 64 + c / 64 % 64) * 64 + c % 64 == c
    ensures ((c / 262144 * 64 + c / 4096 % 64) * 64 + c / 64 % 64) * 64 + c % 64 == c
    ensures c < 0x800 ==> c / 64 < 32
    ensures c < 0x10000 ==> c / 4096 < 16
    ensures c / 262144 < 8
  {
    assert c / 64 / 64 == c / 4096;
    assert c / 4096 / 64 == c / 262144;
  }

  lemma DecodeOne(s: State, c: int)
    requires IsScalar(c)
    ensures Feed(s, Utf8(c)).1 == [c]
  {
    Digits(c);
    var bytes := Utf8(c);
    var a := Step(s, bytes[0]).0;
    if c < 0x80 {
      assert bytes[1..] == [];
    } else if c < 0x800 {
      assert bytes[1..] == [bytes[1]] && bytes[1..][1..] == [];
      assert Feed(a, bytes[1..]).1 == [c];
    } else if c < 0x10000 {
      assert bytes[1..] == [bytes[1], bytes[2]] && bytes[1..][1..] == [bytes[2]] && bytes[1..][1..][1..] == [];
      var b := Step(a, bytes[1]).0;
      assert Feed(b, [bytes[2]]).1 == [c];
      assert Feed(a, bytes[1..]).1 == [c];
    } else {
      assert bytes[1..] == [bytes[1], bytes[2], bytes[3]] && bytes[1..][1..] == [bytes[2], bytes[3]];
      assert [bytes[2], bytes[3]][1..] == [bytes[3]] && [bytes[3]][1..] == [];
      var b := Step(a, bytes[1]).0;
      var d := Step(b, bytes[2]).0;
      assert Feed(d, [bytes[3]]).1 == [c];
      assert Feed(b, [bytes[2], bytes[3]]).1 == [c];
      assert Feed(a, bytes[1..]).1 == [c];
    }
  }

  /** From any state, even one left behind by a broken sequence, feeding the encoding of a
      sequence of scalar values gives exactly that sequence. */
  lemma {:induction false} DecodeEncoded(s: State, cs: seq<int>)
    requires AllScalars(cs)
    ensures Feed(s, Encoded(cs)).1 == cs
    decreases |cs|
  {
    if cs != [] {
      FeedConcat(s, Utf8(cs[0]), Encoded(cs[1..]));
      DecodeOne(s, cs[0]);
      DecodeEncoded(Feed(s, Utf8(cs[0])).0, cs[1..]);
      assert [cs[0]] + cs[1..] == cs;
    }
  }

  /** So different texts have different encodings. */
  lemma EncodingUnambiguous(a: seq<int>, b: seq<int>)
    requires AllScalars(a) && AllScalars(b) && Encoded(a) == Encoded(b)
    ensures a == b
  {
    DecodeEncoded(State(0, 0), a);
    DecodeEncoded(State(0, 0), b);
  }
}
