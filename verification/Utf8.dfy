/** UTF-8 validation: exactly the concatenations of encodings of Unicode scalar values pass. */
module Utf8 {
  import opened Options

  newtype byte = x: int | 0 <= x < 0x100

  /** A Unicode scalar value: any code point but a surrogate. */
  type Scalar = x: int | 0 <= x < 0xD800 || 0xE000 <= x <= 0x10FFFF witness 0

  /** The encoding of one scalar value (section 3 of RFC 3629). */
  function Encode(c: Scalar): (r: seq<byte>)
    ensures 1 <= |r| <= 4
  {
    if c < 0x80 then [c as byte]
    else if c < 0x800 then [(0xC0 + c / 64) as byte, (0x80 + c % 64) as byte]
    else if c < 0x1_0000 then [(0xE0 + c / 4096) as byte, (0x80 + c / 64 % 64) as byte, (0x80 + c % 64) as byte]
    else [(0xF0 + c / 26_2144) as byte, (0x80 + c / 4096 % 64) as byte, (0x80 + c / 64 % 64) as byte,
          (0x80 + c % 64) as byte]
  }

  function EncodeAll(text: seq<Scalar>): seq<byte> {
    if text == [] then [] else Encode(text[0]) + EncodeAll(text[1..])
  }

  ghost predicate IsEncoded(bytes: seq<byte>) { exists text :: EncodeAll(text) == bytes }

  // ---- The first sequence of a text ----

  function LengthOf(first: byte): nat {
    if first <= 0x7F then 1
    else if 0xC2 <= first <= 0xDF then 2
    else if 0xE0 <= first <= 0xEF then 3
    else if 0xF0 <= first <= 0xF4 then 4
    else 0
  }

  predicate SecondFits(first: byte, second: byte) {
    (if first == 0xE0 then 0xA0 else if first == 0xF0 then 0x90 else 0x80) <= second <=
    (if first == 0xED then 0x9F else if first == 0xF4 then 0x8F else 0xBF)
  }

  /** The bytes begin with a well-formed sequence (section 4 of RFC 3629). */
  predicate StartsWell(bytes: seq<byte>) {
    bytes != [] && var n := LengthOf(bytes[0]);
    0 < n <= |bytes| && (n > 1 ==> SecondFits(bytes[0], bytes[1])) &&
    forall k | 2 <= k < n :: 0x80 <= bytes[k] <= 0xBF
  }

  function Decode(bytes: seq<byte>): (c: Scalar)
    requires StartsWell(bytes)
  {
    var n := LengthOf(bytes[0]);
    var a := bytes[0] as int;
    if n == 1 then a
    else if n == 2 then (a - 0xC0) * 64 + (bytes[1] as int - 0x80)
    else if n == 3 then
      assert 0x80 <= bytes[2] <= 0xBF;
      (a - 0xE0) * 4096 + (bytes[1] as int - 0x80) * 64 + (bytes[2] as int - 0x80)
    else
      assert 0x80 <= bytes[2] <= 0xBF && 0x80 <= bytes[3] <= 0xBF;
      (a - 0xF0) * 26_2144 + (bytes[1] as int - 0x80) * 4096 + (bytes[2] as int - 0x80) * 64 + (bytes[3] as int - 0x80)
  }

  lemma {:induction false} DecodeEncodesShort(bytes: seq<byte>)
    requires StartsWell(bytes) && LengthOf(bytes[0]) <= 2
    ensures Encode(Decode(bytes)) == bytes[..LengthOf(bytes[0])]
  {
    if LengthOf(bytes[0]) == 2 { Digits(bytes[0] as int - 0xC0, bytes[1] as int - 0x80); }
  }

  lemma {:induction false} DecodeEncodesThree(bytes: seq<byte>)
    requires StartsWell(bytes) && LengthOf(bytes[0]) == 3
    ensures Encode(Decode(bytes)) == bytes[..3]
  {
    assert 0x80 <= bytes[2] <= 0xBF;
    var high := (bytes[0] as int - 0xE0) * 64 + (bytes[1] as int - 0x80);
    Digits(bytes[0] as int - 0xE0, bytes[1] as int - 0x80);
    Digits(high, bytes[2] as int - 0x80);
  }

  lemma {:induction false} DecodeEncodesFour(bytes: seq<byte>)
    requires StartsWell(bytes) && LengthOf(bytes[0]) == 4
    ensures Encode(Decode(bytes)) == bytes[..4]
  {
    assert 0x80 <= bytes[2] <= 0xBF && 0x80 <= bytes[3] <= 0xBF;
    var top := (bytes[0] as int - 0xF0) * 64 + (bytes[1] as int - 0x80);
    var high := top * 64 + (bytes[2] as int - 0x80);
    Digits(bytes[0] as int - 0xF0, bytes[1] as int - 0x80);
    Digits(top, bytes[2] as int - 0x80);
    Digits(high, bytes[3] as int - 0x80);
  }

  lemma {:induction false} DecodeEncodes(bytes: seq<byte>)
    requires StartsWell(bytes)
    ensures Encode(Decode(bytes)) == bytes[..LengthOf(bytes[0])]
  {
    hide Encode, Decode;
    var n := LengthOf(bytes[0]);
    if n <= 2 { DecodeEncodesShort(bytes); }
    else if n == 3 { DecodeEncodesThree(bytes); }
    else { DecodeEncodesFour(bytes); }
  }

  /** Splitting off the last base-64 digit. */
  lemma {:induction false} Digits(high: int, low: int)
    requires 0 <= high && 0 <= low < 64
    ensures (high * 64 + low) / 64 == high && (high * 64 + low) % 64 == low
    ensures (high * 64 + low) / 4096 == high / 64
    ensures (high * 64 + low) / 26_2144 == high / 64 / 64
  {
  }

  /** A number is its base-64 digits put together. */
  lemma {:induction false} DigitsOf(c: int)
    requires c >= 0
    ensures c == c / 64 * 64 + c % 64
    ensures c / 64 == c / 4096 * 64 + c / 64 % 64
    ensures c / 4096 == c / 26_2144 * 64 + c / 4096 % 64
  {
  }

  lemma {:induction false} ShortStartsWell(c: Scalar, rest: seq<byte>)
    requires c < 0x800
    ensures StartsWell(Encode(c) + rest)
    ensures LengthOf((Encode(c) + rest)[0]) == |Encode(c)| && Decode(Encode(c) + rest) == c
  {
  }

  lemma {:induction false} MiddleStartsWell(c: Scalar, rest: seq<byte>)
    requires 0x800 <= c < 0x1_0000
    ensures StartsWell(Encode(c) + rest)
    ensures LengthOf((Encode(c) + rest)[0]) == |Encode(c)| && Decode(Encode(c) + rest) == c
  {
    DigitsOf(c);
    var bytes := Encode(c) + rest;
    assert bytes[0] == (0xE0 + c / 4096) as byte && bytes[1] == (0x80 + c / 64 % 64) as byte;
    assert bytes[2] == (0x80 + c % 64) as byte;
  }

  lemma {:induction false} LongStartsWell(c: Scalar, rest: seq<byte>)
    requires 0x1_0000 <= c
    ensures StartsWell(Encode(c) + rest)
    ensures LengthOf((Encode(c) + rest)[0]) == |Encode(c)| && Decode(Encode(c) + rest) == c
  {
    DigitsOf(c);
    var bytes := Encode(c) + rest;
    assert bytes[0] == (0xF0 + c / 26_2144) as byte && bytes[1] == (0x80 + c / 4096 % 64) as byte;
    assert bytes[2] == (0x80 + c / 64 % 64) as byte && bytes[3] == (0x80 + c % 64) as byte;
  }

  lemma {:induction false} EncodeStartsWell(c: Scalar, rest: seq<byte>)
    ensures StartsWell(Encode(c) + rest)
    ensures LengthOf((Encode(c) + rest)[0]) == |Encode(c)| && Decode(Encode(c) + rest) == c
  {
    hide Encode, Decode, StartsWell, LengthOf;
    if c < 0x800 { ShortStartsWell(c, rest); }
    else if c < 0x1_0000 { MiddleStartsWell(c, rest); }
    else { LongStartsWell(c, rest); }
  }

  // ---- Whole texts ----

  lemma {:induction false} OneMore(c: Scalar, rest: seq<byte>)
    ensures IsEncoded(Encode(c) + rest) <==> IsEncoded(rest)
  {
    hide Encode;
    if text :| EncodeAll(text) == rest {
      assert ([c] + text)[1..] == text;
      assert EncodeAll([c] + text) == Encode(c) + rest;
    }
    if text :| EncodeAll(text) == Encode(c) + rest {
      EncodeStartsWell(c, rest);
      EncodeStartsWell(text[0], EncodeAll(text[1..]));
      assert text[0] == c;
      assert EncodeAll(text[1..]) == EncodeAll(text)[|Encode(c)|..] == rest;
    }
  }

  lemma {:induction false} EncodedStartsWell(bytes: seq<byte>)
    requires IsEncoded(bytes) && bytes != []
    ensures StartsWell(bytes)
  {
    hide Encode;
    var text :| EncodeAll(text) == bytes;
    EncodeStartsWell(text[0], EncodeAll(text[1..]));
  }

  /** A text that is encoded stays so when a well-formed first sequence is taken off, and conversely. */
  lemma {:induction false} FirstOff(bytes: seq<byte>)
    requires StartsWell(bytes)
    ensures IsEncoded(bytes) <==> IsEncoded(bytes[LengthOf(bytes[0])..])
  {
    hide Encode, Decode;
    var n := LengthOf(bytes[0]);
    DecodeEncodes(bytes);
    OneMore(Decode(bytes), bytes[n..]);
    assert bytes == bytes[..n] + bytes[n..];
  }

  /** Two texts with one encoding are one text. */
  lemma {:induction false} EncodingIsInjective(a: seq<Scalar>, b: seq<Scalar>)
    requires EncodeAll(a) == EncodeAll(b)
    ensures a == b
  {
    hide Encode, Decode;
    if a != [] && b != [] {
      EncodeStartsWell(a[0], EncodeAll(a[1..]));
      EncodeStartsWell(b[0], EncodeAll(b[1..]));
      assert EncodeAll(a[1..]) == EncodeAll(a)[|Encode(a[0])|..];
      assert EncodeAll(b[1..]) == EncodeAll(b)[|Encode(b[0])|..];
      EncodingIsInjective(a[1..], b[1..]);
      assert a == [a[0]] + a[1..] && b == [b[0]] + b[1..];
    }
  }

  method IsValid(bytes: seq<byte>) returns (valid: bool)
    ensures valid <==> IsEncoded(bytes)
  {
    hide IsEncoded, Decode, Encode;
    var index := 0;
    NothingEncoded();
    assert bytes[0..] == bytes;
    while index < |bytes|
      invariant 0 <= index <= |bytes| && (IsEncoded(bytes) <==> IsEncoded(bytes[index..]))
    {
      ghost var tail := bytes[index..];
      if !StartsWell(tail) && IsEncoded(tail) { EncodedStartsWell(tail); }
      var first := bytes[index];
      if first <= 0x7F {
        FirstOff(tail);
        assert tail[1..] == bytes[index + 1..];
        index := index + 1;
        continue;
      }
      var length, secondMinimum, secondMaximum := 0, 0x80, 0xBF;
      if 0xC2 <= first <= 0xDF {
        length := 2;
      } else if 0xE0 <= first <= 0xEF {
        length := 3;
        if first == 0xE0 { secondMinimum := 0xA0; }
        if first == 0xED { secondMaximum := 0x9F; }
      } else if 0xF0 <= first <= 0xF4 {
        length := 4;
        if first == 0xF0 { secondMinimum := 0x90; }
        if first == 0xF4 { secondMaximum := 0x8F; }
      } else {
        return false;
      }
      if index + length > |bytes| { return false; }
      var second := bytes[index + 1];
      if second as int < secondMinimum || second as int > secondMaximum { return false; }
      for continuation := 2 to length
        invariant forall k | 2 <= k < continuation :: 0x80 <= tail[k] <= 0xBF
      {
        var value := bytes[index + continuation];
        assert tail[continuation] == value;
        if value < 0x80 || value > 0xBF { return false; }
      }
      FirstOff(tail);
      assert tail[length..] == bytes[index + length..];
      index := index + length;
    }
    assert bytes[index..] == [];
    return true;
  }

  lemma {:induction false} NothingEncoded()
    ensures IsEncoded([])
  {
    assert EncodeAll([]) == [];
  }

  /** The text that the bytes encode, if there is one. */
  method DecodeText(bytes: seq<byte>) returns (text: Option<seq<Scalar>>)
    ensures text.Some? <==> IsEncoded(bytes)
    ensures text.Some? ==> EncodeAll(text.value) == bytes
  {
    hide Encode, Decode, EncodeAll, LengthOf, StartsWell, IsEncoded;
    var valid := IsValid(bytes);
    if !valid { return None; }
    var read: seq<Scalar> := [];
    NothingRead();
    var index := 0;
    assert bytes[0..] == bytes;
    while index < |bytes|
      invariant 0 <= index <= |bytes| && EncodeAll(read) == bytes[..index] && IsEncoded(bytes[index..])
    {
      var tail := bytes[index..];
      EncodedStartsWell(tail);
      FirstOff(tail);
      DecodeEncodes(tail);
      EncodeAppends(read, Decode(tail));
      var n := LengthOf(bytes[index]);
      WellStarts(tail);
      assert bytes[..index] + tail[..n] == bytes[..index + n] && tail[n..] == bytes[index + n..];
      read := read + [Decode(tail)];
      index := index + n;
    }
    assert bytes[..index] == bytes;
    text := Some(read);
  }

  lemma {:induction false} NothingRead()
    ensures EncodeAll([]) == []
  {
  }

  lemma {:induction false} WellStarts(bytes: seq<byte>)
    requires StartsWell(bytes)
    ensures 0 < LengthOf(bytes[0]) <= |bytes|
  {
  }

  lemma {:induction false} EncodeAppends(text: seq<Scalar>, c: Scalar)
    ensures EncodeAll(text + [c]) == EncodeAll(text) + Encode(c)
  {
    hide Encode;
    if text == [] {
      assert text + [c] == [c];
      assert EncodeAll([c][1..]) == [];
    } else {
      assert (text + [c])[1..] == text[1..] + [c];
      EncodeAppends(text[1..], c);
    }
  }
}
