/**
 * .NET strings are sequences of UTF-16 code units, while a Dafny `string`
 * is a sequence of Unicode scalar values. `Encode` gives the code units
 * .NET holds for a text: a character below U+10000 is one unit, any other
 * a surrogate pair. `String.CompareOrdinal`, `Length` and `Substring` work
 * on these units.
 */
module Utf16 {
  import opened Wrappers

  /** A UTF-16 code unit. */
  type CodeUnit = x: int | 0 <= x < 0x1_0000

  predicate IsHighSurrogate(u: CodeUnit) { 0xD800 <= u < 0xDC00 }
  predicate IsLowSurrogate(u: CodeUnit) { 0xDC00 <= u < 0xE000 }

  /** The code units of one character. */
  function Units(c: char): (r: seq<CodeUnit>)
    ensures |r| == 1 <==> (c as int) < 0x1_0000
    ensures |r| == 1 ==> r[0] == c as int && !IsHighSurrogate(r[0]) && !IsLowSurrogate(r[0])
    ensures |r| == 2 ==> IsHighSurrogate(r[0]) && IsLowSurrogate(r[1])
  {
    var n := c as int;
    if n < 0x1_0000 then [n]
    else [0xD800 + (n - 0x1_0000) / 0x400, 0xDC00 + (n - 0x1_0000) % 0x400]
  }

  /** The character a surrogate pair stands for. */
  function Combined(high: CodeUnit, low: CodeUnit): (c: char)
    requires IsHighSurrogate(high) && IsLowSurrogate(low)
    ensures (c as int) >= 0x1_0000
  {
    ((high - 0xD800) * 0x400 + (low - 0xDC00) + 0x1_0000) as char
  }

  /** The UTF-16 form of a text, character by character. */
  function Encode(s: string): (r: seq<CodeUnit>)
    ensures |r| >= |s|
    decreases |s|
  {
    if s == [] then [] else Units(s[0]) + Encode(s[1..])
  }

  /** Reading code units back as text; an unpaired surrogate has no character. */
  function Decode(u: seq<CodeUnit>): Option<string>
    decreases |u|
  {
    if u == [] then Some([])
    else if IsHighSurrogate(u[0]) then
      if |u| >= 2 && IsLowSurrogate(u[1]) then
        var rest := Decode(u[2..]);
        if rest.None? then None else Some([Combined(u[0], u[1])] + rest.value)
      else None
    else if IsLowSurrogate(u[0]) then None
    else
      var rest := Decode(u[1..]);
      if rest.None? then None else Some([u[0] as char] + rest.value)
  }

  /** A surrogate pair gives back the character it encodes. */
  lemma UnitsCombine(c: char)
    requires (c as int) >= 0x1_0000
    ensures Combined(Units(c)[0], Units(c)[1]) == c
  {
    var n := c as int - 0x1_0000;
    assert (n / 0x400) * 0x400 + n % 0x400 == n;
  }

  /** Decoding the encoding of any text gives the text back. */
  lemma {:induction false} DecodeEncode(s: string)
    ensures Decode(Encode(s)) == Some(s)
    decreases |s|
  {
    if s != [] {
      var u := Encode(s);
      DecodeEncode(s[1..]);
      if (s[0] as int) < 0x1_0000 {
        assert u[1..] == Encode(s[1..]);
        assert (u[0] as char) == s[0];
      } else {
        assert u[2..] == Encode(s[1..]);
        UnitsCombine(s[0]);
      }
      assert s == [s[0]] + s[1..];
    }
  }

  /** The encoding of a concatenation is the concatenation of the encodings. */
  lemma {:induction false} EncodeAppend(a: string, b: string)
    ensures Encode(a + b) == Encode(a) + Encode(b)
    decreases |a|
  {
    if a != [] {
      assert (a + b)[0] == a[0] && (a + b)[1..] == a[1..] + b;
      EncodeAppend(a[1..], b);
      assert Encode(a + b) == Units(a[0]) + (Encode(a[1..]) + Encode(b));
    } else {
      assert a + b == b;
    }
  }

  /** A text below U+10000 has one code unit per character, each the character's value. */
  lemma {:induction false} EncodeBasicPlane(s: string)
    requires forall i :: 0 <= i < |s| ==> (s[i] as int) < 0x1_0000
    ensures |Encode(s)| == |s|
    ensures forall i :: 0 <= i < |s| ==> Encode(s)[i] == s[i] as int
    decreases |s|
  {
    if s != [] {
      EncodeBasicPlane(s[1..]);
      forall i | 0 <= i < |s| ensures Encode(s)[i] == s[i] as int {
        if i > 0 { assert s[1..][i - 1] == s[i]; }
      }
    }
  }
}
