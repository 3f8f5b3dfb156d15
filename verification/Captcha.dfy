/** Base64 of the captcha image, and the comparison of its code. */
module Base64 {
  import opened Bytes
  import opened Results

  type sextet = x: int | 0 <= x < 64

  // ---- The encoder ----

  type group = x: int | 0 <= x < 0x100_0000

  /** The table of section 4 of RFC 4648: upper case, lower case, digits, plus and slash. */
  function Symbol(x: sextet): char {
    if x < 26 then ('A' as int + x) as char
    else if x < 52 then ('a' as int + (x - 26)) as char
    else if x < 62 then ('0' as int + (x - 52)) as char
    else if x == 62 then '+' else '/'
  }

  // The four sextets of a 24-bit group, by shifts and masks.

  function First(v: group): sextet { v / 0x4_0000 }

  function Second(v: group): sextet { v / 0x1000 % 64 }

  function Third(v: group): sextet { v / 64 % 64 }

  function Fourth(v: group): sextet { v % 64 }

  function Symbols(v: group): string { [Symbol(First(v)), Symbol(Second(v)), Symbol(Third(v)), Symbol(Fourth(v))] }

  // Groups of three, two and one bytes.

  function Word3(s: seq<byte>, i: nat): group
    requires i + 3 <= |s|
  {
    s[i] as int * 0x1_0000 + s[i + 1] as int * 0x100 + s[i + 2]
  }

  function Word2(s: seq<byte>, i: nat): group
    requires i + 2 <= |s|
  {
    s[i] as int * 0x1_0000 + s[i + 1] as int * 0x100
  }

  function Word1(s: seq<byte>, i: nat): group
    requires i < |s|
  {
    s[i] as int * 0x1_0000
  }

  /** The encoding of the bytes from i on. */
  function EncodedFrom(s: seq<byte>, i: nat): string
    requires i <= |s|
    decreases |s| - i
  {
    if i + 3 <= |s| then Symbols(Word3(s, i)) + EncodedFrom(s, i + 3) else Tail(s, i)
  }

  /** What is left at the end: nothing, one byte or two, padded. */
  function Tail(s: seq<byte>, i: nat): (t: string)
    requires i <= |s| < i + 3
    ensures |t| == if i == |s| then 0 else 4
  {
    if i == |s| then ""
    else if i + 1 == |s| then Symbols(Word1(s, i))[..2] + "=="
    else Symbols(Word2(s, i))[..3] + "="
  }

  function Encoded(s: seq<byte>): string { EncodedFrom(s, 0) }

  method Base64Encode(s: seq<byte>) returns (out: string)
    ensures out == Encoded(s)
    ensures Decoded(out) == Some(s) && |out| == 4 * ((|s| + 2) / 3)
  {
    out := "";
    var i := 0;
    while i + 3 <= |s|
      invariant i <= |s| && out + EncodedFrom(s, i) == Encoded(s)
    {
      var v := Word3(s, i);
      out := out + Symbols(v);
      i := i + 3;
    }
    var rem := |s| - i;
    if rem == 1 {
      out := out + Symbols(Word1(s, i))[..2] + "==";
    } else if rem == 2 {
      out := out + Symbols(Word2(s, i))[..3] + "=";
    }
    DecodingUndoesEncoding(s);
    LengthIsFourThirds(s);
  }

  // ---- The decoder of RFC 4648, section 4 ----

  function Value(c: char): Option<sextet> {
    if 'A' <= c <= 'Z' then Some(c as int - 'A' as int)
    else if 'a' <= c <= 'z' then Some(c as int - 'a' as int + 26)
    else if '0' <= c <= '9' then Some(c as int - '0' as int + 52)
    else if c == '+' then Some(62)
    else if c == '/' then Some(63)
    else None
  }

  function Join(x: seq<sextet>): group
    requires |x| == 4
  {
    x[0] as int * 0x4_0000 + x[1] as int * 0x1000 + x[2] as int * 64 + x[3]
  }

  /** Three bytes of a 24-bit group. */
  function Split(v: group): seq<byte> { [v / 0x1_0000, v / 0x100 % 256, v % 256] }

  /** One group of four characters; padding only at the very end, with zero bits under it. */
  function Group(t: string, last: bool): Option<seq<byte>>
    requires |t| == 4
  {
    var w, x, y, z := Value(t[0]), Value(t[1]), Value(t[2]), Value(t[3]);
    if w.None? || x.None? then None
    else if last && t[2] == '=' && t[3] == '=' then
      var v := Join([w.value, x.value, 0, 0]);
      if v % 0x1_0000 == 0 then Some(Split(v)[..1]) else None
    else if y.None? then None
    else if last && t[3] == '=' then
      var v := Join([w.value, x.value, y.value, 0]);
      if v % 0x100 == 0 then Some(Split(v)[..2]) else None
    else if z.None? then None
    else Some(Split(Join([w.value, x.value, y.value, z.value])))
  }

  function Decoded(t: string): Option<seq<byte>> {
    if t == "" then Some([])
    else if |t| < 4 then None
    else
      var first, rest := Group(t[..4], |t| == 4), Decoded(t[4..]);
      if first.None? || rest.None? then None else Some(first.value + rest.value)
  }

  lemma SymbolRoundTrip(x: sextet)
    ensures Value(Symbol(x)) == Some(x) && Symbol(x) != '='
  {
  }

  /** The alphabet by code points: 0 to 25 are A to Z, 26 to 51 a to z, 52 to 61 the digits, then plus and
      slash. */
  lemma AlphabetByCodePoints(x: sextet)
    ensures Symbol(x) as int ==
            if x <= 25 then 65 + x else if x <= 51 then 71 + x else if x <= 61 then x - 4
            else if x == 62 then 43 else 47
  {
  }

  lemma DivDiv(v: group)
    ensures v / 0x1000 == v / 64 / 64
  {
  }

  lemma DivDivDiv(v: group)
    ensures v / 0x4_0000 == v / 0x1000 / 64
  {
  }

  lemma SextetsJoin(v: group)
    ensures Join([First(v), Second(v), Third(v), Fourth(v)]) == v
  {
    DivDiv(v);
    DivDivDiv(v);
  }

  lemma HighByte(a: byte, rest: int)
    requires 0 <= rest < 0x1_0000
    ensures (a * 0x1_0000 + rest) / 0x1_0000 == a
  {
  }

  lemma LowByte(q: int, c: byte)
    ensures (q * 256 + c) / 256 == q && (q * 256 + c) % 256 == c
  {
  }

  lemma WordSplits(v: group, a: byte, b: byte, c: byte)
    requires v == a * 0x1_0000 + b * 0x100 + c
    ensures Split(v) == [a, b, c]
  {
    HighByte(a, b * 256 + c);
    LowByte(a * 256 + b, c);
    LowByte(a, b);
  }

  lemma SymbolsAreRead(v: group, last: bool)
    ensures Group(Symbols(v), last) == Some(Split(v))
  {
    SymbolRoundTrip(First(v));
    SymbolRoundTrip(Second(v));
    SymbolRoundTrip(Third(v));
    SymbolRoundTrip(Fourth(v));
    SextetsJoin(v);
  }

  lemma Times64(q: int)
    ensures (64 * q) / 64 == q && (64 * q) % 64 == 0
  {
  }

  /** Below the bits of one byte there are only zeros. */
  lemma PaddingOfOne(a: byte, v: group)
    requires v == a * 0x1_0000
    ensures Third(v) == 0 && Fourth(v) == 0 && v % 0x1_0000 == 0
  {
    Times64(a * 0x400);
    Times64(a * 0x10);
  }

  lemma PaddingOfTwo(a: byte, b: byte, v: group)
    requires v == a * 0x1_0000 + b * 0x100
    ensures Fourth(v) == 0 && v % 0x100 == 0
  {
    Times64(a * 0x400 + b * 4);
    LowByte(a * 256 + b, 0);
  }

  lemma OneByteIsRead(s: seq<byte>, i: nat)
    requires i < |s|
    ensures Group(Symbols(Word1(s, i))[..2] + "==", true) == Some([s[i]])
  {
    var v := Word1(s, i);
    SymbolRoundTrip(First(v));
    SymbolRoundTrip(Second(v));
    SextetsJoin(v);
    PaddingOfOne(s[i], v);
    WordSplits(v, s[i], 0, 0);
    assert Split(v)[..1] == [s[i]];
  }

  lemma TwoBytesAreRead(s: seq<byte>, i: nat)
    requires i + 2 <= |s|
    ensures Group(Symbols(Word2(s, i))[..3] + "=", true) == Some([s[i], s[i + 1]])
  {
    var v := Word2(s, i);
    SymbolRoundTrip(First(v));
    SymbolRoundTrip(Second(v));
    SymbolRoundTrip(Third(v));
    SextetsJoin(v);
    PaddingOfTwo(s[i], s[i + 1], v);
    WordSplits(v, s[i], s[i + 1], 0);
    assert Split(v)[..2] == [s[i], s[i + 1]];
  }

  /** Whatever follows a full group is read after it. */
  lemma GroupThenRest(v: group, t: string)
    requires Decoded(t).Some?
    ensures Decoded(Symbols(v) + t) == Some(Split(v) + Decoded(t).value)
  {
    var q := Symbols(v);
    SymbolsAreRead(v, |q + t| == 4);
    assert (q + t)[..4] == q && (q + t)[4..] == t;
  }

  lemma LastGroup(t: string)
    requires |t| == 4
    ensures Decoded(t) == Group(t, true)
  {
    assert t[..4] == t && t[4..] == "";
    assert Group(t, true).Some? ==> Group(t, true).value + [] == Group(t, true).value;
  }

  lemma TailDecodes(s: seq<byte>, i: nat)
    requires i <= |s| < i + 3
    ensures Decoded(Tail(s, i)) == Some(s[i..])
  {
    if i == |s| {
      assert s[i..] == [];
    } else if i + 1 == |s| {
      OneByteIsRead(s, i);
      LastGroup(Tail(s, i));
      assert s[i..] == [s[i]];
    } else {
      TwoBytesAreRead(s, i);
      LastGroup(Tail(s, i));
      assert s[i..] == [s[i], s[i + 1]];
    }
  }

  lemma NextThreeDecode(s: seq<byte>, i: nat)
    requires i + 3 <= |s| && Decoded(EncodedFrom(s, i + 3)) == Some(s[i + 3..])
    ensures Decoded(EncodedFrom(s, i)) == Some(s[i..])
  {
    var v := Word3(s, i);
    GroupThenRest(v, EncodedFrom(s, i + 3));
    WordSplits(v, s[i], s[i + 1], s[i + 2]);
    assert s[i..] == Split(v) + s[i + 3..];
  }

  lemma {:induction false} DecodingUndoesEncodingFrom(s: seq<byte>, i: nat)
    requires i <= |s|
    ensures Decoded(EncodedFrom(s, i)) == Some(s[i..])
    decreases |s| - i
  {
    if i + 3 <= |s| {
      DecodingUndoesEncodingFrom(s, i + 3);
      NextThreeDecode(s, i);
    } else {
      TailDecodes(s, i);
    }
  }

  /** Decoding undoes encoding, for every byte string. */
  lemma DecodingUndoesEncoding(s: seq<byte>)
    ensures Decoded(Encoded(s)) == Some(s)
  {
    DecodingUndoesEncodingFrom(s, 0);
    assert s[0..] == s;
  }

  lemma {:induction false} LengthIsFourThirdsFrom(s: seq<byte>, i: nat)
    requires i <= |s|
    ensures |EncodedFrom(s, i)| == 4 * ((|s| - i + 2) / 3)
    decreases |s| - i
  {
    if i + 3 <= |s| {
      LengthIsFourThirdsFrom(s, i + 3);
    }
  }

  lemma LengthIsFourThirds(s: seq<byte>)
    ensures |Encoded(s)| == 4 * ((|s| + 2) / 3)
  {
    LengthIsFourThirdsFrom(s, 0);
  }
}

module Captcha {

  lemma OrXorIsZero(diff: bv8, a: bv8, b: bv8)
    ensures diff | (a ^ b) == 0 <==> diff == 0 && a == b
  {
  }

  /** The comparison that always runs to the end: true exactly for equal strings. */
  method ConstTimeEq(a: seq<bv8>, b: seq<bv8>) returns (equal: bool)
    ensures equal <==> a == b
  {
    if |a| != |b| {
      return false;
    }
    var diff: bv8 := 0;
    for i := 0 to |a|
      invariant diff == 0 <==> forall k | 0 <= k < i :: a[k] == b[k]
    {
      OrXorIsZero(diff, a[i], b[i]);
      diff := diff | (a[i] ^ b[i]);
    }
    return diff == 0;
  }
}
