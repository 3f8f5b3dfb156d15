/** Percent-encoding of query parameters. */
module UrlEncoding {
  import opened Bytes
  import opened Results

  // ---- The encoder ----

  predicate Alphanumeric(c: byte) { 48 <= c <= 57 || 65 <= c <= 90 || 97 <= c <= 122 }

  /** Letters, digits, '-', '_', '.' and '~'. */
  predicate Unreserved(c: byte) { Alphanumeric(c) || c == 45 || c == 95 || c == 46 || c == 126 }

  const HEX := "0123456789ABCDEF"

  function Escaped(c: byte): string { if Unreserved(c) then [c as char] else ['%', HEX[c / 16], HEX[c % 16]] }

  function Encoded(s: seq<byte>): string { if s == [] then "" else Escaped(s[0]) + Encoded(s[1..]) }

  lemma EncodedFrom(s: seq<byte>, i: nat)
    requires i < |s|
    ensures Encoded(s[i..]) == Escaped(s[i]) + Encoded(s[i + 1..])
  {
    assert s[i..][1..] == s[i + 1..];
  }

  method UrlEncode(s: seq<byte>) returns (out: string)
    ensures out == Encoded(s)
    ensures Decoded(out) == Some(s) && WellFormed(out)
  {
    out := EncodeAll(s);
    DecodingUndoesEncoding(s);
    OutputIsWellFormed(s);
  }

  /** The loop of the encoder. */
  method EncodeAll(s: seq<byte>) returns (out: string)
    ensures out == Encoded(s)
  {
    out := "";
    for i := 0 to |s|
      invariant out + Encoded(s[i..]) == Encoded(s)
    {
      EncodedFrom(s, i);
      ghost var before := out;
      var c := s[i];
      if Alphanumeric(c) || c == 45 || c == 95 || c == 46 || c == 126 {
        out := out + [c as char];
      } else {
        var high, low := HEX[c / 16], HEX[c % 16];
        out := out + ['%'];
        out := out + [high];
        out := out + [low];
        ThreeAppended(before, '%', high, low);
      }
      assert out == before + Escaped(c);
      AppendedInTurn(before, Escaped(c), Encoded(s[i + 1..]));
    }
  }

  lemma ThreeAppended(t: string, x: char, y: char, z: char)
    ensures t + [x] + [y] + [z] == t + [x, y, z]
  {
  }

  lemma AppendedInTurn(t: string, u: string, v: string)
    ensures t + u + v == t + (u + v)
  {
  }

  // ---- The decoder of RFC 3986, section 2.1 ----

  function HexValue(c: char): Option<nat> {
    if '0' <= c <= '9' then Some(c as int - '0' as int)
    else if 'A' <= c <= 'F' then Some(c as int - 'A' as int + 10)
    else if 'a' <= c <= 'f' then Some(c as int - 'a' as int + 10)
    else None
  }

  /** One encoded byte and the number of characters it takes; None when it is malformed. */
  function FirstByte(t: string): Option<(byte, nat)>
    requires t != ""
  {
    if t[0] != '%' then
      if t[0] as int < 128 then Some((t[0] as int, 1)) else None
    else if |t| < 3 then None
    else
      var high, low := HexValue(t[1]), HexValue(t[2]);
      if high.None? || low.None? || high.value >= 16 || low.value >= 16 then None
      else Some((16 * high.value + low.value, 3))
  }

  function Decoded(t: string): Option<seq<byte>>
    decreases |t|
  {
    if t == "" then Some([])
    else
      match FirstByte(t)
      case None => None
      case Some((c, n)) =>
        if n == 0 || n > |t| then None
        else
          var rest := Decoded(t[n..]);
          if rest.None? then None else Some([c] + rest.value)
  }

  /** Only unreserved characters and triplets of '%' and two upper-case hexadecimal digits. */
  predicate WellFormed(t: string)
    decreases |t|
  {
    if t == "" then true
    else if t[0] == '%' then |t| >= 3 && t[1] in HEX && t[2] in HEX && WellFormed(t[3..])
    else t[0] as int < 128 && Unreserved(t[0] as int) && WellFormed(t[1..])
  }

  lemma HexDigits(d: int)
    requires 0 <= d < 16
    ensures HexValue(HEX[d]) == Some(d)
  {
    assert HEX[0] == '0' && HEX[1] == '1' && HEX[2] == '2' && HEX[3] == '3';
    assert HEX[4] == '4' && HEX[5] == '5' && HEX[6] == '6' && HEX[7] == '7';
    assert HEX[8] == '8' && HEX[9] == '9' && HEX[10] == 'A' && HEX[11] == 'B';
    assert HEX[12] == 'C' && HEX[13] == 'D' && HEX[14] == 'E' && HEX[15] == 'F';
  }

  lemma EscapedIsRead(c: byte, t: string)
    ensures FirstByte(Escaped(c) + t) == Some((c, |Escaped(c)|))
  {
    HexDigits(c / 16);
    HexDigits(c % 16);
  }

  /** Decoding undoes encoding, for every byte string. */
  lemma {:induction false} DecodingUndoesEncoding(s: seq<byte>)
    ensures Decoded(Encoded(s)) == Some(s)
  {
    if s != [] {
      var e, t := Escaped(s[0]), Encoded(s[1..]);
      EscapedIsRead(s[0], t);
      DecodingUndoesEncoding(s[1..]);
      assert (e + t)[|e|..] == t;
      assert s == [s[0]] + s[1..];
    }
  }

  /** What is sent holds unreserved characters and triplets only. */
  lemma {:induction false} OutputIsWellFormed(s: seq<byte>)
    ensures WellFormed(Encoded(s))
  {
    if s != [] {
      var e, t := Escaped(s[0]), Encoded(s[1..]);
      OutputIsWellFormed(s[1..]);
      assert (e + t)[|e|..] == t;
    }
  }

  /** No two parameters look alike on the wire. */
  lemma EncodingIsInjective(s: seq<byte>, s': seq<byte>)
    requires Encoded(s) == Encoded(s')
    ensures s == s'
  {
    DecodingUndoesEncoding(s);
    DecodingUndoesEncoding(s');
  }

  // ---- What is escaped ----

  /** The unreserved characters of section 2.3 of RFC 3986, as characters. */
  lemma UnreservedAreTheseCharacters(c: byte)
    ensures var ch := c as char;
            Unreserved(c) <==> 'A' <= ch <= 'Z' || 'a' <= ch <= 'z' || '0' <= ch <= '9'
                               || ch == '-' || ch == '_' || ch == '.' || ch == '~'
  {
  }

  /** Number of reserved bytes among those from i on. */
  function Reserved(s: seq<byte>): nat {
    if s == [] then 0 else Reserved(s[1..]) + if Unreserved(s[0]) then 0 else 1
  }

  /** Exactly the reserved bytes are escaped, with three characters each: nothing else grows. */
  lemma {:induction false} OnlyReservedGrow(s: seq<byte>)
    ensures |Encoded(s)| == |s| + 2 * Reserved(s)
    ensures Reserved(s) == 0 <==> forall i | 0 <= i < |s| :: Unreserved(s[i])
    ensures Reserved(s) == 0 ==> forall i | 0 <= i < |s| :: Encoded(s)[i] == s[i] as char
  {
    if s != [] {
      var rest := s[1..];
      OnlyReservedGrow(rest);
      assert s == [s[0]] + rest;
      if Reserved(s) == 0 {
        forall i | 0 <= i < |s| ensures Unreserved(s[i]) && Encoded(s)[i] == s[i] as char {
          assert i > 0 ==> s[i] == rest[i - 1];
        }
      }
      if forall i | 0 <= i < |s| :: Unreserved(s[i]) {
        forall i | 0 <= i < |rest| ensures Unreserved(rest[i]) { assert rest[i] == s[i + 1]; }
      }
    }
  }
}
