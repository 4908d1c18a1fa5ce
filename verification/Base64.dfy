/** The standard base64 encoding of section 4 of RFC 4648, with the strict decoding
    of Go's `base64.StdEncoding.Strict()`. */
module Base64 {
  import opened Text

  type Byte = b: int | 0 <= b < 256

  /* ---- The alphabet ---- */

  function Symbol(v: nat): char
    requires v < 64
  {
    if v < 26 then 'A' + v as char
    else if v < 52 then 'a' + (v - 26) as char
    else if v < 62 then '0' + (v - 52) as char
    else if v == 62 then '+'
    else '/'
  }

  function Value(c: char): (v: Option<nat>)
    ensures v.Some? ==> v.value < 64
  {
    if 'A' <= c <= 'Z' then Some((c - 'A') as nat)
    else if 'a' <= c <= 'z' then Some((c - 'a') as nat + 26)
    else if '0' <= c <= '9' then Some((c - '0') as nat + 52)
    else if c == '+' then Some(62)
    else if c == '/' then Some(63)
    else None
  }

  lemma ValueSymbol(v: nat)
    requires v < 64
    ensures Value(Symbol(v)) == Some(v)
  {
  }

  lemma SymbolValue(c: char)
    ensures Value(c).Some? ==> Symbol(Value(c).value) == c
  {
  }

  /* ---- Groups ---- */

  function EncodeGroup(g: seq<Byte>): string
    requires 1 <= |g| <= 3
  {
    if |g| == 1 then [Symbol(g[0] / 4), Symbol(g[0] % 4 * 16), '=', '=']
    else if |g| == 2 then [Symbol(g[0] / 4), Symbol(g[0] % 4 * 16 + g[1] / 16), Symbol(g[1] % 16 * 4), '=']
    else [Symbol(g[0] / 4), Symbol(g[0] % 4 * 16 + g[1] / 16), Symbol(g[1] % 16 * 4 + g[2] / 64), Symbol(g[2] % 64)]
  }

  /** The bytes of one group; strict decoding refuses stray bits before padding. */
  function DecodeGroup(q: string): (g: Option<seq<Byte>>)
    requires |q| == 4
    ensures g.Some? ==> 1 <= |g.value| <= 3
  {
    var a, b, c, d := Value(q[0]), Value(q[1]), Value(q[2]), Value(q[3]);
    if a == None || b == None then None
    else
      var first: Byte := a.value * 4 + b.value / 16;
      if q[2] == '=' then
        if q[3] == '=' && b.value % 16 == 0 then Some([first]) else None
      else if c == None then None
      else
        var second: Byte := b.value % 16 * 16 + c.value / 4;
        if q[3] == '=' then
          if c.value % 4 == 0 then Some([first, second]) else None
        else if d == None then None
        else Some([first, second, c.value % 4 * 64 + d.value])
  }

  lemma DecodeEncodeGroup(g: seq<Byte>)
    requires 1 <= |g| <= 3
    ensures DecodeGroup(EncodeGroup(g)) == Some(g)
    ensures |g| == 3 ==> EncodeGroup(g)[3] != '='
  {
    hide Value, Symbol;
    assert Value('=') == None by { EqualsIsNoSymbol(); }
    ValueSymbol(g[0] / 4);
    if |g| == 1 {
      ValueSymbol(g[0] % 4 * 16);
      assert g == [g[0]];
    } else {
      ValueSymbol(g[0] % 4 * 16 + g[1] / 16);
      if |g| == 2 {
        ValueSymbol(g[1] % 16 * 4);
        assert g == [g[0], g[1]];
      } else {
        ValueSymbol(g[1] % 16 * 4 + g[2] / 64);
        ValueSymbol(g[2] % 64);
        assert g == [g[0], g[1], g[2]];
      }
    }
  }

  lemma EqualsIsNoSymbol()
    ensures Value('=') == None
  {
  }

  lemma EncodeDecodeGroup(q: string)
    requires |q| == 4 && DecodeGroup(q).Some?
    ensures EncodeGroup(DecodeGroup(q).value) == q
    ensures |DecodeGroup(q).value| == 3 <==> q[3] != '='
  {
    hide Value, Symbol;
    assert Value('=') == None by { EqualsIsNoSymbol(); }
    SymbolValue(q[0]);
    SymbolValue(q[1]);
    SymbolValue(q[2]);
    SymbolValue(q[3]);
  }

  /* ---- Whole texts ---- */

  function Encode(data: seq<Byte>): string {
    if data == [] then ""
    else if |data| <= 3 then EncodeGroup(data)
    else EncodeGroup(data[..3]) + Encode(data[3..])
  }

  /** Padding ends the text. */
  function DecodeQuads(s: string): Option<seq<Byte>> {
    if s == "" then Some([])
    else if |s| < 4 then None
    else match DecodeGroup(s[..4])
      case None => None
      case Some(g) =>
        if |g| < 3 then (if |s| == 4 then Some(g) else None)
        else match DecodeQuads(s[4..])
          case None => None
          case Some(rest) => Some(g + rest)
  }

  predicate IsNewline(c: char) {
    c == '\n' || c == '\r'
  }

  /** The decoder ignores line breaks wherever they stand. */
  function WithoutNewlines(s: string): string {
    if s == "" then "" else (if IsNewline(s[0]) then "" else [s[0]]) + WithoutNewlines(s[1..])
  }

  function Decode(s: string): Option<seq<Byte>> {
    DecodeQuads(WithoutNewlines(s))
  }

  lemma {:induction false} DecodeEncode(data: seq<Byte>)
    ensures DecodeQuads(Encode(data)) == Some(data)
  {
    hide EncodeGroup, DecodeGroup;
    if data != [] {
      var g := if |data| <= 3 then data else data[..3];
      DecodeEncodeGroup(g);
      EncodeGroupQuad(g);
      if |data| > 3 {
        DecodeEncode(data[3..]);
        var s := Encode(data);
        assert s[..4] == EncodeGroup(g) && s[4..] == Encode(data[3..]);
        assert data[..3] + data[3..] == data;
      } else {
        assert Encode(data)[..4] == EncodeGroup(g) && Encode(data)[4..] == "";
        assert g + [] == data;
      }
    }
  }

  lemma EncodeGroupQuad(g: seq<Byte>)
    requires 1 <= |g| <= 3
    ensures |EncodeGroup(g)| == 4
  {
  }

  lemma {:induction false} EncodeDecode(s: string)
    requires DecodeQuads(s).Some?
    ensures Encode(DecodeQuads(s).value) == s
  {
    hide EncodeGroup, DecodeGroup;
    if s != "" {
      var g := DecodeGroup(s[..4]).value;
      EncodeDecodeGroup(s[..4]);
      if |g| < 3 {
        assert s[..4] == s;
      } else {
        EncodeDecode(s[4..]);
        var rest := DecodeQuads(s[4..]).value;
        assert s == s[..4] + s[4..];
        if rest == [] {
          assert g + rest == g;
        } else {
          assert (g + rest)[..3] == g && (g + rest)[3..] == rest;
        }
      }
    }
  }

  /** Strict decoding accepts exactly the encodings, and inverts them. */
  lemma {:induction false} DecodeIff(s: string, data: seq<Byte>)
    ensures Decode(s) == Some(data) <==> WithoutNewlines(s) == Encode(data)
  {
    if Decode(s) == Some(data) {
      EncodeDecode(WithoutNewlines(s));
    }
    DecodeEncode(data);
  }

  predicate IsBase64Char(c: char) {
    Value(c).Some? || c == '='
  }

  lemma EncodeGroupChars(g: seq<Byte>)
    requires 1 <= |g| <= 3
    ensures forall i :: 0 <= i < |EncodeGroup(g)| ==> IsBase64Char(EncodeGroup(g)[i])
  {
    hide Value, Symbol;
    forall v: nat | v < 64 ensures Value(Symbol(v)).Some? { ValueSymbol(v); }
  }

  lemma {:induction false} EncodeChars(data: seq<Byte>)
    ensures forall i :: 0 <= i < |Encode(data)| ==> IsBase64Char(Encode(data)[i])
    ensures data != [] ==> Encode(data) != ""
  {
    hide EncodeGroup, IsBase64Char;
    if data != [] {
      var g := if |data| <= 3 then data else data[..3];
      EncodeGroupChars(g);
      EncodeGroupQuad(g);
      if |data| > 3 { EncodeChars(data[3..]); }
    }
  }

  lemma {:induction false} NoNewlinesKept(s: string)
    requires forall i :: 0 <= i < |s| ==> !IsNewline(s[i])
    ensures WithoutNewlines(s) == s
  {
    if s != "" {
      NoNewlinesKept(s[1..]);
    }
  }

  lemma {:induction false} DecodeOfEncode(data: seq<Byte>)
    ensures Decode(Encode(data)) == Some(data)
  {
    EncodeChars(data);
    var s := Encode(data);
    forall i | 0 <= i < |s| ensures !IsNewline(s[i]) {
      assert IsBase64Char(s[i]);
    }
    NoNewlinesKept(s);
    DecodeEncode(data);
  }
}
