/** The page token: the last row's name and id, a separator between them, in base64.

    Strings are sequences of bytes. Base64 is the URL alphabet without padding of
    RFC 4648, section 5. */
module PageToken {
  import opened Common

  type Byte = b: int | 0 <= b < 256

  type Bytes = seq<Byte>

  type Uuid = u: Bytes | |u| == 16 witness seq(16, _ => 0)

  // ----------------------------------------------------------------------------- base64

  type Sextet = v: int | 0 <= v < 64

  function Symbol(v: Sextet): char {
    if v < 26 then 'A' + v as char
    else if v < 52 then 'a' + (v - 26) as char
    else if v < 62 then '0' + (v - 52) as char
    else if v == 62 then '-'
    else '_'
  }

  function SextetOf(c: char): Option<Sextet> {
    if 'A' <= c <= 'Z' then Some(c as int - 'A' as int)
    else if 'a' <= c <= 'z' then Some(c as int - 'a' as int + 26)
    else if '0' <= c <= '9' then Some(c as int - '0' as int + 52)
    else if c == '-' then Some(62)
    else if c == '_' then Some(63)
    else None
  }

  lemma SymbolReadsBack(v: Sextet)
    ensures SextetOf(Symbol(v)) == Some(v)
  {
  }

  function FirstSextet(a: Byte): Sextet { a / 4 }

  function SecondSextet(a: Byte, b: Byte): Sextet { a % 4 * 16 + b / 16 }

  function ThirdSextet(b: Byte, c: Byte): Sextet { b % 16 * 4 + c / 64 }

  function FourthSextet(c: Byte): Sextet { c % 64 }

  /** Three bytes are four sextets; what is left over is padded with zero bits. */
  function Sextets(b: Bytes): seq<Sextet> {
    if |b| == 0 then []
    else if |b| == 1 then [FirstSextet(b[0]), SecondSextet(b[0], 0)]
    else if |b| == 2 then [FirstSextet(b[0]), SecondSextet(b[0], b[1]), ThirdSextet(b[1], 0)]
    else [FirstSextet(b[0]), SecondSextet(b[0], b[1]), ThirdSextet(b[1], b[2]), FourthSextet(b[2])] + Sextets(b[3..])
  }

  function FirstByte(w: int, x: int): Byte
    requires 0 <= w < 64 && 0 <= x < 64
  {
    w * 4 + x / 16
  }

  function SecondByte(x: int, y: int): Byte
    requires 0 <= x < 64 && 0 <= y < 64
  {
    x % 16 * 16 + y / 4
  }

  function ThirdByte(y: int, z: int): Byte
    requires 0 <= y < 64 && 0 <= z < 64
  {
    y % 4 * 64 + z
  }

  /** Four sextets are three bytes; two or three left over are one byte or two, and the
      bits beyond are dropped. One left over is no byte. */
  function FromSextets(v: seq<Sextet>): Option<Bytes> {
    if |v| == 0 then Some([])
    else if |v| == 1 then None
    else if |v| == 2 then Some([FirstByte(v[0], v[1])])
    else if |v| == 3 then Some([FirstByte(v[0], v[1]), SecondByte(v[1], v[2])])
    else
      var rest := FromSextets(v[4..]);
      if rest.None? then None
      else Some([FirstByte(v[0], v[1]), SecondByte(v[1], v[2]), ThirdByte(v[2], v[3])] + rest.value)
  }

  function Text(v: seq<Sextet>): string {
    if v == [] then [] else [Symbol(v[0])] + Text(v[1..])
  }

  /** Line breaks are passed over; any other character outside the alphabet is an error. */
  function FromText(s: string): Option<seq<Sextet>> {
    if s == [] then Some([])
    else if s[0] in {'\n', '\r'} then FromText(s[1..])
    else
      var rest := FromText(s[1..]);
      if SextetOf(s[0]).None? || rest.None? then None else Some([SextetOf(s[0]).value] + rest.value)
  }

  function Encode64(b: Bytes): string { Text(Sextets(b)) }

  function Decode64(s: string): Option<Bytes> {
    var v := FromText(s);
    if v.None? then None else FromSextets(v.value)
  }

  lemma {:induction false} TextReadsBack(v: seq<Sextet>)
    ensures FromText(Text(v)) == Some(v) && |Text(v)| == |v|
  {
    if v != [] {
      TextReadsBack(v[1..]);
      SymbolReadsBack(v[0]);
      assert Text(v)[1..] == Text(v[1..]);
      assert [v[0]] + v[1..] == v;
    }
  }

  lemma ThreeBytes(a: Byte, b: Byte, c: Byte)
    ensures var w, x, y, z := FirstSextet(a), SecondSextet(a, b), ThirdSextet(b, c), FourthSextet(c);
            FirstByte(w, x) == a && SecondByte(x, y) == b && ThirdByte(y, z) == c
  {
  }

  lemma {:induction false} SextetsReadBack(b: Bytes)
    ensures FromSextets(Sextets(b)) == Some(b)
    ensures b != [] ==> Sextets(b) != []
  {
    hide FirstByte, SecondByte, ThirdByte, FirstSextet, SecondSextet, ThirdSextet, FourthSextet;
    if |b| >= 3 {
      SextetsReadBack(b[3..]);
      ThreeBytes(b[0], b[1], b[2]);
      assert Sextets(b)[4..] == Sextets(b[3..]);
      assert [b[0], b[1], b[2]] + b[3..] == b;
    } else if |b| == 2 {
      ThreeBytes(b[0], b[1], 0);
      assert b == [b[0], b[1]];
    } else if |b| == 1 {
      ThreeBytes(b[0], 0, 0);
      assert b == [b[0]];
    }
  }

  lemma Base64ReadsBack(b: Bytes)
    ensures Decode64(Encode64(b)) == Some(b)
    ensures b != [] ==> Encode64(b) != ""
  {
    hide Sextets, FromSextets, Text, FromText;
    SextetsReadBack(b);
    TextReadsBack(Sextets(b));
  }

  // -------------------------------------------------------------------------------- uuid

  const HYPHEN: Byte := 45

  function HexDigit(v: int): Byte
    requires 0 <= v < 16
  {
    if v < 10 then 48 + v else 87 + v
  }

  function HexValue(c: Byte): Option<int> {
    if 48 <= c <= 57 then Some(c - 48)
    else if 97 <= c <= 102 then Some(c - 87)
    else if 65 <= c <= 70 then Some(c - 55)
    else None
  }

  function Hex(b: Bytes): (h: Bytes)
    ensures |h| == 2 * |b|
  {
    if b == [] then [] else [HexDigit(b[0] / 16), HexDigit(b[0] % 16)] + Hex(b[1..])
  }

  function FromHex(h: Bytes): Option<Bytes>
    requires |h| % 2 == 0
  {
    if h == [] then Some([])
    else
      var hi, lo, rest := HexValue(h[0]), HexValue(h[1]), FromHex(h[2..]);
      if hi.None? || lo.None? || rest.None? then None else Some([hi.value * 16 + lo.value] + rest.value)
  }

  lemma {:induction false} HexReadsBack(b: Bytes)
    ensures FromHex(Hex(b)) == Some(b)
    ensures forall i :: 0 <= i < |Hex(b)| ==> Hex(b)[i] >= 48
  {
    if b != [] {
      HexReadsBack(b[1..]);
      assert Hex(b)[2..] == Hex(b[1..]);
      assert [b[0]] + b[1..] == b;
    }
  }

  function Dashed(h: Bytes): Bytes
    requires |h| == 32
  {
    h[..8] + [HYPHEN] + h[8..12] + [HYPHEN] + h[12..16] + [HYPHEN] + h[16..20] + [HYPHEN] + h[20..]
  }

  function UuidText(u: Uuid): Bytes { Dashed(Hex(u)) }

  /** The canonical 36-character form, in either case. */
  function ParseUuid(s: Bytes): Option<Uuid> {
    if |s| != 36 || s[8] != HYPHEN || s[13] != HYPHEN || s[18] != HYPHEN || s[23] != HYPHEN then None
    else
      var u := FromHex(s[..8] + s[9..13] + s[14..18] + s[19..23] + s[24..]);
      if u.None? || |u.value| != 16 then None else Some(u.value)
  }

  lemma UndashDashed(h: Bytes)
    requires |h| == 32
    ensures var s := Dashed(h);
            && |s| == 36 && s[8] == s[13] == s[18] == s[23] == HYPHEN
            && s[..8] + s[9..13] + s[14..18] + s[19..23] + s[24..] == h
    ensures (forall i :: 0 <= i < 32 ==> h[i] >= 48) ==> 0 !in Dashed(h)
  {
    var s := Dashed(h);
    assert s[..8] == h[..8] && s[9..13] == h[8..12] && s[14..18] == h[12..16] && s[19..23] == h[16..20] && s[24..] == h[20..];
    assert h == h[..8] + h[8..12] + h[12..16] + h[16..20] + h[20..];
  }

  lemma UuidReadsBack(u: Uuid)
    ensures ParseUuid(UuidText(u)) == Some(u) && 0 !in UuidText(u)
  {
    hide Hex, FromHex, Dashed;
    HexReadsBack(u);
    UndashDashed(Hex(u));
  }

  // ------------------------------------------------------------------------------- token

  datatype Key = Key(name: Bytes, id: Uuid)

  /** Where a byte was last seen, or the length when it was not. */
  function LastIndex(s: Bytes, c: Byte): (i: nat)
    ensures i <= |s|
    ensures i < |s| ==> s[i] == c
    ensures forall j :: i < j < |s| ==> s[j] != c
    ensures i == |s| ==> c !in s
  {
    if s == [] then 0
    else
      var n := |s| - 1;
      if s[n] == c then n
      else
        var i := LastIndex(s[..n], c);
        assert c !in s[..n] ==> c !in s;
        if i == n then |s| else i
  }

  function EncodeToken(k: Key): string { Encode64(k.name + [0] + UuidText(k.id)) }

  function DecodeToken(token: string): Option<Key> {
    var raw := Decode64(token);
    if raw.None? then None
    else
      var i := LastIndex(raw.value, 0);
      if i == |raw.value| then None
      else
        var id := ParseUuid(raw.value[i + 1..]);
        if id.None? then None else Some(Key(raw.value[..i], id.value))
  }

  lemma {:induction false} SeparatorFound(name: Bytes, rest: Bytes)
    requires 0 !in rest
    ensures LastIndex(name + [0] + rest, 0) == |name|
    decreases |rest|
  {
    var raw := name + [0] + rest;
    if rest == [] {
      assert raw == name + [0];
    } else {
      var n := |rest| - 1;
      assert raw[..|raw| - 1] == name + [0] + rest[..n] && raw[|raw| - 1] == rest[n];
      SeparatorFound(name, rest[..n]);
    }
  }

  /** A token reads back as the key it was made of, whatever bytes the name holds, the
      separator among them; and it is never the empty token that asks for a first page. */
  lemma TokenReadsBack(k: Key)
    ensures DecodeToken(EncodeToken(k)) == Some(k) && EncodeToken(k) != ""
  {
    hide Encode64, Decode64, UuidText, ParseUuid;
    var raw := k.name + [0] + UuidText(k.id);
    Base64ReadsBack(raw);
    UuidReadsBack(k.id);
    SeparatorFound(k.name, UuidText(k.id));
    assert raw[..|k.name|] == k.name && raw[|k.name| + 1..] == UuidText(k.id);
  }
}
