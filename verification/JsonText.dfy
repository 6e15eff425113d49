/**
 JSON documents and their compact text: what the streaming writer is meant to produce, and a reader
 (RFC 8259 without insignificant whitespace, fractions and exponents) that takes the text back.
 */
module JsonText {
  import opened Bytes
  import opened Options

  datatype Json =
    | Null
    | Bool(b: bool)
    | Int(n: int)
    | Str(s: string)
    | Blob(data: seq<byte>)
    | Arr(items: seq<Json>)
    | Obj(members: seq<(string, Json)>)

  // ----------------------------------------------------------------- strings (section 7 of RFC 8259)

  function HexDigit(d: nat): char
    requires d < 16
  {
    if d < 10 then '0' + d as char else 'a' + (d - 10) as char
  }

  /** How one character of a string is written. */
  function EscapeChar(c: char): (r: string)
  {
    if c == '"' then "\\\""
    else if c == '\\' then "\\\\"
    else if c == '\n' then "\\n"
    else if c == '\r' then "\\r"
    else if c == '\t' then "\\t"
    else if c < ' ' then ['\\', 'u', '0', '0', HexDigit(c as int / 16), HexDigit(c as int % 16)]
    else [c]
  }

  function Escape(s: string): string {
    if s == [] then [] else Escape(s[..|s| - 1]) + EscapeChar(s[|s| - 1])
  }

  function Quoted(s: string): string {
    "\"" + Escape(s) + "\""
  }

  function HexValue(c: char): (r: Option<nat>)
    ensures r.Some? ==> r.value < 16
  {
    if '0' <= c <= '9' then Some(c as int - '0' as int)
    else if 'a' <= c <= 'f' then Some(c as int - 'a' as int + 10)
    else if 'A' <= c <= 'F' then Some(c as int - 'A' as int + 10)
    else None
  }

  /** The escape sequence behind a backslash: its character and its length. Only \u00XX is needed here. */
  function ReadEscape(t: string): (r: Option<(char, nat)>)
    ensures r.Some? ==> 1 <= r.value.1 <= |t|
  {
    if t == [] then None
    else if t[0] == '"' || t[0] == '\\' || t[0] == '/' then Some((t[0], 1))
    else if t[0] == 'b' then Some((8 as char, 1))
    else if t[0] == 'f' then Some((12 as char, 1))
    else if t[0] == 'n' then Some(('\n', 1))
    else if t[0] == 'r' then Some(('\r', 1))
    else if t[0] == 't' then Some(('\t', 1))
    else if t[0] == 'u' && |t| >= 5 && t[1] == '0' && t[2] == '0' then
      var hi, lo := HexValue(t[3]), HexValue(t[4]);
      if hi.None? || lo.None? then None else Some(((16 * hi.value + lo.value) as char, 5))
    else None
  }

  /** The string whose opening quote is just before `t`, and what follows its closing quote. A bare control
      character is refused, and a quote that is not escaped ends the string. */
  function ReadString(t: string): (r: Option<(string, string)>)
    ensures r.Some? ==> |r.value.1| < |t|
    decreases |t|
  {
    if t == [] || t[0] < ' ' then None
    else if t[0] == '"' then Some(("", t[1..]))
    else if t[0] == '\\' then
      var e := ReadEscape(t[1..]);
      if e.None? then None
      else
        var r := ReadString(t[1 + e.value.1..]);
        if r.None? then None else Some(([e.value.0] + r.value.0, r.value.1))
    else
      var r := ReadString(t[1..]);
      if r.None? then None else Some(([t[0]] + r.value.0, r.value.1))
  }

  lemma {:induction false} EscapeFront(s: string)
    requires s != []
    ensures Escape(s) == EscapeChar(s[0]) + Escape(s[1..])
  {
    if |s| > 1 {
      EscapeFront(s[..|s| - 1]);
      assert s[1..][..|s| - 2] == s[..|s| - 1][1..];
    }
  }

  /** What reading does with one more character `c` in front of a result. */
  function Prepend(c: char, r: Option<(string, string)>): Option<(string, string)> {
    if r.None? then None else Some(([c] + r.value.0, r.value.1))
  }

  lemma {:induction false} ReadEscapeSequence(c: char, n: nat, e: string, t: string)
    requires |e| == n && ReadEscape(e + t) == Some((c, n))
    ensures ReadString(['\\'] + e + t) == Prepend(c, ReadString(t))
  {
    hide ReadEscape;
    var u := ['\\'] + e + t;
    assert u[1..] == e + t;
    assert u[1 + n..] == t;
  }

  lemma {:induction false} ReadControlEscape(c: char, t: string)
    requires c < ' ' && c != '\n' && c != '\r' && c != '\t'
    ensures ReadEscape(EscapeChar(c)[1..] + t) == Some((c, 5))
  {
    var u := EscapeChar(c)[1..] + t;
    assert u[3] == HexDigit(c as int / 16) && u[4] == HexDigit(c as int % 16);
  }

  lemma {:induction false} ReadPlainChar(c: char, t: string)
    requires c >= ' ' && c != '"' && c != '\\'
    ensures ReadString([c] + t) == Prepend(c, ReadString(t))
  {
    assert ([c] + t)[1..] == t;
  }

  /** One escaped character is read back as that character. */
  lemma {:induction false} ReadEscapedChar(c: char, t: string)
    ensures ReadString(EscapeChar(c) + t) == Prepend(c, ReadString(t))
  {
    hide ReadString;
    var e := EscapeChar(c)[1..];
    if |EscapeChar(c)| == 1 {
      ReadPlainChar(c, t);
    } else {
      if |EscapeChar(c)| == 6 {
        ReadControlEscape(c, t);
      }
      ReadEscapeSequence(c, |e|, e, t);
      assert ['\\'] + e == EscapeChar(c);
    }
  }

  /** Reading undoes escaping: the text between the quotes gives the string back, whatever follows it. */
  lemma {:induction false} ReadEscaped(s: string, rest: string)
    ensures ReadString(Escape(s) + "\"" + rest) == Some((s, rest))
    decreases |s|
  {
    hide EscapeChar, ReadEscape;
    if s == [] {
      assert Escape(s) + "\"" + rest == "\"" + rest;
    } else {
      EscapeFront(s);
      var t := Escape(s[1..]) + "\"" + rest;
      assert Escape(s) + "\"" + rest == EscapeChar(s[0]) + t;
      ReadEscapedChar(s[0], t);
      ReadEscaped(s[1..], rest);
      assert [s[0]] + s[1..] == s;
    }
  }

  // ----------------------------------------------------------------- integers

  function Digit(d: nat): char
    requires d < 10
  {
    '0' + d as char
  }

  predicate IsDigit(c: char) {
    '0' <= c <= '9'
  }

  function DigitValue(c: char): nat
    requires IsDigit(c)
  {
    c as int - '0' as int
  }

  function Digits(n: nat): (t: string)
    ensures |t| >= 1 && forall i | 0 <= i < |t| :: IsDigit(t[i])
  {
    if n < 10 then [Digit(n)] else Digits(n / 10) + [Digit(n % 10)]
  }

  function Decimal(n: int): string {
    if n < 0 then "-" + Digits(-n) else Digits(n)
  }

  /** The number that continues `v` with the digits at the front of `t`, and the rest. */
  function ReadDigits(v: nat, t: string): (r: (nat, string))
    ensures |r.1| <= |t| && (t != [] && IsDigit(t[0]) ==> |r.1| < |t|)
    decreases |t|
  {
    if t == [] || !IsDigit(t[0]) then (v, t) else ReadDigits(10 * v + DigitValue(t[0]), t[1..])
  }

  function ReadInt(t: string): (r: Option<(int, string)>)
    ensures r.Some? ==> |r.value.1| < |t|
  {
    if t != [] && IsDigit(t[0]) then
      var (v, rest) := ReadDigits(0, t);
      Some((v as int, rest))
    else if |t| >= 2 && t[0] == '-' && IsDigit(t[1]) then
      var (v, rest) := ReadDigits(0, t[1..]);
      Some((-(v as int), rest))
    else None
  }

  /** What follows a value in a document: never another digit. */
  predicate Ends(rest: string) {
    rest == [] || !IsDigit(rest[0])
  }

  lemma {:induction false} ReadDigitsAppend(v: nat, t: string, d: char, rest: string)
    requires (forall i | 0 <= i < |t| :: IsDigit(t[i])) && IsDigit(d) && Ends(rest)
    ensures ReadDigits(v, t + [d] + rest) == (10 * ReadDigits(v, t).0 + DigitValue(d), rest)
    decreases |t|
  {
    var u := t + [d] + rest;
    if t == [] {
      assert u[0] == d && u[1..] == rest;
    } else {
      ReadDigitsAppend(10 * v + DigitValue(t[0]), t[1..], d, rest);
      assert u[1..] == t[1..] + [d] + rest;
    }
  }

  lemma {:induction false} ReadAllDigits(n: nat, rest: string)
    requires Ends(rest)
    ensures ReadDigits(0, Digits(n) + rest) == (n, rest)
  {
    if n < 10 {
      assert Digits(n) + rest == [] + [Digit(n)] + rest;
      ReadDigitsAppend(0, [], Digit(n), rest);
    } else {
      assert Digits(n / 10) + [] == Digits(n / 10);
      ReadAllDigits(n / 10, []);
      ReadDigitsAppend(0, Digits(n / 10), Digit(n % 10), rest);
    }
  }

  /** A printed integer is read back. */
  lemma {:induction false} ReadDecimal(n: int, rest: string)
    requires Ends(rest)
    ensures ReadInt(Decimal(n) + rest) == Some((n, rest))
  {
    hide ReadDigits, Digits;
    if n < 0 {
      ReadAllDigits(-n, rest);
      assert (Decimal(n) + rest)[1..] == Digits(-n) + rest;
    } else {
      ReadAllDigits(n, rest);
    }
  }

  /** A number below 10^k has at most k digits. */
  function Pow10(k: nat): nat {
    if k == 0 then 1 else 10 * Pow10(k - 1)
  }

  lemma {:induction false} DigitsFit(n: nat, k: nat)
    requires k >= 1 && n < Pow10(k)
    ensures |Digits(n)| <= k
  {
    if n >= 10 {
      assert Pow10(1) == 10;
      assert k != 1;
      DigitsFit(n / 10, k - 1);
    }
  }

  // ----------------------------------------------------------------- base64 (section 4 of RFC 4648)

  function Letter(v: nat): char
    requires v < 64
  {
    if v < 26 then 'A' + v as char
    else if v < 52 then 'a' + (v - 26) as char
    else if v < 62 then '0' + (v - 52) as char
    else if v == 62 then '+'
    else '/'
  }

  function LetterValue(c: char): (r: Option<nat>)
    ensures r.Some? ==> r.value < 64
  {
    if 'A' <= c <= 'Z' then Some(c as int - 'A' as int)
    else if 'a' <= c <= 'z' then Some(c as int - 'a' as int + 26)
    else if '0' <= c <= '9' then Some(c as int - '0' as int + 52)
    else if c == '+' then Some(62)
    else if c == '/' then Some(63)
    else None
  }

  lemma {:induction false} LetterReadBack(v: nat)
    requires v < 64
    ensures LetterValue(Letter(v)) == Some(v) && Letter(v) != '='
  {
  }

  /** Three bytes as one 24-bit number. */
  function Triple(b0: byte, b1: byte, b2: byte): nat {
    0x1_0000 * b0 + 0x100 * b1 + b2
  }

  /** The `k`-th group of six bits of a 24-bit number. */
  function Sextet(t: nat, k: nat): (v: nat)
    requires k < 4
    ensures v < 64
  {
    match k
    case 0 => t / 0x4_0000 % 64
    case 1 => t / 0x1000 % 64
    case 2 => t / 0x40 % 64
    case _ => t % 64
  }

  /** The first `n` of three bytes as four letters, padded with '='. */
  function Quad(n: nat, t: nat): (q: string)
    requires 1 <= n <= 3
    ensures |q| == 4
  {
    [Letter(Sextet(t, 0)), Letter(Sextet(t, 1)),
     if n >= 2 then Letter(Sextet(t, 2)) else '=',
     if n >= 3 then Letter(Sextet(t, 3)) else '=']
  }

  /** The number that the next up to three bytes make; missing ones are 0. */
  function NextTriple(data: seq<byte>): nat
    requires data != []
  {
    Triple(data[0], if |data| > 1 then data[1] else 0, if |data| > 2 then data[2] else 0)
  }

  function GroupSize(data: seq<byte>): nat {
    if |data| < 3 then |data| else 3
  }

  function Base64(data: seq<byte>): string {
    if data == [] then ""
    else Quad(GroupSize(data), NextTriple(data)) + Base64(data[GroupSize(data)..])
  }

  /** Four letters for every three bytes begun. */
  lemma {:induction false} Base64Length(data: seq<byte>)
    ensures |Base64(data)| == 4 * ((|data| + 2) / 3)
    decreases |data|
  {
    hide Quad, NextTriple;
    if data != [] {
      var n := GroupSize(data);
      Base64Length(data[n..]);
      assert n < 3 ==> data[n..] == [];
      assert n == 3 ==> (|data| + 2) / 3 == 1 + (|data| - 3 + 2) / 3;
    }
  }

  function Value64(c: char): nat {
    if LetterValue(c).Some? then LetterValue(c).value else 0
  }

  /** Reads padded base64; the padding may only stand at the end. */
  function ReadBase64(t: string): Option<seq<byte>> {
    if t == [] then Some([])
    else if |t| < 4 || LetterValue(t[0]).None? || LetterValue(t[1]).None? then None
    else
      var n := Value64(t[0]) * 0x4_0000 + Value64(t[1]) * 0x1000 + Value64(t[2]) * 0x40 + Value64(t[3]);
      var b0, b1, b2 := n / 0x1_0000 % 256, n / 0x100 % 256, n % 256;
      if |t| == 4 && t[2] == '=' && t[3] == '=' then Some([b0])
      else if LetterValue(t[2]).None? then None
      else if |t| == 4 && t[3] == '=' then Some([b0, b1])
      else if LetterValue(t[3]).None? then None
      else
        var r := ReadBase64(t[4..]);
        if r.None? then None else Some([b0, b1, b2] + r.value)
  }

  lemma {:induction false} SextetsOfTriple(t: nat)
    requires t < 0x100_0000
    ensures t == Sextet(t, 0) * 0x4_0000 + Sextet(t, 1) * 0x1000 + Sextet(t, 2) * 0x40 + Sextet(t, 3)
  {
    var a, b, c := t / 0x40, t / 0x1000, t / 0x4_0000;
    assert t == 64 * a + t % 64;
    assert b == a / 64 && a == 64 * b + a % 64;
    assert c == b / 64 && b == 64 * c + b % 64;
    assert c < 64;
  }

  lemma {:induction false} BytesOfTriple(b0: byte, b1: byte, b2: byte)
    ensures var t := Triple(b0, b1, b2);
      t < 0x100_0000 && t / 0x1_0000 % 256 == b0 && t / 0x100 % 256 == b1 && t % 256 == b2
  {
    var t := Triple(b0, b1, b2);
    assert t / 0x100 == 0x100 * b0 + b1;
    assert t / 0x1_0000 == b0;
  }

  /** The letters that padding replaces are zero. */
  lemma {:induction false} PaddingIsZero(b0: byte, b1: byte)
    ensures Sextet(Triple(b0, b1, 0), 3) == 0 && Sextet(Triple(b0, 0, 0), 2) == 0
  {
    assert Triple(b0, b1, 0) == 64 * (0x400 * b0 + 4 * b1);
    assert Triple(b0, 0, 0) / 0x40 == 64 * (0x10 * b0);
  }

  lemma {:induction false} QuadReadBack(data: seq<byte>, rest: string)
    requires data != [] && (|data| < 3 ==> rest == [])
    ensures ReadBase64(Quad(GroupSize(data), NextTriple(data)) + rest) ==
      (var r := ReadBase64(rest); if r.None? then None else Some(data[..GroupSize(data)] + r.value))
  {
    hide Triple, Sextet, Letter, LetterValue;
    var b1, b2 := if |data| > 1 then data[1] else 0, if |data| > 2 then data[2] else 0;
    var t := NextTriple(data);
    BytesOfTriple(data[0], b1, b2);
    SextetsOfTriple(t);
    PaddingIsZero(data[0], b1);
    LetterReadBack(Sextet(t, 0));
    LetterReadBack(Sextet(t, 1));
    LetterReadBack(Sextet(t, 2));
    LetterReadBack(Sextet(t, 3));
    PadIsNoLetter();
    var n := GroupSize(data);
    var u := Quad(n, t) + rest;
    assert u[4..] == rest;
    assert u[0] == Letter(Sextet(t, 0)) && u[1] == Letter(Sextet(t, 1));
    assert n < 3 ==> u[3] == '=' && Value64(u[3]) == 0 && Sextet(t, 3) == 0;
    assert n < 2 ==> u[2] == '=' && Value64(u[2]) == 0 && Sextet(t, 2) == 0;
    assert n >= 2 ==> u[2] == Letter(Sextet(t, 2));
    assert n >= 3 ==> u[3] == Letter(Sextet(t, 3));
    assert t == Value64(u[0]) * 0x4_0000 + Value64(u[1]) * 0x1000 + Value64(u[2]) * 0x40 + Value64(u[3]);
    assert data[..n] == (if n == 1 then [data[0]] else if n == 2 then [data[0], b1] else [data[0], b1, b2]);
    if n < 3 {
      assert data[..n] + [] == data[..n];
    }
  }

  lemma {:induction false} PadIsNoLetter()
    ensures LetterValue('=') == None
  {
  }

  /** Decoding undoes encoding. */
  lemma {:induction false} Base64ReadBack(data: seq<byte>)
    ensures ReadBase64(Base64(data)) == Some(data)
    decreases |data|
  {
    hide ReadBase64, Quad, NextTriple;
    if data == [] {
      NothingReadBack();
    } else {
      var n := GroupSize(data);
      Base64ReadBack(data[n..]);
      QuadReadBack(data, Base64(data[n..]));
      assert data[..n] + data[n..] == data;
    }
  }

  lemma {:induction false} NothingReadBack()
    ensures Base64([]) == "" && ReadBase64("") == Some([])
  {
  }

  // ----------------------------------------------------------------- documents

  /** The compact text of a document. */
  function Text(v: Json): string
    decreases v, 1
  {
    match v
    case Null => "null"
    case Bool(b) => if b then "true" else "false"
    case Int(n) => Decimal(n)
    case Str(s) => Quoted(s)
    case Blob(data) => "\"" + Base64(data) + "\""
    case Arr(items) => "[" + (if items == [] then "" else Text(items[0]) + MoreItems(items[1..])) + "]"
    case Obj(members) =>
      "{" + (if members == [] then "" else MemberText(members[0]) + MoreMembers(members[1..])) + "}"
  }

  function MoreItems(items: seq<Json>): string
    decreases items, 0
  {
    if items == [] then "" else "," + Text(items[0]) + MoreItems(items[1..])
  }

  function MemberText(m: (string, Json)): string
    decreases m, 2
  {
    Quoted(m.0) + ":" + Text(m.1)
  }

  function MoreMembers(members: seq<(string, Json)>): string
    decreases members, 0
  {
    if members == [] then "" else "," + MemberText(members[0]) + MoreMembers(members[1..])
  }

  /** How deep arrays and objects are nested. */
  function Nesting(v: Json): nat
    decreases v, 1
  {
    match v
    case Arr(items) => 1 + NestingOfItems(items)
    case Obj(members) => 1 + NestingOfMembers(members)
    case _ => 0
  }

  function Max(a: nat, b: nat): nat {
    if a > b then a else b
  }

  function NestingOfItems(items: seq<Json>): nat
    decreases items, 0
  {
    if items == [] then 0 else Max(Nesting(items[0]), NestingOfItems(items[1..]))
  }

  function NestingOfMembers(members: seq<(string, Json)>): nat
    decreases members, 0
  {
    if members == [] then 0 else Max(NestingOfMember(members[0]), NestingOfMembers(members[1..]))
  }

  function NestingOfMember(m: (string, Json)): nat
    decreases m, 2
  {
    Nesting(m.1)
  }

  /** The document a reader sees: bytes arrive as a string of base64. */
  function Wire(v: Json): Json
    decreases v, 1
  {
    match v
    case Blob(data) => Str(Base64(data))
    case Arr(items) => Arr(WireItems(items))
    case Obj(members) => Obj(WireMembers(members))
    case _ => v
  }

  function WireItems(items: seq<Json>): seq<Json>
    decreases items, 0
  {
    if items == [] then [] else [Wire(items[0])] + WireItems(items[1..])
  }

  function WireMembers(members: seq<(string, Json)>): seq<(string, Json)>
    decreases members, 0
  {
    if members == [] then [] else [WireMember(members[0])] + WireMembers(members[1..])
  }

  function WireMember(m: (string, Json)): (string, Json)
    decreases m, 2
  {
    (m.0, Wire(m.1))
  }

  // ----------------------------------------------------------------- the reader

  function ReadValue(t: string): (r: Option<(Json, string)>)
    ensures r.Some? ==> |r.value.1| < |t|
    decreases |t|, 0
  {
    if t == [] then None
    else if "null" <= t then Some((Null, t[4..]))
    else if "true" <= t then Some((Bool(true), t[4..]))
    else if "false" <= t then Some((Bool(false), t[5..]))
    else if t[0] == '"' then
      var r := ReadString(t[1..]);
      if r.None? then None else Some((Str(r.value.0), r.value.1))
    else if t[0] == '[' then
      if |t| > 1 && t[1] == ']' then Some((Arr([]), t[2..]))
      else
        var r := ReadItems(t[1..]);
        if r.None? then None else Some((Arr(r.value.0), r.value.1))
    else if t[0] == '{' then
      if |t| > 1 && t[1] == '}' then Some((Obj([]), t[2..]))
      else
        var r := ReadMembers(t[1..]);
        if r.None? then None else Some((Obj(r.value.0), r.value.1))
    else
      var r := ReadInt(t);
      if r.None? then None else Some((Int(r.value.0), r.value.1))
  }

  /** The values up to the closing bracket. */
  function ReadItems(t: string): (r: Option<(seq<Json>, string)>)
    ensures r.Some? ==> |r.value.1| < |t|
    decreases |t|, 1
  {
    var v := ReadValue(t);
    if v.None? || v.value.1 == [] then None
    else
      var u := v.value.1;
      if u[0] == ']' then Some(([v.value.0], u[1..]))
      else if u[0] != ',' then None
      else
        var r := ReadItems(u[1..]);
        if r.None? then None else Some(([v.value.0] + r.value.0, r.value.1))
  }

  function ReadMember(t: string): (r: Option<((string, Json), string)>)
    ensures r.Some? ==> |r.value.1| < |t|
    decreases |t|, 1
  {
    if t == [] || t[0] != '"' then None
    else
      var k := ReadString(t[1..]);
      if k.None? || k.value.1 == [] || k.value.1[0] != ':' then None
      else
        var v := ReadValue(k.value.1[1..]);
        if v.None? then None else Some(((k.value.0, v.value.0), v.value.1))
  }

  function ReadMembers(t: string): (r: Option<(seq<(string, Json)>, string)>)
    ensures r.Some? ==> |r.value.1| < |t|
    decreases |t|, 2
  {
    var m := ReadMember(t);
    if m.None? || m.value.1 == [] then None
    else
      var u := m.value.1;
      if u[0] == '}' then Some(([m.value.0], u[1..]))
      else if u[0] != ',' then None
      else
        var r := ReadMembers(u[1..]);
        if r.None? then None else Some(([m.value.0] + r.value.0, r.value.1))
  }

  /** Base64 needs no escapes. */
  lemma {:induction false} EscapePlain(t: string)
    requires forall c | c in t :: EscapeChar(c) == [c]
    ensures Escape(t) == t
  {
    hide EscapeChar;
    if t != [] {
      assert t[|t| - 1] in t;
      EscapePlain(t[..|t| - 1]);
    }
  }

  lemma {:induction false} LettersArePlain(n: nat, t: nat)
    requires 1 <= n <= 3
    ensures forall c | c in Quad(n, t) :: EscapeChar(c) == [c]
  {
    hide Sextet;
  }

  lemma {:induction false} Base64IsPlain(data: seq<byte>)
    ensures forall c | c in Base64(data) :: EscapeChar(c) == [c]
    decreases |data|
  {
    hide Quad, EscapeChar, NextTriple;
    if data != [] {
      LettersArePlain(GroupSize(data), NextTriple(data));
      Base64IsPlain(data[GroupSize(data)..]);
    }
  }

  lemma {:induction false} ReadQuoted(s: string, rest: string)
    ensures Quoted(s) + rest != [] && (Quoted(s) + rest)[0] == '"'
    ensures ReadString((Quoted(s) + rest)[1..]) == Some((s, rest))
  {
    hide Escape, ReadString;
    ReadEscaped(s, rest);
    assert (Quoted(s) + rest)[1..] == Escape(s) + "\"" + rest;
  }

  lemma {:induction false} ReadStringValue(s: string, rest: string)
    ensures ReadValue(Quoted(s) + rest) == Some((Str(s), rest))
    ensures Text(Str(s)) == Quoted(s)
  {
    hide Escape, ReadString;
    ReadQuoted(s, rest);
    hide Quoted;
  }

  lemma {:induction false} ReadIntValue(n: int, rest: string)
    requires Ends(rest)
    ensures ReadValue(Text(Int(n)) + rest) == Some((Int(n), rest))
  {
    ReadDecimal(n, rest);
    hide Digits, ReadInt;
    var t := Decimal(n) + rest;
    assert t[0] == '-' || IsDigit(t[0]);
    hide Decimal;
  }

  lemma {:induction false} ReadWordValue(v: Json, rest: string)
    requires v.Null? || v.Bool?
    ensures ReadValue(Text(v) + rest) == Some((v, rest))
  {
    hide ReadInt, ReadString;
    var t := if v.Null? then "null" else if v.b then "true" else "false";
    assert Text(v) == t;
    assert (t + rest)[|t|..] == rest && t <= t + rest;
    assert (t + rest)[0] == t[0];
  }

  lemma {:induction false} ReadBlobValue(data: seq<byte>, rest: string)
    ensures ReadValue(Text(Blob(data)) + rest) == Some((Str(Base64(data)), rest))
  {
    hide ReadValue;
    Base64IsPlain(data);
    EscapePlain(Base64(data));
    ReadStringValue(Base64(data), rest);
  }

  lemma {:induction false} ReadArrValue(body: string, items: seq<Json>, rest: string)
    requires body != [] && body[0] != ']' && ReadItems(body) == Some((items, rest))
    ensures ReadValue("[" + body) == Some((Arr(items), rest))
  {
    hide ReadItems, ReadInt, ReadString;
    assert ("[" + body)[1..] == body;
  }

  lemma {:induction false} ReadObjValue(body: string, members: seq<(string, Json)>, rest: string)
    requires body != [] && body[0] != '}' && ReadMembers(body) == Some((members, rest))
    ensures ReadValue("{" + body) == Some((Obj(members), rest))
  {
    hide ReadMembers, ReadInt, ReadString;
    assert ("{" + body)[1..] == body;
  }

  lemma {:induction false} ReadEmptyValue(v: Json, rest: string)
    requires v == Arr([]) || v == Obj([])
    ensures ReadValue(Text(v) + rest) == Some((v, rest))
  {
    hide ReadMembers, ReadItems, ReadInt, ReadString;
    assert Text(v) == if v == Arr([]) then "[]" else "{}";
    assert (Text(v) + rest)[2..] == rest;
  }

  lemma {:induction false} ArrText(items: seq<Json>, rest: string)
    requires items != []
    ensures Text(Arr(items)) + rest == "[" + (Text(items[0]) + MoreItems(items[1..]) + "]" + rest)
  {
    var a, b := Text(items[0]), MoreItems(items[1..]);
    assert Text(Arr(items)) == "[" + (a + b) + "]";
    assert "[" + (a + b) + "]" + rest == "[" + (a + b + "]" + rest);
  }

  lemma {:induction false} ObjText(members: seq<(string, Json)>, rest: string)
    requires members != []
    ensures Text(Obj(members)) + rest == "{" + (MemberText(members[0]) + MoreMembers(members[1..]) + "}" + rest)
  {
    var a, b := MemberText(members[0]), MoreMembers(members[1..]);
    assert Text(Obj(members)) == "{" + (a + b) + "}";
    assert "{" + (a + b) + "}" + rest == "{" + (a + b + "}" + rest);
  }

  /** A document's text is read back, whatever follows it (but not a digit). */
  lemma {:induction false} ReadText(v: Json, rest: string)
    requires Ends(rest)
    ensures ReadValue(Text(v) + rest) == Some((Wire(v), rest))
    decreases v, 1
  {
    hide ReadValue, ReadItems, ReadMembers, MoreItems, MoreMembers, Text;
    match v
    case Null => ReadWordValue(v, rest);
    case Bool(b) => ReadWordValue(v, rest);
    case Int(n) => ReadIntValue(n, rest);
    case Str(s) => ReadStringValue(s, rest);
    case Blob(data) => ReadBlobValue(data, rest);
    case Arr(items) =>
      if items == [] {
        ReadEmptyValue(v, rest);
      } else {
        ReadItemsText(items, rest);
        TextStart(items[0]);
        ReadArrValue(Text(items[0]) + MoreItems(items[1..]) + "]" + rest, WireItems(items), rest);
        ArrText(items, rest);
      }
    case Obj(members) =>
      if members == [] {
        ReadEmptyValue(v, rest);
      } else {
        ReadMembersText(members, rest);
        MemberStart(members[0]);
        ReadObjValue(MemberText(members[0]) + MoreMembers(members[1..]) + "}" + rest, WireMembers(members), rest);
        ObjText(members, rest);
      }
  }

  lemma {:induction false} MemberStart(m: (string, Json))
    ensures MemberText(m) != [] && MemberText(m)[0] == '"'
  {
    hide Escape;
  }

  lemma {:induction false} TextStart(v: Json)
    ensures Text(v) != [] && Text(v)[0] != ']'
  {
    hide Escape, Base64, MoreItems, MoreMembers, MemberText;
  }

  lemma {:induction false} ReadItemsText(items: seq<Json>, rest: string)
    requires items != []
    ensures ReadItems(Text(items[0]) + MoreItems(items[1..]) + "]" + rest) == Some((WireItems(items), rest))
    decreases items, 0
  {
    hide Text, Wire, ReadValue;
    var more := MoreItems(items[1..]) + "]" + rest;
    var t := Text(items[0]) + MoreItems(items[1..]) + "]" + rest;
    assert t == Text(items[0]) + more;
    ReadText(items[0], more);
    if |items| == 1 {
      assert more[1..] == rest;
      assert WireItems(items) == [Wire(items[0])];
    } else {
      ReadItemsText(items[1..], rest);
      assert more[1..] == Text(items[1]) + MoreItems(items[1..][1..]) + "]" + rest;
    }
  }

  lemma {:induction false} ReadMemberText(m: (string, Json), rest: string)
    requires Ends(rest)
    ensures ReadMember(MemberText(m) + rest) == Some((WireMember(m), rest))
    decreases m, 2
  {
    hide Text, Wire, ReadValue, Quoted, ReadString;
    var t := MemberText(m) + rest;
    assert t == Quoted(m.0) + (":" + Text(m.1) + rest);
    ReadQuoted(m.0, ":" + Text(m.1) + rest);
    assert (":" + Text(m.1) + rest)[1..] == Text(m.1) + rest;
    ReadText(m.1, rest);
  }

  lemma {:induction false} ReadMembersText(members: seq<(string, Json)>, rest: string)
    requires members != []
    ensures ReadMembers(MemberText(members[0]) + MoreMembers(members[1..]) + "}" + rest)
      == Some((WireMembers(members), rest))
    decreases members, 0
  {
    hide MemberText, Wire, ReadMember;
    var more := MoreMembers(members[1..]) + "}" + rest;
    var t := MemberText(members[0]) + MoreMembers(members[1..]) + "}" + rest;
    assert t == MemberText(members[0]) + more;
    ReadMemberText(members[0], more);
    if |members| == 1 {
      assert more[1..] == rest;
      assert WireMembers(members) == [WireMember(members[0])];
    } else {
      ReadMembersText(members[1..], rest);
      assert more[1..] == MemberText(members[1]) + MoreMembers(members[1..][1..]) + "}" + rest;
    }
  }

  /** Two documents with the same text are the same to a reader. */
  lemma {:induction false} TextIsUnambiguous(v: Json, w: Json)
    requires Text(v) == Text(w)
    ensures Wire(v) == Wire(w)
  {
    hide Text, Wire, ReadValue;
    ReadText(v, "");
    ReadText(w, "");
    assert Text(v) + "" == Text(v);
  }
}
