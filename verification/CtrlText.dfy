/**
 The text of a dashboard command: one flat JSON object with string and non-negative integer members.
 A cursor scans it; `Lex` says which members a whole text has, and `Render` writes members down with any
 whitespace between the tokens.
 */
module CtrlText {
  import opened Options
  import JsonText
  import Numbers
  import Seqs

  /** A value as written: the characters of a string, or the digits of a number. */
  datatype Token = Text(s: string) | Number(digits: string)

  datatype Member = Member(key: string, value: Token)

  const KEY_LEN := 32
  const STR_LEN := 40

  predicate Space(c: char) {
    c == ' ' || c == '\t' || c == '\n' || c == '\r'
  }

  predicate Digit(c: char) {
    '0' <= c <= '9'
  }

  function DigitValue(c: char): nat
    requires Digit(c)
  {
    c as int - '0' as int
  }

  // ----------------------------------------------------------------- what the scanner does to the text ahead of it

  /** `t` without the whitespace at its front. */
  function Trim(t: string): (u: string)
    ensures |u| <= |t| && (u != [] ==> !Space(u[0]))
  {
    if t != [] && Space(t[0]) then Trim(t[1..]) else t
  }

  /** What follows character `c`, if that comes next. */
  function Eat(t: string, c: char): (r: Option<string>)
    ensures r.Some? ==> |r.value| < |t|
  {
    var u := Trim(t);
    if u != [] && u[0] == c then Some(u[1..]) else None
  }

  predicate Plain(c: char) {
    c != '"' && c != '\\' && c >= ' '
  }

  /** The characters up to the closing quote, at most `room` of them; escapes and control characters are refused. */
  function ReadBody(t: string, room: nat): (r: Option<(string, string)>)
    ensures r.Some? ==> |r.value.1| < |t|
  {
    if t == [] then None
    else if t[0] == '"' then Some(("", t[1..]))
    else if !Plain(t[0]) || room == 0 then None
    else
      var r := ReadBody(t[1..], room - 1);
      if r.None? then None else Some(([t[0]] + r.value.0, r.value.1))
  }

  /** A string that fits a C buffer of `cap` characters. */
  function ReadString(t: string, cap: nat): (r: Option<(string, string)>)
    requires cap > 0
    ensures r.Some? ==> |r.value.1| < |t|
  {
    var u := Eat(t, '"');
    if u.None? then None else ReadBody(u.value, cap - 1)
  }

  /** More than this, and another digit is refused: it would not fit a 32-bit long. */
  const MAX_BEFORE_DIGIT := 100000000

  /** The digits at the front of `t` that continue the number `v`, and what follows them. */
  function ReadDigits(t: string, v: nat): (r: Option<(string, string)>)
    ensures r.Some? ==> |r.value.0| + |r.value.1| == |t|
    decreases |t|
  {
    if t == [] || !Digit(t[0]) then Some(("", t))
    else if v > MAX_BEFORE_DIGIT then None
    else
      var r := ReadDigits(t[1..], 10 * v + DigitValue(t[0]));
      if r.None? then None else Some(([t[0]] + r.value.0, r.value.1))
  }

  predicate EndsNumber(t: string) {
    t == [] || (t[0] != '.' && t[0] != 'e' && t[0] != 'E')
  }

  function ReadUint(t: string): (r: Option<(string, string)>)
    ensures r.Some? ==> |r.value.1| < |t|
  {
    var r := ReadDigits(Trim(t), 0);
    if r.None? || r.value.0 == [] || !EndsNumber(r.value.1) then None else r
  }

  /** The number that digits denote, continuing `v`. */
  function NumberFrom(v: nat, digits: string): nat
    decreases |digits|
  {
    if digits == [] then v
    else NumberFrom(10 * v + if Digit(digits[0]) then DigitValue(digits[0]) else 0, digits[1..])
  }

  function NumberOf(digits: string): nat {
    NumberFrom(0, digits)
  }

  function ReadValue(t: string): (r: Option<(Token, string)>)
    ensures r.Some? ==> |r.value.1| < |t|
  {
    var u := Trim(t);
    if u != [] && u[0] == '"' then
      var s := ReadString(u, STR_LEN);
      if s.None? then None else Some((Text(s.value.0), s.value.1))
    else
      var n := ReadUint(u);
      if n.None? then None else Some((Number(n.value.0), n.value.1))
  }

  function ReadMember(t: string): (r: Option<(Member, string)>)
    ensures r.Some? ==> |r.value.1| < |t|
  {
    var k := ReadString(t, KEY_LEN);
    if k.None? then None
    else
      var u := Eat(k.value.1, ':');
      if u.None? then None
      else
        var v := ReadValue(u.value);
        if v.None? then None else Some((Member(k.value.0, v.value.0), v.value.1))
  }

  /** The members from here to the end of the text. */
  function LexMembers(t: string): Option<seq<Member>>
    decreases |t|
  {
    var m := ReadMember(t);
    if m.None? then None
    else
      var u := Eat(m.value.1, ',');
      if u.Some? then
        var r := LexMembers(u.value);
        if r.None? then None else Some([m.value.0] + r.value)
      else
        var e := Eat(m.value.1, '}');
        if e.Some? && Trim(e.value) == [] then Some([m.value.0]) else None
  }

  /** The members of a whole text. */
  function Lex(t: string): Option<seq<Member>> {
    var u := Eat(t, '{');
    if u.None? then None
    else
      var e := Eat(u.value, '}');
      if e.Some? then (if Trim(e.value) == [] then Some([]) else None)
      else LexMembers(u.value)
  }

  // ----------------------------------------------------------------- writing members down

  /** Whitespace before the key, the colon, the value, and the comma or brace behind it. */
  datatype Gaps = Gaps(key: string, colon: string, value: string, end: string)

  /** Whitespace at the front of the text and behind it, and in each member. */
  datatype Layout = Layout(front: string, members: seq<Gaps>, back: string)

  predicate Spaces(w: string) {
    forall c | c in w :: Space(c)
  }

  predicate SpacesIn(g: Gaps) {
    Spaces(g.key) && Spaces(g.colon) && Spaces(g.value) && Spaces(g.end)
  }

  predicate SpacesOnly(l: Layout) {
    Spaces(l.front) && Spaces(l.back) && forall g | g in l.members :: SpacesIn(g)
  }

  /** A string between its quotes. */
  predicate StringFits(s: string, cap: nat) {
    |s| < cap && forall c | c in s :: Plain(c)
  }

  /** Digits that the reader takes: none is added to a number that is too large already. */
  predicate DigitsFrom(v: nat, digits: string)
    decreases |digits|
  {
    || digits == []
    || (Digit(digits[0]) && v <= MAX_BEFORE_DIGIT
        && DigitsFrom(10 * v + DigitValue(digits[0]), digits[1..]))
  }

  predicate Writable(m: Member) {
    && StringFits(m.key, KEY_LEN)
    && match m.value
       case Text(s) => StringFits(s, STR_LEN)
       case Number(d) => d != [] && DigitsFrom(0, d)
  }

  function TokenText(v: Token): string {
    match v
    case Text(s) => "\"" + s + "\""
    case Number(d) => d
  }

  function MemberText(m: Member, g: Gaps): string {
    g.key + ("\"" + (m.key + ("\"" + (g.colon + (":" + (g.value + (TokenText(m.value) + g.end)))))))
  }

  function MembersText(ms: seq<Member>, gs: seq<Gaps>): string
    requires |ms| == |gs| > 0
  {
    if |ms| == 1 then MemberText(ms[0], gs[0]) + "}"
    else MemberText(ms[0], gs[0]) + ("," + MembersText(ms[1..], gs[1..]))
  }

  /** The members as one object. */
  function Render(ms: seq<Member>, l: Layout): string
    requires |ms| == |l.members| > 0
  {
    l.front + ("{" + (MembersText(ms, l.members) + l.back))
  }

  // ----------------------------------------------------------------- what is written is read

  lemma {:induction false} TrimSpaces(w: string, t: string)
    requires Spaces(w) && (t == [] || !Space(t[0]))
    ensures Trim(w + t) == t
    decreases |w|
  {
    if w == [] {
      assert w + t == t;
    } else {
      assert (w + t)[1..] == w[1..] + t;
      TrimSpaces(w[1..], t);
    }
  }

  lemma {:induction false} EatWritten(w: string, c: char, t: string)
    requires Spaces(w) && !Space(c)
    ensures Eat(w + ([c] + t), c) == Some(t)
  {
    TrimSpaces(w, [c] + t);
    assert ([c] + t)[1..] == t;
  }

  lemma {:induction false} EatOther(w: string, c: char, t: string, d: char)
    requires Spaces(w) && !Space(c) && c != d
    ensures Eat(w + ([c] + t), d) == None
  {
    TrimSpaces(w, [c] + t);
  }

  lemma {:induction false} ReadBodyWritten(s: string, room: nat, t: string)
    requires |s| <= room && forall c | c in s :: Plain(c)
    ensures ReadBody(s + ("\"" + t), room) == Some((s, t))
    decreases |s|
  {
    var u := s + ("\"" + t);
    if s == [] {
      assert u == "\"" + t && u[1..] == t;
    } else {
      assert s[0] in s && u[0] == s[0];
      assert u[1..] == s[1..] + ("\"" + t);
      ReadBodyWritten(s[1..], room - 1, t);
      assert [s[0]] + s[1..] == s;
    }
  }

  lemma {:induction false} ReadStringWritten(w: string, s: string, cap: nat, t: string)
    requires Spaces(w) && StringFits(s, cap)
    ensures ReadString(w + ("\"" + (s + ("\"" + t))), cap) == Some((s, t))
  {
    EatWritten(w, '"', s + ("\"" + t));
    ReadBodyWritten(s, cap - 1, t);
  }

  lemma {:induction false} ReadDigitsWritten(d: string, v: nat, t: string)
    requires DigitsFrom(v, d) && (t == [] || !Digit(t[0]))
    ensures ReadDigits(d + t, v) == Some((d, t))
    decreases |d|
  {
    if d == [] {
      assert d + t == t;
    } else {
      assert (d + t)[1..] == d[1..] + t;
      var w := 10 * v + DigitValue(d[0]);
      ReadDigitsWritten(d[1..], w, t);
      hide DigitValue, Digit;
      assert [d[0]] + d[1..] == d;
    }
  }

  /** What stands behind a value: whitespace, then a comma or a brace. */
  predicate Behind(t: string) {
    t != [] && (Space(t[0]) || t[0] == ',' || t[0] == '}')
  }

  lemma {:induction false} ReadValueWritten(w: string, v: Token, t: string)
    requires Spaces(w) && Behind(t) && Writable(Member("", v))
    ensures ReadValue(w + (TokenText(v) + t)) == Some((v, t))
  {
    hide ReadBody, ReadDigits, Trim;
    match v
    case Text(s) =>
      var u := TokenText(v) + t;
      assert u == "\"" + (s + ("\"" + t));
      TrimSpaces(w, u);
      ReadStringWritten("", s, STR_LEN, t);
      assert "" + u == u;
    case Number(d) =>
      var u := TokenText(v) + t;
      TrimSpaces(w, u);
      TrimSpaces("", u);
      assert "" + u == u;
      ReadDigitsWritten(d, 0, t);
  }

  lemma {:induction false} ReadMemberWritten(m: Member, g: Gaps, t: string)
    requires Writable(m) && Spaces(g.key) && Spaces(g.colon) && Spaces(g.value) && Behind(g.end + t)
    ensures ReadMember(MemberText(m, g) + t) == Some((m, g.end + t))
  {
    hide ReadString, ReadValue, Eat, Behind, Spaces;
    var value := g.value + (TokenText(m.value) + (g.end + t));
    var colon := g.colon + (":" + value);
    assert MemberText(m, g) + t == g.key + ("\"" + (m.key + ("\"" + colon)));
    ReadStringWritten(g.key, m.key, KEY_LEN, colon);
    EatWritten(g.colon, ':', value);
    ReadValueWritten(g.value, m.value, g.end + t);
  }

  lemma {:induction false} BehindGap(w: string, t: string)
    requires Spaces(w) && Behind(t)
    ensures Behind(w + t)
  {
    if w != [] {
      assert w[0] in w;
    }
  }

  lemma {:induction false} ReadMemberBehind(m: Member, g: Gaps, t: string)
    requires Writable(m) && SpacesIn(g) && t != [] && (t[0] == ',' || t[0] == '}')
    ensures ReadMember(MemberText(m, g) + t) == Some((m, g.end + t))
  {
    hide ReadMember, MemberText, Writable, Spaces, Behind;
    BehindClose(t);
    BehindGap(g.end, t);
    ReadMemberWritten(m, g, t);
  }

  lemma {:induction false} LexLast(m: Member, g: Gaps, back: string)
    requires Writable(m) && SpacesIn(g) && Spaces(back)
    ensures LexMembers(MemberText(m, g) + ("}" + back)) == Some([m])
  {
    hide ReadMember, Eat, MemberText, Writable, Spaces, Trim;
    ReadMemberBehind(m, g, "}" + back);
    EatWritten(g.end, '}', back);
    EatOther(g.end, '}', back, ',');
    TrimAll(back);
  }

  lemma {:induction false} LexMore(m: Member, g: Gaps, rest: string, ms: seq<Member>)
    requires Writable(m) && SpacesIn(g) && LexMembers(rest) == Some(ms)
    ensures LexMembers(MemberText(m, g) + ("," + rest)) == Some([m] + ms)
  {
    hide ReadMember, Eat, MemberText, Writable, Spaces, Trim;
    ReadMemberBehind(m, g, "," + rest);
    EatWritten(g.end, ',', rest);
  }

  lemma {:induction false} LexMembersWritten(ms: seq<Member>, gs: seq<Gaps>, back: string)
    requires |ms| == |gs| > 0 && Spaces(back)
    requires forall m | m in ms :: Writable(m)
    requires forall g | g in gs :: SpacesIn(g)
    ensures LexMembers(MembersText(ms, gs) + back) == Some(ms)
    decreases |ms|
  {
    hide LexMembers, MemberText, Writable, Spaces, SpacesIn;
    var m, g := ms[0], gs[0];
    assert m in ms && g in gs;
    if |ms| == 1 {
      LexLast(m, g, back);
      Seqs.Assoc(MemberText(m, g), "}", back);
      assert ms == [m];
    } else {
      var rest := MembersText(ms[1..], gs[1..]);
      LexMembersWritten(ms[1..], gs[1..], back);
      LexMore(m, g, rest + back, ms[1..]);
      Seqs.Assoc(MemberText(m, g), "," + rest, back);
      Seqs.Assoc(",", rest, back);
      assert ms == [m] + ms[1..];
    }
  }

  lemma {:induction false} TrimAll(w: string)
    requires Spaces(w)
    ensures Trim(w) == []
  {
    TrimSpaces(w, []);
    assert w + [] == w;
  }

  lemma {:induction false} BehindClose(t: string)
    requires t != [] && (t[0] == ',' || t[0] == '}')
    ensures Behind(t)
  {
  }

  /** Members written down with any whitespace are read back. */
  lemma {:induction false} LexWritten(ms: seq<Member>, l: Layout)
    requires |ms| == |l.members| > 0 && SpacesOnly(l)
    requires forall m | m in ms :: Writable(m)
    ensures Lex(Render(ms, l)) == Some(ms)
  {
    hide LexMembers, Trim, MembersText, Writable;
    var body := MembersText(ms, l.members) + l.back;
    EatWritten(l.front, '{', body);
    LexMembersWritten(ms, l.members, l.back);
    assert l.members[0] in l.members;
    NoBraceFirst(ms, l.members, l.back);
  }

  lemma {:induction false} NoBraceFirst(ms: seq<Member>, gs: seq<Gaps>, back: string)
    requires |ms| == |gs| > 0 && Spaces(gs[0].key)
    ensures Eat(MembersText(ms, gs) + back, '}') == None
  {
    hide TokenText;
    var t := MembersText(ms, gs) + back;
    var n := |gs[0].key|;
    assert t[..n] == gs[0].key && t[n] == '"';
    EatOther(gs[0].key, '"', t[n + 1..], '}');
    assert t == gs[0].key + (['"'] + t[n + 1..]);
  }

  // ----------------------------------------------------------------- what is read was written

  lemma {:induction false} TrimSplit(t: string) returns (w: string)
    ensures t == w + Trim(t) && Spaces(w)
  {
    if t != [] && Space(t[0]) {
      var v := TrimSplit(t[1..]);
      w := [t[0]] + v;
      assert t == [t[0]] + t[1..];
    } else {
      w := "";
    }
  }

  lemma {:induction false} EatSplit(t: string, c: char) returns (w: string)
    requires Eat(t, c).Some?
    ensures Spaces(w) && t == w + ([c] + Eat(t, c).value)
  {
    w := TrimSplit(t);
    assert Trim(t) == [c] + Trim(t)[1..];
  }

  lemma {:induction false} ReadBodySplit(t: string, room: nat)
    requires ReadBody(t, room).Some?
    ensures var (s, rest) := ReadBody(t, room).value;
      |s| <= room && (forall c | c in s :: Plain(c)) && t == s + ("\"" + rest)
    decreases |t|
  {
    if t[0] == '"' {
      assert t == "" + ("\"" + t[1..]);
    } else {
      ReadBodySplit(t[1..], room - 1);
      assert t == [t[0]] + t[1..];
    }
  }

  lemma {:induction false} ReadStringSplit(t: string, cap: nat) returns (w: string)
    requires cap > 0 && ReadString(t, cap).Some?
    ensures var (s, rest) := ReadString(t, cap).value;
      Spaces(w) && StringFits(s, cap) && t == w + ("\"" + (s + ("\"" + rest)))
    ensures t != [] && !Space(t[0]) ==> w == ""
  {
    hide ReadBody;
    w := EatSplit(t, '"');
    ReadBodySplit(Eat(t, '"').value, cap - 1);
    if w != [] {
      assert w[0] in w;
    }
  }

  lemma {:induction false} ReadDigitsSplit(t: string, v: nat)
    requires ReadDigits(t, v).Some?
    ensures var (d, rest) := ReadDigits(t, v).value;
      DigitsFrom(v, d) && t == d + rest
    decreases |t|
  {
    if t != [] && Digit(t[0]) {
      var w := 10 * v + DigitValue(t[0]);
      ReadDigitsSplit(t[1..], w);
      hide Digit, DigitValue;
      var d := ReadDigits(t[1..], w).value.0;
      assert t == [t[0]] + t[1..];
      assert ([t[0]] + d)[1..] == d;
    }
  }

  lemma {:induction false} ReadValueSplit(t: string) returns (w: string)
    requires ReadValue(t).Some?
    ensures var (v, rest) := ReadValue(t).value;
      Spaces(w) && Writable(Member("", v)) && t == w + (TokenText(v) + rest)
  {
    hide ReadBody, ReadDigits, DigitsFrom;
    w := TrimSplit(t);
    var u := Trim(t);
    if u != [] && u[0] == '"' {
      var x := ReadStringSplit(u, STR_LEN);
      var (s, rest) := ReadString(u, STR_LEN).value;
      assert u == "\"" + (s + ("\"" + rest));
      assert u == ("\"" + s + "\"") + rest;
    } else {
      assert Trim(u) == u;
      ReadDigitsSplit(u, 0);
    }
  }

  lemma {:induction false} ReadMemberSplit(t: string) returns (g: Gaps)
    requires ReadMember(t).Some?
    ensures var (m, rest) := ReadMember(t).value;
      && Spaces(g.key) && Spaces(g.colon) && Spaces(g.value) && g.end == ""
      && Writable(m) && t == MemberText(m, g) + rest
  {
    hide ReadString, ReadValue, Eat, Spaces, TokenText, StringFits, DigitsFrom;
    var (m, rest) := ReadMember(t).value;
    var a := ReadStringSplit(t, KEY_LEN);
    var u := ReadString(t, KEY_LEN).value.1;
    var b := EatSplit(u, ':');
    var x := Eat(u, ':').value;
    var c := ReadValueSplit(x);
    g := Gaps(a, b, c, "");
    NoSpaces();
    assert TokenText(m.value) + "" == TokenText(m.value);
    assert MemberText(m, g) + rest ==
      a + ("\"" + (m.key + ("\"" + (b + (":" + (c + (TokenText(m.value) + rest)))))));
  }

  lemma {:induction false} NoSpaces()
    ensures Spaces("")
  {
  }

  lemma {:induction false} MemberTextEnd(m: Member, g: Gaps, end: string)
    requires g.end == ""
    ensures MemberText(m, g.(end := end)) == MemberText(m, g) + end
  {
    hide TokenText;
    var v := TokenText(m.value);
    assert v + "" == v;
    assert MemberText(m, g.(end := end))
        == g.key + ("\"" + (m.key + ("\"" + (g.colon + (":" + (g.value + (v + end)))))));
  }

  lemma {:induction false} LexMembersSplit(t: string) returns (gs: seq<Gaps>, back: string)
    requires LexMembers(t).Some?
    ensures var ms := LexMembers(t).value;
      && |gs| == |ms| > 0 && Spaces(back)
      && (forall g | g in gs :: Spaces(g.key) && Spaces(g.colon) && Spaces(g.value) && Spaces(g.end))
      && (forall m | m in ms :: Writable(m))
      && t == MembersText(ms, gs) + back
    decreases |t|
  {
    hide ReadMember, Eat, Trim, Spaces, MemberText, Writable;
    var (m, rest) := ReadMember(t).value;
    var g := ReadMemberSplit(t);
    if Eat(rest, ',').Some? {
      var end := EatSplit(rest, ',');
      var u := Eat(rest, ',').value;
      var more, b := LexMembersSplit(u);
      var ms := LexMembers(u).value;
      gs, back := [g.(end := end)] + more, b;
      MemberTextEnd(m, g, end);
      var all := [m] + ms;
      assert all[1..] == ms && gs[1..] == more;
      assert MembersText(all, gs) + back == MemberText(m, g) + end + ("," + (MembersText(ms, more) + back));
      assert t == MemberText(m, g) + (end + ("," + u));
    } else {
      var end := EatSplit(rest, '}');
      var u := Eat(rest, '}').value;
      back := TrimSplit(u);
      gs := [g.(end := end)];
      MemberTextEnd(m, g, end);
      assert u == back;
      assert MembersText([m], gs) + back == MemberText(m, g) + end + "}" + back;
      assert t == MemberText(m, g) + (end + ("}" + u));
    }
  }

  /** A text with members is those members written down with some whitespace. */
  lemma {:induction false} LexIsWritten(t: string) returns (l: Layout)
    requires Lex(t).Some? && Lex(t).value != []
    ensures var ms := Lex(t).value;
      |l.members| == |ms| && SpacesOnly(l) && (forall m | m in ms :: Writable(m)) && t == Render(ms, l)
  {
    hide LexMembers, Eat, Spaces, Writable, MembersText;
    var front := EatSplit(t, '{');
    var u := Eat(t, '{').value;
    var gs, back := LexMembersSplit(u);
    l := Layout(front, gs, back);
  }

  // ----------------------------------------------------------------- numbers

  lemma {:induction false} NumberOneMore(digits: string, c: char)
    requires '0' <= c <= '9'
    ensures NumberOf(digits + [c]) == 10 * NumberOf(digits) + (c as int - '0' as int)
  {
    NumberAppend(0, digits, c);
  }

  /** A number is read as it is written in decimal digits. */
  lemma {:induction false} NumberOfDigits(n: nat)
    ensures NumberOf(JsonText.Digits(n)) == n
  {
    if n < 10 {
      NumberOfNone();
      assert [] + [JsonText.Digit(n)] == JsonText.Digits(n);
      NumberOneMore([], JsonText.Digit(n));
    } else {
      NumberOfDigits(n / 10);
      NumberOneMore(JsonText.Digits(n / 10), JsonText.Digit(n % 10));
    }
  }

  function Zeros(k: nat): string {
    seq(k, _ => '0')
  }

  lemma {:induction false} OnlyDigits(v: nat, digits: string)
    requires DigitsFrom(v, digits)
    ensures forall i | 0 <= i < |digits| :: '0' <= digits[i] <= '9'
    decreases |digits|
  {
    if digits != [] {
      OnlyDigits(10 * v + DigitValue(digits[0]), digits[1..]);
      assert forall i | 0 < i < |digits| :: digits[i] == digits[1..][i - 1];
    }
  }

  /** And whatever digits are written: they are the number's own, with zeros in front. */
  lemma {:induction false} DigitsOfNumber(digits: string) returns (k: nat)
    requires digits != [] && forall i | 0 <= i < |digits| :: '0' <= digits[i] <= '9'
    ensures digits == Zeros(k) + JsonText.Digits(NumberOf(digits))
    decreases |digits|
  {
    var last := |digits| - 1;
    var front, c := digits[..last], digits[last];
    assert digits == front + [c];
    NumberOneMore(front, c);
    DigitsMore(NumberOf(front), c);
    if front == [] {
      NumberOfNone();
      k := 0;
    } else {
      k := DigitsOfNumber(front);
      hide NumberOf, JsonText.Digits;
      if NumberOf(front) == 0 {
        DigitsMore(0, '0');
        assert front == Zeros(k) + "0" == Zeros(k + 1);
        k := k + 1;
      } else {
        Seqs.Assoc(Zeros(k), JsonText.Digits(NumberOf(front)), [c]);
      }
    }
  }

  lemma {:induction false} DigitsMore(n: nat, c: char)
    requires '0' <= c <= '9'
    ensures JsonText.Digits(10 * n + (c as int - '0' as int)) == (if n == 0 then [] else JsonText.Digits(n)) + [c]
  {
    var v := c as int - '0' as int;
    Numbers.Divided(n, v, 10);
    assert [] + [c] == [c];
  }

  lemma {:induction false} FromOneMore(v: nat, digits: string, c: char)
    ensures DigitsFrom(v, digits + [c]) <==>
      DigitsFrom(v, digits) && '0' <= c <= '9' && NumberFrom(v, digits) <= MAX_BEFORE_DIGIT
    decreases |digits|
  {
    if digits == [] {
      assert digits + [c] == [c];
      assert DigitsFrom(10 * v + if Digit(c) then DigitValue(c) else 0, []);
    } else {
      assert (digits + [c])[1..] == digits[1..] + [c];
      FromOneMore(10 * v + if Digit(digits[0]) then DigitValue(digits[0]) else 0, digits[1..], c);
    }
  }

  /** The numbers that can be written are those up to 1,000,000,009, so none leaves a 32-bit long. */
  lemma {:induction false} WritableNumbers(n: nat)
    ensures Writable(Member("n", Number(JsonText.Digits(n)))) <==> n <= 1_000_000_009
    ensures 1_000_000_009 < 0x8000_0000
  {
    DigitsFit(n);
  }

  lemma {:induction false} DigitsFit(n: nat)
    ensures DigitsFrom(0, JsonText.Digits(n)) <==> n <= 1_000_000_009
  {
    var c := JsonText.Digit(n % 10);
    if n < 10 {
      assert [] + [c] == JsonText.Digits(n);
      FromOneMore(0, [], c);
    } else {
      DigitsFit(n / 10);
      NumberOfDigits(n / 10);
      FromOneMore(0, JsonText.Digits(n / 10), c);
    }
  }

  /** The characters by their codes: the whitespace of section 2 of RFC 8259, and what stands for itself in a string. */
  lemma {:induction false} Characters(c: char)
    ensures Space(c) <==> c as int in {0x20, 0x09, 0x0A, 0x0D}
    ensures Plain(c) <==> c as int >= 0x20 && c as int != 0x22 && c as int != 0x5C
    ensures KEY_LEN == 32 && STR_LEN == 40
  {
  }

  // ----------------------------------------------------------------- the code

  class Scanner {
    const text: string
    var p: nat

    ghost predicate Valid()
      reads this
    {
      p <= |text|
    }

    /** The text that is still ahead. */
    ghost function Ahead(): string
      requires Valid()
      reads this
    {
      text[p..]
    }

    constructor (text: string)
      ensures Valid() && this.text == text && Ahead() == text
    {
      this.text, p := text, 0;
    }

    method SkipSpace()
      requires Valid()
      modifies this
      ensures Valid() && Ahead() == Trim(old(Ahead()))
    {
      while p < |text| && Space(text[p])
        invariant Valid() && Trim(Ahead()) == Trim(old(Ahead()))
      {
        assert Ahead()[1..] == text[p + 1..];
        p := p + 1;
      }
    }

    /** Takes character `c` if it comes next; whitespace in front of it is gone either way. */
    method Take(c: char) returns (found: bool)
      requires Valid()
      modifies this
      ensures Valid() && found == Eat(old(Ahead()), c).Some?
      ensures Ahead() == if found then Eat(old(Ahead()), c).value else Trim(old(Ahead()))
    {
      SkipSpace();
      found := p < |text| && text[p] == c;
      if found {
        assert Ahead()[1..] == text[p + 1..];
        p := p + 1;
      }
    }

    /** A key or a word between quotes; a backslash or a control character ends the attempt. */
    method TakeString(cap: nat) returns (ok: bool, out: string)
      requires Valid() && cap > 0
      modifies this
      ensures Valid() && ok == ReadString(old(Ahead()), cap).Some?
      ensures ok ==> (out, Ahead()) == ReadString(old(Ahead()), cap).value
    {
      out := "";
      hide NumberFrom, Trim;
      ghost var all := ReadString(Ahead(), cap);
      ok := Take('"');
      if !ok {
        return;
      }
      JoinedNothing(ReadBody(Ahead(), cap - 1));
      while p < |text| && text[p] != '"'
        invariant Valid() && |out| <= cap - 1
        invariant all == Joined(out, ReadBody(Ahead(), cap - 1 - |out|))
      {
        assert Ahead()[1..] == text[p + 1..];
        if !Plain(text[p]) || |out| + 1 >= cap {
          return false, out;
        }
        JoinedStep(out, text[p], ReadBody(text[p + 1..], cap - 2 - |out|));
        out := out + [text[p]];
        p := p + 1;
      }
      if p < |text| {
        assert Ahead()[1..] == text[p + 1..];
        assert out + "" == out;
      }
      EatHere(Ahead(), '"');
      ok := Take('"');
    }

    /** Digits alone make a number: no sign, no fraction, no exponent. */
    method TakeUint() returns (ok: bool, v: nat, ghost digits: string)
      requires Valid()
      modifies this
      ensures Valid() && ok == ReadUint(old(Ahead())).Some?
      ensures ok ==> (digits, Ahead()) == ReadUint(old(Ahead())).value && v == NumberOf(digits)
    {
      hide NumberFrom, Trim, ReadDigits, Joined, Digit, DigitValue;
      SkipSpace();
      var start := p;
      ghost var all := ReadDigits(Ahead(), 0);
      v, digits := 0, "";
      NumberOfNone();
      JoinedNothing(all);
      while p < |text| && Digit(text[p])
        invariant Valid() && start <= p && v == NumberOf(digits) && |digits| == p - start
        invariant all == Joined(digits, ReadDigits(Ahead(), v))
      {
        assert Ahead()[1..] == text[p + 1..];
        DigitAhead(Ahead(), v, digits);
        if v > MAX_BEFORE_DIGIT {
          return false, v, digits;
        }
        NumberAppend(0, digits, text[p]);
        digits := digits + [text[p]];
        v := v * 10 + DigitValue(text[p]);
        p := p + 1;
      }
      NoDigitAhead(Ahead(), v, digits);
      ok := p != start && !(p < |text| && (text[p] == '.' || text[p] == 'e' || text[p] == 'E'));
    }
  }

  /** A result of reading with `s` put in front. */
  function Joined(s: string, r: Option<(string, string)>): Option<(string, string)> {
    if r.None? then None else Some((s + r.value.0, r.value.1))
  }

  lemma {:induction false} EatHere(t: string, c: char)
    requires !Space(c)
    ensures t == [] ==> Eat(t, c) == None
    ensures t != [] && t[0] == c ==> Eat(t, c) == Some(t[1..])
  {
  }

  lemma {:induction false} JoinedNothing(r: Option<(string, string)>)
    ensures Joined("", r) == r
  {
    if r.Some? {
      assert "" + r.value.0 == r.value.0;
    }
  }

  lemma {:induction false} JoinedStep(s: string, c: char, r: Option<(string, string)>)
    ensures Joined(s + [c], r) == Joined(s, Joined([c], r))
  {
    if r.Some? {
      assert s + [c] + r.value.0 == s + ([c] + r.value.0);
    }
  }

  lemma {:induction false} DigitAhead(t: string, v: nat, digits: string)
    requires t != [] && Digit(t[0])
    ensures v > MAX_BEFORE_DIGIT ==> Joined(digits, ReadDigits(t, v)) == None
    ensures v <= MAX_BEFORE_DIGIT ==>
      Joined(digits, ReadDigits(t, v)) == Joined(digits + [t[0]], ReadDigits(t[1..], v * 10 + DigitValue(t[0])))
  {
    if v <= MAX_BEFORE_DIGIT {
      JoinedStep(digits, t[0], ReadDigits(t[1..], 10 * v + DigitValue(t[0])));
    }
  }

  lemma {:induction false} NoDigitAhead(t: string, v: nat, digits: string)
    requires t == [] || !Digit(t[0])
    ensures Joined(digits, ReadDigits(t, v)) == Some((digits, t))
  {
    assert digits + "" == digits;
  }

  lemma {:induction false} NumberOfNone()
    ensures NumberOf("") == 0
  {
  }

  lemma {:induction false} NumberAppend(v: nat, digits: string, c: char)
    requires Digit(c)
    ensures NumberFrom(v, digits + [c]) == 10 * NumberFrom(v, digits) + DigitValue(c)
    decreases |digits|
  {
    if digits == [] {
      assert digits + [c] == [c];
    } else {
      assert (digits + [c])[1..] == digits[1..] + [c];
      NumberAppend(10 * v + if Digit(digits[0]) then DigitValue(digits[0]) else 0, digits[1..], c);
    }
  }
}
