/**
 * JSON values as the service sees them, and the text json.dumps gives for them
 * with compact separators (strings as in section 7 of RFC 8259).
 */
module Json {
  import opened Prelude

  /** A dictionary key; one that is not text may still have a JSON form. */
  datatype Key = Text(text: string) | Odd(dumped: Option<string>)

  /** Numbers carry their printed form; `Alien` is any other object. */
  datatype Value =
    | Null
    | Bool(truth: bool)
    | Number(printed: string, floating: bool, finite: bool)
    | Str(s: string)
    | Arr(items: seq<Value>)
    | Obj(members: seq<Member>)
    | Alien(dumped: Option<string>)

  datatype Member = Member(key: Key, value: Value)

  // ------------------------------------------------------------------
  // Text
  // ------------------------------------------------------------------

  function HexDigit(n: nat): char
    requires n < 16
  {
    "0123456789abcdef"[n]
  }

  function Unit(n: nat): string
    requires n < 0x10000
  {
    "\\u" + [HexDigit(n / 4096), HexDigit(n / 256 % 16), HexDigit(n / 16 % 16), HexDigit(n % 16)]
  }

  /** One character inside a JSON string; `ascii` is json.dumps' ensure_ascii. */
  function Escape(c: char, ascii: bool): string {
    if c == '"' then "\\\""
    else if c == '\\' then "\\\\"
    else if c == '\n' then "\\n"
    else if c == '\r' then "\\r"
    else if c == '\t' then "\\t"
    else if c as int == 8 then "\\b"
    else if c as int == 12 then "\\f"
    else if c as int < 32 then Unit(c as int)
    else if !ascii || c as int < 127 then [c]
    else if c as int < 0x10000 then Unit(c as int)
    else Unit(0xD800 + (c as int - 0x10000) / 0x400) + Unit(0xDC00 + (c as int - 0x10000) % 0x400)
  }

  function EscapeAll(s: string, ascii: bool): string {
    if s == [] then [] else Escape(s[0], ascii) + EscapeAll(s[1..], ascii)
  }

  function Quoted(s: string, ascii: bool): string {
    "\"" + EscapeAll(s, ascii) + "\""
  }

  // ------------------------------------------------------------------
  // Reading a string back
  // ------------------------------------------------------------------

  function HexOf(c: char): Option<nat> {
    if 48 <= c as int <= 57 then Some(c as int - 48)
    else if 97 <= c as int <= 102 then Some(c as int - 87)
    else None
  }

  /** The code unit of an escape of four hexadecimal digits at the start of a text. */
  function UnitAt(t: string): Option<nat> {
    if |t| < 6 || t[0] != '\\' || t[1] != 'u' || HexOf(t[2]).None? || HexOf(t[3]).None? || HexOf(t[4]).None?
       || HexOf(t[5]).None? then None
    else Some(((HexOf(t[2]).value * 16 + HexOf(t[3]).value) * 16 + HexOf(t[4]).value) * 16 + HexOf(t[5]).value)
  }

  predicate HighSurrogate(u: nat) { 0xD800 <= u < 0xDC00 }

  predicate LowSurrogate(u: nat) { 0xDC00 <= u < 0xE000 }

  /** The first character of a string body and how much of it that takes (section 7 of RFC 8259). */
  function ReadOne(t: string): Option<(char, nat)> {
    if t == [] || t[0] == '"' || t[0] as int < 32 then None
    else if t[0] != '\\' then Some((t[0], 1))
    else if |t| < 2 then None
    else if t[1] == '"' || t[1] == '\\' || t[1] == '/' then Some((t[1], 2))
    else if t[1] == 'n' then Some((10 as char, 2))
    else if t[1] == 'r' then Some((13 as char, 2))
    else if t[1] == 't' then Some((9 as char, 2))
    else if t[1] == 'b' then Some((8 as char, 2))
    else if t[1] == 'f' then Some((12 as char, 2))
    else
      var high := UnitAt(t);
      if high.None? then None
      else if HighSurrogate(high.value) then
        var low := UnitAt(t[6..]);
        if low.None? || !LowSurrogate(low.value) then None
        else Some(((0x10000 + (high.value - 0xD800) * 0x400 + (low.value - 0xDC00)) as char, 12))
      else if LowSurrogate(high.value) || high.value >= 0x10000 then None
      else Some((high.value as char, 6))
  }

  lemma UnitReads(n: nat, rest: string)
    requires n < 0x10000
    ensures UnitAt(Unit(n) + rest) == Some(n) && |Unit(n)| == 6 && (Unit(n) + rest)[6..] == rest
    ensures (Unit(n) + rest)[0] == '\\' && (Unit(n) + rest)[1] == 'u'
  {
    HexReads(n / 4096);
    HexReads(n / 256 % 16);
    HexReads(n / 16 % 16);
    HexReads(n % 16);
    FourDigits(n);
  }

  lemma HexReads(n: nat)
    requires n < 16
    ensures HexOf(HexDigit(n)) == Some(n)
  {
  }

  lemma FourDigits(n: nat)
    requires n < 0x10000
    ensures ((n / 4096 * 16 + n / 256 % 16) * 16 + n / 16 % 16) * 16 + n % 16 == n
  {
    var k := n / 16;
    var m := k / 16;
    assert n / 256 == m && n / 4096 == m / 16;
  }

  lemma PairReads(c: char, rest: string)
    requires c as int >= 0x10000
    ensures var n := c as int - 0x10000;
            ReadOne(Unit(0xD800 + n / 0x400) + Unit(0xDC00 + n % 0x400) + rest) == Some((c, 12))
  {
    var n := c as int - 0x10000;
    var high, low := 0xD800 + n / 0x400, 0xDC00 + n % 0x400;
    HalvesJoin(n);
    UnitReads(low, rest);
    Assoc(Unit(high), Unit(low), rest);
    UnitReads(high, Unit(low) + rest);
    PairIsRead(Unit(high) + (Unit(low) + rest), high, low);
  }

  lemma HalvesJoin(n: nat)
    requires n < 0x100000
    ensures n / 0x400 < 0x400 && n % 0x400 < 0x400 && n / 0x400 * 0x400 + n % 0x400 == n
  {
  }

  lemma PairIsRead(t: string, high: nat, low: nat)
    requires UnitAt(t) == Some(high) && UnitAt(t[6..]) == Some(low) && HighSurrogate(high) && LowSurrogate(low)
    ensures ReadOne(t) == Some(((0x10000 + (high - 0xD800) * 0x400 + (low - 0xDC00)) as char, 12))
  {
  }

  lemma PlainReads(c: char, rest: string)
    requires c as int >= 32 && c != '"' && c != '\\'
    ensures ReadOne([c] + rest) == Some((c, 1))
  {
  }

  lemma ShortReads(c: char, mark: char, rest: string)
    requires mark in {'"', '\\'} ==> c == mark
    requires mark in {'"', '\\', 'n', 'r', 't', 'b', 'f'}
    requires (mark == 'n' ==> c as int == 10) && (mark == 'r' ==> c as int == 13) && (mark == 't' ==> c as int == 9)
    requires (mark == 'b' ==> c as int == 8) && (mark == 'f' ==> c as int == 12)
    ensures ReadOne(['\\', mark] + rest) == Some((c, 2))
  {
  }

  lemma UnitIsRead(c: char, rest: string)
    requires c as int < 0x10000
    ensures ReadOne(Unit(c as int) + rest) == Some((c, 6))
  {
    UnitReads(c as int, rest);
  }

  /** Whatever follows it, an escaped character reads as the character. */
  lemma EscapeReads(c: char, ascii: bool, rest: string)
    ensures ReadOne(Escape(c, ascii) + rest) == Some((c, |Escape(c, ascii)|))
  {
    var n := c as int;
    if c in {'"', '\\', '\n', '\r', '\t'} || n == 8 || n == 12 {
      ShortReads(c, Escape(c, ascii)[1], rest);
      assert Escape(c, ascii) == ['\\', Escape(c, ascii)[1]];
    } else if n < 32 {
      UnitIsRead(c, rest);
    } else if !ascii || n < 127 {
      PlainReads(c, rest);
    } else if n < 0x10000 {
      UnitIsRead(c, rest);
    } else {
      PairReads(c, rest);
    }
  }

  /** Which characters are escaped, and how long that takes. */
  lemma EscapeForm(c: char, ascii: bool)
    ensures var n, e := c as int, Escape(c, ascii);
            && (|e| == 2 <==> n in {8, 9, 10, 12, 13, 34, 92})
            && (|e| == 1 <==> n >= 32 && n != 34 && n != 92 && (ascii ==> n < 127))
            && (|e| == 12 <==> n >= 0x10000 && ascii) && |e| in {1, 2, 6, 12}
  {
  }

  predicate Ascii(s: string) {
    forall i :: 0 <= i < |s| ==> s[i] as int < 127
  }

  /** Under ensure_ascii nothing else is printed. */
  lemma EscapeIsAscii(c: char)
    ensures Ascii(Escape(c, true))
  {
    var n := c as int;
    if n >= 0x10000 {
      HalvesJoin(n - 0x10000);
      UnitIsAscii(0xD800 + (n - 0x10000) / 0x400);
      UnitIsAscii(0xDC00 + (n - 0x10000) % 0x400);
      AsciiConcat(Unit(0xD800 + (n - 0x10000) / 0x400), Unit(0xDC00 + (n - 0x10000) % 0x400));
    } else if n < 32 || n >= 127 {
      UnitIsAscii(n);
    }
  }

  lemma AsciiConcat(a: string, b: string)
    requires Ascii(a) && Ascii(b)
    ensures Ascii(a + b)
  {
  }

  lemma UnitIsAscii(n: nat)
    requires n < 0x10000
    ensures Ascii(Unit(n))
  {
    HexIsAscii(n / 4096);
    HexIsAscii(n / 256 % 16);
    HexIsAscii(n / 16 % 16);
    HexIsAscii(n % 16);
  }

  lemma HexIsAscii(n: nat)
    requires n < 16
    ensures HexDigit(n) as int < 127
  {
  }

  /** A string body read to its end. */
  function ReadAll(t: string): Option<string> {
    if t == [] then Some([]) else
      var first := ReadOne(t);
      if first.None? || first.value.1 == 0 || first.value.1 > |t| then None else
        var rest := ReadAll(t[first.value.1..]);
        if rest.None? then None else Some([first.value.0] + rest.value)
  }

  /** Every text can be read back from its escaped form. */
  lemma {:induction false} EscapeRoundTrip(s: string, ascii: bool)
    ensures ReadAll(EscapeAll(s, ascii)) == Some(s)
  {
    if s != [] {
      var e, rest := Escape(s[0], ascii), EscapeAll(s[1..], ascii);
      EscapeRoundTrip(s[1..], ascii);
      EscapeReads(s[0], ascii, rest);
      assert e != [] && (e + rest)[|e|..] == rest;
      assert s == [s[0]] + s[1..];
    }
  }

  /** UTF-8 length of a character and of a text. */
  function Utf8(c: char): nat {
    if c as int < 0x80 then 1 else if c as int < 0x800 then 2 else if c as int < 0x10000 then 3 else 4
  }

  function Bytes(s: string): nat {
    if s == [] then 0 else Utf8(s[0]) + Bytes(s[1..])
  }

  lemma {:induction false} BytesConcat(a: string, b: string)
    ensures Bytes(a + b) == Bytes(a) + Bytes(b)
  {
    if a == [] {
      assert a + b == b;
    } else {
      BytesConcat(a[1..], b);
      assert (a + b)[0] == a[0] && (a + b)[1..] == a[1..] + b;
    }
  }

  lemma EscapeGrows(c: char, ascii: bool)
    ensures Bytes(Escape(c, ascii)) >= (if ascii then 1 else Utf8(c))
  {
    var e := Escape(c, ascii);
    assert e == [e[0]] + e[1..];
    if |e| > 1 {
      assert Bytes(e) == Utf8(e[0]) + (Utf8(e[1..][0]) + Bytes(e[1..][1..]));
    }
  }

  /** Escaping never shortens a text. */
  lemma {:induction false} EscapeAllGrows(s: string)
    ensures Bytes(EscapeAll(s, false)) >= Bytes(s)
  {
    if s != [] {
      EscapeAllGrows(s[1..]);
      EscapeGrows(s[0], false);
      BytesConcat(Escape(s[0], false), EscapeAll(s[1..], false));
    }
  }

  lemma QuotedGrows(s: string)
    ensures Bytes(Quoted(s, false)) >= Bytes(s) + 2
  {
    EscapeAllGrows(s);
    BytesConcat("\"" + EscapeAll(s, false), "\"");
    BytesConcat("\"", EscapeAll(s, false));
  }

  // ------------------------------------------------------------------
  // Values
  // ------------------------------------------------------------------

  function Append(a: Option<string>, b: Option<string>): Option<string> {
    if a.Some? && b.Some? then Some(a.value + b.value) else None
  }

  function EncodeKey(k: Key, ascii: bool): Option<string> {
    match k
    case Text(t) => Some(Quoted(t, ascii))
    case Odd(d) => if d.Some? then Some(Quoted(d.value, ascii)) else None
  }

  /** json.dumps with allow_nan=False; `None` is the exception it raises. */
  function Encode(v: Value, ascii: bool): Option<string> {
    match v
    case Null => Some("null")
    case Bool(b) => Some(if b then "true" else "false")
    case Number(p, floating, finite) => if floating && !finite then None else Some(p)
    case Str(s) => Some(Quoted(s, ascii))
    case Arr(items) => Append(Append(Some("["), EncodeItems(items, ascii)), Some("]"))
    case Obj(members) => Append(Append(Some("{"), EncodeMembers(members, ascii)), Some("}"))
    case Alien(d) => d
  }

  function EncodeItems(items: seq<Value>, ascii: bool): Option<string> {
    if items == [] then Some("")
    else if |items| == 1 then Encode(items[0], ascii)
    else Append(Append(Encode(items[0], ascii), Some(",")), EncodeItems(items[1..], ascii))
  }

  function EncodeMember(m: Member, ascii: bool): Option<string> {
    Append(Append(EncodeKey(m.key, ascii), Some(":")), Encode(m.value, ascii))
  }

  function EncodeMembers(members: seq<Member>, ascii: bool): Option<string> {
    if members == [] then Some("")
    else if |members| == 1 then EncodeMember(members[0], ascii)
    else Append(Append(EncodeMember(members[0], ascii), Some(",")), EncodeMembers(members[1..], ascii))
  }

  /** dict.get with a string key, on the first member that has it. */
  function Get(members: seq<Member>, key: string): Option<Value> {
    if members == [] then None
    else if members[0].key == Text(key) then Some(members[0].value)
    else Get(members[1..], key)
  }

  /** The separators: what a list of items or members prints, cut anywhere, is joined by a comma. */
  lemma {:induction false} ItemsJoin(a: seq<Value>, b: seq<Value>, ascii: bool)
    requires a != [] && b != []
    ensures EncodeItems(a + b, ascii) == Append(Append(EncodeItems(a, ascii), Some(",")), EncodeItems(b, ascii))
    ensures EncodeItems([a[0]], ascii) == Encode(a[0], ascii)
    decreases |a|
  {
    if |a| == 1 {
      assert (a + b)[1..] == b;
    } else {
      assert (a + b)[1..] == a[1..] + b;
      ItemsJoin(a[1..], b, ascii);
      AppendAssociates(Append(Encode(a[0], ascii), Some(",")), EncodeItems(a[1..], ascii), Some(","));
      AppendAssociates(Append(Encode(a[0], ascii), Some(",")),
                       Append(EncodeItems(a[1..], ascii), Some(",")), EncodeItems(b, ascii));
    }
  }

  lemma {:induction false} MembersJoin(a: seq<Member>, b: seq<Member>, ascii: bool)
    requires a != [] && b != []
    ensures EncodeMembers(a + b, ascii) == Append(Append(EncodeMembers(a, ascii), Some(",")), EncodeMembers(b, ascii))
    ensures EncodeMembers([a[0]], ascii) == EncodeMember(a[0], ascii)
    decreases |a|
  {
    if |a| == 1 {
      assert (a + b)[1..] == b;
    } else {
      assert (a + b)[1..] == a[1..] + b;
      MembersJoin(a[1..], b, ascii);
      AppendAssociates(Append(EncodeMember(a[0], ascii), Some(",")), EncodeMembers(a[1..], ascii), Some(","));
      AppendAssociates(Append(EncodeMember(a[0], ascii), Some(",")),
                       Append(EncodeMembers(a[1..], ascii), Some(",")), EncodeMembers(b, ascii));
    }
  }

  lemma AppendAssociates(a: Option<string>, b: Option<string>, c: Option<string>)
    ensures Append(Append(a, b), c) == Append(a, Append(b, c))
  {
    if a.Some? && b.Some? && c.Some? {
      Assoc(a.value, b.value, c.value);
    }
  }

  /** A text between two marks. */
  predicate Between(t: string, open: char, inner: string, close: char) {
    |t| == |inner| + 2 && t[0] == open && t[|t| - 1] == close && t[1..|t| - 1] == inner
  }

  lemma BetweenMarks(open: char, inner: string, close: char)
    ensures Between([open] + inner + [close], open, inner, close)
  {
  }

  /** A list, empty or not, stands in square brackets. */
  lemma ListMarks(items: seq<Value>, ascii: bool)
    ensures var t, inner := Encode(Arr(items), ascii), EncodeItems(items, ascii);
            && (t.Some? <==> inner.Some?) && (t.Some? ==> Between(t.value, '[', inner.value, ']'))
    ensures EncodeItems([], ascii) == Some("")
  {
    if EncodeItems(items, ascii).Some? {
      BetweenMarks('[', EncodeItems(items, ascii).value, ']');
    }
  }

  /** A dictionary stands in braces. */
  lemma DictMarks(members: seq<Member>, ascii: bool)
    ensures var t, inner := Encode(Obj(members), ascii), EncodeMembers(members, ascii);
            && (t.Some? <==> inner.Some?) && (t.Some? ==> Between(t.value, '{', inner.value, '}'))
    ensures EncodeMembers([], ascii) == Some("")
  {
    if EncodeMembers(members, ascii).Some? {
      BetweenMarks('{', EncodeMembers(members, ascii).value, '}');
    }
  }

  /** A text stands in quotes and can be read back. */
  lemma TextMarks(s: string, ascii: bool)
    ensures Encode(Str(s), ascii).Some?
    ensures exists inner :: Between(Encode(Str(s), ascii).value, '"', inner, '"') && ReadAll(inner) == Some(s)
  {
    EscapeRoundTrip(s, ascii);
    BetweenMarks('"', EscapeAll(s, ascii), '"');
  }

  /** A member is its key as a text, a colon, and its value. */
  lemma MemberMarks(m: Member, ascii: bool)
    requires m.key.Text?
    ensures EncodeMember(m, ascii).Some? <==> Encode(m.value, ascii).Some?
    ensures EncodeMember(m, ascii).Some? ==>
      EncodeMember(m, ascii).value == Encode(Str(m.key.text), ascii).value + ":" + Encode(m.value, ascii).value
  {
  }

  /** The words of JSON; a number as printed, unless it is not finite. */
  lemma WordMarks(v: Value, ascii: bool)
    ensures v == Null ==> Encode(v, ascii) == Some("null")
    ensures v == Bool(true) ==> Encode(v, ascii) == Some("true")
    ensures v == Bool(false) ==> Encode(v, ascii) == Some("false")
    ensures v.Number? ==> (Encode(v, ascii) == Some(v.printed) <==> !(v.floating && !v.finite))
    ensures v.Number? && v.floating && !v.finite ==> Encode(v, ascii).None?
  {
  }

  /** The first member with this text key has this value. */
  ghost predicate Gives(members: seq<Member>, key: string, value: Value) {
    exists i :: 0 <= i < |members| && members[i] == Member(Text(key), value)
             && forall j :: 0 <= j < i ==> members[j].key != Text(key)
  }

  /** A dictionary gives a text key the value of the first member that has it, and nothing without one. */
  lemma {:induction false} GetFinds(members: seq<Member>, key: string, value: Value)
    ensures Get(members, key) == Some(value) <==> Gives(members, key, value)
  {
    if members != [] && members[0].key != Text(key) {
      var rest := members[1..];
      GetFinds(rest, key, value);
      if Gives(rest, key, value) {
        var i :| 0 <= i < |rest| && rest[i] == Member(Text(key), value)
          && forall j :: 0 <= j < i ==> rest[j].key != Text(key);
        assert members[i + 1] == rest[i];
        assert forall j :: 0 < j < i + 1 ==> members[j] == rest[j - 1];
      }
      if Gives(members, key, value) {
        var i :| 0 <= i < |members| && members[i] == Member(Text(key), value)
          && forall j :: 0 <= j < i ==> members[j].key != Text(key);
        assert rest[i - 1] == members[i];
        assert forall j :: 0 <= j < i - 1 ==> rest[j] == members[j + 1];
      }
    } else if members != [] {
      assert Gives(members, key, members[0].value);
    }
  }

  lemma {:induction false} GetMisses(members: seq<Member>, key: string)
    ensures Get(members, key).None? <==> forall i :: 0 <= i < |members| ==> members[i].key != Text(key)
  {
    if members != [] {
      GetMisses(members[1..], key);
      assert forall i :: 0 < i < |members| ==> members[i] == members[1..][i - 1];
    }
  }

  /** Characters of the identifier classes the validators use. */
  predicate Alphanumeric(c: char) {
    ('A' <= c <= 'Z') || ('a' <= c <= 'z') || ('0' <= c <= '9')
  }

  /** ^[A-Za-z0-9][A-Za-z0-9<extra>]{0,limit-1}$ */
  predicate Identifier(s: string, extra: set<char>, limit: nat) {
    && 0 < |s| <= limit && Alphanumeric(s[0])
    && (forall i :: 0 <= i < |s| ==> Alphanumeric(s[i]) || s[i] in extra)
  }

  /** ASCII letter or digit. */
  predicate Word(c: char) {
    48 <= c as int <= 57 || 65 <= c as int <= 90 || 97 <= c as int <= 122
  }

  /** Up to so many letters, digits and marks, a letter or digit first. */
  predicate Marked(s: string, marks: string, limit: nat) {
    1 <= |s| <= limit && Word(s[0]) && forall i :: 0 <= i < |s| ==> Word(s[i]) || s[i] in marks
  }

  lemma IdentifierIff(s: string, extra: set<char>, marks: string, limit: nat)
    requires forall c :: c in extra <==> c in marks
    ensures Identifier(s, extra, limit) <==> Marked(s, marks, limit)
  {
    assert forall c: char :: Word(c) <==> Alphanumeric(c);
  }
}
