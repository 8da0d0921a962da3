/**
 * Compilation of an admitted mount-scoped path template: placeholders are
 * replaced one after the other in the text, by values checked and quoted first.
 */
module PathTemplate {
  import opened Prelude
  import opened Json

  // ------------------------------------------------------------------
  // Splitting and printing
  // ------------------------------------------------------------------

  predicate Without(s: string, c: char) {
    forall i :: 0 <= i < |s| ==> s[i] != c
  }

  predicate Braceless(s: string) {
    Without(s, '{') && Without(s, '}')
  }

  /** str.split('/') */
  function Split(s: string): (r: seq<string>)
    ensures r != []
  {
    if s == [] then [""]
    else if s[0] == '/' then [""] + Split(s[1..])
    else var r := Split(s[1..]); [[s[0]] + r[0]] + r[1..]
  }

  /** Every text with a slash before it. */
  function Path(xs: seq<string>): string {
    if xs == [] then [] else ['/'] + (xs[0] + Path(xs[1..]))
  }

  lemma Uncons(x: string, y: string, c: char)
    requires [c] + x == [c] + y
    ensures x == y
  {
    assert x == ([c] + x)[1..] && y == ([c] + y)[1..];
  }

  lemma {:induction false} SplitIsPath(s: string)
    ensures Path(Split(s)) == ['/'] + s
    ensures forall i :: 0 <= i < |Split(s)| ==> Without(Split(s)[i], '/')
  {
    if s == [] {
      assert Path([""]) == ['/'] + ("" + Path([]));
    } else {
      SplitIsPath(s[1..]);
      var r := Split(s[1..]);
      assert s == [s[0]] + s[1..];
      if s[0] == '/' {
        assert ([""] + r)[1..] == r;
        assert "" + Path(r) == Path(r);
      } else {
        PathLonger(s[0], r);
        Uncons(s[1..], r[0] + Path(r[1..]), '/');
        assert Split(s) == [[s[0]] + r[0]] + r[1..];
      }
    }
  }

  /** A character put before the first text. */
  lemma PathLonger(c: char, xs: seq<string>)
    requires xs != []
    ensures Path([[c] + xs[0]] + xs[1..]) == ['/'] + ([c] + (xs[0] + Path(xs[1..])))
  {
    assert ([[c] + xs[0]] + xs[1..])[1..] == xs[1..];
    Assoc([c], xs[0], Path(xs[1..]));
  }

  lemma {:induction false} SplitConcat(x: string, rest: string)
    requires Without(x, '/')
    ensures Split(x + ['/'] + rest) == [x] + Split(rest)
    ensures Split(x) == [x]
  {
    if x == [] {
      assert x + ['/'] + rest == ['/'] + rest;
      assert (['/'] + rest)[1..] == rest;
    } else {
      SplitConcat(x[1..], rest);
      assert x == [x[0]] + x[1..];
      assert (x + ['/'] + rest)[1..] == x[1..] + ['/'] + rest;
    }
  }

  /** Slash-free texts can be read back from their path. */
  lemma {:induction false} PathSplits(xs: seq<string>)
    requires xs != [] && (forall i :: 0 <= i < |xs| ==> Without(xs[i], '/'))
    ensures Path(xs) != [] && Split(Path(xs)[1..]) == xs
  {
    var rest := Path(xs[1..]);
    assert (['/'] + (xs[0] + rest))[1..] == xs[0] + rest;
    if |xs| == 1 {
      assert rest == [] && xs[0] + rest == xs[0];
      SplitConcat(xs[0], []);
    } else {
      PathSplits(xs[1..]);
      assert rest == ['/'] + rest[1..];
      SplitConcat(xs[0], rest[1..]);
      Assoc(xs[0], ['/'], rest[1..]);
      assert xs == [xs[0]] + xs[1..];
    }
  }

  // ------------------------------------------------------------------
  // Templates
  // ------------------------------------------------------------------

  datatype Segment = Lit(text: string) | Hole(name: string)

  function Shown(seg: Segment): string {
    match seg
    case Lit(t) => t
    case Hole(n) => ['{'] + n + ['}']
  }

  function Texts(segs: seq<Segment>): seq<string> {
    seq(|segs|, (i: nat) requires i < |segs| => Shown(segs[i]))
  }

  function Print(segs: seq<Segment>): string {
    if segs == [] then [] else ['/'] + (Shown(segs[0]) + Print(segs[1..]))
  }

  predicate LiteralText(s: string) {
    s != [] && forall i :: 0 <= i < |s| ==> Alphanumeric(s[i]) || s[i] in {'_', '.', ':', '@', '+', '~', '-'}
  }

  /** [A-Za-z][A-Za-z0-9_]{0,63} */
  predicate Name(s: string) {
    && 0 < |s| <= 64 && !('0' <= s[0] <= '9') && Alphanumeric(s[0])
    && (forall i :: 0 <= i < |s| ==> Alphanumeric(s[i]) || s[i] == '_')
  }

  function ParseSegment(x: string): Option<Segment> {
    if LiteralText(x) then Some(Lit(x))
    else if |x| >= 2 && x[0] == '{' && x[|x| - 1] == '}' && Name(x[1..|x| - 1]) then Some(Hole(x[1..|x| - 1]))
    else None
  }

  function ParseAll(xs: seq<string>): Option<seq<Segment>> {
    if xs == [] then Some([]) else
      var first := ParseSegment(xs[0]);
      var rest := ParseAll(xs[1..]);
      if first.Some? && rest.Some? then Some([first.value] + rest.value) else None
  }

  const MOUNT := "secret_mount_path"

  /** The templates the mounted-template expression matches, segment by segment. */
  function Parse(template: string): Option<seq<Segment>> {
    if template == [] || template[0] != '/' then None else
      var segs := ParseAll(Split(template[1..]));
      if segs.Some? && segs.value != [] && segs.value[0] == Hole(MOUNT) then segs else None
  }

  predicate Tidy(seg: Segment) {
    match seg
    case Lit(t) => Braceless(t)
    case Hole(n) => Braceless(n)
  }

  predicate AllTidy(segs: seq<Segment>) {
    forall i :: 0 <= i < |segs| ==> Tidy(segs[i])
  }

  lemma SegmentShows(x: string)
    requires ParseSegment(x).Some?
    ensures Shown(ParseSegment(x).value) == x && Tidy(ParseSegment(x).value)
    ensures ParseSegment(x).value.Lit? ==> Without(x, '/')
  {
    if !LiteralText(x) {
      assert x == ['{'] + x[1..|x| - 1] + ['}'];
    }
  }

  lemma {:induction false} ParseAllPrints(xs: seq<string>)
    requires ParseAll(xs).Some?
    ensures |ParseAll(xs).value| == |xs| && Print(ParseAll(xs).value) == Path(xs) && AllTidy(ParseAll(xs).value)
    ensures forall i :: 0 <= i < |xs| ==> Shown(ParseAll(xs).value[i]) == xs[i]
    ensures forall i :: 0 <= i < |xs| && ParseAll(xs).value[i].Lit? ==> Without(xs[i], '/')
  {
    if xs != [] {
      ParseAllPrints(xs[1..]);
      var segs := ParseAll(xs).value;
      assert segs[1..] == ParseAll(xs[1..]).value;
      SegmentShows(xs[0]);
    }
  }

  /** An admitted template is what its segments print. */
  lemma ParsePrints(template: string)
    requires Parse(template).Some?
    ensures Print(Parse(template).value) == template && AllTidy(Parse(template).value)
    ensures forall i :: 0 <= i < |Parse(template).value| && Parse(template).value[i].Lit? ==>
      Without(Parse(template).value[i].text, '/')
  {
    SplitIsPath(template[1..]);
    ParseAllPrints(Split(template[1..]));
    assert template == ['/'] + template[1..];
  }

  /** What a template may be made of: literals of the reviewed class, and placeholders named like variables. */
  predicate Admitted(seg: Segment) {
    match seg
    case Lit(t) => t != "" && forall i :: 0 <= i < |t| ==> Word(t[i]) || t[i] in "_.:@+~-"
    case Hole(n) =>
      && 1 <= |n| <= 64 && (65 <= n[0] as int <= 90 || 97 <= n[0] as int <= 122)
      && forall i :: 0 <= i < |n| ==> Word(n[i]) || n[i] == '_'
  }

  ghost predicate AllAdmitted(segs: seq<Segment>) {
    forall i :: 0 <= i < |segs| ==> Admitted(segs[i])
  }

  lemma AdmittedParses(seg: Segment)
    requires Admitted(seg)
    ensures ParseSegment(Shown(seg)) == Some(seg) && Without(Shown(seg), '/')
  {
    var x := Shown(seg);
    assert forall c: char :: Word(c) <==> Alphanumeric(c);
    if seg.Hole? {
      assert x[1..|x| - 1] == seg.name && x[0] == '{';
    }
  }

  lemma ParsedIsAdmitted(x: string)
    requires ParseSegment(x).Some?
    ensures Admitted(ParseSegment(x).value)
  {
    assert forall c: char :: Word(c) <==> Alphanumeric(c);
  }

  lemma TextsCons(segs: seq<Segment>)
    requires segs != []
    ensures Texts(segs) == [Shown(segs[0])] + Texts(segs[1..])
  {
  }

  lemma ParseAllCons(x: string, xs: seq<string>)
    ensures ParseAll([x] + xs) == if ParseSegment(x).Some? && ParseAll(xs).Some?
                                  then Some([ParseSegment(x).value] + ParseAll(xs).value) else None
  {
    assert ([x] + xs)[0] == x && ([x] + xs)[1..] == xs;
  }

  lemma {:induction false} ParseAllIff(segs: seq<Segment>)
    requires AllAdmitted(segs)
    ensures ParseAll(Texts(segs)) == Some(segs)
    ensures forall i :: 0 <= i < |segs| ==> Without(Texts(segs)[i], '/')
  {
    if segs != [] {
      ParseAllIff(segs[1..]);
      AdmittedParses(segs[0]);
      TextsCons(segs);
      ParseAllCons(Shown(segs[0]), Texts(segs[1..]));
      assert segs == [segs[0]] + segs[1..];
    }
  }

  lemma {:induction false} ParsedAreAdmitted(xs: seq<string>)
    requires ParseAll(xs).Some?
    ensures AllAdmitted(ParseAll(xs).value)
  {
    if xs != [] {
      ParsedAreAdmitted(xs[1..]);
      ParsedIsAdmitted(xs[0]);
    }
  }

  /** A template is admitted exactly if it prints admitted segments, the mount placeholder first. */
  lemma ParseIff(template: string, segs: seq<Segment>)
    ensures Parse(template) == Some(segs) <==>
      segs != [] && segs[0] == Hole("secret_mount_path") && AllAdmitted(segs) && template == Print(segs)
  {
    if Parse(template) == Some(segs) {
      ParsePrints(template);
      ParsedAreAdmitted(Split(template[1..]));
    }
    if segs != [] && segs[0] == Hole("secret_mount_path") && AllAdmitted(segs) && template == Print(segs) {
      ParseAllIff(segs);
      PrintIsPath(segs);
      PathSplits(Texts(segs));
    }
  }

  // ------------------------------------------------------------------
  // Replacement
  // ------------------------------------------------------------------

  /** str.replace: left to right, without overlap. */
  function ReplaceAll(s: string, pattern: string, value: string): string
    requires pattern != []
    decreases |s|
  {
    if s == [] then []
    else if pattern <= s then value + ReplaceAll(s[|pattern|..], pattern, value)
    else [s[0]] + ReplaceAll(s[1..], pattern, value)
  }

  function Braced(n: string): string {
    ['{'] + n + ['}']
  }

  /** Text without an opening brace is passed over. */
  lemma {:induction false} PassOver(a: string, b: string, n: string, value: string)
    requires Without(a, '{')
    ensures ReplaceAll(a + b, Braced(n), value) == a + ReplaceAll(b, Braced(n), value)
    decreases |a|
  {
    if a == [] {
      assert a + b == b;
    } else {
      assert (a + b)[0] == a[0] && (a + b)[1..] == a[1..] + b;
      assert Braced(n)[0] == '{';
      PassOver(a[1..], b, n, value);
      assert a == [a[0]] + a[1..];
    }
  }

  lemma {:induction false} SameName(m: string, n: string, b: string)
    requires Braceless(m) && Braceless(n) && n + ['}'] <= m + ['}'] + b
    ensures m == n
    decreases |n|
  {
    if n == [] || m == [] {
      assert (n + ['}'])[0] == (m + ['}'] + b)[0];
      assert n == [] ==> (m + ['}'] + b)[0] == '}';
    } else {
      var left, right := n + ['}'], m + ['}'] + b;
      assert left[0] == right[0];
      assert left[1..] == n[1..] + ['}'] && right[1..] == m[1..] + ['}'] + b;
      assert left[1..] <= right[1..];
      SameName(m[1..], n[1..], b);
      assert m == [m[0]] + m[1..] && n == [n[0]] + n[1..];
    }
  }

  function FillOne(seg: Segment, n: string, value: string): Segment {
    if seg == Hole(n) then Lit(value) else seg
  }

  lemma ReplaceSegment(seg: Segment, b: string, n: string, value: string)
    requires Tidy(seg) && Braceless(n)
    ensures ReplaceAll(Shown(seg) + b, Braced(n), value)
            == Shown(FillOne(seg, n, value)) + ReplaceAll(b, Braced(n), value)
  {
    match seg
    case Lit(t) => PassOver(t, b, n, value);
    case Hole(m) =>
      var s := Shown(seg) + b;
      if m == n {
        assert s[|Braced(n)|..] == b;
      } else {
        if Braced(n) <= s {
          assert Braced(n)[1..] == n + ['}'] && s[1..] == m + ['}'] + b;
          SameName(m, n, b);
        }
        assert s[1..] == (m + ['}']) + b;
        PassOver(m + ['}'], b, n, value);
        assert [s[0]] + ((m + ['}']) + ReplaceAll(b, Braced(n), value)) == Shown(seg) + ReplaceAll(b, Braced(n), value);
      }
  }

  function FillName(segs: seq<Segment>, n: string, value: string): seq<Segment> {
    seq(|segs|, (i: nat) requires i < |segs| => FillOne(segs[i], n, value))
  }

  /** Replacing in the text is replacing the segment. */
  lemma {:induction false} ReplaceFills(segs: seq<Segment>, n: string, value: string)
    requires AllTidy(segs) && Braceless(n)
    ensures ReplaceAll(Print(segs), Braced(n), value) == Print(FillName(segs, n, value))
  {
    if segs != [] {
      ReplaceFills(segs[1..], n, value);
      FilledPrints(segs, n, value);
      ReplaceNext(segs[0], Print(segs[1..]), n, value);
    }
  }

  lemma FilledPrints(segs: seq<Segment>, n: string, value: string)
    requires segs != []
    ensures Print(FillName(segs, n, value))
         == ['/'] + (Shown(FillOne(segs[0], n, value)) + Print(FillName(segs[1..], n, value)))
  {
    var filled := FillName(segs, n, value);
    assert filled[1..] == FillName(segs[1..], n, value) && filled[0] == FillOne(segs[0], n, value);
  }

  lemma ReplaceNext(seg: Segment, rest: string, n: string, value: string)
    requires Tidy(seg) && Braceless(n)
    ensures ReplaceAll(['/'] + (Shown(seg) + rest), Braced(n), value)
         == ['/'] + (Shown(FillOne(seg, n, value)) + ReplaceAll(rest, Braced(n), value))
  {
    PassOver(['/'], Shown(seg) + rest, n, value);
    ReplaceSegment(seg, rest, n, value);
  }

  datatype Pair = Pair(name: string, value: string)

  function Lookup(pairs: seq<Pair>, n: string): Option<string> {
    if pairs == [] then None else if pairs[0].name == n then Some(pairs[0].value) else Lookup(pairs[1..], n)
  }

  /** All placeholders at once. */
  function FillSegment(seg: Segment, pairs: seq<Pair>): Segment {
    if seg.Hole? && Lookup(pairs, seg.name).Some? then Lit(Lookup(pairs, seg.name).value) else seg
  }

  function Fill(segs: seq<Segment>, pairs: seq<Pair>): seq<Segment> {
    seq(|segs|, (i: nat) requires i < |segs| => FillSegment(segs[i], pairs))
  }

  predicate TidyPairs(pairs: seq<Pair>) {
    forall i :: 0 <= i < |pairs| ==> Braceless(pairs[i].name) && Braceless(pairs[i].value)
  }

  /** The replacements, one after the other. */
  function ReplaceSeq(s: string, pairs: seq<Pair>): string
    decreases |pairs|
  {
    if pairs == [] then s else ReplaceSeq(ReplaceAll(s, Braced(pairs[0].name), pairs[0].value), pairs[1..])
  }

  /** Sequential text replacement is simultaneous segment substitution. */
  lemma {:induction false} SequentialIsSimultaneous(segs: seq<Segment>, pairs: seq<Pair>)
    requires AllTidy(segs) && TidyPairs(pairs)
    ensures ReplaceSeq(Print(segs), pairs) == Print(Fill(segs, pairs))
    decreases |pairs|
  {
    if pairs == [] {
      assert Fill(segs, pairs) == segs;
    } else {
      var p := pairs[0];
      ReplaceFills(segs, p.name, p.value);
      var next := FillName(segs, p.name, p.value);
      SequentialIsSimultaneous(next, pairs[1..]);
      assert Fill(next, pairs[1..]) == Fill(segs, pairs);
    }
  }

  predicate DistinctNames(pairs: seq<Pair>) {
    forall i, j :: 0 <= i < j < |pairs| ==> pairs[i].name != pairs[j].name
  }

  lemma {:induction false} LookupIs(pairs: seq<Pair>, n: string, value: string)
    requires DistinctNames(pairs)
    ensures Lookup(pairs, n) == Some(value) <==> Pair(n, value) in pairs
  {
    if pairs != [] {
      LookupIs(pairs[1..], n, value);
      assert pairs == [pairs[0]] + pairs[1..];
      assert forall i :: 0 <= i < |pairs[1..]| ==> pairs[1..][i].name != pairs[0].name;
    }
  }

  lemma SameLookup(p: seq<Pair>, q: seq<Pair>, n: string)
    requires DistinctNames(p) && DistinctNames(q) && multiset(p) == multiset(q)
    ensures Lookup(p, n) == Lookup(q, n)
  {
    if Lookup(p, n).Some? {
      LookupIs(p, n, Lookup(p, n).value);
      LookupIs(q, n, Lookup(p, n).value);
      assert Pair(n, Lookup(p, n).value) in multiset(q);
    }
    if Lookup(q, n).Some? {
      LookupIs(q, n, Lookup(q, n).value);
      LookupIs(p, n, Lookup(q, n).value);
      assert Pair(n, Lookup(q, n).value) in multiset(p);
    }
  }

  /** Any order of the same replacements compiles to the same path. */
  lemma AnyOrder(segs: seq<Segment>, p: seq<Pair>, q: seq<Pair>)
    requires AllTidy(segs) && TidyPairs(p) && TidyPairs(q)
    requires DistinctNames(p) && DistinctNames(q) && multiset(p) == multiset(q)
    ensures ReplaceSeq(Print(segs), p) == ReplaceSeq(Print(segs), q)
  {
    SequentialIsSimultaneous(segs, p);
    SequentialIsSimultaneous(segs, q);
    forall n
      ensures Lookup(p, n) == Lookup(q, n)
    {
      SameLookup(p, q, n);
    }
    assert Fill(segs, p) == Fill(segs, q);
  }

  // ------------------------------------------------------------------
  // Checked and quoted values
  // ------------------------------------------------------------------

  /** str.isspace for one character. */
  predicate Space(c: char) {
    var n := c as int;
    || 9 <= n <= 13 || 28 <= n <= 32 || n == 0x85 || n == 0xA0 || n == 0x1680 || 0x2000 <= n <= 0x200A
    || n == 0x2028 || n == 0x2029 || n == 0x202F || n == 0x205F || n == 0x3000
  }

  function TrimLeft(s: string, drop: char -> bool): string {
    if s != [] && drop(s[0]) then TrimLeft(s[1..], drop) else s
  }

  function TrimRight(s: string, drop: char -> bool): string {
    if s != [] && drop(s[|s| - 1]) then TrimRight(s[..|s| - 1], drop) else s
  }

  function Strip(s: string, drop: char -> bool): string {
    TrimRight(TrimLeft(s, drop), drop)
  }

  predicate MountText(s: string) {
    Identifier(s, {'_', '.', '-'}, 128)
  }

  predicate SegmentText(s: string) {
    Identifier(s, {'_', '.', ':', '@', '+', '~', '-'}, 200)
  }

  function NormalizeMount(value: Value): Option<string> {
    if !value.Str? then None else
      var s := Strip(Strip(value.s, Space), (c: char) => c == '/');
      if MountText(s) then Some(s) else None
  }

  predicate ResourceText(s: string) {
    && 0 < |s| <= 1024 && s == Strip(s, Space) && s[0] != '/' && s[|s| - 1] != '/'
    && (forall i :: 0 <= i < |s| - 1 ==> !(s[i] == '/' && s[i + 1] == '/'))
    && (forall i :: 0 <= i < |Split(s)| ==> SegmentText(Split(s)[i]) && Split(s)[i] !in {".", ".."})
  }

  function NormalizeResource(value: Value): Option<string> {
    if value.Str? && ResourceText(value.s) then Some(value.s) else None
  }

  predicate Falsy(v: Value) {
    match v
    case Null => true
    case Bool(b) => !b
    case Number(p, _, _) => p in {"0", "0.0", "-0.0"}
    case Str(s) => s == []
    case Arr(items) => items == []
    case Obj(members) => members == []
    case Alien(_) => false
  }

  /** A path parameter as text, before its check. */
  function ParameterText(v: Value): Option<string> {
    match v
    case Bool(b) => Some(if b then "true" else "false")
    case Number(p, floating, finite) => if floating && !finite then None else Some(p)
    case Str(s) => Some(s)
    case _ => None
  }

  function NormalizeParameter(v: Value): Option<string> {
    var t := ParameterText(v);
    if t.Some? && SegmentText(t.value) && t.value !in {".", ".."} then t else None
  }

  function Octets(c: char): seq<nat>
    ensures forall i :: 0 <= i < |Octets(c)| ==> Octets(c)[i] < 256
  {
    var n := c as int;
    if n < 0x80 then [n]
    else if n < 0x800 then [0xC0 + n / 64, 0x80 + n % 64]
    else if n < 0x10000 then [0xE0 + n / 4096, 0x80 + n / 64 % 64, 0x80 + n % 64]
    else [0xF0 + n / 262144 % 8, 0x80 + n / 4096 % 64, 0x80 + n / 64 % 64, 0x80 + n % 64]
  }

  function Percent(bytes: seq<nat>): string
    requires forall i :: 0 <= i < |bytes| ==> bytes[i] < 256
  {
    if bytes == [] then []
    else ['%', "0123456789ABCDEF"[bytes[0] / 16], "0123456789ABCDEF"[bytes[0] % 16]] + Percent(bytes[1..])
  }

  /** urllib quote: unreserved and safe characters pass, the rest is percent-encoded. */
  function Quote(s: string, safe: set<char>): string {
    if s == [] then []
    else (if Alphanumeric(s[0]) || s[0] in {'_', '.', '-', '~'} || s[0] in safe then [s[0]] else Percent(Octets(s[0])))
         + Quote(s[1..], safe)
  }

  const MOUNT_SAFE: set<char> := {'-', '.', '_', '~'}
  const SEGMENT_SAFE: set<char> := {'-', '.', '_', '~', ':', '@', '+'}

  lemma {:induction false} QuoteKeeps(s: string, safe: set<char>)
    requires forall i :: 0 <= i < |s| ==> Alphanumeric(s[i]) || s[i] in {'_', '.', '-', '~'} || s[i] in safe
    ensures Quote(s, safe) == s
  {
    if s != [] {
      QuoteKeeps(s[1..], safe);
      assert s == [s[0]] + s[1..];
    }
  }

  /** Quoting changes no accepted mount and no accepted segment: they are pchar of section 3.3 of RFC 3986. */
  lemma QuoteIsIdentity(s: string)
    ensures MountText(s) ==> Quote(s, MOUNT_SAFE) == s
    ensures SegmentText(s) ==> Quote(s, SEGMENT_SAFE) == s
  {
    if MountText(s) {
      QuoteKeeps(s, MOUNT_SAFE);
    }
    if SegmentText(s) {
      QuoteKeeps(s, SEGMENT_SAFE);
    }
  }

  // ------------------------------------------------------------------
  // What the checks accept
  // ------------------------------------------------------------------

  ghost predicate Only(s: string, drop: char -> bool, lo: nat, hi: nat) {
    hi <= |s| && forall n :: lo <= n < hi ==> drop(s[n])
  }

  /** The text left between what is dropped on both sides. */
  lemma {:induction false} LeftFinds(s: string, drop: char -> bool) returns (i: nat)
    ensures i <= |s| && TrimLeft(s, drop) == s[i..] && Only(s, drop, 0, i) && (i < |s| ==> !drop(s[i]))
  {
    i := 0;
    if s != [] && drop(s[0]) {
      var k := LeftFinds(s[1..], drop);
      i := k + 1;
      assert s[1..][k..] == s[i..];
      assert forall n :: 0 < n < i ==> s[n] == s[1..][n - 1];
    }
  }

  lemma {:induction false} RightFinds(s: string, drop: char -> bool) returns (k: nat)
    ensures k <= |s| && TrimRight(s, drop) == s[..k] && Only(s, drop, k, |s|) && (k > 0 ==> !drop(s[k - 1]))
    decreases |s|
  {
    k := |s|;
    if s != [] && drop(s[|s| - 1]) {
      var t := s[..|s| - 1];
      k := RightFinds(t, drop);
      assert t[..k] == s[..k];
      assert forall n :: k <= n < |t| ==> s[n] == t[n];
    }
  }

  lemma StripFinds(s: string, drop: char -> bool) returns (i: nat, k: nat)
    ensures i <= k <= |s| && Strip(s, drop) == s[i..k] && Only(s, drop, 0, i) && Only(s, drop, k, |s|)
    ensures i < k ==> !drop(s[i]) && !drop(s[k - 1])
  {
    i := LeftFinds(s, drop);
    var t := s[i..];
    var n := RightFinds(t, drop);
    k := i + n;
    assert t[..n] == s[i..k];
    assert forall j :: k <= j < |s| ==> s[j] == t[j - i];
  }

  /** What is stripped is fixed by its two ends. */
  lemma StripIs(s: string, drop: char -> bool, i: nat, k: nat)
    requires i < k <= |s| && Only(s, drop, 0, i) && Only(s, drop, k, |s|) && !drop(s[i]) && !drop(s[k - 1])
    ensures Strip(s, drop) == s[i..k]
  {
    var a, b := StripFinds(s, drop);
  }

  /** The mount in a text: blanks around it are dropped, and then slashes. */
  ghost predicate MountAt(s: string, m: string, i: nat, j: nat, k: nat, l: nat) {
    && i <= j < k <= l <= |s| && s[j..k] == m
    && Only(s, Space, 0, i) && Only(s, Space, l, |s|) && Only(s, Slash, i, j) && Only(s, Slash, k, l)
  }

  predicate Slash(c: char) {
    c == '/'
  }

  ghost predicate IsMount(value: Value, m: string) {
    value.Str? && Marked(m, "_.-", 128) && exists i, j, k, l :: MountAt(value.s, m, i, j, k, l)
  }

  lemma MountIff(value: Value, m: string)
    ensures NormalizeMount(value) == Some(m) <==> IsMount(value, m)
  {
    IdentifierIff(m, {'_', '.', '-'}, "_.-", 128);
    if NormalizeMount(value) == Some(m) {
      var s := value.s;
      var i, l := StripFinds(s, Space);
      var inner := s[i..l];
      var a, b := StripFinds(inner, (c: char) => c == '/');
      assert m == inner[a..b] == s[i + a..i + b];
      assert forall n :: 0 <= n < |inner| ==> s[i + n] == inner[n];
      assert forall n :: i <= n < i + a ==> s[n] == inner[n - i];
      assert forall n :: i + b <= n < l ==> s[n] == inner[n - i];
      assert MountAt(s, m, i, i + a, i + b, l);
    }
    if IsMount(value, m) {
      var i, j, k, l :| MountAt(value.s, m, i, j, k, l);
      MountStrips(value.s, m, i, j, k, l);
    }
  }

  lemma MountStrips(s: string, m: string, i: nat, j: nat, k: nat, l: nat)
    requires MountAt(s, m, i, j, k, l) && Marked(m, "_.-", 128)
    ensures Strip(Strip(s, Space), (c: char) => c == '/') == m
  {
    assert m[0] == s[j] && m[|m| - 1] == s[k - 1];
    StripIs(s, Space, i, l);
    var inner := s[i..l];
    assert forall n :: 0 <= n < |inner| ==> inner[n] == s[i + n];
    assert inner[j - i..k - i] == m;
    InnerStrips(inner, m, j - i, k - i);
  }

  lemma InnerStrips(s: string, m: string, j: nat, k: nat)
    requires j < k <= |s| && s[j..k] == m && Only(s, Slash, 0, j) && Only(s, Slash, k, |s|)
    requires m[0] != '/' && m[|m| - 1] != '/'
    ensures Strip(s, (c: char) => c == '/') == m
  {
    assert m[0] == s[j] && m[|m| - 1] == s[k - 1];
    StripIs(s, (c: char) => c == '/', j, k);
  }

  /** One segment of a path: of the reviewed class, and not a dot segment. */
  predicate IsSegment(s: string) {
    Marked(s, "_.:@+~-", 200)
  }

  lemma SegmentIff(s: string)
    ensures SegmentText(s) <==> IsSegment(s)
    ensures IsSegment(s) ==> Without(s, '/') && s !in {".", ".."}
  {
    IdentifierIff(s, {'_', '.', ':', '@', '+', '~', '-'}, "_.:@+~-", 200);
  }

  /** A resource: at most 1024 characters, segments joined by single slashes. */
  ghost predicate IsResource(value: Value, r: string) {
    && value == Str(r) && 1 <= |r| <= 1024
    && exists xs: seq<string> :: xs != [] && ['/'] + r == Path(xs) && forall i :: 0 <= i < |xs| ==> IsSegment(xs[i])
  }

  lemma ResourceIff(value: Value, r: string)
    ensures NormalizeResource(value) == Some(r) <==> IsResource(value, r)
  {
    if NormalizeResource(value) == Some(r) {
      SplitIsPath(r);
      forall i | 0 <= i < |Split(r)|
        ensures IsSegment(Split(r)[i])
      {
        SegmentIff(Split(r)[i]);
      }
    }
    if IsResource(value, r) {
      var xs :| xs != [] && ['/'] + r == Path(xs) && forall i :: 0 <= i < |xs| ==> IsSegment(xs[i]);
      SegmentsMakeResource(xs, r);
    }
  }

  lemma SegmentsMakeResource(xs: seq<string>, r: string)
    requires xs != [] && ['/'] + r == Path(xs) && 1 <= |r| <= 1024
    requires forall i :: 0 <= i < |xs| ==> IsSegment(xs[i])
    ensures ResourceText(r)
  {
    forall i | 0 <= i < |xs|
      ensures Without(xs[i], '/') && SegmentText(xs[i]) && xs[i] !in {".", ".."}
    {
      SegmentIff(xs[i]);
    }
    PathSplits(xs);
    assert Path(xs)[1..] == r && Split(r) == xs;
    SlashesSeparate(xs);
    EndsAreWords(xs);
    JoinedText(Path(xs), r);
  }

  lemma JoinedText(path: string, r: string)
    requires path == ['/'] + r && r != [] && path[1] != '/' && path[|path| - 1] != '/'
    requires !Space(path[1]) && !Space(path[|path| - 1])
    requires forall i :: 0 <= i < |path| - 1 ==> !(path[i] == '/' && path[i + 1] == '/')
    ensures r == Strip(r, Space) && r[0] != '/' && r[|r| - 1] != '/'
    ensures forall i :: 0 <= i < |r| - 1 ==> !(r[i] == '/' && r[i + 1] == '/')
  {
    assert path[1] == r[0] && path[|path| - 1] == r[|r| - 1];
    StripIs(r, Space, 0, |r|);
    assert r[0..|r|] == r;
    forall i | 0 <= i < |r| - 1
      ensures !(r[i] == '/' && r[i + 1] == '/')
    {
      assert path[i + 1] == r[i] && path[i + 1 + 1] == r[i + 1];
    }
  }

  /** Between segments stands one slash. */
  lemma {:induction false} SlashesSeparate(xs: seq<string>)
    requires forall i :: 0 <= i < |xs| ==> IsSegment(xs[i])
    ensures forall i :: 0 <= i < |Path(xs)| - 1 ==> !(Path(xs)[i] == '/' && Path(xs)[i + 1] == '/')
  {
    if xs != [] {
      SlashesSeparate(xs[1..]);
      SegmentIff(xs[0]);
      var rest := Path(xs[1..]);
      assert Path(xs) == ['/'] + (xs[0] + rest);
      assert forall i :: 0 <= i < |xs[0]| ==> Path(xs)[i + 1] == xs[0][i];
      assert forall i :: 0 <= i < |rest| ==> Path(xs)[i + 1 + |xs[0]|] == rest[i];
    }
  }

  lemma {:induction false} EndsAreWords(xs: seq<string>)
    requires xs != [] && forall i :: 0 <= i < |xs| ==> IsSegment(xs[i])
    ensures |Path(xs)| >= 2 && Path(xs)[1] != '/' && !Space(Path(xs)[1])
    ensures Path(xs)[|Path(xs)| - 1] != '/' && !Space(Path(xs)[|Path(xs)| - 1])
  {
    var rest := Path(xs[1..]);
    assert Path(xs) == ['/'] + (xs[0] + rest);
    assert Path(xs)[1] == xs[0][0];
    if |xs| > 1 {
      EndsAreWords(xs[1..]);
      assert Path(xs)[|Path(xs)| - 1] == rest[|rest| - 1];
    } else {
      assert rest == [] && Path(xs)[|Path(xs)| - 1] == xs[0][|xs[0]| - 1];
    }
  }

  /** The text of a parameter: the words of JSON for a truth value, a finite number as printed, a text itself. */
  predicate IsParameter(v: Value, t: string) {
    && IsSegment(t)
    && (v == Bool(true) ==> t == "true") && (v == Bool(false) ==> t == "false")
    && (v.Number? ==> t == v.printed && (v.floating ==> v.finite)) && (v.Str? ==> t == v.s)
    && (v.Bool? || v.Number? || v.Str?)
  }

  lemma ParameterIff(v: Value, t: string)
    ensures NormalizeParameter(v) == Some(t) <==> IsParameter(v, t)
  {
    SegmentIff(t);
  }

  ghost predicate HasText(v: Value) {
    exists t :: IsParameter(v, t)
  }

  lemma HasTextIff(v: Value)
    ensures NormalizeParameter(v).Some? <==> HasText(v)
  {
    if NormalizeParameter(v).Some? {
      ParameterIff(v, NormalizeParameter(v).value);
    }
    if t :| IsParameter(v, t) {
      ParameterIff(v, t);
    }
  }

  /** A missing resource: nothing, no, zero, or something empty. */
  predicate Absent(v: Value) {
    || v in {Null, Bool(false), Str(""), Arr([]), Obj([])}
    || (v.Number? && (v.printed == "0" || v.printed == "0.0" || v.printed == "-0.0"))
  }

  ghost predicate ResourceGiven(resource: Value, r: string) {
    if Absent(resource) then r == "" else IsResource(resource, r)
  }

  ghost predicate MountGiven(mount: Value) {
    exists m :: IsMount(mount, m)
  }

  ghost predicate ResourceFits(resource: Value, wanted: bool) {
    exists r :: ResourceGiven(resource, r) && (r != "" <==> wanted)
  }

  /** The parameters are exactly the placeholders besides mount and resource. */
  ghost predicate ParametersMatch(holes: set<string>, members: seq<Member>) {
    && (forall i :: 0 <= i < |members| ==>
          && members[i].key.Text? && members[i].key.text in holes
          && members[i].key.text != "secret_mount_path" && members[i].key.text != "path")
    && (forall n :: n in holes && n != "secret_mount_path" && n != "path" ==>
          exists i :: 0 <= i < |members| && members[i].key == Text(n))
  }

  ghost predicate AllHaveText(members: seq<Member>) {
    forall i :: 0 <= i < |members| ==> members[i].key.Text? && HasText(members[i].value)
  }

  /**
   * The replacements of an operation exist exactly if mount, resource and
   * parameters are acceptable and match the placeholders, the resource being
   * given if and only if there is a place for it.
   */
  lemma PlanIff(holes: set<string>, mount: Value, resource: Value, members: seq<Member>)
    ensures Plan(holes, mount, resource, members).Ok? <==>
      && MountGiven(mount) && ResourceFits(resource, "path" in holes)
      && ParametersMatch(holes, members) && AllHaveText(members)
  {
    MountGivenIff(mount);
    ResourceFitsIff(resource, "path" in holes);
    KeysGiven(holes, members);
    ValuesGiven(members);
  }

  lemma MountGivenIff(mount: Value)
    ensures NormalizeMount(mount).Some? <==> MountGiven(mount)
  {
    if NormalizeMount(mount).Some? {
      MountIff(mount, NormalizeMount(mount).value);
    }
    if m :| IsMount(mount, m) {
      MountIff(mount, m);
    }
  }

  lemma AbsentIff(v: Value)
    ensures Falsy(v) <==> Absent(v)
  {
  }

  lemma ResourceFitsIff(resource: Value, wanted: bool)
    ensures var s := if Falsy(resource) then Some("") else NormalizeResource(resource);
            s.Some? && wanted == (s.value != "") <==> ResourceFits(resource, wanted)
  {
    AbsentIff(resource);
    var s := if Falsy(resource) then Some("") else NormalizeResource(resource);
    forall r
      ensures s == Some(r) <==> ResourceGiven(resource, r)
    {
      if !Absent(resource) {
        ResourceIff(resource, r);
      }
    }
    FitsIff(s, resource, wanted);
  }

  lemma FitsIff(s: Option<string>, resource: Value, wanted: bool)
    requires forall r :: s == Some(r) <==> ResourceGiven(resource, r)
    ensures s.Some? && wanted == (s.value != "") <==> ResourceFits(resource, wanted)
  {
    if s.Some? && wanted == (s.value != "") {
      assert ResourceGiven(resource, s.value);
    }
  }

  lemma KeysGiven(holes: set<string>, members: seq<Member>)
    ensures Keys(members) == Expected(holes) <==> ParametersMatch(holes, members)
  {
    if Keys(members) == Expected(holes) {
      forall i | 0 <= i < |members|
        ensures members[i].key in Expected(holes)
      {
        assert members[i].key in Keys(members);
      }
      forall n | n in holes && n != "secret_mount_path" && n != "path"
        ensures exists i :: 0 <= i < |members| && members[i].key == Text(n)
      {
        assert Text(n) in Expected(holes) && Text(n) in Keys(members);
      }
    }
    if ParametersMatch(holes, members) {
      forall k
        ensures k in Keys(members) <==> k in Expected(holes)
      {
        if k in Expected(holes) {
          assert k.text in holes;
        }
      }
    }
  }

  lemma {:induction false} ValuesGiven(members: seq<Member>)
    ensures ParameterPairs(members).Some? <==> AllHaveText(members)
  {
    if members != [] {
      ValuesGiven(members[1..]);
      HasTextIff(members[0].value);
      TextCons(members[0], members[1..]);
      assert members == [members[0]] + members[1..];
    }
  }

  lemma TextCons(m: Member, rest: seq<Member>)
    ensures AllHaveText([m] + rest) <==> m.key.Text? && HasText(m.value) && AllHaveText(rest)
  {
    var all := [m] + rest;
    assert all[0] == m;
    if AllHaveText(all) {
      assert forall i :: 0 <= i < |rest| ==> rest[i] == all[i + 1];
    }
  }

  function HexValue(c: char): int {
    if c as int <= 57 then c as int - 48 else c as int - 55
  }

  /** The bytes a quoted text stands for: a percent sign and two hexadecimal digits, or a character of its own. */
  function Unquoted(t: string): seq<int> {
    if t == [] then []
    else if t[0] == '%' && |t| >= 3 then [HexValue(t[1]) * 16 + HexValue(t[2])] + Unquoted(t[3..])
    else [t[0] as int] + Unquoted(t[1..])
  }

  lemma {:induction false} PercentReads(bytes: seq<nat>, rest: string)
    requires forall i :: 0 <= i < |bytes| ==> bytes[i] < 256
    ensures Unquoted(Percent(bytes) + rest) == bytes + Unquoted(rest)
  {
    if bytes == [] {
      assert Percent(bytes) + rest == rest && bytes + Unquoted(rest) == Unquoted(rest);
    } else {
      var b := bytes[0];
      PercentReads(bytes[1..], rest);
      HexReads(b / 16);
      HexReads(b % 16);
      var high, low := "0123456789ABCDEF"[b / 16], "0123456789ABCDEF"[b % 16];
      Assoc(['%', high, low], Percent(bytes[1..]), rest);
      EscapeUnquotes(high, low, Percent(bytes[1..]) + rest);
      Assoc([b], bytes[1..], Unquoted(rest));
      assert bytes == [b] + bytes[1..];
    }
  }

  lemma EscapeUnquotes(high: char, low: char, rest: string)
    ensures Unquoted(['%', high, low] + rest) == [HexValue(high) * 16 + HexValue(low)] + Unquoted(rest)
  {
    assert (['%', high, low] + rest)[3..] == rest;
  }

  /** The UTF-8 bytes of a text. */
  function Utf8Bytes(s: string): seq<int> {
    if s == [] then [] else Octets(s[0]) + Utf8Bytes(s[1..])
  }

  /** Quoting loses nothing: a quoted text stands for the UTF-8 bytes of the text. */
  lemma {:induction false} QuoteReads(s: string, safe: set<char>)
    requires forall c :: c in safe ==> c as int < 0x80 && c != '%'
    ensures Unquoted(Quote(s, safe)) == Utf8Bytes(s)
  {
    if s != [] {
      QuoteReads(s[1..], safe);
      var rest := Quote(s[1..], safe);
      if Alphanumeric(s[0]) || s[0] in {'_', '.', '-', '~'} || s[0] in safe {
        assert ([s[0]] + rest)[1..] == rest && Octets(s[0]) == [s[0] as int];
      } else {
        PercentReads(Octets(s[0]), rest);
      }
    }
  }

  lemma HexReads(n: nat)
    requires n < 16
    ensures HexValue("0123456789ABCDEF"[n]) == n
  {
  }

  predicate Tail(b: int) {
    0x80 <= b < 0xC0
  }

  /** UTF-8 (section 3 of RFC 3629): the payload bits of the octets are the code point, in the shortest form. */
  ghost predicate Encodes(o: seq<int>, n: int) {
    || (n < 0x80 && o == [n])
    || (0x80 <= n < 0x800 && |o| == 2 && o[0] < 0xE0 && Tail(o[1]) && (o[0] - 0xC0) * 64 + (o[1] - 0x80) == n)
    || (0x800 <= n < 0x10000 && |o| == 3 && o[0] < 0xF0 && Tail(o[1]) && Tail(o[2])
        && ((o[0] - 0xE0) * 64 + (o[1] - 0x80)) * 64 + (o[2] - 0x80) == n)
    || (0x10000 <= n && |o| == 4 && o[0] < 0xF8 && Tail(o[1]) && Tail(o[2]) && Tail(o[3])
        && (((o[0] - 0xF0) * 64 + (o[1] - 0x80)) * 64 + (o[2] - 0x80)) * 64 + (o[3] - 0x80) == n)
  }

  lemma TwoOctets(n: nat)
    requires 0x80 <= n < 0x800
    ensures Encodes([0xC0 + n / 64, 0x80 + n % 64], n)
  {
  }

  lemma ThreeOctets(n: nat)
    requires 0x800 <= n < 0x10000
    ensures Encodes([0xE0 + n / 4096, 0x80 + n / 64 % 64, 0x80 + n % 64], n)
  {
    var k := n / 64;
    assert n / 4096 == k / 64;
  }

  lemma FourOctets(n: nat)
    requires 0x10000 <= n < 0x110000
    ensures Encodes([0xF0 + n / 262144 % 8, 0x80 + n / 4096 % 64, 0x80 + n / 64 % 64, 0x80 + n % 64], n)
  {
    var k := n / 64;
    var m := k / 64;
    assert n / 4096 == m && n / 262144 == m / 64 && m / 64 < 8;
  }

  lemma OctetsRead(c: char)
    ensures Encodes(Octets(c), c as int)
  {
    var n := c as int;
    if 0x80 <= n < 0x800 {
      TwoOctets(n);
    } else if 0x800 <= n < 0x10000 {
      ThreeOctets(n);
    } else if 0x10000 <= n {
      FourOctets(n);
    }
  }

  /** The length counted for a character is that of its octets. */
  lemma Utf8CountsOctets(c: char)
    ensures Utf8(c) == |Octets(c)|
  {
  }

  /** '/'.join(quote(part) for part in value.split('/')) */
  function QuoteParts(xs: seq<string>): seq<string> {
    seq(|xs|, (i: nat) requires i < |xs| => Quote(xs[i], SEGMENT_SAFE))
  }

  function QuoteResource(s: string): string {
    Path(QuoteParts(Split(s)))[1..]
  }

  lemma ResourceKept(s: string)
    requires ResourceText(s)
    ensures QuoteResource(s) == s && Braceless(s)
  {
    forall i | 0 <= i < |Split(s)|
      ensures Quote(Split(s)[i], SEGMENT_SAFE) == Split(s)[i]
    {
      QuoteIsIdentity(Split(s)[i]);
    }
    assert QuoteParts(Split(s)) == Split(s);
    SplitIsPath(s);
    BracelessPath(Split(s));
    assert Braceless(['/'] + s);
    assert forall i :: 0 <= i < |s| ==> (['/'] + s)[i + 1] == s[i];
  }

  lemma {:induction false} BracelessPath(xs: seq<string>)
    requires forall i :: 0 <= i < |xs| ==> Braceless(xs[i])
    ensures Braceless(Path(xs))
  {
    if xs != [] {
      BracelessPath(xs[1..]);
    }
  }

  // ------------------------------------------------------------------
  // The replacements of one operation
  // ------------------------------------------------------------------

  /** Why a compilation was refused; the last check is shown never to decide. */
  datatype Fault = BadTemplate | BadParameters | BadMount | BadResource | Mismatch | BadValue | Unresolved

  const RESOURCE := "path"

  function Holes(segs: seq<Segment>): set<string> {
    set i | 0 <= i < |segs| && segs[i].Hole? :: segs[i].name
  }

  function Keys(members: seq<Member>): set<Key> {
    set i | 0 <= i < |members| :: members[i].key
  }

  function Expected(holes: set<string>): set<Key> {
    set n | n in holes - {MOUNT, RESOURCE} :: Text(n)
  }

  /** The parameters as replacements; a key that is not text never gets here. */
  function ParameterPairs(members: seq<Member>): Option<seq<Pair>> {
    if members == [] then Some([]) else
      var rest := ParameterPairs(members[1..]);
      var value := NormalizeParameter(members[0].value);
      if rest.None? || value.None? || !members[0].key.Text? then None
      else Some([Pair(members[0].key.text, Quote(value.value, SEGMENT_SAFE))] + rest.value)
  }

  function Plan(holes: set<string>, mount: Value, resource: Value, members: seq<Member>): Result<seq<Pair>, Fault> {
    var m := NormalizeMount(mount);
    if m.None? then Err(BadMount) else
      var s := if Falsy(resource) then Some("") else NormalizeResource(resource);
      if s.None? then Err(BadResource)
      else if Keys(members) != Expected(holes) || (RESOURCE in holes) != (s.value != "") then Err(Mismatch)
      else
        var parameters := ParameterPairs(members);
        if parameters.None? then Err(BadValue)
        else Ok([Pair(MOUNT, Quote(m.value, MOUNT_SAFE))]
                + (if RESOURCE in holes then [Pair(RESOURCE, QuoteResource(s.value))] else [])
                + parameters.value)
  }

  predicate DistinctKeys(members: seq<Member>) {
    forall i, j :: 0 <= i < j < |members| ==> members[i].key != members[j].key
  }

  predicate Named(pairs: seq<Pair>, n: string) {
    exists i :: 0 <= i < |pairs| && pairs[i].name == n
  }

  predicate ParametersIn(members: seq<Member>, pairs: seq<Pair>) {
    && |pairs| == |members|
    && (forall i :: 0 <= i < |pairs| ==>
          && members[i].key == Text(pairs[i].name)
          && NormalizeParameter(members[i].value) == Some(pairs[i].value))
  }

  lemma {:induction false} ParametersAre(members: seq<Member>)
    requires ParameterPairs(members).Some?
    ensures ParametersIn(members, ParameterPairs(members).value)
  {
    if members != [] {
      ParametersAre(members[1..]);
      QuoteIsIdentity(NormalizeParameter(members[0].value).value);
    }
  }

  /** Every hole has one value, and every value is the normalized input itself. */
  ghost predicate Complete(holes: set<string>, pairs: seq<Pair>, mount: string, resource: string) {
    && DistinctNames(pairs) && TidyPairs(pairs)
    && (forall n :: n in holes <==> Named(pairs, n))
    && Lookup(pairs, MOUNT) == Some(mount) && MountText(mount)
    && (RESOURCE in holes <==> resource != "")
    && (RESOURCE in holes ==> Lookup(pairs, RESOURCE) == Some(resource) && ResourceText(resource))
    && (forall i :: 0 <= i < |pairs| && pairs[i].name !in {MOUNT, RESOURCE} ==> SegmentText(pairs[i].value))
  }

  function ResourceOf(v: Value): string {
    if v.Str? then v.s else ""
  }

  lemma BracelessText(s: string)
    ensures MountText(s) || SegmentText(s) || Name(s) ==> Braceless(s) && Without(s, '/')
  {
  }

  lemma ParameterNames(holes: set<string>, members: seq<Member>)
    requires Keys(members) == Expected(holes) && ParameterPairs(members).Some? && DistinctKeys(members)
    ensures var pairs := ParameterPairs(members).value;
            && ParametersIn(members, pairs) && DistinctNames(pairs)
            && (forall i :: 0 <= i < |pairs| ==>
                  pairs[i].name in holes - {MOUNT, RESOURCE} && SegmentText(pairs[i].value))
            && (forall n :: n in holes - {MOUNT, RESOURCE} ==> Named(pairs, n))
  {
    ParametersAre(members);
    var pairs := ParameterPairs(members).value;
    forall i | 0 <= i < |pairs|
      ensures pairs[i].name in holes - {MOUNT, RESOURCE}
    {
      assert members[i].key in Keys(members);
    }
    forall n | n in holes - {MOUNT, RESOURCE}
      ensures Named(pairs, n)
    {
      assert Text(n) in Expected(holes);
      var i :| 0 <= i < |members| && members[i].key == Text(n);
      assert pairs[i].name == n;
    }
  }

  lemma {:induction false} LookupAt(pairs: seq<Pair>, i: nat)
    requires DistinctNames(pairs) && i < |pairs|
    ensures Lookup(pairs, pairs[i].name) == Some(pairs[i].value)
  {
    LookupIs(pairs, pairs[i].name, pairs[i].value);
    assert pairs[i] == Pair(pairs[i].name, pairs[i].value);
  }

  function Front(holes: set<string>, mount: string, resource: string): seq<Pair> {
    [Pair(MOUNT, mount)] + (if RESOURCE in holes then [Pair(RESOURCE, resource)] else [])
  }

  lemma PlanIsComplete(holes: set<string>, mount: Value, resource: Value, members: seq<Member>)
    requires DistinctKeys(members) && MOUNT in holes && (forall n :: n in holes ==> Braceless(n))
    requires Plan(holes, mount, resource, members).Ok?
    ensures var r := if Falsy(resource) then "" else ResourceOf(resource);
            Complete(holes, Plan(holes, mount, resource, members).value, NormalizeMount(mount).value, r)
  {
    var r := if Falsy(resource) then "" else ResourceOf(resource);
    var m := NormalizeMount(mount).value;
    ParameterNames(holes, members);
    QuoteIsIdentity(m);
    if RESOURCE in holes {
      ResourceKept(r);
    }
    assert Plan(holes, mount, resource, members).value == Front(holes, m, r) + ParameterPairs(members).value;
    FrontCompletes(holes, m, r, ParameterPairs(members).value);
  }

  lemma FrontCompletes(holes: set<string>, mount: string, resource: string, rest: seq<Pair>)
    requires MOUNT in holes && (forall n :: n in holes ==> Braceless(n)) && MountText(mount) && DistinctNames(rest)
    requires (RESOURCE in holes <==> resource != "") && (RESOURCE in holes ==> ResourceText(resource))
    requires forall i :: 0 <= i < |rest| ==> rest[i].name in holes - {MOUNT, RESOURCE} && SegmentText(rest[i].value)
    requires forall n :: n in holes - {MOUNT, RESOURCE} ==> Named(rest, n)
    ensures Complete(holes, Front(holes, mount, resource) + rest, mount, resource)
  {
    var front := Front(holes, mount, resource);
    var pairs := front + rest;
    BracelessText(mount);
    if RESOURCE in holes {
      ResourceKept(resource);
    }
    forall i | 0 <= i < |pairs|
      ensures Braceless(pairs[i].name) && Braceless(pairs[i].value) && pairs[i].name in holes
      ensures pairs[i].name !in {MOUNT, RESOURCE} ==> SegmentText(pairs[i].value)
    {
      if i >= |front| {
        assert pairs[i] == rest[i - |front|];
        BracelessText(rest[i - |front|].value);
      }
    }
    PlanNames(holes, front, rest);
    LookupAt(pairs, 0);
    if RESOURCE in holes {
      LookupAt(pairs, 1);
    }
  }

  lemma PlanNames(holes: set<string>, front: seq<Pair>, rest: seq<Pair>)
    requires MOUNT in holes && DistinctNames(rest)
    requires front != [] && front[0].name == MOUNT && |front| == (if RESOURCE in holes then 2 else 1)
    requires RESOURCE in holes ==> front[1].name == RESOURCE
    requires forall i :: 0 <= i < |rest| ==> rest[i].name in holes - {MOUNT, RESOURCE}
    requires forall n :: n in holes - {MOUNT, RESOURCE} ==> Named(rest, n)
    ensures DistinctNames(front + rest)
    ensures forall n :: n in holes ==> Named(front + rest, n)
  {
    var pairs := front + rest;
    assert MOUNT != RESOURCE;
    forall n | n in holes
      ensures Named(pairs, n)
    {
      if n == MOUNT {
        assert pairs[0].name == n;
      } else if n == RESOURCE {
        assert pairs[1].name == n;
      } else {
        assert n in holes - {MOUNT, RESOURCE} && Named(rest, n);
        var i :| 0 <= i < |rest| && rest[i].name == n;
        assert pairs[|front| + i].name == n;
      }
    }
  }

  method OperationReplacements(holes: set<string>, mount: Value, resource: Value, members: seq<Member>)
    returns (r: Result<seq<Pair>, Fault>)
    ensures r == Plan(holes, mount, resource, members)
  {
    var m := NormalizeMount(mount);
    if m.None? {
      return Err(BadMount);
    }
    var s := Some("");
    if !Falsy(resource) {
      s := NormalizeResource(resource);
      if s.None? {
        return Err(BadResource);
      }
    }
    if Keys(members) != Expected(holes) || (RESOURCE in holes) != (s.value != "") {
      return Err(Mismatch);
    }
    var replacements := [Pair(MOUNT, Quote(m.value, MOUNT_SAFE))];
    if RESOURCE in holes {
      replacements := replacements + [Pair(RESOURCE, QuoteResource(s.value))];
    }
    ghost var front := replacements;
    assert members[0..] == members;
    assert front == [Pair(MOUNT, Quote(m.value, MOUNT_SAFE))]
                    + (if RESOURCE in holes then [Pair(RESOURCE, QuoteResource(s.value))] else []);
    for i := 0 to |members|
      invariant ParameterPairs(members[i..]).Some? <==> ParameterPairs(members).Some?
      invariant ParameterPairs(members).Some? ==>
        replacements + ParameterPairs(members[i..]).value == front + ParameterPairs(members).value
    {
      assert members[i..][0] == members[i] && members[i..][1..] == members[i + 1..];
      assert members[i].key in Keys(members);
      var value := NormalizeParameter(members[i].value);
      if value.None? {
        return Err(BadValue);
      }
      replacements := replacements + [Pair(members[i].key.text, Quote(value.value, SEGMENT_SAFE))];
    }
    assert members[|members|..] == [] && replacements + [] == replacements;
    return Ok(replacements);
  }

  // ------------------------------------------------------------------
  // Compilation
  // ------------------------------------------------------------------

  predicate Admissible(template: Value, parameters: Value) {
    template.Str? && Parse(template.s).Some? && parameters.Obj? && |parameters.members| <= 16
  }

  function PlanFor(template: Value, mount: Value, resource: Value, parameters: Value): Result<seq<Pair>, Fault>
    requires Admissible(template, parameters)
  {
    Plan(Holes(Parse(template.s).value), mount, resource, parameters.members)
  }

  lemma HolesAreNames(template: string)
    requires Parse(template).Some?
    ensures MOUNT in Holes(Parse(template).value) && (forall n :: n in Holes(Parse(template).value) ==> Braceless(n))
  {
    ParsePrints(template);
    var segs := Parse(template).value;
    assert segs[0].Hole? && segs[0].name == MOUNT;
  }

  /** With every hole filled nothing is left in braces. */
  lemma {:induction false} FilledIsBraceless(segs: seq<Segment>, pairs: seq<Pair>)
    requires AllTidy(segs) && TidyPairs(pairs) && (forall n :: n in Holes(segs) ==> Lookup(pairs, n).Some?)
    ensures Braceless(Print(Fill(segs, pairs)))
  {
    if segs != [] {
      assert forall i :: 0 <= i < |segs[1..]| ==> segs[1..][i] == segs[i + 1];
      assert forall n :: n in Holes(segs[1..]) ==> n in Holes(segs);
      FilledIsBraceless(segs[1..], pairs);
      assert Fill(segs, pairs)[1..] == Fill(segs[1..], pairs);
      if segs[0].Hole? {
        assert segs[0].name in Holes(segs);
        LookupBraceless(pairs, segs[0].name);
      }
    }
  }

  lemma {:induction false} LookupBraceless(pairs: seq<Pair>, n: string)
    requires TidyPairs(pairs) && Lookup(pairs, n).Some?
    ensures Braceless(Lookup(pairs, n).value)
  {
    if pairs[0].name != n {
      LookupBraceless(pairs[1..], n);
    }
  }

  lemma CompleteCovers(holes: set<string>, pairs: seq<Pair>, mount: string, resource: string)
    requires Complete(holes, pairs, mount, resource)
    ensures forall n :: n in holes ==> Lookup(pairs, n).Some?
  {
    forall n | n in holes
      ensures Lookup(pairs, n).Some?
    {
      assert Named(pairs, n);
      var i :| 0 <= i < |pairs| && pairs[i].name == n;
      LookupAt(pairs, i);
    }
  }

  /** Accepts exactly the admissible inputs with a plan; the text it returns is the substituted template, brace-free. */
  method CompileOperationPath(template: Value, mount: Value, resource: Value, parameters: Value)
    returns (r: Result<string, Fault>)
    requires parameters.Obj? ==> DistinctKeys(parameters.members)
    ensures r.Ok? <==> Admissible(template, parameters) && PlanFor(template, mount, resource, parameters).Ok?
    ensures r.Ok? ==>
      && r.value == Print(Fill(Parse(template.s).value, PlanFor(template, mount, resource, parameters).value))
      && Braceless(r.value)
    ensures r.Err? ==> r.error != Unresolved
  {
    if !template.Str? || Parse(template.s).None? {
      return Err(BadTemplate);
    }
    if !parameters.Obj? || |parameters.members| > 16 {
      return Err(BadParameters);
    }
    ghost var segs := Parse(template.s).value;
    var holes := Holes(Parse(template.s).value);
    var plan := OperationReplacements(holes, mount, resource, parameters.members);
    if plan.Err? {
      return Err(plan.error);
    }
    var replacements := plan.value;
    PlanReplaces(template.s, mount, resource, parameters.members);
    var compiled := template.s;
    for i := 0 to |replacements|
      invariant ReplaceSeq(compiled, replacements[i..]) == ReplaceSeq(template.s, replacements)
    {
      assert replacements[i..][0] == replacements[i] && replacements[i..][1..] == replacements[i + 1..];
      compiled := ReplaceAll(compiled, Braced(replacements[i].name), replacements[i].value);
    }
    assert replacements[|replacements|..] == [];
    if !Braceless(compiled) {
      return Err(Unresolved);
    }
    return Ok(compiled);
  }

  lemma PlanReplaces(template: string, mount: Value, resource: Value, members: seq<Member>)
    requires Parse(template).Some? && DistinctKeys(members)
    requires Plan(Holes(Parse(template).value), mount, resource, members).Ok?
    ensures var segs := Parse(template).value;
            var pairs := Plan(Holes(segs), mount, resource, members).value;
            ReplaceSeq(template, pairs) == Print(Fill(segs, pairs)) && Braceless(Print(Fill(segs, pairs)))
  {
    var segs := Parse(template).value;
    var pairs := Plan(Holes(segs), mount, resource, members).value;
    ParsePrints(template);
    HolesAreNames(template);
    PlanIsComplete(Holes(segs), mount, resource, members);
    SequentialIsSimultaneous(segs, pairs);
    CompleteCovers(Holes(segs), pairs, NormalizeMount(mount).value,
                   if Falsy(resource) then "" else ResourceOf(resource));
    FilledIsBraceless(segs, pairs);
  }

  // ------------------------------------------------------------------
  // What can be read off the compiled path
  // ------------------------------------------------------------------

  /** The slash-free texts of a sequence of texts. */
  function Flat(xs: seq<string>): seq<string> {
    if xs == [] then [] else Split(xs[0]) + Flat(xs[1..])
  }

  lemma {:induction false} PathConcat(a: seq<string>, b: seq<string>)
    ensures Path(a + b) == Path(a) + Path(b)
  {
    if a == [] {
      assert a + b == b;
    } else {
      PathConcat(a[1..], b);
      assert (a + b)[1..] == a[1..] + b && (a + b)[0] == a[0];
      Assoc(a[0], Path(a[1..]), Path(b));
      Assoc(['/'], a[0] + Path(a[1..]), Path(b));
    }
  }

  lemma {:induction false} PathFlat(xs: seq<string>)
    ensures Path(Flat(xs)) == Path(xs)
    ensures forall i :: 0 <= i < |Flat(xs)| ==> Without(Flat(xs)[i], '/')
    ensures xs != [] ==> Flat(xs) != []
  {
    if xs != [] {
      PathFlat(xs[1..]);
      PathConcat(Split(xs[0]), Flat(xs[1..]));
      SplitIsPath(xs[0]);
      Assoc(['/'], xs[0], Path(xs[1..]));
    }
  }

  lemma {:induction false} PrintIsPath(segs: seq<Segment>)
    ensures Print(segs) == Path(Texts(segs))
  {
    if segs != [] {
      PrintIsPath(segs[1..]);
      assert Texts(segs)[1..] == Texts(segs[1..]);
    }
  }

  /** The path's segments are those of the filled template, one after the other. */
  lemma ResultSegments(segs: seq<Segment>)
    requires segs != []
    ensures Print(segs) != [] && Split(Print(segs)[1..]) == Flat(Texts(segs))
  {
    PrintIsPath(segs);
    PathFlat(Texts(segs));
    PathSplits(Flat(Texts(segs)));
  }

  lemma {:induction false} InFlat(xs: seq<string>, x: string)
    ensures x in Flat(xs) <==> exists i :: 0 <= i < |xs| && x in Split(xs[i])
  {
    if xs != [] {
      InFlat(xs[1..], x);
      if x in Flat(xs[1..]) {
        var i :| 0 <= i < |xs[1..]| && x in Split(xs[1..][i]);
        assert x in Split(xs[i + 1]);
      }
      if i :| 0 <= i < |xs| && x in Split(xs[i]) {
        assert i > 0 ==> xs[1..][i - 1] == xs[i];
      }
    }
  }

  const DOTS: set<string> := {".", ".."}

  /** A literal segment that is `.` or `..`. */
  predicate Dotted(segs: seq<Segment>) {
    exists i :: 0 <= i < |segs| && segs[i].Lit? && segs[i].text in DOTS
  }

  predicate SlashFree(segs: seq<Segment>) {
    forall i :: 0 <= i < |segs| && segs[i].Lit? ==> Without(segs[i].text, '/')
  }

  lemma ValueHasNoDots(segs: seq<Segment>, pairs: seq<Pair>, mount: string, resource: string, n: string)
    requires Complete(Holes(segs), pairs, mount, resource) && n in Holes(segs)
    ensures Lookup(pairs, n).Some? && (forall d :: d in DOTS ==> d !in Split(Lookup(pairs, n).value))
    ensures n != RESOURCE ==> Split(Lookup(pairs, n).value) == [Lookup(pairs, n).value]
  {
    assert Named(pairs, n);
    var i :| 0 <= i < |pairs| && pairs[i].name == n;
    LookupAt(pairs, i);
    if n != RESOURCE {
      assert n == MOUNT ==> pairs[i].value == mount;
      PlainText(pairs[i].value);
    }
  }

  /** Accepted mounts and segments are one text, and not a dot segment. */
  lemma PlainText(s: string)
    requires MountText(s) || SegmentText(s)
    ensures Split(s) == [s] && s !in DOTS
  {
    BracelessText(s);
    SplitConcat(s, []);
    assert Alphanumeric(s[0]);
  }

  /** The compiled path has a `.` or `..` segment if and only if the template has one as a literal. */
  lemma DotsIff(segs: seq<Segment>, pairs: seq<Pair>, mount: string, resource: string)
    requires Complete(Holes(segs), pairs, mount, resource) && segs != [] && SlashFree(segs)
    ensures Print(Fill(segs, pairs)) != []
    ensures (exists d :: d in DOTS && d in Split(Print(Fill(segs, pairs))[1..])) <==> Dotted(segs)
  {
    var filled := Fill(segs, pairs);
    ResultSegments(filled);
    forall d | d in DOTS
      ensures d in Flat(Texts(filled)) <==> exists i :: 0 <= i < |segs| && segs[i] == Lit(d)
    {
      InFlat(Texts(filled), d);
      forall i | 0 <= i < |segs|
        ensures d in Split(Texts(filled)[i]) <==> segs[i] == Lit(d)
      {
        if segs[i].Lit? {
          SplitConcat(segs[i].text, []);
        } else {
          assert segs[i].name in Holes(segs);
          ValueHasNoDots(segs, pairs, mount, resource, segs[i].name);
        }
      }
    }
  }

  lemma {:induction false} FlatLonger(xs: seq<string>, ys: seq<string>)
    requires |xs| == |ys| && (forall i :: 0 <= i < |xs| ==> |Split(xs[i])| <= |Split(ys[i])|)
    ensures |Flat(xs)| <= |Flat(ys)|
    ensures (exists i :: 0 <= i < |xs| && |Split(xs[i])| < |Split(ys[i])|) ==> |Flat(xs)| < |Flat(ys)|
  {
    if xs != [] {
      FlatLonger(xs[1..], ys[1..]);
      if i :| 0 <= i < |xs| && |Split(xs[i])| < |Split(ys[i])| {
        if i > 0 {
          assert xs[1..][i - 1] == xs[i] && ys[1..][i - 1] == ys[i];
        }
      }
    }
  }

  lemma SplitInjective(x: string, y: string)
    requires Split(x) == Split(y)
    ensures x == y
  {
    SplitIsPath(x);
    SplitIsPath(y);
    assert x == (['/'] + x)[1..] && y == (['/'] + y)[1..];
  }

  lemma {:induction false} FlatAligned(xs: seq<string>, ys: seq<string>)
    requires |xs| == |ys| && (forall i :: 0 <= i < |xs| ==> |Split(xs[i])| == |Split(ys[i])|)
    requires Flat(xs) == Flat(ys)
    ensures xs == ys
  {
    if xs != [] {
      var k := |Split(xs[0])|;
      assert Flat(xs)[..k] == Split(xs[0]) && Flat(ys)[..k] == Split(ys[0]);
      assert Flat(xs)[k..] == Flat(xs[1..]) && Flat(ys)[k..] == Flat(ys[1..]);
      SplitInjective(xs[0], ys[0]);
      FlatAligned(xs[1..], ys[1..]);
      assert xs == [xs[0]] + xs[1..] && ys == [ys[0]] + ys[1..];
    }
  }

  /** How many slash-free texts each filled segment spans. */
  lemma Width(segs: seq<Segment>, pairs: seq<Pair>, mount: string, resource: string, i: nat)
    requires Complete(Holes(segs), pairs, mount, resource) && SlashFree(segs) && i < |segs|
    ensures |Split(Texts(Fill(segs, pairs))[i])| == if segs[i] == Hole(RESOURCE) then |Split(resource)| else 1
  {
    if segs[i].Lit? {
      SplitConcat(segs[i].text, []);
    } else {
      assert segs[i].name in Holes(segs);
      ValueHasNoDots(segs, pairs, mount, resource, segs[i].name);
    }
  }

  /** Equally many texts in all means equally many in each copy of the resource. */
  lemma SameWidth(segs: seq<Segment>, xs: seq<string>, ys: seq<string>, k1: nat, k2: nat)
    requires |xs| == |ys| == |segs| && |Flat(xs)| == |Flat(ys)|
    requires forall i :: 0 <= i < |segs| ==> |Split(xs[i])| == if segs[i] == Hole(RESOURCE) then k1 else 1
    requires forall i :: 0 <= i < |segs| ==> |Split(ys[i])| == if segs[i] == Hole(RESOURCE) then k2 else 1
    ensures forall i :: 0 <= i < |segs| ==> |Split(xs[i])| == |Split(ys[i])|
  {
    if k1 < k2 {
      FlatLonger(xs, ys);
    } else if k2 < k1 {
      FlatLonger(ys, xs);
    }
  }

  /**
   * Two compilations of one template that give the same path were given the
   * same mount, the same resource and the same value for every parameter.
   */
  lemma Recoverable(segs: seq<Segment>, p: seq<Pair>, m1: string, r1: string, q: seq<Pair>, m2: string, r2: string)
    requires Complete(Holes(segs), p, m1, r1) && Complete(Holes(segs), q, m2, r2) && MOUNT in Holes(segs)
    requires segs != [] && SlashFree(segs) && Print(Fill(segs, p)) == Print(Fill(segs, q))
    ensures forall n :: n in Holes(segs) ==> Lookup(p, n) == Lookup(q, n)
    ensures m1 == m2 && r1 == r2
  {
    var xs, ys := Texts(Fill(segs, p)), Texts(Fill(segs, q));
    ResultSegments(Fill(segs, p));
    ResultSegments(Fill(segs, q));
    forall i | 0 <= i < |segs|
      ensures |Split(xs[i])| == if segs[i] == Hole(RESOURCE) then |Split(r1)| else 1
      ensures |Split(ys[i])| == if segs[i] == Hole(RESOURCE) then |Split(r2)| else 1
    {
      Width(segs, p, m1, r1, i);
      Width(segs, q, m2, r2, i);
    }
    SameWidth(segs, xs, ys, |Split(r1)|, |Split(r2)|);
    FlatAligned(xs, ys);
    forall n | n in Holes(segs)
      ensures Lookup(p, n) == Lookup(q, n)
    {
      var i :| 0 <= i < |segs| && segs[i].Hole? && segs[i].name == n;
      ValueHasNoDots(segs, p, m1, r1, n);
      ValueHasNoDots(segs, q, m2, r2, n);
      assert xs[i] == ys[i];
    }
  }

  // ------------------------------------------------------------------
  // Templates of a capability document
  // ------------------------------------------------------------------

  predicate Contains(s: string, pattern: string) {
    exists i :: 0 <= i <= |s| && At(s, pattern, i)
  }

  predicate At(s: string, pattern: string, i: nat) {
    i + |pattern| <= |s| && s[i..i + |pattern|] == pattern
  }

  predicate PathChars(s: string) {
    && s != [] && s[0] == '/'
    && (forall i :: 0 <= i < |s| ==>
          Alphanumeric(s[i]) || s[i] in {'_', '.', '*', '{', '}', '~', ':', '/', '+', '^', '$', '-'})
  }

  /** Where a run of name characters ends. */
  function NameEnd(s: string, k: nat): (e: nat)
    requires k <= |s|
    ensures k <= e <= |s| && (forall i :: k <= i < e ==> Alphanumeric(s[i]) || s[i] == '_')
    decreases |s| - k
  {
    if k < |s| && (Alphanumeric(s[k]) || s[k] == '_') then NameEnd(s, k + 1) else k
  }

  /** Where a leading `/{..._mount_path}` ends. */
  function MountEnd(s: string): (r: Option<nat>)
    ensures r.Some? ==> r.value <= |s|
  {
    if |s| < 3 || s[0] != '/' || s[1] != '{' || !Alphanumeric(s[2]) || '0' <= s[2] <= '9' then None else
      var e := NameEnd(s, 2);
      if e < |s| && s[e] == '}' && e - 2 >= |"_mount_path"| && s[e - |"_mount_path"|..e] == "_mount_path"
      then Some(e + 1) else None
  }

  function MountHead(): string {
    ['/'] + Braced(MOUNT)
  }

  /** A leading `/{..._mount_path}` becomes `/{secret_mount_path}`. */
  function RenameMount(s: string): string {
    if MountEnd(s).Some? then MountHead() + s[MountEnd(s).value..] else s
  }

  function NormalizePath(path: Value): Option<string> {
    if !path.Str? || |path.s| > 500 || exists i :: 0 <= i < |path.s| && path.s[i] as int < 32 then None else
      var s := if "/v1/" <= path.s then path.s[3..] else path.s;
      if !PathChars(s) || Contains(s, "//") || Contains(s + "/", "/./") || Contains(s + "/", "/../") then None
      else Some(RenameMount(s))
  }

  /** A leading placeholder of this name, and what follows it. */
  ghost predicate Heads(s: string, name: string, rest: string) {
    && s == "/{" + name + "}" + rest && name != "" && (65 <= name[0] as int <= 90 || 97 <= name[0] as int <= 122)
    && forall i :: 0 <= i < |name| ==> Word(name[i]) || name[i] == '_'
  }

  ghost predicate EndsLikeMount(name: string) {
    |name| >= 11 && name[|name| - 11..] == "_mount_path"
  }

  lemma NameEndIs(s: string, k: nat, e: nat)
    requires k <= e <= |s| && (forall i :: k <= i < e ==> Alphanumeric(s[i]) || s[i] == '_')
    requires e == |s| || !(Alphanumeric(s[e]) || s[e] == '_')
    ensures NameEnd(s, k) == e
    decreases e - k
  {
    if k < e {
      NameEndIs(s, k + 1, e);
    }
  }

  lemma HeadIsFound(s: string, name: string, rest: string)
    requires Heads(s, name, rest)
    ensures MountEnd(s) == if EndsLikeMount(name) then Some(|name| + 3) else None
    ensures s[|name| + 3..] == rest
  {
    assert forall c: char :: Word(c) <==> Alphanumeric(c);
    var e := |name| + 2;
    assert s[2..e] == name && s[e] == '}';
    assert forall i :: 2 <= i < e ==> s[i] == s[2..e][i - 2];
    NameEndIs(s, 2, e);
    if |name| >= 11 {
      assert s[e - 11..e] == name[|name| - 11..];
    }
  }

  /** A leading placeholder whose name ends like a mount becomes the mount placeholder; any other path is left alone. */
  lemma RenameIff(s: string)
    ensures forall name, rest :: Heads(s, name, rest) && EndsLikeMount(name) ==>
              RenameMount(s) == "/{secret_mount_path}" + rest
    ensures (forall name, rest :: Heads(s, name, rest) ==> !EndsLikeMount(name)) ==> RenameMount(s) == s
  {
    forall name, rest | Heads(s, name, rest) && EndsLikeMount(name)
      ensures RenameMount(s) == "/{secret_mount_path}" + rest
    {
      HeadIsFound(s, name, rest);
      assert MountHead() == "/{secret_mount_path}";
    }
    if MountEnd(s).Some? {
      var name, rest := FoundHeads(s);
    }
  }

  lemma FoundHeads(s: string) returns (name: string, rest: string)
    requires MountEnd(s).Some?
    ensures Heads(s, name, rest) && EndsLikeMount(name)
  {
    var e := NameEnd(s, 2);
    name, rest := s[2..e], s[e + 1..];
    assert forall c: char :: Word(c) <==> Alphanumeric(c);
    assert s == "/{" + name + "}" + rest;
    assert name[|name| - 11..] == s[e - 11..e];
  }

  /** The path without the version prefix. */
  ghost predicate IsBody(path: string, body: string) {
    if |path| >= 4 && path[0] == '/' && path[1] == 'v' && path[2] == '1' && path[3] == '/'
    then path == "/v1" + body else path == body
  }

  /** After this slash come one or two dots, and then a slash or the end. */
  predicate DotsAt(s: string, i: nat) {
    && i < |s| - 1 && s[i] == '/' && s[i + 1] == '.'
    && (i + 2 == |s| || s[i + 2] == '/' || (s[i + 2] == '.' && (i + 3 == |s| || s[i + 3] == '/')))
  }

  ghost predicate HasDotSegment(s: string) {
    exists i :: DotsAt(s, i)
  }

  predicate PlainBody(s: string) {
    && s != "" && s[0] == '/'
    && (forall i :: 0 <= i < |s| ==> Word(s[i]) || s[i] in "_.*{}~:/+^$-")
    && (forall i :: 0 <= i < |s| - 1 && s[i] == '/' ==> s[i + 1] != '/')
  }

  lemma DotsShow(s: string, i: nat)
    requires DotsAt(s, i)
    ensures At(s + "/", "/./", i) || At(s + "/", "/../", i)
  {
    var t := s + "/";
    if i + 2 == |s| || s[i + 2] == '/' {
      assert t[i..i + 3] == "/./";
    } else {
      assert t[i..i + 4] == "/../";
    }
  }

  lemma OneDotAt(s: string, i: nat)
    requires At(s + "/", "/./", i)
    ensures DotsAt(s, i)
  {
    var t := s + "/";
    assert t[i..i + 3][0] == t[i] && t[i..i + 3][1] == t[i + 1] && t[i..i + 3][2] == t[i + 2];
  }

  lemma TwoDotsAt(s: string, i: nat)
    requires At(s + "/", "/../", i)
    ensures DotsAt(s, i)
  {
    var t := s + "/";
    assert t[i..i + 4][0] == t[i] && t[i..i + 4][1] == t[i + 1];
    assert t[i..i + 4][2] == t[i + 2] && t[i..i + 4][3] == t[i + 3];
  }

  lemma DotSegmentIff(s: string)
    ensures HasDotSegment(s) <==> Contains(s + "/", "/./") || Contains(s + "/", "/../")
  {
    if i :| DotsAt(s, i) {
      DotsShow(s, i);
    }
    if i :| 0 <= i <= |s + "/"| && At(s + "/", "/./", i) {
      OneDotAt(s, i);
    }
    if i :| 0 <= i <= |s + "/"| && At(s + "/", "/../", i) {
      TwoDotsAt(s, i);
    }
  }

  lemma DoubleSlashIff(s: string)
    ensures Contains(s, "//") <==> exists i :: 0 <= i < |s| - 1 && s[i] == '/' && s[i + 1] == '/'
  {
    if i :| 0 <= i < |s| - 1 && s[i] == '/' && s[i + 1] == '/' {
      assert s[i..i + 2] == "//" && At(s, "//", i);
    }
    if Contains(s, "//") {
      var i :| 0 <= i <= |s| && At(s, "//", i);
      assert s[i..i + 2][0] == s[i] && s[i..i + 2][1] == s[i + 1];
    }
  }

  lemma BodyIff(s: string)
    ensures PathChars(s) && !Contains(s, "//") <==> PlainBody(s)
  {
    assert forall c: char :: Word(c) <==> Alphanumeric(c);
    DoubleSlashIff(s);
  }

  /**
   * A document's path is accepted exactly if it is short, plain and without a
   * dot segment once the version prefix is gone; then only its leading mount
   * placeholder is renamed.
   */
  lemma NormalizePathIff(path: Value, body: string)
    requires path.Str? ==> IsBody(path.s, body)
    ensures NormalizePath(path)
         == if path.Str? && |path.s| <= 500 && PlainBody(body) && !HasDotSegment(body)
            then Some(RenameMount(body)) else None
  {
    if path.Str? {
      BodyIs(path.s, body);
      BodyIff(body);
      DotSegmentIff(body);
      if PlainBody(body) {
        PlainIsPrintable(path.s, body);
      }
    }
  }

  lemma BodyIs(path: string, body: string)
    requires IsBody(path, body)
    ensures body == if "/v1/" <= path then path[3..] else path
  {
    if |path| >= 4 {
      assert path[..4] == [path[0], path[1], path[2], path[3]];
    }
  }

  lemma PlainIsPrintable(path: string, body: string)
    requires IsBody(path, body) && PlainBody(body)
    ensures forall i :: 0 <= i < |path| ==> path[i] as int >= 32
  {
    if path != body {
      assert forall i :: 0 <= i < |body| ==> path[i + 3] == body[i];
      assert forall i :: 3 <= i < |path| ==> path[i] == body[i - 3];
    }
  }

  lemma TextsConcat(a: seq<Segment>, b: seq<Segment>)
    ensures Print(a + b) == Print(a) + Print(b)
  {
    PrintIsPath(a);
    PrintIsPath(b);
    PrintIsPath(a + b);
    TextsAppend(a, b);
    PathConcat(Texts(a), Texts(b));
  }

  lemma TextsAppend(a: seq<Segment>, b: seq<Segment>)
    ensures Texts(a + b) == Texts(a) + Texts(b)
  {
  }

  lemma AtOffset(a: string, b: string, pattern: string, i: nat)
    requires At(b, pattern, i)
    ensures At(a + b, pattern, |a| + i)
  {
    assert (a + b)[|a| + i..|a| + i + |pattern|] == b[i..i + |pattern|];
  }

  lemma AtDrop(a: string, b: string, pattern: string, i: nat)
    requires At(a + b, pattern, i) && i >= |a|
    ensures At(b, pattern, i - |a|)
  {
    assert (a + b)[i..i + |pattern|] == b[i - |a|..i - |a| + |pattern|];
  }

  lemma AtStart(front: string, c: char, rest: string)
    requires rest != [] && rest[0] == c
    ensures At(front + rest, front + [c], 0)
  {
    assert (front + rest)[..|front| + 1] == front + [c];
  }

  /** A literal segment shows up in the text between two slashes. */
  lemma LiteralShows(segs: seq<Segment>, i: nat)
    requires i < |segs| && segs[i].Lit?
    ensures Contains(Print(segs) + "/", ['/'] + segs[i].text + ['/'])
  {
    var a, b := segs[..i], segs[i + 1..];
    assert segs == a + segs[i..] && segs[i..][1..] == b;
    TextsConcat(a, segs[i..]);
    var text := segs[i].text;
    Assoc(Print(a), Print(segs[i..]), "/");
    Assoc(['/'], text, Print(b));
    Assoc(['/'] + text, Print(b), "/");
    AtStart(['/'] + text, '/', Print(b) + "/");
    AtOffset(Print(a), Print(segs[i..]) + "/", ['/'] + text + ['/'], 0);
  }

  /** In the renamed placeholder no slash is followed by a dot. */
  lemma HeadHasNoDots(tail: string, dots: string, i: nat)
    requires dots in DOTS && At(MountHead() + tail, ['/'] + dots + ['/'], i)
    ensures i >= |MountHead()|
  {
    var head, pattern := MountHead(), ['/'] + dots + ['/'];
    var all := head + tail;
    assert all[i..i + |pattern|][0] == '/' && all[i..i + |pattern|][1] == '.';
    assert all[i] == '/' && all[i + 1] == '.';
    assert Without(MOUNT, '/');
    assert forall k :: 0 < k < |head| ==> head[k] != '/';
    assert head[1] == '{';
  }

  /** An occurrence behind one head is an occurrence behind another. */
  lemma AtBehind(head: string, other: string, tail: string, pattern: string, i: nat)
    requires At(head + tail, pattern, i) && i >= |head|
    ensures Contains(other + tail, pattern)
  {
    AtDrop(head, tail, pattern, i);
    AtOffset(other, tail, pattern, i - |head|);
    assert At(other + tail, pattern, |other| + (i - |head|));
  }

  lemma SplitAt(head: string, s: string, e: nat)
    requires e <= |s|
    ensures (head + s[e..]) + "/" == head + (s[e..] + "/") && s + "/" == s[..e] + (s[e..] + "/")
  {
    Assoc(head, s[e..], "/");
    assert s == s[..e] + s[e..];
    Assoc(s[..e], s[e..], "/");
  }

  lemma RenamedOccurrence(front: string, tail: string, dots: string)
    requires dots in DOTS && Contains(MountHead() + tail, ['/'] + dots + ['/'])
    ensures Contains(front + tail, ['/'] + dots + ['/'])
  {
    var pattern := ['/'] + dots + ['/'];
    var i :| 0 <= i <= |MountHead() + tail| && At(MountHead() + tail, pattern, i);
    HeadHasNoDots(tail, dots, i);
    AtBehind(MountHead(), front, tail, pattern, i);
  }

  /** Renaming the first placeholder brings in no dot segment. */
  lemma RenameKeepsOut(s: string, dots: string)
    requires dots in DOTS && Contains(RenameMount(s) + "/", ['/'] + dots + ['/'])
    ensures Contains(s + "/", ['/'] + dots + ['/'])
  {
    if MountEnd(s).Some? {
      var e := MountEnd(s).value;
      SplitAt(MountHead(), s, e);
      RenamedOccurrence(s[..e], s[e..] + "/", dots);
    }
  }

  lemma DottedShows(t: string)
    requires Parse(t).Some? && Dotted(Parse(t).value)
    ensures exists d :: d in DOTS && Contains(t + "/", ['/'] + d + ['/'])
  {
    ParsePrints(t);
    var segs := Parse(t).value;
    var i :| 0 <= i < |segs| && segs[i].Lit? && segs[i].text in DOTS;
    LiteralShows(segs, i);
  }

  lemma DotPattern(d: string)
    requires d in DOTS
    ensures ['/'] + d + ['/'] == "/./" || ['/'] + d + ['/'] == "/../"
  {
    assert ['/'] + "." + ['/'] == "/./" && ['/'] + ".." + ['/'] == "/../";
  }

  lemma RenamedIsUndotted(s: string)
    requires Parse(RenameMount(s)).Some? && !Contains(s + "/", "/./") && !Contains(s + "/", "/../")
    ensures !Dotted(Parse(RenameMount(s)).value)
  {
    if Dotted(Parse(RenameMount(s)).value) {
      DottedShows(RenameMount(s));
      var d :| d in DOTS && Contains(RenameMount(s) + "/", ['/'] + d + ['/']);
      DotPattern(d);
      RenameKeepsOut(s, d);
    }
  }

  /** A mounted template taken from a capability document has no dot segment. */
  lemma NormalizedIsUndotted(path: Value)
    requires NormalizePath(path).Some? && Parse(NormalizePath(path).value).Some?
    ensures !Dotted(Parse(NormalizePath(path).value).value)
  {
    RenamedIsUndotted(if "/v1/" <= path.s then path.s[3..] else path.s);
  }

  // ------------------------------------------------------------------
  // Whole compilations
  // ------------------------------------------------------------------

  datatype Request = Request(mount: Value, resource: Value, members: seq<Member>)

  predicate Compiles(template: string, q: Request) {
    && Parse(template).Some? && DistinctKeys(q.members)
    && Plan(Holes(Parse(template).value), q.mount, q.resource, q.members).Ok?
  }

  function PairsOf(template: string, q: Request): seq<Pair>
    requires Compiles(template, q)
  {
    Plan(Holes(Parse(template).value), q.mount, q.resource, q.members).value
  }

  function Compiled(template: string, q: Request): string
    requires Compiles(template, q)
  {
    Print(Fill(Parse(template).value, PairsOf(template, q)))
  }

  function ResourceIn(q: Request): string {
    if Falsy(q.resource) then "" else ResourceOf(q.resource)
  }

  lemma RequestCompletes(template: string, q: Request)
    requires Compiles(template, q)
    ensures Complete(Holes(Parse(template).value), PairsOf(template, q), NormalizeMount(q.mount).value, ResourceIn(q))
    ensures MOUNT in Holes(Parse(template).value) && Parse(template).value != [] && SlashFree(Parse(template).value)
  {
    HolesAreNames(template);
    ParsePrints(template);
    PlanIsComplete(Holes(Parse(template).value), q.mount, q.resource, q.members);
  }

  /** Every parameter is found among the replacements with its normalized text. */
  lemma ParameterFound(template: string, q: Request, i: nat)
    requires Compiles(template, q) && i < |q.members|
    ensures q.members[i].key.Text? && q.members[i].key.text in Holes(Parse(template).value)
    ensures Lookup(PairsOf(template, q), q.members[i].key.text) == NormalizeParameter(q.members[i].value)
  {
    RequestCompletes(template, q);
    var holes := Holes(Parse(template).value);
    ParameterNames(holes, q.members);
    var rest := ParameterPairs(q.members).value;
    var pairs := PairsOf(template, q);
    var k := |pairs| - |rest| + i;
    assert pairs[k] == rest[i];
    LookupAt(pairs, k);
  }

  /** The replacements are the values given: the mount in its text, the resource, and each parameter's text. */
  lemma PlanValues(template: string, q: Request, m: string, r: string)
    requires Compiles(template, q) && IsMount(q.mount, m) && ResourceGiven(q.resource, r)
    ensures Lookup(PairsOf(template, q), "secret_mount_path") == Some(m)
    ensures r != "" ==> Lookup(PairsOf(template, q), "path") == Some(r)
  {
    RequestCompletes(template, q);
    MountIff(q.mount, m);
    ResourceIs(q, r);
  }

  lemma ResourceIs(q: Request, r: string)
    requires ResourceGiven(q.resource, r)
    ensures ResourceIn(q) == r
  {
    AbsentIff(q.resource);
  }

  lemma ParameterValue(template: string, q: Request, i: nat, t: string)
    requires Compiles(template, q) && i < |q.members| && IsParameter(q.members[i].value, t)
    ensures q.members[i].key.Text? && Lookup(PairsOf(template, q), q.members[i].key.text) == Some(t)
  {
    ParameterFound(template, q, i);
    ParameterIff(q.members[i].value, t);
  }

  /** Two requests compiled to the same path have the same mount, resource and parameters. */
  lemma InputsRecoverable(template: string, p: Request, q: Request)
    requires Compiles(template, p) && Compiles(template, q) && Compiled(template, p) == Compiled(template, q)
    ensures NormalizeMount(p.mount) == NormalizeMount(q.mount) && ResourceIn(p) == ResourceIn(q)
    ensures forall i, j :: 0 <= i < |p.members| && 0 <= j < |q.members| && p.members[i].key == q.members[j].key ==>
      NormalizeParameter(p.members[i].value) == NormalizeParameter(q.members[j].value)
  {
    RequestCompletes(template, p);
    RequestCompletes(template, q);
    Recoverable(Parse(template).value,
                PairsOf(template, p), NormalizeMount(p.mount).value, ResourceIn(p),
                PairsOf(template, q), NormalizeMount(q.mount).value, ResourceIn(q));
    forall i, j | 0 <= i < |p.members| && 0 <= j < |q.members| && p.members[i].key == q.members[j].key
      ensures NormalizeParameter(p.members[i].value) == NormalizeParameter(q.members[j].value)
    {
      ParameterFound(template, p, i);
      ParameterFound(template, q, j);
    }
  }

  /** A path compiled from a capability document's template has no brace and no dot segment. */
  lemma DocumentPathIsPlain(path: Value, q: Request)
    requires NormalizePath(path).Some? && Compiles(NormalizePath(path).value, q)
    ensures var text := Compiled(NormalizePath(path).value, q);
            Braceless(text) && text != [] && (forall d :: d in DOTS ==> d !in Split(text[1..]))
  {
    var template := NormalizePath(path).value;
    PlanReplaces(template, q.mount, q.resource, q.members);
    RequestCompletes(template, q);
    NormalizedIsUndotted(path);
    DotsIff(Parse(template).value, PairsOf(template, q), NormalizeMount(q.mount).value, ResourceIn(q));
  }
}
