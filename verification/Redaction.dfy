/**
 * The response redactors: a bounded recursive copy of a JSON response that drops
 * every member whose key names secret material, whatever its value.
 */
module Redaction {
  import opened Prelude
  import opened Json
  import Validators

  /** What one redactor bounds, accepts and hides. */
  datatype Rules = Rules(
    maxFields: nat,
    maxItems: nat,
    maxDepth: nat,
    floats: bool,
    keyOK: string -> bool,
    textOK: string -> bool,
    hidden: string -> bool)

  predicate ScalarOK(r: Rules, v: Value) {
    match v
    case Str(s) => r.textOK(s)
    case Number(_, floating, finite) => floating ==> r.floats && finite
    case Alien(_) => false
    case _ => true
  }

  // ------------------------------------------------------------------
  // The redactor
  // ------------------------------------------------------------------

  function Clean(r: Rules, v: Value, depth: nat): Option<Value> {
    if depth > r.maxDepth || !ScalarOK(r, v) then None else
      match v
      case Obj(members) =>
        if |members| > r.maxFields then None else
          var out := CleanMembers(r, members, depth + 1);
          if out.Some? then Some(Obj(out.value)) else None
      case Arr(items) =>
        if |items| > r.maxItems then None else
          var out := CleanItems(r, items, depth + 1);
          if out.Some? then Some(Arr(out.value)) else None
      case _ => Some(v)
  }

  function CleanItems(r: Rules, items: seq<Value>, depth: nat): Option<seq<Value>> {
    if items == [] then Some([]) else
      var first := Clean(r, items[0], depth);
      var rest := CleanItems(r, items[1..], depth);
      if first.Some? && rest.Some? then Some([first.value] + rest.value) else None
  }

  /** One member: nothing for a bad key, no member for a hidden one. */
  function CleanMember(r: Rules, m: Member, depth: nat): Option<seq<Member>> {
    if !m.key.Text? || !r.keyOK(m.key.text) then None
    else if r.hidden(m.key.text) then Some([])
    else
      var value := Clean(r, m.value, depth);
      if value.Some? then Some([Member(m.key, value.value)]) else None
  }

  function CleanMembers(r: Rules, members: seq<Member>, depth: nat): Option<seq<Member>> {
    if members == [] then Some([]) else
      var first := CleanMember(r, members[0], depth);
      var rest := CleanMembers(r, members[1..], depth);
      if first.Some? && rest.Some? then Some(first.value + rest.value) else None
  }

  // ------------------------------------------------------------------
  // Reference: drop hidden members everywhere, and what may be accepted
  // ------------------------------------------------------------------

  function Strip(hidden: string -> bool, v: Value): Value {
    match v
    case Obj(members) => Obj(StripMembers(hidden, members))
    case Arr(items) => Arr(StripItems(hidden, items))
    case _ => v
  }

  function StripItems(hidden: string -> bool, items: seq<Value>): seq<Value> {
    seq(|items|, (i: nat) requires i < |items| => Strip(hidden, items[i]))
  }

  function StripMember(hidden: string -> bool, m: Member): Member {
    Member(m.key, Strip(hidden, m.value))
  }

  function StripMembers(hidden: string -> bool, members: seq<Member>): seq<Member> {
    if members == [] then []
    else (if Hides(hidden, members[0]) then [] else [StripMember(hidden, members[0])])
         + StripMembers(hidden, members[1..])
  }

  predicate Hides(hidden: string -> bool, m: Member) {
    m.key.Text? && hidden(m.key.text)
  }

  /** Bounds and rules on everything outside hidden members, and on every key. */
  predicate Fits(r: Rules, v: Value, depth: nat) {
    && depth <= r.maxDepth && ScalarOK(r, v)
    && match v
       case Obj(members) =>
         && |members| <= r.maxFields
         && (forall i :: 0 <= i < |members| ==>
               && members[i].key.Text? && r.keyOK(members[i].key.text)
               && (r.hidden(members[i].key.text) || Fits(r, members[i].value, depth + 1)))
       case Arr(items) => |items| <= r.maxItems && (forall i :: 0 <= i < |items| ==> Fits(r, items[i], depth + 1))
       case _ => true
  }

  predicate MemberFits(r: Rules, m: Member, depth: nat) {
    m.key.Text? && r.keyOK(m.key.text) && (r.hidden(m.key.text) || Fits(r, m.value, depth))
  }

  /** The redactor accepts exactly what fits, and returns it with the hidden members dropped. */
  lemma {:induction false} CleanIsStrip(r: Rules, v: Value, depth: nat)
    ensures Clean(r, v, depth) == if Fits(r, v, depth) then Some(Strip(r.hidden, v)) else None
  {
    match v {
      case Obj(members) =>
        CleanMembersIsStrip(r, members, depth + 1);
        assert forall i :: 0 <= i < |members| ==>
          (MemberFits(r, members[i], depth + 1) <==>
             && members[i].key.Text? && r.keyOK(members[i].key.text)
             && (r.hidden(members[i].key.text) || Fits(r, members[i].value, depth + 1)));
      case Arr(items) => CleanItemsIsStrip(r, items, depth + 1);
      case _ =>
    }
  }

  lemma {:induction false} CleanItemsIsStrip(r: Rules, items: seq<Value>, depth: nat)
    ensures CleanItems(r, items, depth)
         == if forall i :: 0 <= i < |items| ==> Fits(r, items[i], depth)
            then Some(StripItems(r.hidden, items)) else None
  {
    if items != [] {
      CleanIsStrip(r, items[0], depth);
      CleanItemsIsStrip(r, items[1..], depth);
      assert items == [items[0]] + items[1..];
      assert StripItems(r.hidden, items) == [Strip(r.hidden, items[0])] + StripItems(r.hidden, items[1..]);
      assert (forall i :: 0 <= i < |items| ==> Fits(r, items[i], depth))
        <==> Fits(r, items[0], depth) && (forall i :: 0 <= i < |items[1..]| ==> Fits(r, items[1..][i], depth));
    }
  }

  lemma {:induction false} CleanMemberIsStrip(r: Rules, m: Member, depth: nat)
    ensures CleanMember(r, m, depth)
         == if !MemberFits(r, m, depth) then None
            else Some(if Hides(r.hidden, m) then [] else [StripMember(r.hidden, m)])
  {
    CleanIsStrip(r, m.value, depth);
  }

  lemma {:induction false} CleanMembersIsStrip(r: Rules, members: seq<Member>, depth: nat)
    ensures CleanMembers(r, members, depth)
         == if forall i :: 0 <= i < |members| ==> MemberFits(r, members[i], depth)
            then Some(StripMembers(r.hidden, members)) else None
  {
    if members != [] {
      CleanMemberIsStrip(r, members[0], depth);
      CleanMembersIsStrip(r, members[1..], depth);
      assert members == [members[0]] + members[1..];
      assert (forall i :: 0 <= i < |members| ==> MemberFits(r, members[i], depth))
        <==> MemberFits(r, members[0], depth)
             && (forall i :: 0 <= i < |members[1..]| ==> MemberFits(r, members[1..][i], depth));
    }
  }

  // ------------------------------------------------------------------
  // Noninterference
  // ------------------------------------------------------------------

  /** Equal but for values under hidden keys, at any depth. */
  predicate Alike(hidden: string -> bool, v: Value, w: Value) {
    match (v, w)
    case (Obj(a), Obj(b)) =>
      && |a| == |b|
      && (forall i :: 0 <= i < |a| ==>
            a[i].key == b[i].key && (Hides(hidden, a[i]) || Alike(hidden, a[i].value, b[i].value)))
    case (Arr(a), Arr(b)) => |a| == |b| && (forall i :: 0 <= i < |a| ==> Alike(hidden, a[i], b[i]))
    case _ => v == w
  }

  /** Hidden values do not influence the outcome: same output, or both refused. */
  lemma {:induction false} NonInterference(r: Rules, v: Value, w: Value, depth: nat)
    requires Alike(r.hidden, v, w)
    ensures Clean(r, v, depth) == Clean(r, w, depth)
    decreases v
  {
    match (v, w) {
      case (Obj(a), Obj(b)) => MembersNonInterference(r, a, b, depth + 1);
      case (Arr(a), Arr(b)) => ItemsNonInterference(r, a, b, depth + 1);
      case _ =>
    }
  }

  lemma {:induction false} ItemsNonInterference(r: Rules, a: seq<Value>, b: seq<Value>, depth: nat)
    requires |a| == |b| && (forall i :: 0 <= i < |a| ==> Alike(r.hidden, a[i], b[i]))
    ensures CleanItems(r, a, depth) == CleanItems(r, b, depth)
    decreases a
  {
    if a != [] {
      NonInterference(r, a[0], b[0], depth);
      ItemsNonInterference(r, a[1..], b[1..], depth);
    }
  }

  lemma {:induction false} MemberNonInterference(r: Rules, m: Member, n: Member, depth: nat)
    requires m.key == n.key && (Hides(r.hidden, m) || Alike(r.hidden, m.value, n.value))
    ensures CleanMember(r, m, depth) == CleanMember(r, n, depth)
    decreases m
  {
    if !Hides(r.hidden, m) {
      NonInterference(r, m.value, n.value, depth);
    }
  }

  lemma {:induction false} MembersNonInterference(r: Rules, a: seq<Member>, b: seq<Member>, depth: nat)
    requires |a| == |b|
    requires forall i :: 0 <= i < |a| ==>
               a[i].key == b[i].key && (Hides(r.hidden, a[i]) || Alike(r.hidden, a[i].value, b[i].value))
    ensures CleanMembers(r, a, depth) == CleanMembers(r, b, depth)
    decreases a
  {
    if a != [] {
      MemberNonInterference(r, a[0], b[0], depth);
      MembersNonInterference(r, a[1..], b[1..], depth);
    }
  }

  // ------------------------------------------------------------------
  // The output
  // ------------------------------------------------------------------

  /** No hidden key at any depth. */
  predicate Bare(hidden: string -> bool, v: Value) {
    match v
    case Obj(members) => forall i :: 0 <= i < |members| ==> !Hides(hidden, members[i]) && Bare(hidden, members[i].value)
    case Arr(items) => forall i :: 0 <= i < |items| ==> Bare(hidden, items[i])
    case _ => true
  }

  lemma {:induction false} StripIsBare(hidden: string -> bool, v: Value)
    ensures Bare(hidden, Strip(hidden, v))
  {
    match v {
      case Obj(members) => StripMembersBare(hidden, members);
      case Arr(items) =>
        forall i | 0 <= i < |items|
          ensures Bare(hidden, Strip(hidden, items[i]))
        {
          StripIsBare(hidden, items[i]);
        }
      case _ =>
    }
  }

  lemma {:induction false} StripMemberBare(hidden: string -> bool, m: Member)
    ensures Bare(hidden, StripMember(hidden, m).value)
  {
    StripIsBare(hidden, m.value);
  }

  lemma {:induction false} StripMembersBare(hidden: string -> bool, members: seq<Member>)
    ensures forall i :: 0 <= i < |StripMembers(hidden, members)| ==>
      !Hides(hidden, StripMembers(hidden, members)[i]) && Bare(hidden, StripMembers(hidden, members)[i].value)
  {
    if members != [] {
      StripMemberBare(hidden, members[0]);
      StripMembersBare(hidden, members[1..]);
    }
  }

  lemma {:induction false} StripFits(r: Rules, v: Value, depth: nat)
    requires Fits(r, v, depth)
    ensures Fits(r, Strip(r.hidden, v), depth)
  {
    match v {
      case Obj(members) =>
        assert forall i :: 0 <= i < |members| ==> MemberFits(r, members[i], depth + 1);
        StripMembersFit(r, members, depth + 1);
        var out := StripMembers(r.hidden, members);
        assert forall i :: 0 <= i < |out| ==> MemberFits(r, out[i], depth + 1);
      case Arr(items) =>
        forall i | 0 <= i < |items|
          ensures Fits(r, Strip(r.hidden, items[i]), depth + 1)
        {
          StripFits(r, items[i], depth + 1);
        }
      case _ =>
    }
  }

  lemma {:induction false} StripMemberFits(r: Rules, m: Member, depth: nat)
    requires MemberFits(r, m, depth) && !Hides(r.hidden, m)
    ensures MemberFits(r, StripMember(r.hidden, m), depth)
  {
    StripFits(r, m.value, depth);
  }

  lemma {:induction false} StripMembersFit(r: Rules, members: seq<Member>, depth: nat)
    requires forall i :: 0 <= i < |members| ==> MemberFits(r, members[i], depth)
    ensures |StripMembers(r.hidden, members)| <= |members|
    ensures forall i :: 0 <= i < |StripMembers(r.hidden, members)| ==>
      MemberFits(r, StripMembers(r.hidden, members)[i], depth)
  {
    if members != [] {
      if !Hides(r.hidden, members[0]) {
        StripMemberFits(r, members[0], depth);
      }
      StripMembersFit(r, members[1..], depth);
    }
  }

  /** Stripping a bare value changes nothing. */
  lemma {:induction false} BareIsFixed(hidden: string -> bool, v: Value)
    requires Bare(hidden, v)
    ensures Strip(hidden, v) == v
  {
    match v {
      case Obj(members) => BareMembersFixed(hidden, members);
      case Arr(items) =>
        forall i | 0 <= i < |items|
          ensures Strip(hidden, items[i]) == items[i]
        {
          BareIsFixed(hidden, items[i]);
        }
        assert Strip(hidden, v).items == items;
      case _ =>
    }
  }

  lemma {:induction false} BareMemberFixed(hidden: string -> bool, m: Member)
    requires Bare(hidden, m.value)
    ensures StripMember(hidden, m) == m
  {
    BareIsFixed(hidden, m.value);
  }

  lemma {:induction false} BareMembersFixed(hidden: string -> bool, members: seq<Member>)
    requires forall i :: 0 <= i < |members| ==> !Hides(hidden, members[i]) && Bare(hidden, members[i].value)
    ensures StripMembers(hidden, members) == members
  {
    if members != [] {
      BareMemberFixed(hidden, members[0]);
      BareMembersFixed(hidden, members[1..]);
    }
  }

  /** Accepted output names no hidden key at any depth, and redacting it again returns it unchanged. */
  lemma OutputIsSettled(r: Rules, v: Value, depth: nat)
    requires Clean(r, v, depth).Some?
    ensures var out := Clean(r, v, depth).value; Bare(r.hidden, out) && Clean(r, out, depth) == Some(out)
  {
    CleanIsStrip(r, v, depth);
    StripIsBare(r.hidden, v);
    StripFits(r, v, depth);
    BareIsFixed(r.hidden, Strip(r.hidden, v));
    CleanIsStrip(r, Strip(r.hidden, v), depth);
  }

  // ------------------------------------------------------------------
  // The redactor as it runs: a result dictionary filled in a loop
  // ------------------------------------------------------------------

  /** Keys are distinct in every dictionary of the value. */
  predicate Dict(v: Value) {
    match v
    case Obj(members) =>
      && (forall i, j :: 0 <= i < j < |members| ==> members[i].key != members[j].key)
      && (forall i :: 0 <= i < |members| ==> Dict(members[i].value))
    case Arr(items) => forall i :: 0 <= i < |items| ==> Dict(items[i])
    case _ => true
  }

  /** Dictionary assignment: replaces the key's value in place, or adds the key at the end. */
  function Assign(members: seq<Member>, k: Key, v: Value): seq<Member> {
    if members == [] then [Member(k, v)]
    else if members[0].key == k then [Member(k, v)] + members[1..]
    else [members[0]] + Assign(members[1..], k, v)
  }

  lemma {:induction false} AssignNew(members: seq<Member>, k: Key, v: Value)
    requires forall i :: 0 <= i < |members| ==> members[i].key != k
    ensures Assign(members, k, v) == members + [Member(k, v)]
  {
    if members != [] {
      AssignNew(members[1..], k, v);
      assert members == [members[0]] + members[1..];
    }
  }

  method NormalizeValue(r: Rules, v: Value, depth: nat) returns (out: Option<Value>)
    requires Dict(v)
    ensures out == Clean(r, v, depth)
    decreases v, 1
  {
    if depth > r.maxDepth {
      return None;
    }
    if v.Obj? {
      out := NormalizeMapping(r, v, depth);
    } else if v.Arr? {
      out := NormalizeSequence(r, v, depth);
    } else if ScalarOK(r, v) {
      out := Some(v);
    } else {
      out := None;
    }
  }

  method NormalizeMapping(r: Rules, v: Value, depth: nat) returns (out: Option<Value>)
    requires v.Obj? && Dict(v) && depth <= r.maxDepth
    ensures out == Clean(r, v, depth)
    decreases v, 0
  {
    var members := v.members;
    if |members| > r.maxFields {
      return None;
    }
    var result: seq<Member> := [];
    assert members[0..] == members;
    PrependNone(CleanMembers(r, members, depth + 1));
    for i := 0 to |members|
      invariant forall j, k :: 0 <= j < |result| && i <= k < |members| ==> result[j].key != members[k].key
      invariant CleanMembers(r, members, depth + 1) == Prepend(result, CleanMembers(r, members[i..], depth + 1))
    {
      var m := members[i];
      assert members[i..][0] == m && members[i..][1..] == members[i + 1..];
      if !m.key.Text? || !r.keyOK(m.key.text) {
        return None;
      }
      if !r.hidden(m.key.text) {
        var value := NormalizeValue(r, m.value, depth + 1);
        if value.None? {
          return None;
        }
        AssignNew(result, m.key, value.value);
        PrependOne(result, Member(m.key, value.value), CleanMembers(r, members[i + 1..], depth + 1));
        result := Assign(result, m.key, value.value);
      } else {
        PrependNone(CleanMembers(r, members[i + 1..], depth + 1));
      }
    }
    assert members[|members|..] == [] && result + [] == result;
    return Some(Obj(result));
  }

  function Prepend<T>(a: seq<T>, b: Option<seq<T>>): Option<seq<T>> {
    if b.Some? then Some(a + b.value) else None
  }

  lemma PrependOne<T>(a: seq<T>, x: T, b: Option<seq<T>>)
    ensures Prepend(a, Prepend([x], b)) == Prepend(a + [x], b)
  {
    if b.Some? {
      assert a + ([x] + b.value) == a + [x] + b.value;
    }
  }

  lemma PrependNone<T>(b: Option<seq<T>>)
    ensures Prepend([], b) == b
  {
    if b.Some? {
      assert [] + b.value == b.value;
    }
  }

  method NormalizeSequence(r: Rules, v: Value, depth: nat) returns (out: Option<Value>)
    requires v.Arr? && Dict(v) && depth <= r.maxDepth
    ensures out == Clean(r, v, depth)
    decreases v, 0
  {
    if |v.items| > r.maxItems {
      return None;
    }
    var result: seq<Value> := [];
    assert v.items[0..] == v.items;
    PrependNone(CleanItems(r, v.items, depth + 1));
    for i := 0 to |v.items|
      invariant CleanItems(r, v.items, depth + 1) == Prepend(result, CleanItems(r, v.items[i..], depth + 1))
    {
      assert v.items[i..][0] == v.items[i] && v.items[i..][1..] == v.items[i + 1..];
      var value := NormalizeValue(r, v.items[i], depth + 1);
      if value.None? {
        return None;
      }
      PrependOne(result, value.value, CleanItems(r, v.items[i + 1..], depth + 1));
      result := result + [value.value];
    }
    assert v.items[|v.items|..] == [] && result + [] == result;
    return Some(Arr(result));
  }

  // ------------------------------------------------------------------
  // The two redactors of the administration plane
  // ------------------------------------------------------------------

  const MATERIAL_KEYS: set<string> := {
    "access_token", "api_token", "barcode", "bindpass", "client_token", "client_tls_key", "code", "id_token", "jwt",
    "oidc_client_secret", "password", "password_hash", "private_key", "refresh_token", "secret", "secret_id",
    "secret_key", "settings_file_base64", "token", "token_reviewer_jwt"}

  const ACCESS_MATERIAL_KEYS: set<string> := MATERIAL_KEYS + {"client_secret", "key_shares"}

  /** Access-control responses; `lower` is Unicode lower-casing, and `material` shows everything. */
  function AccessRules(material: bool, lower: string -> string): Rules {
    Rules(1000, 1000, 10, true,
          (k: string) => |k| <= 500 && forall i :: 0 <= i < |k| ==> k[i] as int >= 32,
          (s: string) => |s| <= 256000 && forall i :: 0 <= i < |s| ==> s[i] as int != 0,
          (k: string) => !material && lower(k) in ACCESS_MATERIAL_KEYS)
  }

  function LowerChar(c: char): char {
    if 'A' <= c <= 'Z' then (c as int + 32) as char else c
  }

  function Lower(s: string): string {
    seq(|s|, (i: nat) requires i < |s| => LowerChar(s[i]))
  }

  /** Authentication responses; their keys are ASCII identifiers. */
  function AuthRules(): Rules {
    Rules(1000, 256, 8, false,
          (k: string) => Identifier(k, {'_', '.', ':', '@', '/', '-'}, 500),
          (s: string) => |s| <= 20000 && forall i :: 0 <= i < |s| ==> s[i] as int >= 32 || s[i] in {'\n', '\r', '\t'},
          (k: string) => Lower(k) in MATERIAL_KEYS)
  }

  function AccessResponse(v: Value, material: bool, lower: string -> string): Option<Value> {
    if v.Obj? then Clean(AccessRules(material, lower), v, 0) else None
  }

  /** The object under `data`, or the payload itself when it has no such key. */
  function ResponseData(v: Value): Option<Value> {
    if !v.Obj? then None else
      var data := Get(v.members, "data");
      if data.None? then Some(v) else if data.value.Obj? then data else None
  }

  function PublicAuth(v: Value): Option<Value> {
    var data := ResponseData(v);
    if data.Some? then Clean(AuthRules(), data.value, 0) else None
  }

  // ------------------------------------------------------------------
  // What they promise, without their rules
  // ------------------------------------------------------------------

  /** The key is the lower-case name, or differs from it only in ASCII case. */
  predicate UpToCase(key: string, name: string) {
    && |key| == |name|
    && forall i :: 0 <= i < |key| ==>
         key[i] as int + (if 65 <= key[i] as int <= 90 then 32 else 0) == name[i] as int
  }

  predicate OneOf(key: string, names: set<string>) {
    exists name :: name in names && UpToCase(key, name)
  }

  predicate AuthMaterial(key: string) {
    OneOf(key, MATERIAL_KEYS)
  }

  predicate AccessMaterial(key: string, lower: string -> string) {
    lower(key) in MATERIAL_KEYS || lower(key) == "client_secret" || lower(key) == "key_shares"
  }

  predicate PublicKey(key: string) {
    Marked(key, "_.:@/-", 500)
  }

  /** At most 500 characters, none of them a control character. */
  predicate PlainKey(key: string) {
    |key| <= 500 && forall i :: 0 <= i < |key| ==> key[i] as int >= 32
  }

  /** What an authentication response may contain outside members that are dropped. */
  predicate AuthFits(v: Value, depth: nat) {
    && depth <= 8
    && match v
       case Obj(members) =>
         && |members| <= 1000
         && (forall i :: 0 <= i < |members| ==>
               && members[i].key.Text? && PublicKey(members[i].key.text)
               && (AuthMaterial(members[i].key.text) || AuthFits(members[i].value, depth + 1)))
       case Arr(items) => |items| <= 256 && (forall i :: 0 <= i < |items| ==> AuthFits(items[i], depth + 1))
       case Str(s) => |s| <= 20000 && forall i :: 0 <= i < |s| ==> s[i] as int >= 32 || s[i] as int in {9, 10, 13}
       case Number(_, floating, _) => !floating
       case Null => true
       case Bool(_) => true
       case Alien(_) => false
  }

  /** The same for an access-control response. */
  predicate AccessFits(v: Value, material: bool, lower: string -> string, depth: nat) {
    && depth <= 10
    && match v
       case Obj(members) =>
         && |members| <= 1000
         && (forall i {:trigger MemberAccess(members[i], material, lower, depth + 1)} :: 0 <= i < |members| ==>
               MemberAccess(members[i], material, lower, depth + 1))
       case Arr(items) =>
         |items| <= 1000 && (forall i :: 0 <= i < |items| ==> AccessFits(items[i], material, lower, depth + 1))
       case Str(s) => |s| <= 256000 && forall i :: 0 <= i < |s| ==> s[i] as int != 0
       case Number(_, floating, finite) => floating ==> finite
       case Null => true
       case Bool(_) => true
       case Alien(_) => false
  }

  predicate MemberAccess(m: Member, material: bool, lower: string -> string, depth: nat) {
    && m.key.Text? && PlainKey(m.key.text)
    && ((!material && AccessMaterial(m.key.text, lower)) || AccessFits(m.value, material, lower, depth))
  }

  /** The data object of a response: what `data` names, or the response itself without such a key. */
  ghost predicate IsData(v: Value, data: Value) {
    && v.Obj?
    && ((data.Obj? && Gives(v.members, "data", data))
        || (data == v && forall i :: 0 <= i < |v.members| ==> v.members[i].key != Text("data")))
  }

  lemma AuthHides(key: string)
    ensures AuthRules().hidden(key) <==> AuthMaterial(key)
  {
    LowerIsUpToCase(key, MATERIAL_KEYS);
  }

  lemma LowerIsUpToCase(key: string, names: set<string>)
    ensures Lower(key) in names <==> OneOf(key, names)
  {
    if OneOf(key, names) {
      var name :| name in names && UpToCase(key, name);
      assert Lower(key) == name;
    }
    if Lower(key) in names {
      assert UpToCase(key, Lower(key));
    }
  }

  lemma AuthKeys(key: string)
    ensures AuthRules().keyOK(key) <==> PublicKey(key)
  {
    IdentifierIff(key, {'_', '.', ':', '@', '/', '-'}, "_.:@/-", 500);
  }

  lemma {:induction false} AuthFitsIff(v: Value, depth: nat)
    ensures Fits(AuthRules(), v, depth) <==> AuthFits(v, depth)
  {
    match v {
      case Obj(members) =>
        forall i | 0 <= i < |members| && members[i].key.Text?
          ensures AuthRules().keyOK(members[i].key.text) <==> PublicKey(members[i].key.text)
          ensures AuthRules().hidden(members[i].key.text) <==> AuthMaterial(members[i].key.text)
          ensures Fits(AuthRules(), members[i].value, depth + 1) <==> AuthFits(members[i].value, depth + 1)
        {
          AuthKeys(members[i].key.text);
          AuthHides(members[i].key.text);
          MemberAuthFits(members[i], depth + 1);
        }
      case Arr(items) =>
        forall i | 0 <= i < |items|
          ensures Fits(AuthRules(), items[i], depth + 1) <==> AuthFits(items[i], depth + 1)
        {
          AuthFitsIff(items[i], depth + 1);
        }
      case _ =>
    }
  }

  lemma {:induction false} MemberAuthFits(m: Member, depth: nat)
    ensures Fits(AuthRules(), m.value, depth) <==> AuthFits(m.value, depth)
  {
    AuthFitsIff(m.value, depth);
  }

  lemma {:induction false} AccessFitsIff(r: Rules, v: Value, material: bool, lower: string -> string, depth: nat)
    requires r == AccessRules(material, lower)
    ensures Fits(r, v, depth) <==> AccessFits(v, material, lower, depth)
  {
    match v {
      case Obj(members) =>
        forall i | 0 <= i < |members|
          ensures MemberFits(r, members[i], depth + 1) <==> MemberAccess(members[i], material, lower, depth + 1)
        {
          MemberAccessFits(r, members[i], material, lower, depth + 1);
        }
        FitsMembers(r, members, depth);
      case Arr(items) =>
        forall i | 0 <= i < |items|
          ensures Fits(r, items[i], depth + 1) <==> AccessFits(items[i], material, lower, depth + 1)
        {
          AccessFitsIff(r, items[i], material, lower, depth + 1);
        }
      case _ =>
    }
  }

  lemma {:induction false} MemberAccessFits(r: Rules, m: Member, material: bool, lower: string -> string, depth: nat)
    requires r == AccessRules(material, lower)
    ensures MemberFits(r, m, depth) <==> MemberAccess(m, material, lower, depth)
  {
    AccessFitsIff(r, m.value, material, lower, depth);
  }

  lemma FitsMembers(r: Rules, members: seq<Member>, depth: nat)
    ensures Fits(r, Obj(members), depth)
       <==> depth <= r.maxDepth && |members| <= r.maxFields
            && forall i {:trigger members[i]} :: 0 <= i < |members| ==> MemberFits(r, members[i], depth + 1)
  {
  }

  /** Two tests that agree on every key drop the same members. */
  lemma {:induction false} SameDrops(hidden: string -> bool, other: string -> bool, v: Value)
    requires forall key :: hidden(key) == other(key)
    ensures Strip(hidden, v) == Strip(other, v) && (Bare(hidden, v) <==> Bare(other, v))
  {
    match v {
      case Obj(members) => SameDropsAll(hidden, other, members);
      case Arr(items) =>
        forall i | 0 <= i < |items|
          ensures Strip(hidden, items[i]) == Strip(other, items[i])
                  && (Bare(hidden, items[i]) <==> Bare(other, items[i]))
        {
          SameDrops(hidden, other, items[i]);
        }
        assert StripItems(hidden, items) == StripItems(other, items);
      case _ =>
    }
  }

  lemma {:induction false} SameDropsMember(hidden: string -> bool, other: string -> bool, m: Member)
    requires forall key :: hidden(key) == other(key)
    ensures Strip(hidden, m.value) == Strip(other, m.value) && (Bare(hidden, m.value) <==> Bare(other, m.value))
  {
    SameDrops(hidden, other, m.value);
  }

  lemma {:induction false} SameDropsAll(hidden: string -> bool, other: string -> bool, members: seq<Member>)
    requires forall key :: hidden(key) == other(key)
    ensures StripMembers(hidden, members) == StripMembers(other, members)
    ensures forall i :: 0 <= i < |members| ==> (Bare(hidden, members[i].value) <==> Bare(other, members[i].value))
  {
    if members != [] {
      SameDropsMember(hidden, other, members[0]);
      SameDropsAll(hidden, other, members[1..]);
      assert forall i :: 0 < i < |members| ==> members[i] == members[1..][i - 1];
    }
  }

  lemma {:induction false} SameAlike(hidden: string -> bool, other: string -> bool, v: Value, w: Value)
    requires forall key :: hidden(key) == other(key)
    requires Alike(hidden, v, w)
    ensures Alike(other, v, w)
  {
    match (v, w) {
      case (Obj(a), Obj(b)) =>
        forall i | 0 <= i < |a| && !Hides(hidden, a[i])
          ensures Alike(other, a[i].value, b[i].value)
        {
          SameAlikeMember(hidden, other, a[i], b[i]);
        }
      case (Arr(a), Arr(b)) =>
        forall i | 0 <= i < |a|
          ensures Alike(other, a[i], b[i])
        {
          SameAlike(hidden, other, a[i], b[i]);
        }
      case _ =>
    }
  }

  lemma {:induction false} SameAlikeMember(hidden: string -> bool, other: string -> bool, m: Member, n: Member)
    requires forall key :: hidden(key) == other(key)
    requires Alike(hidden, m.value, n.value)
    ensures Alike(other, m.value, n.value)
  {
    SameAlike(hidden, other, m.value, n.value);
  }

  lemma DataIsData(v: Value, data: Value)
    ensures ResponseData(v) == Some(data) <==> IsData(v, data)
  {
    if v.Obj? {
      GetFinds(v.members, "data", data);
      if Get(v.members, "data").Some? {
        GetFinds(v.members, "data", Get(v.members, "data").value);
      } else {
        GetMisses(v.members, "data");
      }
    }
  }

  /**
   * An authentication response is published exactly if its data object fits the
   * bounds, and then as that object with precisely the members dropped, at every
   * depth, whose key is a material name up to ASCII case.
   */
  lemma PublicAuthIs(v: Value, out: Value)
    ensures PublicAuth(v) == Some(out)
       <==> exists data :: IsData(v, data) && AuthFits(data, 0) && out == Strip(AuthMaterial, data)
  {
    var r := AuthRules();
    forall key
      ensures r.hidden(key) == AuthMaterial(key)
    {
      AuthHides(key);
    }
    forall data
      ensures ResponseData(v) == Some(data) <==> IsData(v, data)
    {
      DataIsData(v, data);
    }
    if ResponseData(v).Some? {
      var data := ResponseData(v).value;
      CleanIsStrip(r, data, 0);
      AuthFitsIff(data, 0);
      SameDrops(r.hidden, AuthMaterial, data);
    }
  }

  /** The test an access-control response is redacted by. */
  function HiddenKeys(lower: string -> string): string -> bool {
    (key: string) => AccessMaterial(key, lower)
  }

  /**
   * An access-control response is published exactly if it is an object within
   * the bounds: with material as it is, otherwise without precisely the members,
   * at every depth, whose lower-cased key is a material name.
   */
  lemma AccessResponseIs(v: Value, material: bool, lower: string -> string)
    ensures AccessResponse(v, material, lower)
         == if !v.Obj? || !AccessFits(v, material, lower, 0) then None
            else Some(if material then v else Strip(HiddenKeys(lower), v))
  {
    var r := AccessRules(material, lower);
    CleanIsStrip(r, v, 0);
    AccessFitsIff(r, v, material, lower, 0);
    if material {
      SameDrops(r.hidden, (key: string) => false, v);
      NothingHidden(v);
    } else {
      SameDrops(r.hidden, HiddenKeys(lower), v);
    }
  }

  lemma {:induction false} NothingHidden(v: Value)
    ensures Bare((key: string) => false, v) && Strip((key: string) => false, v) == v
  {
    var none := (key: string) => false;
    match v {
      case Obj(members) =>
        forall i | 0 <= i < |members|
          ensures Bare(none, members[i].value)
        {
          MemberNotHidden(members[i]);
        }
      case Arr(items) =>
        forall i | 0 <= i < |items|
          ensures Bare(none, items[i])
        {
          NothingHidden(items[i]);
        }
      case _ =>
    }
    BareIsFixed(none, v);
  }

  lemma {:induction false} MemberNotHidden(m: Member)
    ensures Bare((key: string) => false, m.value)
  {
    NothingHidden(m.value);
  }

  /**
   * Access responses: values under keys whose lower-casing is a material name do
   * not leak, no such key survives at any depth, and a second pass changes nothing.
   */
  lemma AccessRedacts(v: Value, w: Value, lower: string -> string)
    ensures Alike(HiddenKeys(lower), v, w) ==> AccessResponse(v, false, lower) == AccessResponse(w, false, lower)
    ensures AccessResponse(v, false, lower).Some? ==>
      var out := AccessResponse(v, false, lower).value;
      Bare(HiddenKeys(lower), out) && AccessResponse(out, false, lower) == Some(out)
  {
    var r := AccessRules(false, lower);
    if Alike(HiddenKeys(lower), v, w) {
      SameAlike(HiddenKeys(lower), r.hidden, v, w);
      NonInterference(r, v, w, 0);
    }
    if AccessResponse(v, false, lower).Some? {
      OutputIsSettled(r, v, 0);
      SameDrops(r.hidden, HiddenKeys(lower), AccessResponse(v, false, lower).value);
    }
  }

  lemma {:induction false} GetAlike(hidden: string -> bool, a: seq<Member>, b: seq<Member>, key: string)
    requires !hidden(key) && |a| == |b|
    requires forall i :: 0 <= i < |a| ==>
               a[i].key == b[i].key && (Hides(hidden, a[i]) || Alike(hidden, a[i].value, b[i].value))
    ensures Get(a, key).None? <==> Get(b, key).None?
    ensures Get(a, key).Some? ==> Alike(hidden, Get(a, key).value, Get(b, key).value)
  {
    if a != [] && a[0].key != Text(key) {
      GetAlike(hidden, a[1..], b[1..], key);
    }
  }

  lemma DataIsPublic()
    ensures !AuthRules().hidden("data")
  {
    assert Lower("data") == "data";
    assert "data" !in MATERIAL_KEYS;
  }

  /**
   * Authentication responses: values under keys that are a material name up to
   * ASCII case do not leak, and no such key survives at any depth.
   */
  lemma AuthRedacts(v: Value, w: Value)
    ensures Alike(AuthMaterial, v, w) ==> PublicAuth(v) == PublicAuth(w)
    ensures PublicAuth(v).Some? ==> Bare(AuthMaterial, PublicAuth(v).value)
  {
    var r := AuthRules();
    DataIsPublic();
    forall key
      ensures r.hidden(key) == AuthMaterial(key)
    {
      AuthHides(key);
    }
    if Alike(AuthMaterial, v, w) && v.Obj? {
      SameAlike(AuthMaterial, r.hidden, v, w);
      GetAlike(r.hidden, v.members, w.members, "data");
      if ResponseData(v).Some? {
        NonInterference(r, ResponseData(v).value, ResponseData(w).value, 0);
      }
    }
    if PublicAuth(v).Some? {
      OutputIsSettled(r, ResponseData(v).value, 0);
      SameDrops(r.hidden, AuthMaterial, PublicAuth(v).value);
    }
  }

  lemma {:induction false} GetStripped(hidden: string -> bool, members: seq<Member>, key: string)
    requires !hidden(key)
    ensures Get(StripMembers(hidden, members), key)
         == if Get(members, key).Some? then Some(Strip(hidden, Get(members, key).value)) else None
  {
    if members != [] {
      GetStripped(hidden, members[1..], key);
      var rest := StripMembers(hidden, members[1..]);
      if !Hides(hidden, members[0]) {
        assert StripMembers(hidden, members) == [StripMember(hidden, members[0])] + rest;
      } else {
        assert StripMembers(hidden, members) == [] + rest == rest;
      }
    }
  }

  lemma {:induction false} GetSmaller(members: seq<Member>, key: string)
    requires Get(members, key).Some?
    ensures Validators.Total(Get(members, key).value, Validators.One)
            <= Validators.TotalMembers(members, Validators.One)
  {
    if members[0].key != Text(key) {
      GetSmaller(members[1..], key);
    }
  }

  /**
   * Publishing an authentication response twice returns the same result if and
   * only if the response's data object has no `data` key of its own; with one,
   * the second pass descends into it and drops everything beside it.
   */
  lemma AuthTwiceIff(v: Value)
    requires PublicAuth(v).Some?
    ensures PublicAuth(PublicAuth(v).value) == PublicAuth(v) <==> Get(ResponseData(v).value.members, "data").None?
  {
    var r := AuthRules();
    var data := ResponseData(v).value;
    CleanIsStrip(r, data, 0);
    OutputIsSettled(r, data, 0);
    var out := PublicAuth(v).value;
    DataIsPublic();
    GetStripped(r.hidden, data.members, "data");
    var inner := Get(out.members, "data");
    if inner.Some? && inner.value.Obj? {
      GetSmaller(out.members, "data");
      CleanIsStrip(r, inner.value, 0);
      StripIsBare(r.hidden, Get(data.members, "data").value);
      BareIsFixed(r.hidden, inner.value);
      assert inner.value != out;
    }
  }

  /** A response whose second publication differs from its first. */
  lemma AuthTwiceDiffers()
    ensures var v := Obj([Member(Text("data"), Obj([Member(Text("data"), Obj([]))]))]);
            PublicAuth(v).Some? && PublicAuth(PublicAuth(v).value) != PublicAuth(v)
  {
    var inner := Obj([Member(Text("data"), Obj([]))]);
    var v := Obj([Member(Text("data"), inner)]);
    var r := AuthRules();
    assert ResponseData(v) == Some(inner);
    DataIsPublic();
    assert Fits(r, Obj([]), 1);
    assert Fits(r, inner, 0);
    CleanIsStrip(r, inner, 0);
    AuthTwiceIff(v);
  }
}
