/**
 * The two JSON validators of the administration plane: the wrapping validator,
 * an explicit stack with a running member count, and the bounded validator, a
 * recursion that threads mutable counters. Both refuse early; both are shown to
 * accept exactly the trees of a whole-tree specification.
 */
module Validators {
  import opened Prelude
  import opened Json

  // ------------------------------------------------------------------
  // Totals over a tree
  // ------------------------------------------------------------------

  /** The sum of a weight over every value of a tree. */
  function Total(v: Value, weight: Value -> nat): nat {
    weight(v) + match v
                case Arr(items) => TotalItems(items, weight)
                case Obj(members) => TotalMembers(members, weight)
                case _ => 0
  }

  function TotalItems(items: seq<Value>, weight: Value -> nat): nat {
    if items == [] then 0 else Total(items[0], weight) + TotalItems(items[1..], weight)
  }

  function TotalMember(m: Member, weight: Value -> nat): nat {
    Total(m.value, weight)
  }

  function TotalMembers(members: seq<Member>, weight: Value -> nat): nat {
    if members == [] then 0 else TotalMember(members[0], weight) + TotalMembers(members[1..], weight)
  }

  function Children(v: Value): seq<Value> {
    match v
    case Arr(items) => items
    case Obj(members) => seq(|members|, (i: nat) requires i < |members| => members[i].value)
    case _ => []
  }

  function ChildCount(v: Value): nat { |Children(v)| }

  function FieldCount(v: Value): nat { if v.Obj? then |v.members| else 0 }

  function ItemCount(v: Value): nat { if v.Arr? then |v.items| else 0 }

  function KeyBytes(members: seq<Member>): nat {
    if members == [] then 0
    else (if members[0].key.Text? then Bytes(members[0].key.text) else 0) + KeyBytes(members[1..])
  }

  /** UTF-8 bytes of a string, or of an object's own keys. */
  function TextBytes(v: Value): nat {
    match v
    case Str(s) => Bytes(s)
    case Obj(members) => KeyBytes(members)
    case _ => 0
  }

  lemma {:induction false} ChildrenTotal(members: seq<Member>, weight: Value -> nat)
    ensures TotalItems(Children(Obj(members)), weight) == TotalMembers(members, weight)
    decreases |members|
  {
    if members != [] {
      ChildrenTotal(members[1..], weight);
      assert Children(Obj(members))[1..] == Children(Obj(members[1..]));
    }
  }

  // ------------------------------------------------------------------
  // The wrapping validator
  // ------------------------------------------------------------------

  const MAX_WRAPPING_BYTES := 256000
  const MAX_WRAPPING_DEPTH := 12
  const MAX_WRAPPING_MEMBERS := 2000
  const MAX_WRAPPING_STRING := 100000

  predicate WrappingText(s: string) {
    |s| <= MAX_WRAPPING_STRING && (forall i :: 0 <= i < |s| ==> s[i] as int >= 32)
  }

  predicate WrappingScalar(v: Value) {
    match v
    case Str(s) => WrappingText(s)
    case Number(_, floating, finite) => floating ==> finite
    case Alien(_) => false
    case _ => true
  }

  predicate WrappingKeys(members: seq<Member>) {
    forall i :: 0 <= i < |members| ==> members[i].key.Text? && WrappingText(members[i].key.text)
  }

  /** Depth, key and scalar rules, for a value at a depth and everything under it. */
  predicate Sound(v: Value, depth: nat) {
    && depth <= MAX_WRAPPING_DEPTH && WrappingScalar(v)
    && match v
       case Arr(items) => forall i :: 0 <= i < |items| ==> Sound(items[i], depth + 1)
       case Obj(members) =>
         WrappingKeys(members) && (forall i :: 0 <= i < |members| ==> Sound(members[i].value, depth + 1))
       case _ => true
  }

  // ------------------------------------------------------------------
  // Every value of a tree
  // ------------------------------------------------------------------

  /** The value `x` occurs at depth `d` in a tree that starts at this depth. */
  ghost predicate Occurs(v: Value, depth: nat, x: Value, d: nat) {
    || (x == v && d == depth)
    || match v
       case Arr(items) => exists i :: 0 <= i < |items| && Occurs(items[i], depth + 1, x, d)
       case Obj(members) => exists i :: 0 <= i < |members| && Occurs(members[i].value, depth + 1, x, d)
       case _ => false
  }

  /** Short, and without control characters. */
  predicate PlainText(s: string) {
    |s| <= 100000 && forall i :: 0 <= i < |s| ==> s[i] as int >= 32
  }

  /** What wrapping data may have anywhere. */
  predicate WrappingNode(x: Value) {
    match x
    case Str(s) => PlainText(s)
    case Number(_, floating, finite) => floating ==> finite
    case Obj(members) => forall i :: 0 <= i < |members| ==> members[i].key.Text? && PlainText(members[i].key.text)
    case Alien(_) => false
    case _ => true
  }

  /** No value is nested deeper, and each is acceptable in itself. */
  ghost predicate EachWrapping(v: Value, depth: nat) {
    forall x, d :: Occurs(v, depth, x, d) ==> d <= 12 && WrappingNode(x)
  }

  lemma NodeIff(x: Value)
    ensures WrappingNode(x) <==> WrappingScalar(x) && (x.Obj? ==> WrappingKeys(x.members))
  {
    assert forall s :: PlainText(s) <==> WrappingText(s);
  }

  lemma {:induction false} SoundOccurs(v: Value, depth: nat, x: Value, d: nat)
    requires Sound(v, depth) && Occurs(v, depth, x, d)
    ensures d <= 12 && WrappingNode(x)
  {
    if x == v && d == depth {
      NodeIff(x);
    } else {
      match v
      case Arr(items) =>
        var i :| 0 <= i < |items| && Occurs(items[i], depth + 1, x, d);
        SoundOccurs(items[i], depth + 1, x, d);
      case Obj(members) =>
        var i :| 0 <= i < |members| && Occurs(members[i].value, depth + 1, x, d);
        SoundMember(members[i], depth + 1, x, d);
    }
  }

  lemma {:induction false} SoundMember(m: Member, depth: nat, x: Value, d: nat)
    requires Sound(m.value, depth) && Occurs(m.value, depth, x, d)
    ensures d <= 12 && WrappingNode(x)
  {
    SoundOccurs(m.value, depth, x, d);
  }

  lemma {:induction false} EachIsSound(v: Value, depth: nat)
    requires EachWrapping(v, depth)
    ensures Sound(v, depth)
  {
    assert Occurs(v, depth, v, depth);
    NodeIff(v);
    match v {
      case Arr(items) =>
        forall i | 0 <= i < |items|
          ensures Sound(items[i], depth + 1)
        {
          var next := depth + 1;
          forall x, d | Occurs(items[i], next, x, d)
            ensures d <= 12 && WrappingNode(x)
          {
            assert Occurs(v, depth, x, d);
          }
          EachIsSound(items[i], depth + 1);
        }
      case Obj(members) =>
        forall i | 0 <= i < |members|
          ensures Sound(members[i].value, depth + 1)
        {
          var next := depth + 1;
          forall x, d | Occurs(members[i].value, next, x, d)
            ensures d <= 12 && WrappingNode(x)
          {
            assert Occurs(v, depth, x, d);
          }
          EachMemberSound(members[i], depth + 1);
        }
      case _ =>
    }
  }

  lemma {:induction false} EachMemberSound(m: Member, depth: nat)
    requires EachWrapping(m.value, depth)
    ensures Sound(m.value, depth)
  {
    EachIsSound(m.value, depth);
  }

  /** The rules hold of a tree exactly if they hold of every value in it. */
  lemma SoundIff(v: Value)
    ensures Sound(v, 0) <==> EachWrapping(v, 0)
  {
    if Sound(v, 0) {
      forall x, d | Occurs(v, 0, x, d)
        ensures d <= 12 && WrappingNode(x)
      {
        SoundOccurs(v, 0, x, d);
      }
    }
    if EachWrapping(v, 0) {
      EachIsSound(v, 0);
    }
  }

  /** The whole-tree specification. */
  predicate WrappingAccepts(v: Value) {
    && v.Obj? && Sound(v, 0) && Total(v, ChildCount) <= MAX_WRAPPING_MEMBERS
    && Encode(v, false).Some? && Bytes(Encode(v, false).value) <= MAX_WRAPPING_BYTES
  }

  datatype Item = Item(value: Value, depth: nat)

  function Items(vs: seq<Value>, depth: nat): seq<Item> {
    seq(|vs|, (i: nat) requires i < |vs| => Item(vs[i], depth))
  }

  function Stacked(pending: seq<Item>, weight: Value -> nat): nat {
    if pending == [] then 0
    else Stacked(pending[..|pending| - 1], weight) + Total(pending[|pending| - 1].value, weight)
  }

  predicate AllSound(pending: seq<Item>) {
    forall i :: 0 <= i < |pending| ==> Sound(pending[i].value, pending[i].depth)
  }

  lemma {:induction false} StackedItems(below: seq<Item>, vs: seq<Value>, depth: nat, weight: Value -> nat)
    ensures Stacked(below + Items(vs, depth), weight) == Stacked(below, weight) + TotalItems(vs, weight)
    decreases |vs|
  {
    if vs == [] {
      assert below + Items(vs, depth) == below;
    } else {
      var next := below + [Item(vs[0], depth)];
      assert below + Items(vs, depth) == next + Items(vs[1..], depth);
      StackedItems(next, vs[1..], depth, weight);
      assert next[..|next| - 1] == below;
    }
  }

  /** Replacing a value on the stack by its children takes away exactly its own weight. */
  lemma PopWeight(below: seq<Item>, top: Item, weight: Value -> nat)
    ensures Stacked(below + [top], weight)
            == Stacked(below + Items(Children(top.value), top.depth + 1), weight) + weight(top.value)
  {
    assert (below + [top])[..|below|] == below;
    StackedItems(below, Children(top.value), top.depth + 1, weight);
    if top.value.Obj? {
      ChildrenTotal(top.value.members, weight);
    } else if !top.value.Arr? {
      assert Children(top.value) == [];
    }
  }

  lemma SoundKids(v: Value, depth: nat)
    requires depth <= MAX_WRAPPING_DEPTH && WrappingScalar(v) && (v.Obj? ==> WrappingKeys(v.members))
    ensures Sound(v, depth) <==> (forall i :: 0 <= i < |Children(v)| ==> Sound(Children(v)[i], depth + 1))
  {
    match v {
      case Obj(members) =>
        assert forall i :: 0 <= i < |members| ==> Children(v)[i] == members[i].value;
        if forall i :: 0 <= i < |Children(v)| ==> Sound(Children(v)[i], depth + 1) {
          forall i | 0 <= i < |members|
            ensures Sound(members[i].value, depth + 1)
          {
            assert Sound(Children(v)[i], depth + 1);
          }
        }
      case Arr(items) => assert Children(v) == items;
      case _ =>
    }
  }

  lemma PopSound(below: seq<Item>, top: Item)
    requires top.depth <= MAX_WRAPPING_DEPTH && WrappingScalar(top.value)
    requires top.value.Obj? ==> WrappingKeys(top.value.members)
    ensures AllSound(below + [top]) <==> AllSound(below + Items(Children(top.value), top.depth + 1))
  {
    var kids := Children(top.value);
    var next := below + Items(kids, top.depth + 1);
    SoundKids(top.value, top.depth);
    if AllSound(below + [top]) {
      assert (below + [top])[|below|] == top;
      forall i | 0 <= i < |next|
        ensures Sound(next[i].value, next[i].depth)
      {
        assert i < |below| ==> (below + [top])[i] == next[i];
        assert i >= |below| ==> next[i] == Item(kids[i - |below|], top.depth + 1);
      }
    }
    if AllSound(next) {
      forall i | 0 <= i < |kids|
        ensures Sound(kids[i], top.depth + 1)
      {
        assert next[|below| + i] == Item(kids[i], top.depth + 1);
      }
      forall i | 0 <= i < |below + [top]|
        ensures Sound((below + [top])[i].value, (below + [top])[i].depth)
      {
        assert i < |below| ==> (below + [top])[i] == next[i];
      }
    }
  }

  method WrappingChildren(item: Value) returns (r: Option<seq<Value>>)
    ensures r.Some? <==> (item.Obj? ==> WrappingKeys(item.members))
    ensures r.Some? ==> r.value == Children(item)
  {
    if !item.Obj? {
      return Some(Children(item));
    }
    var children: seq<Value> := [];
    for i := 0 to |item.members|
      invariant WrappingKeys(item.members[..i]) && |children| == i
      invariant forall j :: 0 <= j < i ==> children[j] == item.members[j].value
    {
      var m := item.members[i];
      if !m.key.Text? || !WrappingText(m.key.text) {
        return None;
      }
      children := children + [m.value];
    }
    assert children == Children(item);
    return Some(children);
  }

  ghost predicate Hopeful(pending: seq<Item>, members: nat) {
    AllSound(pending) && members + Stacked(pending, ChildCount) <= MAX_WRAPPING_MEMBERS
  }

  /** A refused value decides the whole tree. */
  lemma Refused(below: seq<Item>, top: Item, members: nat)
    requires !Sound(top.value, top.depth) || members + ChildCount(top.value) > MAX_WRAPPING_MEMBERS
    ensures !Hopeful(below + [top], members)
  {
    assert (below + [top])[|below|] == top && (below + [top])[..|below|] == below;
  }

  lemma Continued(below: seq<Item>, top: Item, members: nat)
    requires top.depth <= MAX_WRAPPING_DEPTH && WrappingScalar(top.value)
    requires top.value.Obj? ==> WrappingKeys(top.value.members)
    ensures Hopeful(below + [top], members)
       <==> Hopeful(below + Items(Children(top.value), top.depth + 1), members + ChildCount(top.value))
  {
    PopSound(below, top);
    PopWeight(below, top, ChildCount);
  }

  function One(v: Value): nat { 1 }

  method CheckItem(top: Item, members: nat) returns (r: Option<seq<Value>>)
    ensures r.None? ==> !Sound(top.value, top.depth) || members + ChildCount(top.value) > MAX_WRAPPING_MEMBERS
    ensures r.Some? ==>
      && r.value == Children(top.value) && members + |r.value| <= MAX_WRAPPING_MEMBERS
      && top.depth <= MAX_WRAPPING_DEPTH && WrappingScalar(top.value)
      && (top.value.Obj? ==> WrappingKeys(top.value.members))
  {
    if top.depth > MAX_WRAPPING_DEPTH {
      return None;
    }
    r := WrappingChildren(top.value);
    if r.None? || members + |r.value| > MAX_WRAPPING_MEMBERS || !WrappingScalar(top.value) {
      return None;
    }
  }

  method ValidateWrappingJson(value: Value) returns (r: Option<Value>)
    ensures r.Some? <==> WrappingAccepts(value)
    ensures r.Some? <==>
      && value.Obj? && EachWrapping(value, 0) && Total(value, ChildCount) <= 2000
      && Encode(value, false).Some? && Bytes(Encode(value, false).value) <= 256000
    ensures r.Some? ==> r.value == value
  {
    SoundIff(value);
    if !value.Obj? {
      return None;
    }
    var members: nat := 0;
    var pending := [Item(value, 0)];
    StartHopeful(value);
    while pending != []
      invariant members <= MAX_WRAPPING_MEMBERS
      invariant Hopeful(pending, members) <==> Sound(value, 0) && Total(value, ChildCount) <= MAX_WRAPPING_MEMBERS
      decreases Stacked(pending, One)
    {
      var below, top := pending[..|pending| - 1], pending[|pending| - 1];
      assert pending == below + [top];
      var children := CheckItem(top, members);
      if children.None? {
        Refused(below, top, members);
        return None;
      }
      Continued(below, top, members);
      PopWeight(below, top, One);
      members := members + |children.value|;
      pending := below + Items(children.value, top.depth + 1);
    }
    SoundEncodes(value, 0);
    if Bytes(Encode(value, false).value) > MAX_WRAPPING_BYTES {
      return None;
    }
    return Some(value);
  }

  lemma StartHopeful(v: Value)
    ensures Hopeful([Item(v, 0)], 0) <==> Sound(v, 0) && Total(v, ChildCount) <= MAX_WRAPPING_MEMBERS
  {
    assert [Item(v, 0)][..0] == [];
    assert Stacked([Item(v, 0)], ChildCount) == Stacked([], ChildCount) + Total(v, ChildCount);
    if Sound(v, 0) {
      assert AllSound([Item(v, 0)]);
    }
    if AllSound([Item(v, 0)]) {
      assert [Item(v, 0)][0] == Item(v, 0);
    }
  }

  /** After the walk the encoder has nothing left to refuse. */
  lemma {:induction false} SoundEncodes(v: Value, depth: nat)
    requires Sound(v, depth)
    ensures Encode(v, false).Some?
  {
    match v
    case Arr(items) => SoundItemsEncode(items, depth + 1);
    case Obj(members) => SoundMembersEncode(members, depth + 1);
    case _ =>
  }

  lemma {:induction false} SoundItemsEncode(items: seq<Value>, depth: nat)
    requires forall i :: 0 <= i < |items| ==> Sound(items[i], depth)
    ensures EncodeItems(items, false).Some?
  {
    if items != [] {
      SoundEncodes(items[0], depth);
      SoundItemsEncode(items[1..], depth);
    }
  }

  lemma {:induction false} SoundMemberEncodes(m: Member, depth: nat)
    requires m.key.Text? && Sound(m.value, depth)
    ensures EncodeMember(m, false).Some?
  {
    SoundEncodes(m.value, depth);
  }

  lemma {:induction false} SoundMembersEncode(members: seq<Member>, depth: nat)
    requires WrappingKeys(members) && (forall i :: 0 <= i < |members| ==> Sound(members[i].value, depth))
    ensures EncodeMembers(members, false).Some?
  {
    if members != [] {
      SoundMemberEncodes(members[0], depth);
      SoundMembersEncode(members[1..], depth);
    }
  }

  // ------------------------------------------------------------------
  // The bounded validator
  // ------------------------------------------------------------------

  const MAX_REQUEST_BYTES := 1000000
  const MAX_VALUE_DEPTH := 20
  const MAX_VALUE_FIELDS := 2000
  const MAX_VALUE_ITEMS := 2000
  const MAX_VALUE_STRING := 100000

  predicate SafeKey(k: Key) {
    k.Text? && Identifier(k.text, {'_', '.', ':', '@', '/', '-'}, 500)
  }

  predicate BoundedScalar(v: Value) {
    match v
    case Str(s) => |s| <= MAX_VALUE_STRING && (forall i :: 0 <= i < |s| ==> s[i] as int != 0)
    case Number(_, floating, finite) => floating ==> finite
    case Alien(_) => false
    case _ => true
  }

  /** Depth, key and scalar rules of the bounded validator. */
  predicate Shaped(v: Value, depth: nat) {
    && depth <= MAX_VALUE_DEPTH && BoundedScalar(v)
    && match v
       case Arr(items) => forall i :: 0 <= i < |items| ==> Shaped(items[i], depth + 1)
       case Obj(members) =>
         forall i :: 0 <= i < |members| ==> SafeKey(members[i].key) && Shaped(members[i].value, depth + 1)
       case _ => true
  }

  predicate Declared(members: seq<Member>, allowed: Option<set<string>>) {
    allowed.Some? ==> forall i :: 0 <= i < |members| ==> members[i].key.Text? && members[i].key.text in allowed.value
  }

  /** What a request body may have anywhere. */
  predicate BoundedNode(x: Value) {
    match x
    case Str(s) => |s| <= 100000 && forall i :: 0 <= i < |s| ==> s[i] as int != 0
    case Number(_, floating, finite) => floating ==> finite
    case Obj(members) =>
      forall i :: 0 <= i < |members| ==> members[i].key.Text? && Marked(members[i].key.text, "_.:@/-", 500)
    case Alien(_) => false
    case _ => true
  }

  ghost predicate EachBounded(v: Value, depth: nat) {
    forall x, d :: Occurs(v, depth, x, d) ==> d <= 20 && BoundedNode(x)
  }

  lemma BoundedIff(x: Value)
    ensures BoundedNode(x) <==>
      BoundedScalar(x) && (x.Obj? ==> forall i :: 0 <= i < |x.members| ==> SafeKey(x.members[i].key))
  {
    if x.Obj? {
      forall i | 0 <= i < |x.members| && x.members[i].key.Text?
        ensures SafeKey(x.members[i].key) <==> Marked(x.members[i].key.text, "_.:@/-", 500)
      {
        IdentifierIff(x.members[i].key.text, {'_', '.', ':', '@', '/', '-'}, "_.:@/-", 500);
      }
    }
  }

  lemma {:induction false} ShapedOccurs(v: Value, depth: nat, x: Value, d: nat)
    requires Shaped(v, depth) && Occurs(v, depth, x, d)
    ensures d <= 20 && BoundedNode(x)
  {
    if x == v && d == depth {
      BoundedIff(x);
    } else {
      match v
      case Arr(items) =>
        var i :| 0 <= i < |items| && Occurs(items[i], depth + 1, x, d);
        ShapedOccurs(items[i], depth + 1, x, d);
      case Obj(members) =>
        var i :| 0 <= i < |members| && Occurs(members[i].value, depth + 1, x, d);
        ShapedMember(members[i], depth + 1, x, d);
    }
  }

  lemma {:induction false} ShapedMember(m: Member, depth: nat, x: Value, d: nat)
    requires Shaped(m.value, depth) && Occurs(m.value, depth, x, d)
    ensures d <= 20 && BoundedNode(x)
  {
    ShapedOccurs(m.value, depth, x, d);
  }

  lemma {:induction false} EachIsShaped(v: Value, depth: nat)
    requires EachBounded(v, depth)
    ensures Shaped(v, depth)
  {
    assert Occurs(v, depth, v, depth);
    BoundedIff(v);
    match v {
      case Arr(items) =>
        forall i | 0 <= i < |items|
          ensures Shaped(items[i], depth + 1)
        {
          var next := depth + 1;
          forall x, d | Occurs(items[i], next, x, d)
            ensures d <= 20 && BoundedNode(x)
          {
            assert Occurs(v, depth, x, d);
          }
          EachIsShaped(items[i], depth + 1);
        }
      case Obj(members) =>
        forall i | 0 <= i < |members|
          ensures Shaped(members[i].value, depth + 1)
        {
          var next := depth + 1;
          forall x, d | Occurs(members[i].value, next, x, d)
            ensures d <= 20 && BoundedNode(x)
          {
            assert Occurs(v, depth, x, d);
          }
          EachMemberShaped(members[i], depth + 1);
        }
      case _ =>
    }
  }

  lemma {:induction false} EachMemberShaped(m: Member, depth: nat)
    requires EachBounded(m.value, depth)
    ensures Shaped(m.value, depth)
  {
    EachIsShaped(m.value, depth);
  }

  lemma ShapedIff(v: Value)
    ensures Shaped(v, 0) <==> EachBounded(v, 0)
  {
    if Shaped(v, 0) {
      forall x, d | Occurs(v, 0, x, d)
        ensures d <= 20 && BoundedNode(x)
      {
        ShapedOccurs(v, 0, x, d);
      }
    }
    if EachBounded(v, 0) {
      EachIsShaped(v, 0);
    }
  }

  /** The whole-tree specification. */
  predicate BoundedAccepts(v: Value, allowed: Option<set<string>>) {
    && v.Obj? && Declared(v.members, allowed)
    && Encode(v, false).Some? && Bytes(Encode(v, false).value) <= MAX_REQUEST_BYTES
    && Shaped(v, 0) && Total(v, FieldCount) <= MAX_VALUE_FIELDS && Total(v, ItemCount) <= MAX_VALUE_ITEMS
  }

  /** The shared counters, updated by every helper. */
  class Counters {
    var fields: nat
    var items: nat
    var bytes: nat

    constructor ()
      ensures fields == 0 && items == 0 && bytes == 0
    {
      fields, items, bytes := 0, 0, 0;
    }

    ghost predicate Within()
      reads this
    {
      fields <= MAX_VALUE_FIELDS && items <= MAX_VALUE_ITEMS
    }

    /** Accepts exactly the shaped values that fit what the counters leave, and counts them. */
    method Validate(v: Value, depth: nat) returns (ok: bool)
      requires Within()
      modifies this
      ensures ok <==>
        && Shaped(v, depth)
        && old(fields) + Total(v, FieldCount) <= MAX_VALUE_FIELDS && old(items) + Total(v, ItemCount) <= MAX_VALUE_ITEMS
      ensures ok ==>
        && fields == old(fields) + Total(v, FieldCount) && items == old(items) + Total(v, ItemCount)
        && bytes == old(bytes) + Total(v, TextBytes)
      decreases v, 1
    {
      if depth > MAX_VALUE_DEPTH {
        return false;
      }
      if v.Obj? {
        ok := ValidateMapping(v, depth);
      } else if v.Arr? {
        ok := ValidateList(v, depth);
      } else {
        ok := BoundedScalar(v);
        if ok && v.Str? {
          bytes := bytes + Bytes(v.s);
        }
      }
    }

    method ValidateMapping(v: Value, depth: nat) returns (ok: bool)
      requires Within() && v.Obj? && depth <= MAX_VALUE_DEPTH
      modifies this
      ensures ok <==>
        && Shaped(v, depth)
        && old(fields) + Total(v, FieldCount) <= MAX_VALUE_FIELDS && old(items) + Total(v, ItemCount) <= MAX_VALUE_ITEMS
      ensures ok ==>
        && fields == old(fields) + Total(v, FieldCount) && items == old(items) + Total(v, ItemCount)
        && bytes == old(bytes) + Total(v, TextBytes)
      decreases v, 0
    {
      var members := v.members;
      fields := fields + |members|;
      if fields > MAX_VALUE_FIELDS {
        return false;
      }
      for i := 0 to |members|
        invariant Within()
        invariant fields + TotalMembers(members[i..], FieldCount) == old(fields) + Total(v, FieldCount)
        invariant items + TotalMembers(members[i..], ItemCount) == old(items) + Total(v, ItemCount)
        invariant bytes + KeyBytes(members[i..]) + TotalMembers(members[i..], TextBytes)
                  == old(bytes) + Total(v, TextBytes)
        invariant forall j :: 0 <= j < i ==> SafeKey(members[j].key) && Shaped(members[j].value, depth + 1)
      {
        var m := members[i];
        assert members[i..][0] == m && members[i..][1..] == members[i + 1..];
        if !SafeKey(m.key) {
          return false;
        }
        bytes := bytes + Bytes(m.key.text);
        var fine := Validate(m.value, depth + 1);
        if !fine {
          return false;
        }
      }
      return true;
    }

    method ValidateList(v: Value, depth: nat) returns (ok: bool)
      requires Within() && v.Arr? && depth <= MAX_VALUE_DEPTH
      modifies this
      ensures ok <==>
        && Shaped(v, depth)
        && old(fields) + Total(v, FieldCount) <= MAX_VALUE_FIELDS && old(items) + Total(v, ItemCount) <= MAX_VALUE_ITEMS
      ensures ok ==>
        && fields == old(fields) + Total(v, FieldCount) && items == old(items) + Total(v, ItemCount)
        && bytes == old(bytes) + Total(v, TextBytes)
      decreases v, 0
    {
      items := items + |v.items|;
      if items > MAX_VALUE_ITEMS {
        return false;
      }
      for i := 0 to |v.items|
        invariant Within()
        invariant fields + TotalItems(v.items[i..], FieldCount) == old(fields) + Total(v, FieldCount)
        invariant items + TotalItems(v.items[i..], ItemCount) == old(items) + Total(v, ItemCount)
        invariant bytes + TotalItems(v.items[i..], TextBytes) == old(bytes) + Total(v, TextBytes)
        invariant forall j :: 0 <= j < i ==> Shaped(v.items[j], depth + 1)
      {
        assert v.items[i..][0] == v.items[i] && v.items[i..][1..] == v.items[i + 1..];
        var fine := Validate(v.items[i], depth + 1);
        if !fine {
          return false;
        }
      }
      return true;
    }
  }

  /** Why a request body was refused; the second size check is shown never to decide. */
  datatype Fault = NotObject | Undeclared | Unencodable | TooLarge | Invalid | CountedTooLarge

  method ValidateBoundedJson(value: Value, allowed: Option<set<string>>) returns (r: Result<Value, Fault>)
    ensures r.Ok? <==> BoundedAccepts(value, allowed)
    ensures r.Ok? <==>
      && value.Obj? && EachBounded(value, 0)
      && Total(value, FieldCount) <= 2000 && Total(value, ItemCount) <= 2000
      && Encode(value, false).Some? && Bytes(Encode(value, false).value) <= 1000000
      && (allowed.Some? ==> forall i :: 0 <= i < |value.members| ==>
            value.members[i].key.Text? && value.members[i].key.text in allowed.value)
    ensures r.Ok? ==> r.value == value
    ensures r.Err? ==> r.error != CountedTooLarge
  {
    ShapedIff(value);
    assert Occurs(value, 0, value, 0);
    if !value.Obj? {
      return Err(NotObject);
    }
    if !Declared(value.members, allowed) {
      return Err(Undeclared);
    }
    var encoded := Encode(value, false);
    if encoded.None? {
      return Err(Unencodable);
    }
    if Bytes(encoded.value) > MAX_REQUEST_BYTES {
      return Err(TooLarge);
    }
    var counters := new Counters();
    var fine := counters.Validate(value, 0);
    if !fine {
      return Err(Invalid);
    }
    CountedFits(value, 0);
    if counters.bytes > MAX_REQUEST_BYTES {
      return Err(CountedTooLarge);
    }
    return Ok(value);
  }

  // ------------------------------------------------------------------
  // The counted bytes never exceed the encoding
  // ------------------------------------------------------------------

  lemma AppendBytes(a: string, b: string, c: string)
    ensures Bytes(a + b + c) == Bytes(a) + Bytes(b) + Bytes(c)
  {
    BytesConcat(a + b, c);
    BytesConcat(a, b);
  }

  lemma {:induction false} CountedFits(v: Value, depth: nat)
    requires Shaped(v, depth) && Encode(v, false).Some?
    ensures Total(v, TextBytes) <= Bytes(Encode(v, false).value)
  {
    match v {
      case Str(s) => QuotedGrows(s);
      case Arr(items) =>
        CountedItemsFit(items, depth + 1);
        AppendBytes("[", EncodeItems(items, false).value, "]");
      case Obj(members) =>
        CountedMembersFit(members, depth + 1);
        AppendBytes("{", EncodeMembers(members, false).value, "}");
      case _ =>
    }
  }

  lemma {:induction false} CountedItemsFit(items: seq<Value>, depth: nat)
    requires (forall i :: 0 <= i < |items| ==> Shaped(items[i], depth)) && EncodeItems(items, false).Some?
    ensures TotalItems(items, TextBytes) <= Bytes(EncodeItems(items, false).value)
  {
    if items != [] {
      CountedFits(items[0], depth);
      if |items| == 1 {
        assert items[1..] == [];
      } else {
        CountedItemsFit(items[1..], depth);
        AppendBytes(Encode(items[0], false).value, ",", EncodeItems(items[1..], false).value);
      }
    }
  }

  lemma {:induction false} CountedMemberFits(m: Member, depth: nat)
    requires SafeKey(m.key) && Shaped(m.value, depth) && EncodeMember(m, false).Some?
    ensures Bytes(m.key.text) + Total(m.value, TextBytes) <= Bytes(EncodeMember(m, false).value)
  {
    CountedFits(m.value, depth);
    QuotedGrows(m.key.text);
    AppendBytes(EncodeKey(m.key, false).value, ":", Encode(m.value, false).value);
  }

  lemma {:induction false} CountedMembersFit(members: seq<Member>, depth: nat)
    requires forall i :: 0 <= i < |members| ==> SafeKey(members[i].key) && Shaped(members[i].value, depth)
    requires EncodeMembers(members, false).Some?
    ensures KeyBytes(members) + TotalMembers(members, TextBytes) <= Bytes(EncodeMembers(members, false).value)
  {
    if members != [] {
      CountedMemberFits(members[0], depth);
      if |members| == 1 {
        assert members[1..] == [];
      } else {
        CountedMembersFit(members[1..], depth);
        AppendBytes(EncodeMember(members[0], false).value, ",", EncodeMembers(members[1..], false).value);
      }
    }
  }
}
