/**
 * The lease hierarchy walk behind the revocation preview: a stack of prefixes,
 * one LIST call each, with node, depth, leaf and byte budgets and early refusal.
 */
module LeaseWalk {
  import opened Prelude
  import opened Json
  import opened Ordering

  const MAX_KEYS := 2000
  const MAX_DEPTH := 12
  const MAX_NODES := 256
  const MAX_LEAVES := 2000
  const MAX_BYTES := 256000

  /** A listed name: a sub-prefix to walk, or a lease. */
  datatype Entry = Entry(branch: bool, path: string)

  /** A prefix waiting on the stack. */
  datatype Item = Item(path: string, depth: nat)

  /** Why a walk was refused; the last two guards are shown never to decide. */
  datatype Refusal =
    | CallFailed | BadListing | Revisited | TooDeep | TooManyPushed | TooManyLeaves | TooManyBytes
    | TooManyPopped | FinalBound

  function TrimSlashes(s: string): string {
    if s != [] && s[|s| - 1] == '/' then TrimSlashes(s[..|s| - 1]) else s
  }

  predicate Doubled(s: string, c: char) {
    exists i :: 0 <= i < |s| - 1 && s[i] == c && s[i + 1] == c
  }

  predicate LeaseId(s: string) {
    Identifier(s, {'_', '.', ':', '/', '+', '-'}, 500) && !Doubled(s, '.') && !Doubled(s, '/')
  }

  function Join(prefix: string, key: string): string {
    if prefix == [] then key else if key == [] then prefix else prefix + "/" + key
  }

  function EntryOf(key: Value, prefix: string): Option<Entry> {
    if !key.Str? || key.s == [] || !LeaseId(Join(prefix, TrimSlashes(key.s))) then None
    else Some(Entry(key.s[|key.s| - 1] == '/', Join(prefix, TrimSlashes(key.s))))
  }

  function Entries(keys: seq<Value>, prefix: string): Option<seq<Entry>> {
    if keys == [] then Some([]) else
      var rest := Entries(keys[..|keys| - 1], prefix);
      var last := EntryOf(keys[|keys| - 1], prefix);
      if rest.Some? && last.Some? then Some(rest.value + [last.value]) else None
  }

  /** The listed keys of a readable response. */
  function KeysOf(response: Value): Option<seq<Value>> {
    if !response.Obj? then None else
      var data := Get(response.members, "data");
      if data.None? || !data.value.Obj? then None else
        var keys := Get(data.value.members, "keys");
        if keys.None? || !keys.value.Arr? || |keys.value.items| > MAX_KEYS then None else Some(keys.value.items)
  }

  function Listing(response: Option<Value>, prefix: string): Option<seq<Entry>> {
    if response.None? || KeysOf(response.value).None? then None else Entries(KeysOf(response.value).value, prefix)
  }

  lemma {:induction false} EntriesPrefix(keys: seq<Value>, prefix: string, k: nat)
    requires k <= |keys| && Entries(keys, prefix).Some?
    ensures Entries(keys[..k], prefix).Some?
    decreases |keys| - k
  {
    if k < |keys| {
      EntriesPrefix(keys, prefix, k + 1);
      assert keys[..k + 1][..k] == keys[..k];
    } else {
      assert keys[..k] == keys;
    }
  }

  /** The joined name is 1 to 500 characters of the reviewed class, with neither two dots nor two slashes in a row. */
  predicate LeaseName(s: string) {
    && Marked(s, "_.:/+-", 500)
    && (forall i :: 0 <= i < |s| - 1 && s[i] == s[i + 1] ==> s[i] != '.' && s[i] != '/')
  }

  /** The text left once the trailing slashes are dropped. */
  predicate Trimmed(s: string, text: string) {
    && text <= s && (text == "" || text[|text| - 1] != '/')
    && forall i :: |text| <= i < |s| ==> s[i] == '/'
  }

  /** The name under the prefix; an empty part leaves no slash. */
  predicate Joined(prefix: string, text: string, path: string) {
    && (prefix != "" && text != "" ==> path == prefix + "/" + text)
    && (prefix == "" ==> path == text) && (text == "" ==> path == prefix)
  }

  /** An acceptable key and what it names: a sub-prefix if and only if it ends in a slash. */
  ghost predicate Names(key: Value, prefix: string, e: Entry) {
    && key.Str? && key.s != "" && LeaseName(e.path)
    && (e.branch <==> key.s[|key.s| - 1] == '/')
    && exists text :: Trimmed(key.s, text) && Joined(prefix, text, e.path)
  }

  lemma LeaseNameIff(s: string)
    ensures LeaseName(s) <==> LeaseId(s)
  {
    IdentifierIff(s, {'_', '.', ':', '/', '+', '-'}, "_.:/+-", 500);
  }

  lemma {:induction false} TrimIsTrimmed(s: string)
    ensures Trimmed(s, TrimSlashes(s))
  {
    if s != [] && s[|s| - 1] == '/' {
      TrimIsTrimmed(s[..|s| - 1]);
    }
  }

  lemma TrimmedIsOne(s: string, a: string, b: string)
    requires Trimmed(s, a) && Trimmed(s, b)
    ensures a == b
  {
    assert a != "" ==> a[|a| - 1] == s[|a| - 1];
    assert b != "" ==> b[|b| - 1] == s[|b| - 1];
  }

  lemma EntryNames(key: Value, prefix: string, e: Entry)
    ensures EntryOf(key, prefix) == Some(e) <==> Names(key, prefix, e)
  {
    if key.Str? {
      TrimIsTrimmed(key.s);
      assert Joined(prefix, TrimSlashes(key.s), Join(prefix, TrimSlashes(key.s)));
      LeaseNameIff(e.path);
      if Names(key, prefix, e) {
        var text :| Trimmed(key.s, text) && Joined(prefix, text, e.path);
        TrimmedIsOne(key.s, text, TrimSlashes(key.s));
      }
    }
  }

  ghost predicate Acceptable(key: Value, prefix: string) {
    exists e :: Names(key, prefix, e)
  }

  lemma EntryAccepts(key: Value, prefix: string)
    ensures EntryOf(key, prefix).Some? <==> Acceptable(key, prefix)
    ensures EntryOf(key, prefix).Some? ==> Names(key, prefix, EntryOf(key, prefix).value)
  {
    if EntryOf(key, prefix).Some? {
      EntryNames(key, prefix, EntryOf(key, prefix).value);
    }
    if e :| Names(key, prefix, e) {
      EntryNames(key, prefix, e);
    }
  }

  ghost predicate AllAcceptable(keys: seq<Value>, prefix: string) {
    forall i {:trigger Acceptable(keys[i], prefix)} :: 0 <= i < |keys| ==> Acceptable(keys[i], prefix)
  }

  /** One entry for each key, in order. */
  ghost predicate AllNamed(keys: seq<Value>, prefix: string, es: seq<Entry>) {
    |es| == |keys| && forall i {:trigger Names(keys[i], prefix, es[i])} :: 0 <= i < |keys| ==>
      Names(keys[i], prefix, es[i])
  }

  lemma NamedSnoc(keys: seq<Value>, prefix: string, es: seq<Entry>, e: Entry)
    requires keys != [] && AllNamed(keys[..|keys| - 1], prefix, es) && Names(keys[|keys| - 1], prefix, e)
    ensures AllNamed(keys, prefix, es + [e])
  {
    var k := |keys| - 1;
    forall i | 0 <= i < |keys|
      ensures Names(keys[i], prefix, (es + [e])[i])
    {
      if i < k {
        assert Names(keys[..k][i], prefix, es[i]);
      }
    }
  }

  lemma AcceptableSnoc(keys: seq<Value>, prefix: string)
    requires keys != []
    ensures AllAcceptable(keys, prefix)
       <==> AllAcceptable(keys[..|keys| - 1], prefix) && Acceptable(keys[|keys| - 1], prefix)
  {
    var front := keys[..|keys| - 1];
    if AllAcceptable(keys, prefix) {
      forall i | 0 <= i < |front|
        ensures Acceptable(front[i], prefix)
      {
        assert Acceptable(keys[i], prefix);
      }
    }
    if AllAcceptable(front, prefix) && Acceptable(keys[|keys| - 1], prefix) {
      forall i | 0 <= i < |keys|
        ensures Acceptable(keys[i], prefix)
      {
        assert i < |front| ==> Acceptable(front[i], prefix);
      }
    }
  }

  lemma {:induction false} EntriesName(keys: seq<Value>, prefix: string)
    ensures Entries(keys, prefix).Some? <==> AllAcceptable(keys, prefix)
    ensures Entries(keys, prefix).Some? ==> AllNamed(keys, prefix, Entries(keys, prefix).value)
    decreases |keys|
  {
    if keys != [] {
      var front, key := keys[..|keys| - 1], keys[|keys| - 1];
      EntriesName(front, prefix);
      EntryAccepts(key, prefix);
      AcceptableSnoc(keys, prefix);
      if Entries(keys, prefix).Some? {
        NamedSnoc(keys, prefix, Entries(front, prefix).value, EntryOf(key, prefix).value);
      }
    }
  }

  /** The response is a dictionary with a `data` dictionary whose `keys` are a list of at most 2000 values. */
  ghost predicate Lists(response: Value, keys: seq<Value>) {
    && response.Obj? && |keys| <= 2000
    && exists data :: Gives(response.members, "data", Obj(data)) && Gives(data, "keys", Arr(keys))
  }

  lemma KeysAreListed(response: Value, keys: seq<Value>)
    ensures KeysOf(response) == Some(keys) <==> Lists(response, keys)
  {
    if KeysOf(response) == Some(keys) {
      var data := Get(response.members, "data").value.members;
      GetFinds(response.members, "data", Obj(data));
      GetFinds(data, "keys", Arr(keys));
    }
    if Lists(response, keys) {
      var data :| Gives(response.members, "data", Obj(data)) && Gives(data, "keys", Arr(keys));
      GetFinds(response.members, "data", Obj(data));
      GetFinds(data, "keys", Arr(keys));
    }
  }

  /**
   * A listing is read exactly when the response lists keys and each of them is
   * acceptable; there is then one entry for each key, in order, a branch if and
   * only if the key ends in a slash, named by the prefix and the key's text.
   */
  ghost predicate Reads(response: Value, prefix: string, r: Option<seq<Entry>>) {
    && (r.Some? <==> exists keys :: Lists(response, keys) && AllAcceptable(keys, prefix))
    && (r.Some? ==> forall keys :: Lists(response, keys) ==> AllNamed(keys, prefix, r.value))
  }

  lemma ListingReads(response: Value, prefix: string)
    ensures Reads(response, prefix, Listing(Some(response), prefix))
  {
    var keys := KeysOf(response);
    forall other
      ensures Lists(response, other) <==> keys == Some(other)
    {
      KeysAreListed(response, other);
    }
    if keys.Some? {
      EntriesName(keys.value, prefix);
    }
  }

  method LeaseEntries(response: Value, prefix: string) returns (r: Option<seq<Entry>>)
    ensures r == Listing(Some(response), prefix) && Reads(response, prefix, r)
  {
    ListingReads(response, prefix);
    var keys := KeysOf(response);
    if keys.None? {
      return None;
    }
    r := EachEntry(keys.value, prefix);
  }

  method EachEntry(keys: seq<Value>, prefix: string) returns (r: Option<seq<Entry>>)
    ensures r == Entries(keys, prefix)
  {
    var entries: seq<Entry> := [];
    for i := 0 to |keys|
      invariant Entries(keys[..i], prefix) == Some(entries)
    {
      EntriesSnoc(keys, prefix, i);
      var entry := EntryOf(keys[i], prefix);
      if entry.None? {
        return None;
      }
      entries := entries + [entry.value];
    }
    assert keys[..|keys|] == keys;
    return Some(entries);
  }

  lemma EntriesSnoc(keys: seq<Value>, prefix: string, i: nat)
    requires i < |keys| && Entries(keys[..i], prefix).Some?
    ensures EntryOf(keys[i], prefix).None? ==> Entries(keys, prefix).None?
    ensures EntryOf(keys[i], prefix).Some? ==>
      Entries(keys[..i + 1], prefix) == Some(Entries(keys[..i], prefix).value + [EntryOf(keys[i], prefix).value])
  {
    assert keys[..i + 1][..i] == keys[..i];
    if Entries(keys, prefix).Some? {
      EntriesPrefix(keys, prefix, i + 1);
    }
  }

  // ------------------------------------------------------------------
  // The hierarchy below a prefix, without budgets on nodes, leaves and bytes
  // ------------------------------------------------------------------

  /** What a prefix lists, or nothing when its listing cannot be read. */
  type Hierarchy = string -> Option<seq<Entry>>

  function Branches(es: seq<Entry>): seq<string> {
    if es == [] then [] else Branches(es[..|es| - 1]) + (if es[|es| - 1].branch then [es[|es| - 1].path] else [])
  }

  function LeafSet(es: seq<Entry>): set<string> {
    set e | e in es && !e.branch :: e.path
  }

  /** Every prefix occurrence below a prefix, and every lease. */
  datatype Found = Found(nodes: multiset<string>, leaves: set<string>)

  function Both(a: Option<Found>, b: Option<Found>): Option<Found> {
    if a.Some? && b.Some? then Some(Found(a.value.nodes + b.value.nodes, a.value.leaves + b.value.leaves)) else None
  }

  function Explore(list: Hierarchy, p: string, depth: nat): Option<Found>
    decreases MAX_DEPTH + 1 - depth, 0
  {
    if depth > MAX_DEPTH then None else
      var es := list(p);
      if es.None? then None
      else Both(Some(Found(multiset{p}, LeafSet(es.value))), ExploreAll(list, Branches(es.value), depth + 1))
  }

  function ExploreAll(list: Hierarchy, ps: seq<string>, depth: nat): Option<Found>
    decreases MAX_DEPTH + 1 - depth, 1 + |ps|
  {
    if ps == [] then Some(Found(multiset{}, {}))
    else Both(ExploreAll(list, ps[..|ps| - 1], depth), Explore(list, ps[|ps| - 1], depth))
  }

  /** What the stacked prefixes lead to. */
  function Stacked(list: Hierarchy, pending: seq<Item>): Option<Found> {
    if pending == [] then Some(Found(multiset{}, {}))
    else Both(Stacked(list, pending[..|pending| - 1]),
              Explore(list, pending[|pending| - 1].path, pending[|pending| - 1].depth))
  }

  function Items(ps: seq<string>, depth: nat): seq<Item> {
    seq(|ps|, (i: nat) requires i < |ps| => Item(ps[i], depth))
  }

  function Weight(x: string): nat {
    Bytes(Quoted(x, true)) + 1
  }

  /** Within every budget: the hierarchy is a tree of at most 256 prefixes, with bounded leases. */
  ghost predicate Reviewable(found: Option<Found>) {
    && found.Some?
    && (forall p :: found.value.nodes[p] <= 1)
    && |found.value.nodes| <= MAX_NODES
    && |found.value.leaves| <= MAX_LEAVES
    && 2 + Sum(found.value.leaves, Weight) <= MAX_BYTES
  }

  // ------------------------------------------------------------------
  // The walk
  // ------------------------------------------------------------------

  lemma BothAssociates(a: Option<Found>, b: Option<Found>, c: Option<Found>)
    ensures Both(Both(a, b), c) == Both(a, Both(b, c))
  {
    if a.Some? && b.Some? && c.Some? {
      var x, y, z := a.value, b.value, c.value;
      assert (x.nodes + y.nodes) + z.nodes == x.nodes + (y.nodes + z.nodes);
      assert (x.leaves + y.leaves) + z.leaves == x.leaves + (y.leaves + z.leaves);
    }
  }

  lemma StackedPush(list: Hierarchy, pending: seq<Item>, top: Item)
    ensures Stacked(list, pending + [top]) == Both(Stacked(list, pending), Explore(list, top.path, top.depth))
  {
    assert (pending + [top])[..|pending|] == pending;
  }

  lemma ItemsSnoc(pending: seq<Item>, front: seq<string>, last: string, depth: nat)
    ensures pending + Items(front + [last], depth) == (pending + Items(front, depth)) + [Item(last, depth)]
  {
  }

  lemma {:induction false} StackedConcat(list: Hierarchy, pending: seq<Item>, ps: seq<string>, depth: nat)
    ensures Stacked(list, pending + Items(ps, depth)) == Both(Stacked(list, pending), ExploreAll(list, ps, depth))
    decreases |ps|
  {
    if ps == [] {
      assert pending + Items(ps, depth) == pending;
      NothingBelow(Stacked(list, pending));
    } else {
      var front, last := ps[..|ps| - 1], ps[|ps| - 1];
      StackedConcat(list, pending, front, depth);
      ItemsSnoc(pending, front, last, depth);
      assert ps == front + [last];
      StackedPush(list, pending + Items(front, depth), Item(last, depth));
      BothAssociates(Stacked(list, pending), ExploreAll(list, front, depth), Explore(list, last, depth));
    }
  }

  lemma NothingBelow(a: Option<Found>)
    ensures Both(a, Some(Found(multiset{}, {}))) == a
  {
    if a.Some? {
      assert a.value.nodes + multiset{} == a.value.nodes && a.value.leaves + {} == a.value.leaves;
    }
  }

  /** Each stacked prefix will be listed at least once. */
  lemma {:induction false} StackedCounts(list: Hierarchy, pending: seq<Item>)
    ensures Stacked(list, pending).Some? ==> |Stacked(list, pending).value.nodes| >= |pending|
    decreases |pending|
  {
    if pending != [] {
      StackedCounts(list, pending[..|pending| - 1]);
    }
  }

  /** What the walk has seen, and what its stack and unread entries still lead to. */
  ghost function Outlook(list: Hierarchy, visited: set<string>, leaves: set<string>, pending: seq<Item>,
                         rest: seq<Entry>, depth: nat): Option<Found>
  {
    Both(Some(Found(multiset(visited), leaves + LeafSet(rest))), Stacked(list, pending + Items(Branches(rest), depth)))
  }

  lemma {:induction false} BranchesCons(e: Entry, rest: seq<Entry>)
    ensures Branches([e] + rest) == (if e.branch then [e.path] else []) + Branches(rest)
    decreases |rest|
  {
    if rest == [] {
      assert [e] + rest == [e];
    } else {
      BranchesCons(e, rest[..|rest| - 1]);
      assert ([e] + rest)[..|rest|] == [e] + rest[..|rest| - 1];
    }
  }

  /** Reading one more entry changes nothing about the outlook. */
  lemma OutlookBranch(
    list: Hierarchy, visited: set<string>, leaves: set<string>, pending: seq<Item>,
    e: Entry, tail: seq<Entry>, depth: nat)
    requires e.branch
    ensures Outlook(list, visited, leaves, pending, [e] + tail, depth)
         == Outlook(list, visited, leaves, pending + [Item(e.path, depth)], tail, depth)
  {
    BranchesCons(e, tail);
    assert LeafSet([e] + tail) == LeafSet(tail);
    assert pending + Items(Branches([e] + tail), depth)
        == pending + [Item(e.path, depth)] + Items(Branches(tail), depth);
  }

  lemma OutlookLeaf(
    list: Hierarchy, visited: set<string>, leaves: set<string>, pending: seq<Item>,
    e: Entry, tail: seq<Entry>, depth: nat)
    requires !e.branch
    ensures Outlook(list, visited, leaves, pending, [e] + tail, depth)
         == Outlook(list, visited, leaves + {e.path}, pending, tail, depth)
  {
    BranchesCons(e, tail);
    assert Branches([e] + tail) == Branches(tail);
    assert leaves + LeafSet([e] + tail) == leaves + {e.path} + LeafSet(tail);
  }

  lemma OutlookIdle(list: Hierarchy, visited: set<string>, leaves: set<string>, pending: seq<Item>)
    ensures Outlook(list, visited, leaves, pending, [], 0)
            == Both(Some(Found(multiset(visited), leaves)), Stacked(list, pending))
  {
    assert pending + Items(Branches([]), 0) == pending;
    assert LeafSet([]) == {} && leaves + {} == leaves;
  }

  lemma OutlookListed(
    list: Hierarchy, visited: set<string>, p: string, leaves: set<string>, pending: seq<Item>,
    es: seq<Entry>, depth: nat)
    requires p !in visited
    ensures Outlook(list, visited + {p}, leaves, pending, es, depth)
         == Both(Some(Found(multiset(visited) + multiset{p}, leaves + LeafSet(es))),
                 Both(Stacked(list, pending), ExploreAll(list, Branches(es), depth)))
  {
    StackedConcat(list, pending, Branches(es), depth);
    assert multiset(visited + {p}) == multiset(visited) + multiset{p};
  }

  lemma ExploreIs(list: Hierarchy, p: string, depth: nat, es: seq<Entry>)
    requires depth <= MAX_DEPTH && list(p) == Some(es)
    ensures Explore(list, p, depth)
            == Both(Some(Found(multiset{p}, LeafSet(es))), ExploreAll(list, Branches(es), depth + 1))
  {
  }

  /** Taking a prefix off the stack and listing it. */
  lemma OutlookPop(
    list: Hierarchy, visited: set<string>, leaves: set<string>, below: seq<Item>, top: Item, es: seq<Entry>)
    requires top.path !in visited && top.depth <= MAX_DEPTH && list(top.path) == Some(es)
    ensures Outlook(list, visited, leaves, below + [top], [], 0)
         == Outlook(list, visited + {top.path}, leaves, below, es, top.depth + 1)
  {
    OutlookIdle(list, visited, leaves, below + [top]);
    StackedPush(list, below, top);
    ExploreIs(list, top.path, top.depth, es);
    OutlookListed(list, visited, top.path, leaves, below, es, top.depth + 1);
    BothRegroup(Found(multiset(visited), leaves), Found(multiset{top.path}, LeafSet(es)), Stacked(list, below),
                ExploreAll(list, Branches(es), top.depth + 1));
  }

  lemma BothRegroup(seen: Found, mine: Found, below: Option<Found>, kids: Option<Found>)
    ensures Both(Some(seen), Both(below, Both(Some(mine), kids)))
         == Both(Some(Found(seen.nodes + mine.nodes, seen.leaves + mine.leaves)), Both(below, kids))
  {
    if below.Some? && kids.Some? {
      var l := Both(Some(seen), Both(below, Both(Some(mine), kids))).value;
      var r := Both(Some(Found(seen.nodes + mine.nodes, seen.leaves + mine.leaves)), Both(below, kids)).value;
      assert l.nodes == r.nodes && l.leaves == r.leaves;
    }
  }

  /** Each early refusal is justified: a hierarchy with this outlook is not reviewable. */
  lemma Exceeded(
    list: Hierarchy, visited: set<string>, leaves: set<string>, pending: seq<Item>, rest: seq<Entry>, depth: nat)
    requires || |visited| + |pending| > MAX_NODES
             || |leaves| > MAX_LEAVES
             || 2 + Sum(leaves, Weight) > MAX_BYTES
    ensures !Reviewable(Outlook(list, visited, leaves, pending, rest, depth))
  {
    var all := pending + Items(Branches(rest), depth);
    StackedCounts(list, all);
    var found := Outlook(list, visited, leaves, pending, rest, depth);
    if found.Some? {
      var below := Stacked(list, all).value;
      assert found.value.nodes == multiset(visited) + below.nodes;
      assert |found.value.nodes| == |visited| + |below.nodes|;
      assert leaves <= found.value.leaves;
      SumSubset(leaves, found.value.leaves, Weight);
      SubsetSize(leaves, found.value.leaves);
    }
  }

  lemma SubsetSize(a: set<string>, b: set<string>)
    requires a <= b
    ensures |a| <= |b|
  {
    assert b == a + (b - a);
  }

  /** A prefix met twice, listed too deep or listed wrongly is not reviewable. */
  lemma Blocked(list: Hierarchy, visited: set<string>, leaves: set<string>, below: seq<Item>, top: Item)
    requires top.path in visited || top.depth > MAX_DEPTH || list(top.path).None?
    ensures !Reviewable(Outlook(list, visited, leaves, below + [top], [], 0))
  {
    OutlookIdle(list, visited, leaves, below + [top]);
    StackedPush(list, below, top);
    var found := Outlook(list, visited, leaves, below + [top], [], 0);
    if found.Some? {
      var mine := Explore(list, top.path, top.depth);
      assert top.path in mine.value.nodes;
      assert found.value.nodes[top.path] >= multiset(visited)[top.path] + mine.value.nodes[top.path];
    }
  }

  /** The backend answers every call by the fixed hierarchy. */
  ghost predicate Answers(backend: (nat, string) -> Option<Value>, list: Hierarchy) {
    forall n, p :: Listing(backend(n, p), p) == list(p)
  }

  /** The budgets that hold between any two steps. */
  ghost predicate Within(visited: set<string>, pending: seq<Item>,
             leaves: set<string>, bytes: nat) {
    && |visited| + |pending| <= MAX_NODES && |leaves| <= MAX_LEAVES
    && bytes == 2 + Sum(leaves, Weight) && bytes <= MAX_BYTES
  }

  /** A lease joins the set, and the byte counter the first time it is seen. */
  method TakeLeaf(path: string, leaves0: set<string>, bytes0: nat)
    returns (refusal: Option<Refusal>, leaves: set<string>, bytes: nat)
    requires bytes0 == 2 + Sum(leaves0, Weight)
    ensures leaves == leaves0 + {path} && bytes == 2 + Sum(leaves, Weight)
    ensures refusal.None? <==> |leaves| <= MAX_LEAVES && bytes <= MAX_BYTES
    ensures refusal in {None, Some(TooManyLeaves), Some(TooManyBytes)}
  {
    leaves, bytes := leaves0 + {path}, bytes0;
    if |leaves| != |leaves0| {
      assert path in leaves0 ==> leaves == leaves0;
      SumAdd(leaves0, path, Weight);
      bytes := bytes + Weight(path);
    } else {
      assert path !in leaves0 ==> |leaves0 + {path}| == |leaves0| + 1;
      assert leaves == leaves0;
    }
    if |leaves| > MAX_LEAVES {
      return Some(TooManyLeaves), leaves, bytes;
    }
    if bytes > MAX_BYTES {
      return Some(TooManyBytes), leaves, bytes;
    }
    return None, leaves, bytes;
  }

  /** One entry: a sub-prefix goes on the stack, a lease into the set. */
  method TakeEntry(e: Entry, depth: nat, visited: set<string>, pending0: seq<Item>, leaves0: set<string>, bytes0: nat,
                   ghost list: Hierarchy, ghost rest: seq<Entry>)
    returns (refusal: Option<Refusal>, pending: seq<Item>, leaves: set<string>, bytes: nat)
    requires Within(visited, pending0, leaves0, bytes0)
    ensures refusal.None? ==> Within(visited, pending, leaves, bytes)
    ensures refusal.Some? ==> refusal.value in {TooManyPushed, TooManyLeaves, TooManyBytes}
    ensures refusal.Some? ==> !Reviewable(Outlook(list, visited, leaves0, pending0, [e] + rest, depth))
    ensures Outlook(list, visited, leaves, pending, rest, depth)
            == Outlook(list, visited, leaves0, pending0, [e] + rest, depth)
  {
    pending, leaves, bytes, refusal := pending0, leaves0, bytes0, None;
    if e.branch {
      OutlookBranch(list, visited, leaves0, pending0, e, rest, depth);
      pending := pending + [Item(e.path, depth)];
      if |visited| + |pending| > MAX_NODES {
        refusal := Some(TooManyPushed);
      }
    } else {
      OutlookLeaf(list, visited, leaves0, pending0, e, rest, depth);
      refusal, leaves, bytes := TakeLeaf(e.path, leaves0, bytes0);
    }
    if refusal.Some? {
      Exceeded(list, visited, leaves, pending, rest, depth);
    }
  }

  /** One listing. */
  method TakeEntries(entries: seq<Entry>, depth: nat, visited: set<string>, pending0: seq<Item>, leaves0: set<string>,
                     bytes0: nat, ghost list: Hierarchy)
    returns (refusal: Option<Refusal>, pending: seq<Item>, leaves: set<string>, bytes: nat)
    requires Within(visited, pending0, leaves0, bytes0)
    ensures refusal.Some? ==> refusal.value in {TooManyPushed, TooManyLeaves, TooManyBytes}
    ensures refusal.Some? ==> !Reviewable(Outlook(list, visited, leaves0, pending0, entries, depth))
    ensures refusal.None? ==> Within(visited, pending, leaves, bytes)
    ensures refusal.None? ==>
      Outlook(list, visited, leaves, pending, [], 0) == Outlook(list, visited, leaves0, pending0, entries, depth)
  {
    pending, leaves, bytes, refusal := pending0, leaves0, bytes0, None;
    for i := 0 to |entries|
      invariant refusal.None? && Within(visited, pending, leaves, bytes)
      invariant Outlook(list, visited, leaves, pending, entries[i..], depth)
             == Outlook(list, visited, leaves0, pending0, entries, depth)
    {
      assert entries[i..] == [entries[i]] + entries[i + 1..];
      refusal, pending, leaves, bytes :=
        TakeEntry(entries[i], depth, visited, pending, leaves, bytes, list, entries[i + 1..]);
      if refusal.Some? {
        return;
      }
    }
    assert entries[|entries|..] == [];
    OutlookAtEnd(list, visited, leaves, pending, depth);
  }

  lemma OutlookAtEnd(list: Hierarchy, visited: set<string>, leaves: set<string>, pending: seq<Item>, depth: nat)
    ensures Outlook(list, visited, leaves, pending, [], depth) == Outlook(list, visited, leaves, pending, [], 0)
  {
    assert Items(Branches([]), depth) == Items(Branches([]), 0);
  }

  /** The checks on the prefix taken off the stack, and its LIST call. */
  method ListPrefix(
    backend: (nat, string) -> Option<Value>, calls0: nat, visited: set<string>, top: Item, ghost list: Hierarchy)
    returns (r: Result<seq<Entry>, Refusal>, calls: nat)
    requires |visited| < MAX_NODES
    ensures r.Ok? ==> calls == calls0 + 1 && top.path !in visited && top.depth <= MAX_DEPTH
    ensures calls <= calls0 + 1 && (r.Err? ==> r.error in {Revisited, TooDeep, CallFailed, BadListing})
    ensures Answers(backend, list) && r.Ok? ==> list(top.path) == Some(r.value)
    ensures Answers(backend, list) && r.Err? ==> top.path in visited || top.depth > MAX_DEPTH || list(top.path).None?
  {
    calls := calls0;
    if top.path in visited {
      return Err(Revisited), calls;
    }
    if top.depth > MAX_DEPTH {
      return Err(TooDeep), calls;
    }
    if |visited| >= MAX_NODES {
      return Err(TooManyPopped), calls;
    }
    var response := backend(calls, top.path);
    assert Answers(backend, list) ==> Listing(backend(calls, top.path), top.path) == list(top.path);
    calls := calls + 1;
    if response.None? {
      return Err(CallFailed), calls;
    }
    var entries := LeaseEntries(response.value, top.path);
    if entries.None? {
      return Err(BadListing), calls;
    }
    return Ok(entries.value), calls;
  }

  /** One round: take a prefix off the stack, list it, read its entries. */
  method Visit(backend: (nat, string) -> Option<Value>, calls0: nat, visited0: set<string>, below: seq<Item>, top: Item,
               leaves0: set<string>, bytes0: nat, ghost list: Hierarchy)
    returns (refusal: Option<Refusal>, calls: nat, visited: set<string>, pending: seq<Item>,
             leaves: set<string>, bytes: nat)
    requires Within(visited0, below + [top], leaves0, bytes0)
    ensures refusal.None? ==>
              Within(visited, pending, leaves, bytes) && calls == calls0 + 1 && |visited| == |visited0| + 1
    ensures calls <= calls0 + 1
    ensures refusal.Some? ==> refusal.value != TooManyPopped && refusal.value != FinalBound
    ensures Answers(backend, list) && refusal.Some? ==>
              !Reviewable(Outlook(list, visited0, leaves0, below + [top], [], 0))
    ensures Answers(backend, list) && refusal.None? ==>
      Outlook(list, visited, leaves, pending, [], 0) == Outlook(list, visited0, leaves0, below + [top], [], 0)
  {
    visited, pending, leaves, bytes := visited0, below, leaves0, bytes0;
    var listed;
    listed, calls := ListPrefix(backend, calls0, visited0, top, list);
    if listed.Err? {
      refusal := Some(listed.error);
      if Answers(backend, list) {
        Blocked(list, visited0, leaves0, below, top);
      }
      return;
    }
    if Answers(backend, list) {
      OutlookPop(list, visited0, leaves0, below, top, listed.value);
    }
    visited := visited + {top.path};
    refusal, pending, leaves, bytes := TakeEntries(listed.value, top.depth + 1, visited, pending, leaves, bytes, list);
  }

  /** A walk over an arbitrary backend; over a fixed hierarchy it accepts exactly the reviewable ones. */
  method LeaseSet(backend: (nat, string) -> Option<Value>, prefix: string, ghost list: Hierarchy)
    returns (r: Result<seq<string>, Refusal>, calls: nat, leafBytes: nat)
    ensures calls <= 256
    ensures r.Err? ==> r.error != TooManyPopped && r.error != FinalBound
    ensures r.Ok? ==> Ascending(r.value) && leafBytes == ListBytes(r.value) + (if r.value == [] then 0 else 1)
    ensures Answers(backend, list) ==> (r.Ok? <==> Reviewable(Explore(list, TrimSlashes(prefix), 0)))
    ensures Answers(backend, list) && r.Ok? ==> r.value == Sorted(Explore(list, TrimSlashes(prefix), 0).value.leaves)
    ensures Answers(backend, list) ==> AcceptsExactly(list, prefix, r)
  {
    var pending := [Item(TrimSlashes(prefix), 0)];
    var visited: set<string>, leaves: set<string> := {}, {};
    calls, leafBytes := 0, 2;
    OutlookStart(list, TrimSlashes(prefix));
    while pending != []
      invariant calls == |visited| && Within(visited, pending, leaves, leafBytes)
      invariant Answers(backend, list) ==>
        Outlook(list, visited, leaves, pending, [], 0) == Explore(list, TrimSlashes(prefix), 0)
      decreases MAX_NODES - |visited|
    {
      assert pending == pending[..|pending| - 1] + [pending[|pending| - 1]];
      var refusal;
      refusal, calls, visited, pending, leaves, leafBytes :=
        Visit(backend, calls, visited, pending[..|pending| - 1], pending[|pending| - 1], leaves, leafBytes, list);
      if refusal.Some? {
        r := Err(refusal.value);
        if Answers(backend, list) {
          RootAccepts(list, prefix, r);
        }
        return;
      }
    }
    Finished(list, visited, leaves, leafBytes);
    r := BoundedLeaseResult(leaves);
    if Answers(backend, list) {
      RootAccepts(list, prefix, r);
    }
  }

  /**
   * From the given prefix without its trailing slashes: accepted exactly if no
   * chain of listings is too deep or unreadable, no prefix is reached in two ways
   * and everything is within the bounds; then it is exactly the reachable leases.
   */
  ghost predicate AcceptsExactly(list: Hierarchy, prefix: string, r: Result<seq<string>, Refusal>) {
    forall root :: Trimmed(prefix, root) ==>
      && (r.Ok? <==> Shallow(list, root, 0) && Tree(list, root) && Small(list, root))
      && (r.Ok? ==> forall lease :: lease in r.value <==> LeaseUnder(list, root, lease))
  }

  lemma RootAccepts(list: Hierarchy, prefix: string, r: Result<seq<string>, Refusal>)
    requires r.Ok? <==> Reviewable(Explore(list, TrimSlashes(prefix), 0))
    requires r.Ok? ==> r.value == Sorted(Explore(list, TrimSlashes(prefix), 0).value.leaves)
    ensures AcceptsExactly(list, prefix, r)
  {
    var root := TrimSlashes(prefix);
    TrimIsTrimmed(prefix);
    forall other | Trimmed(prefix, other)
      ensures other == root
    {
      TrimmedIsOne(prefix, other, root);
    }
    ReviewableIff(list, root);
    if r.Ok? {
      SortedLists(Explore(list, root, 0).value.leaves);
      forall lease
        ensures lease in r.value <==> LeaseUnder(list, root, lease)
      {
        FoundExactly(list, root, lease);
      }
    }
  }

  /** An empty stack within the budgets: the hierarchy was reviewable, and the final bounds hold. */
  lemma Finished(list: Hierarchy, visited: set<string>, leaves: set<string>, bytes: nat)
    requires Within(visited, [], leaves, bytes)
    ensures Reviewable(Outlook(list, visited, leaves, [], [], 0))
    ensures Outlook(list, visited, leaves, [], [], 0).value.leaves == leaves
    ensures bytes == ListBytes(Sorted(leaves)) + (if leaves == {} then 0 else 1)
  {
    OutlookEnd(list, visited, leaves);
    ListSize(leaves);
    if leaves == {} {
      assert Sum(leaves, Weight) == 0;
    }
  }

  method BoundedLeaseResult(leaves: set<string>) returns (r: Result<seq<string>, Refusal>)
    ensures r == if |leaves| > MAX_LEAVES || ListBytes(Sorted(leaves)) > MAX_BYTES
                 then Err(FinalBound) else Ok(Sorted(leaves))
    ensures r.Ok? ==> Ascending(r.value) && (r.value == [] <==> leaves == {})
  {
    var result := Sorted(leaves);
    SortedLists(leaves);
    if |result| > MAX_LEAVES || ListBytes(result) > MAX_BYTES {
      return Err(FinalBound);
    }
    return Ok(result);
  }

  lemma OutlookStart(list: Hierarchy, root: string)
    ensures Outlook(list, {}, {}, [Item(root, 0)], [], 0) == Explore(list, root, 0)
  {
    assert [Item(root, 0)] + Items(Branches([]), 0) == [] + [Item(root, 0)];
    StackedPush(list, [], Item(root, 0));
    var found := Explore(list, root, 0);
    assert LeafSet([]) == {};
    if found.Some? {
      var r := Outlook(list, {}, {}, [Item(root, 0)], [], 0).value;
      assert r.nodes == found.value.nodes && r.leaves == found.value.leaves;
    }
  }

  lemma OutlookEnd(list: Hierarchy, visited: set<string>, leaves: set<string>)
    ensures Outlook(list, visited, leaves, [], [], 0) == Some(Found(multiset(visited), leaves))
    ensures |multiset(visited)| == |visited| && (forall p :: multiset(visited)[p] <= 1)
  {
    assert [] + Items(Branches([]), 0) == [];
    NothingBelow(Some(Found(multiset(visited), leaves)));
    assert LeafSet([]) == {} && leaves + {} == leaves;
  }

  // ------------------------------------------------------------------
  // The encoded size of the result
  // ------------------------------------------------------------------

  function Strings(xs: seq<string>): seq<Value> {
    seq(|xs|, (i: nat) requires i < |xs| => Str(xs[i]))
  }

  /** The encoded list, as json.dumps prints it. */
  function ListBytes(xs: seq<string>): nat {
    var text := Encode(Arr(Strings(xs)), true);
    if text.Some? then Bytes(text.value) else 0
  }

  function SeqSum(xs: seq<string>): nat {
    if xs == [] then 0 else Weight(xs[0]) + SeqSum(xs[1..])
  }

  lemma {:induction false} ItemsSize(xs: seq<string>)
    ensures var text := EncodeItems(Strings(xs), true);
            text.Some? && (xs == [] ==> text.value == []) && (xs != [] ==> Bytes(text.value) + 1 == SeqSum(xs))
    decreases |xs|
  {
    if |xs| > 1 {
      ItemsSize(xs[1..]);
      assert Strings(xs)[1..] == Strings(xs[1..]);
      var head, tail := Quoted(xs[0], true), EncodeItems(Strings(xs[1..]), true).value;
      BytesConcat(head + ",", tail);
      BytesConcat(head, ",");
    } else if |xs| == 1 {
      assert xs[1..] == [];
    }
  }

  lemma {:induction false} SortedSum(s: set<string>)
    ensures SeqSum(Sorted(s)) == Sum(s, Weight)
    decreases |s|
  {
    if s != {} {
      SortedSum(s - {First(s)});
      assert Sorted(s)[1..] == Sorted(s - {First(s)});
    }
  }

  /** The encoded result is one byte shorter than the running count, or the two brackets. */
  lemma ListSize(s: set<string>)
    ensures ListBytes(Sorted(s)) == if s == {} then 2 else 1 + Sum(s, Weight)
  {
    var xs := Sorted(s);
    ItemsSize(xs);
    SortedSum(s);
    var text := EncodeItems(Strings(xs), true).value;
    BytesConcat("[" + text, "]");
    BytesConcat("[", text);
  }

  // ------------------------------------------------------------------
  // What was found is what is reachable
  // ------------------------------------------------------------------

  ghost predicate Child(list: Hierarchy, p: string, q: string) {
    list(p).Some? && Entry(true, q) in list(p).value
  }

  /** A chain of listings from one prefix to another. */
  ghost predicate Chain(list: Hierarchy, ps: seq<string>, from: string, to: string) {
    && ps != [] && ps[0] == from && ps[|ps| - 1] == to
    && (forall i :: 0 <= i < |ps| - 1 ==> Child(list, ps[i], ps[i + 1]))
  }

  ghost predicate Reachable(list: Hierarchy, from: string, to: string) {
    exists ps :: Chain(list, ps, from, to)
  }

  /** A lease listed under some prefix reachable from the root. */
  ghost predicate LeaseUnder(list: Hierarchy, root: string, lease: string) {
    exists p :: Reachable(list, root, p) && list(p).Some? && Entry(false, lease) in list(p).value
  }

  lemma {:induction false} BranchesAre(es: seq<Entry>, p: string)
    ensures p in Branches(es) <==> Entry(true, p) in es
    decreases |es|
  {
    if es != [] {
      BranchesAre(es[..|es| - 1], p);
      assert es == es[..|es| - 1] + [es[|es| - 1]];
    }
  }

  lemma ReachChild(list: Hierarchy, p: string, q: string, x: string)
    requires Child(list, p, q) && Reachable(list, q, x)
    ensures Reachable(list, p, x)
  {
    var ps :| Chain(list, ps, q, x);
    assert Chain(list, [p] + ps, p, x);
  }

  lemma ReachSelf(list: Hierarchy, p: string)
    ensures Reachable(list, p, p)
  {
    assert Chain(list, [p], p, p);
  }

  /** A longer chain goes through a child. */
  lemma ReachVia(list: Hierarchy, p: string, x: string) returns (q: string)
    requires Reachable(list, p, x) && x != p
    ensures Child(list, p, q) && Reachable(list, q, x)
  {
    var ps :| Chain(list, ps, p, x);
    q := ps[1];
    assert Child(list, ps[0], ps[1]);
    assert Chain(list, ps[1..], q, x);
  }

  /** Everything listed below a prefix is reachable from it. */
  lemma {:induction false} FoundIsReachable(list: Hierarchy, p: string, depth: nat)
    requires Explore(list, p, depth).Some?
    ensures forall x :: x in Explore(list, p, depth).value.nodes ==> Reachable(list, p, x)
    ensures forall q :: q in Explore(list, p, depth).value.leaves ==> LeaseUnder(list, p, q)
    decreases MAX_DEPTH + 1 - depth, 0
  {
    var es := list(p).value;
    ReachSelf(list, p);
    var kids := ExploreAll(list, Branches(es), depth + 1).value;
    forall b | b in Branches(es)
      ensures Child(list, p, b)
    {
      BranchesAre(es, b);
    }
    AllReachable(list, p, Branches(es), depth + 1);
  }

  lemma {:induction false} AllReachable(list: Hierarchy, p: string, ps: seq<string>, depth: nat)
    requires ExploreAll(list, ps, depth).Some? && (forall b :: b in ps ==> Child(list, p, b))
    ensures forall x :: x in ExploreAll(list, ps, depth).value.nodes ==> Reachable(list, p, x)
    ensures forall q :: q in ExploreAll(list, ps, depth).value.leaves ==> LeaseUnder(list, p, q)
    decreases MAX_DEPTH + 1 - depth, 1 + |ps|
  {
    if ps != [] {
      var front, b := ps[..|ps| - 1], ps[|ps| - 1];
      AllReachable(list, p, front, depth);
      FoundIsReachable(list, b, depth);
      forall x | Reachable(list, b, x)
        ensures Reachable(list, p, x)
      {
        ReachChild(list, p, b, x);
      }
    }
  }

  lemma {:induction false} AllIncludes(list: Hierarchy, ps: seq<string>, depth: nat, b: string)
    requires ExploreAll(list, ps, depth).Some? && b in ps
    ensures Explore(list, b, depth).Some?
    ensures forall x :: x in Explore(list, b, depth).value.nodes ==> x in ExploreAll(list, ps, depth).value.nodes
    ensures Explore(list, b, depth).value.leaves <= ExploreAll(list, ps, depth).value.leaves
    decreases |ps|
  {
    if b != ps[|ps| - 1] {
      AllIncludes(list, ps[..|ps| - 1], depth, b);
    }
  }

  /** Every prefix reachable from a fully explored one was listed, with all its leases. */
  lemma {:induction false} ReachableIsFound(list: Hierarchy, p: string, depth: nat, x: string)
    requires Explore(list, p, depth).Some? && Reachable(list, p, x)
    ensures x in Explore(list, p, depth).value.nodes && list(x).Some?
    ensures LeafSet(list(x).value) <= Explore(list, p, depth).value.leaves
    decreases MAX_DEPTH + 1 - depth
  {
    if x != p {
      var q := ReachVia(list, p, x);
      var es := list(p).value;
      BranchesAre(es, q);
      AllIncludes(list, Branches(es), depth + 1, q);
      ReachableIsFound(list, q, depth + 1, x);
    }
  }

  /** The leases found are exactly those listed under reachable prefixes: never a partial set. */
  lemma FoundExactly(list: Hierarchy, root: string, lease: string)
    requires Explore(list, root, 0).Some?
    ensures lease in Explore(list, root, 0).value.leaves <==> LeaseUnder(list, root, lease)
  {
    FoundIsReachable(list, root, 0);
    if LeaseUnder(list, root, lease) {
      var p :| Reachable(list, root, p) && list(p).Some? && Entry(false, lease) in list(p).value;
      ReachableIsFound(list, root, 0, p);
      assert Entry(false, lease).path in LeafSet(list(p).value);
    }
  }

  // ------------------------------------------------------------------
  // Exactly which hierarchies are accepted
  // ------------------------------------------------------------------

  /** Where a walk down the listed sub-prefixes leads, choosing the k-th of them at each level. */
  function Goes(list: Hierarchy, p: string, way: seq<nat>): Option<string>
    decreases |way|
  {
    if way == [] then Some(p)
    else if list(p).None? || way[0] >= |Branches(list(p).value)| then None
    else Goes(list, Branches(list(p).value)[way[0]], way[1..])
  }

  function GoesAll(list: Hierarchy, ps: seq<string>, way: seq<nat>): Option<string> {
    if way == [] || way[0] >= |ps| then None else Goes(list, ps[way[0]], way[1..])
  }

  /** No chain of listings goes deeper than this, and every prefix on one can be listed. */
  ghost predicate Shallow(list: Hierarchy, p: string, depth: nat) {
    forall way :: Goes(list, p, way).Some? ==> depth + |way| <= 12 && list(Goes(list, p, way).value).Some?
  }

  lemma ShallowChild(list: Hierarchy, p: string, depth: nat, k: nat)
    requires Shallow(list, p, depth) && list(p).Some? && k < |Branches(list(p).value)|
    ensures Shallow(list, Branches(list(p).value)[k], depth + 1)
  {
    var q := Branches(list(p).value)[k];
    forall way | Goes(list, q, way).Some?
      ensures depth + 1 + |way| <= 12 && list(Goes(list, q, way).value).Some?
    {
      assert ([k] + way)[1..] == way;
      assert Goes(list, p, [k] + way) == Goes(list, q, way);
    }
  }

  lemma {:induction false} ShallowExplores(list: Hierarchy, p: string, depth: nat)
    requires Shallow(list, p, depth)
    ensures Explore(list, p, depth).Some?
    decreases MAX_DEPTH + 1 - depth, 0
  {
    assert Goes(list, p, []) == Some(p);
    forall k | 0 <= k < |Branches(list(p).value)|
      ensures Shallow(list, Branches(list(p).value)[k], depth + 1)
    {
      ShallowChild(list, p, depth, k);
    }
    AllShallow(list, Branches(list(p).value), depth + 1);
  }

  lemma {:induction false} AllShallow(list: Hierarchy, ps: seq<string>, depth: nat)
    requires forall k :: 0 <= k < |ps| ==> Shallow(list, ps[k], depth)
    ensures ExploreAll(list, ps, depth).Some?
    decreases MAX_DEPTH + 1 - depth, 1 + |ps|
  {
    if ps != [] {
      AllShallow(list, ps[..|ps| - 1], depth);
      ShallowExplores(list, ps[|ps| - 1], depth);
    }
  }

  /** An explored hierarchy is shallow, and each way to a prefix counts. */
  lemma {:induction false} WayCounts(list: Hierarchy, p: string, depth: nat, way: seq<nat>)
    requires Explore(list, p, depth).Some? && Goes(list, p, way).Some?
    ensures var x := Goes(list, p, way).value;
            depth + |way| <= 12 && list(x).Some? && Explore(list, p, depth).value.nodes[x] >= 1
    decreases MAX_DEPTH + 1 - depth, 0
  {
    if way != [] {
      WayCountsAll(list, Branches(list(p).value), depth + 1, way);
    }
  }

  lemma {:induction false} WayCountsAll(list: Hierarchy, ps: seq<string>, depth: nat, way: seq<nat>)
    requires ExploreAll(list, ps, depth).Some? && GoesAll(list, ps, way).Some?
    ensures var x := GoesAll(list, ps, way).value;
            depth + |way| - 1 <= 12 && list(x).Some? && ExploreAll(list, ps, depth).value.nodes[x] >= 1
    decreases MAX_DEPTH + 1 - depth, 1 + |ps|
  {
    var k := |ps| - 1;
    if way[0] == k {
      WayCounts(list, ps[k], depth, way[1..]);
    } else {
      WayCountsAll(list, ps[..k], depth, way);
    }
  }

  /** Two ways to one prefix count twice. */
  lemma {:induction false} TwoWays(list: Hierarchy, p: string, depth: nat, a: seq<nat>, b: seq<nat>)
    requires Explore(list, p, depth).Some? && Goes(list, p, a).Some? && Goes(list, p, a) == Goes(list, p, b) && a != b
    ensures Explore(list, p, depth).value.nodes[Goes(list, p, a).value] >= 2
    decreases MAX_DEPTH + 1 - depth, 0
  {
    var es := list(p).value;
    if a == [] {
      WayCountsAll(list, Branches(es), depth + 1, b);
    } else if b == [] {
      WayCountsAll(list, Branches(es), depth + 1, a);
    } else {
      TwoWaysAll(list, Branches(es), depth + 1, a, b);
    }
  }

  lemma {:induction false} TwoWaysAll(list: Hierarchy, ps: seq<string>, depth: nat, a: seq<nat>, b: seq<nat>)
    requires ExploreAll(list, ps, depth).Some? && a != b
    requires GoesAll(list, ps, a).Some? && GoesAll(list, ps, a) == GoesAll(list, ps, b)
    ensures ExploreAll(list, ps, depth).value.nodes[GoesAll(list, ps, a).value] >= 2
    decreases MAX_DEPTH + 1 - depth, 1 + |ps|
  {
    var k := |ps| - 1;
    if a[0] == k && b[0] == k {
      assert a == [k] + a[1..] && b == [k] + b[1..];
      TwoWays(list, ps[k], depth, a[1..], b[1..]);
    } else if a[0] != k && b[0] != k {
      TwoWaysAll(list, ps[..k], depth, a, b);
    } else {
      var last, other := if a[0] == k then a else b, if a[0] == k then b else a;
      WayCounts(list, ps[k], depth, last[1..]);
      WayCountsAll(list, ps[..k], depth, other);
    }
  }

  /** A prefix that is counted is on some way, and one counted twice on two. */
  lemma {:induction false} CountedWays(list: Hierarchy, p: string, depth: nat, x: string)
    returns (a: seq<nat>, b: seq<nat>)
    requires Explore(list, p, depth).Some? && Explore(list, p, depth).value.nodes[x] >= 1
    ensures Goes(list, p, a) == Some(x)
    ensures Explore(list, p, depth).value.nodes[x] >= 2 ==> Goes(list, p, b) == Some(x) && a != b
    decreases MAX_DEPTH + 1 - depth, 0
  {
    var es := list(p).value;
    var kids := ExploreAll(list, Branches(es), depth + 1).value.nodes;
    if kids[x] == 0 {
      a, b := [], [];
    } else {
      var c, d := CountedWaysAll(list, Branches(es), depth + 1, x);
      a, b := c, if x == p then [] else d;
    }
  }

  lemma {:induction false} CountedWaysAll(list: Hierarchy, ps: seq<string>, depth: nat, x: string)
    returns (a: seq<nat>, b: seq<nat>)
    requires ExploreAll(list, ps, depth).Some? && ExploreAll(list, ps, depth).value.nodes[x] >= 1
    ensures GoesAll(list, ps, a) == Some(x)
    ensures ExploreAll(list, ps, depth).value.nodes[x] >= 2 ==> GoesAll(list, ps, b) == Some(x) && a != b
    decreases MAX_DEPTH + 1 - depth, 1 + |ps|
  {
    var k := |ps| - 1;
    var front, last := ExploreAll(list, ps[..k], depth).value.nodes, Explore(list, ps[k], depth).value.nodes;
    if front[x] == 0 {
      var c, d := CountedWays(list, ps[k], depth, x);
      a, b := [k] + c, [k] + d;
      GoesLast(list, ps, c);
      GoesLast(list, ps, d);
      assert c != d ==> a[1..] != b[1..];
    } else {
      var c;
      a, b := CountedWaysAll(list, ps[..k], depth, x);
      GoesFront(list, ps, a);
      GoesFront(list, ps, b);
      if last[x] > 0 {
        c, b := CountedWays(list, ps[k], depth, x);
        b := [k] + c;
        GoesLast(list, ps, c);
      }
    }
  }

  lemma GoesLast(list: Hierarchy, ps: seq<string>, way: seq<nat>)
    requires ps != []
    ensures GoesAll(list, ps, [|ps| - 1] + way) == Goes(list, ps[|ps| - 1], way)
  {
    assert ([|ps| - 1] + way)[1..] == way;
  }

  lemma GoesFront(list: Hierarchy, ps: seq<string>, way: seq<nat>)
    requires ps != []
    ensures GoesAll(list, ps[..|ps| - 1], way).Some? ==>
              GoesAll(list, ps, way) == GoesAll(list, ps[..|ps| - 1], way) && way[0] < |ps| - 1
  {
  }

  /** No prefix is reached in two ways. */
  ghost predicate Tree(list: Hierarchy, root: string) {
    forall a, b :: Goes(list, root, a).Some? && Goes(list, root, a) == Goes(list, root, b) ==> a == b
  }

  ghost predicate ArePrefixes(list: Hierarchy, root: string, prefixes: set<string>) {
    forall x :: x in prefixes <==> Reachable(list, root, x)
  }

  ghost predicate AreLeases(list: Hierarchy, root: string, leases: set<string>) {
    forall x :: x in leases <==> LeaseUnder(list, root, x)
  }

  /** Within the reviewed bounds: 256 prefixes, 2000 leases, 256000 encoded bytes. */
  ghost predicate Small(list: Hierarchy, root: string) {
    exists prefixes: set<string>, leases: set<string> ::
      && ArePrefixes(list, root, prefixes) && AreLeases(list, root, leases)
      && |prefixes| <= 256 && |leases| <= 2000 && (leases != {} ==> ListBytes(Sorted(leases)) < 256000)
  }

  lemma SingleCounts(m: multiset<string>)
    requires forall x :: m[x] <= 1
    ensures |m| == |set x | x in m| && m == multiset(set x | x in m)
  {
    var s := set x | x in m;
    assert m == multiset(s);
  }

  lemma TreeIff(list: Hierarchy, root: string)
    requires Explore(list, root, 0).Some?
    ensures Tree(list, root) <==> forall x :: Explore(list, root, 0).value.nodes[x] <= 1
  {
    var nodes := Explore(list, root, 0).value.nodes;
    if Tree(list, root) {
      forall x
        ensures nodes[x] <= 1
      {
        if nodes[x] >= 2 {
          var a, b := CountedWays(list, root, 0, x);
        }
      }
    } else {
      var a, b :| Goes(list, root, a).Some? && Goes(list, root, a) == Goes(list, root, b) && a != b;
      TwoWays(list, root, 0, a, b);
    }
  }

  lemma SmallIff(list: Hierarchy, root: string)
    requires Explore(list, root, 0).Some? && forall x :: Explore(list, root, 0).value.nodes[x] <= 1
    ensures Small(list, root) <==> Reviewable(Explore(list, root, 0))
  {
    var found := Explore(list, root, 0).value;
    var prefixes := set x | x in found.nodes;
    SingleCounts(found.nodes);
    forall x
      ensures x in prefixes <==> Reachable(list, root, x)
      ensures x in found.leaves <==> LeaseUnder(list, root, x)
    {
      FoundIsReachable(list, root, 0);
      if Reachable(list, root, x) {
        ReachableIsFound(list, root, 0, x);
      }
      FoundExactly(list, root, x);
    }
    assert ArePrefixes(list, root, prefixes) && AreLeases(list, root, found.leaves);
    ListSize(found.leaves);
    if found.leaves == {} {
      assert Sum(found.leaves, Weight) == 0;
    }
    if Small(list, root) {
      var ps: set<string>, ls: set<string> :|
        && ArePrefixes(list, root, ps) && AreLeases(list, root, ls)
        && |ps| <= 256 && |ls| <= 2000 && (ls != {} ==> ListBytes(Sorted(ls)) < 256000);
      assert ps == prefixes && ls == found.leaves;
    }
  }

  /**
   * A hierarchy is accepted if and only if no chain of listings has more than
   * twelve steps, each prefix on one can be listed, none is reached in two ways,
   * and the prefixes and leases are within the reviewed bounds.
   */
  lemma ReviewableIff(list: Hierarchy, root: string)
    ensures Reviewable(Explore(list, root, 0)) <==> Shallow(list, root, 0) && Tree(list, root) && Small(list, root)
  {
    if Shallow(list, root, 0) {
      ShallowExplores(list, root, 0);
    }
    if Explore(list, root, 0).Some? {
      forall way | Goes(list, root, way).Some?
        ensures |way| <= 12 && list(Goes(list, root, way).value).Some?
      {
        WayCounts(list, root, 0, way);
      }
      TreeIff(list, root);
      if Tree(list, root) {
        SmallIff(list, root);
      }
    }
  }
}
