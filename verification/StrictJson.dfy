/**
 The two checks the strict decoder adds to a JSON parser: no object repeats a key, and a
 worklist over the decoded value finds too deep a container or a string that is not Unicode.
 */
module StrictJson {
  import opened DeliveryTypes

  const MAX_JSON_NESTING: nat := 128

  /** Code points, as the parser's escapes may spell them. */
  type Chars = seq<int>

  datatype Json =
    | Scalar
    | Str(text: Chars)
    | Arr(items: seq<Json>)
    | Obj(members: seq<Member>)

  datatype Member = Member(key: Chars, value: Json)

  /** No surrogate, so UTF-8 can encode it. */
  predicate Encodable(s: Chars) {
    forall k :: 0 <= k < |s| ==> !(0xD800 <= s[k] <= 0xDFFF)
  }

  // ---------------------------------------------------------------- the definition

  /** Every code unit is the number of a character; UTF-16 keeps 0xD800 to 0xDFFF for its pairs. */
  ghost predicate NoSurrogate(s: Chars) {
    forall c :: c in s ==> c < 0xD800 || 0xDFFF < c
  }

  ghost predicate Fits(v: Json, depth: nat)
    decreases v
  {
    match v
    case Scalar => true
    case Str(text) => NoSurrogate(text)
    case Arr(items) => depth <= 128 && forall k :: 0 <= k < |items| ==> Fits(items[k], depth + 1)
    case Obj(members) =>
      && depth <= 128
      && forall k :: 0 <= k < |members| ==> NoSurrogate(members[k].key) && Fits(members[k].value, depth + 1)
  }

  // ---------------------------------------------------------------- duplicate keys

  ghost predicate UniqueKeys(members: seq<Member>) {
    forall i, j :: 0 <= i < j < |members| ==> members[i].key != members[j].key
  }

  /** The hook: the pairs of one object, in order, into a dictionary. */
  method UniqueObject(pairs: seq<Member>) returns (result: Option<map<Chars, Json>>)
    ensures result.Some? <==> UniqueKeys(pairs)
    ensures result.Some? ==> result.value.Keys == (set k | 0 <= k < |pairs| :: pairs[k].key)
                             && forall k :: 0 <= k < |pairs| ==> result.value[pairs[k].key] == pairs[k].value
  {
    var table: map<Chars, Json> := map[];
    var n := 0;
    while n < |pairs|
      invariant 0 <= n <= |pairs|
      invariant UniqueKeys(pairs[..n])
      invariant table.Keys == set k | 0 <= k < n :: pairs[k].key
      invariant forall k :: 0 <= k < n ==> table[pairs[k].key] == pairs[k].value
    {
      if pairs[n].key in table {
        return None;
      }
      table := table[pairs[n].key := pairs[n].value];
      n := n + 1;
    }
    assert pairs[..n] == pairs;
    result := Some(table);
  }

  // ---------------------------------------------------------------- the worklist

  /** A value still to be looked at, and its nesting level. */
  datatype Pending = Pending(item: Json, depth: nat)

  ghost predicate AllFit(pending: seq<Pending>) {
    forall k :: 0 <= k < |pending| ==> Fits(pending[k].item, pending[k].depth)
  }

  lemma AllFitAppend(a: seq<Pending>, b: seq<Pending>)
    ensures AllFit(a + b) <==> AllFit(a) && AllFit(b)
  {
    var ab := a + b;
    assert forall k :: 0 <= k < |a| ==> ab[k] == a[k];
    assert forall k :: 0 <= k < |b| ==> ab[|a| + k] == b[k];
    if AllFit(a) && AllFit(b) {
      forall k | 0 <= k < |ab| ensures Fits(ab[k].item, ab[k].depth) {
        assert k >= |a| ==> ab[k] == b[k - |a|];
      }
    }
  }

  function KeysOf(members: seq<Member>, depth: nat): seq<Pending> {
    seq(|members|, k requires 0 <= k < |members| => Pending(Str(members[k].key), depth))
  }

  function ValuesOf(members: seq<Member>, depth: nat): seq<Pending> {
    seq(|members|, k requires 0 <= k < |members| => Pending(members[k].value, depth))
  }

  function ItemsOf(items: seq<Json>, depth: nat): seq<Pending> {
    seq(|items|, k requires 0 <= k < |items| => Pending(items[k], depth))
  }

  /** What a popped value puts on the list. */
  function Children(p: Pending): seq<Pending> {
    match p.item
    case Scalar => []
    case Str(_) => []
    case Arr(items) => ItemsOf(items, p.depth + 1)
    case Obj(members) => KeysOf(members, p.depth + 1) + ValuesOf(members, p.depth + 1)
  }

  predicate Acceptable(p: Pending) {
    && (p.item.Arr? || p.item.Obj? ==> p.depth <= MAX_JSON_NESTING)
    && (p.item.Str? ==> Encodable(p.item.text))
  }

  lemma EncodableIs(s: Chars)
    ensures Encodable(s) <==> NoSurrogate(s)
  {
    assert forall k :: 0 <= k < |s| ==> s[k] in s;
  }

  /** A value fits when it is acceptable itself and its children fit one level deeper. */
  lemma FitsByChildren(p: Pending)
    ensures Fits(p.item, p.depth) <==> Acceptable(p) && AllFit(Children(p))
  {
    match p.item
    case Scalar =>
    case Str(text) => EncodableIs(text);
    case Arr(items) =>
      var c := ItemsOf(items, p.depth + 1);
      assert forall k :: 0 <= k < |items| ==> c[k] == Pending(items[k], p.depth + 1);
    case Obj(members) =>
      var keys, values := KeysOf(members, p.depth + 1), ValuesOf(members, p.depth + 1);
      AllFitAppend(keys, values);
      forall k | 0 <= k < |members| ensures Encodable(members[k].key) <==> NoSurrogate(members[k].key) {
        EncodableIs(members[k].key);
      }
      assert forall k :: 0 <= k < |members| ==>
          keys[k] == Pending(Str(members[k].key), p.depth + 1) && values[k] == Pending(members[k].value, p.depth + 1);
      assert forall k :: 0 <= k < |members| ==> (Fits(keys[k].item, keys[k].depth) <==> Encodable(members[k].key));
  }

  // ---------------------------------------------------------------- it ends

  ghost function Weight(v: Json): nat
    decreases v, 0
  {
    match v
    case Scalar => 1
    case Str(_) => 1
    case Arr(items) => 1 + ItemsWeight(items)
    case Obj(members) => 1 + MembersWeight(members)
  }

  ghost function ItemsWeight(items: seq<Json>): nat
    decreases items, 1
  {
    if items == [] then 0 else ItemsWeight(items[..|items| - 1]) + Weight(items[|items| - 1])
  }

  ghost function MembersWeight(members: seq<Member>): nat
    decreases members, 1
  {
    if members == [] then 0
    else MembersWeight(members[..|members| - 1]) + 1 + Weight(members[|members| - 1].value)
  }

  ghost function ListWeight(pending: seq<Pending>): nat {
    if pending == [] then 0 else ListWeight(pending[..|pending| - 1]) + Weight(pending[|pending| - 1].item)
  }

  lemma {:induction false} ListWeightAppend(a: seq<Pending>, b: seq<Pending>)
    ensures ListWeight(a + b) == ListWeight(a) + ListWeight(b)
  {
    if b == [] {
      assert a + b == a;
    } else {
      ListWeightAppend(a, b[..|b| - 1]);
      assert (a + b)[..|a + b| - 1] == a + b[..|b| - 1];
    }
  }

  lemma {:induction false} ItemsListed(items: seq<Json>, depth: nat)
    ensures ListWeight(ItemsOf(items, depth)) == ItemsWeight(items)
  {
    if items != [] {
      var init := items[..|items| - 1];
      ItemsListed(init, depth);
      assert ItemsOf(items, depth)[..|items| - 1] == ItemsOf(init, depth);
    }
  }

  lemma {:induction false} MembersListed(members: seq<Member>, depth: nat)
    ensures ListWeight(KeysOf(members, depth)) + ListWeight(ValuesOf(members, depth)) == MembersWeight(members)
  {
    if members != [] {
      var init := members[..|members| - 1];
      MembersListed(init, depth);
      assert KeysOf(members, depth)[..|members| - 1] == KeysOf(init, depth);
      assert ValuesOf(members, depth)[..|members| - 1] == ValuesOf(init, depth);
    }
  }

  /** Its children weigh less than a value. */
  lemma ChildrenWeigh(p: Pending)
    ensures ListWeight(Children(p)) < Weight(p.item)
  {
    match p.item
    case Scalar =>
    case Str(_) =>
    case Arr(items) => ItemsListed(items, p.depth + 1);
    case Obj(members) =>
      MembersListed(members, p.depth + 1);
      ListWeightAppend(KeysOf(members, p.depth + 1), ValuesOf(members, p.depth + 1));
  }

  /** The worklist decides the recursive definition, for every value. */
  method CheckValue(value: Json) returns (ok: bool)
    ensures ok <==> Fits(value, 1)
  {
    hide Fits, AllFit, ListWeight, Weight, ItemsOf, KeysOf, ValuesOf;
    var pending := [Pending(value, 1)];
    AllFitOne(pending[0]);
    while pending != []
      invariant AllFit(pending) <==> Fits(value, 1)
      decreases ListWeight(pending)
    {
      var p, rest := pending[|pending| - 1], pending[..|pending| - 1];
      assert pending == rest + [p];
      AllFitAppend(rest, [p]);
      AllFitOne(p);
      FitsByChildren(p);
      if (p.item.Arr? || p.item.Obj?) && p.depth > MAX_JSON_NESTING {
        return false;
      }
      if p.item.Str? && !Encodable(p.item.text) {
        return false;
      }
      AllFitAppend(rest, Children(p));
      ListWeightAppend(rest, Children(p));
      ChildrenWeigh(p);
      ListWeightOne(rest, p);
      pending := rest;
      match p.item {
        case Scalar =>
        case Str(_) =>
        case Obj(members) =>
          pending := pending + KeysOf(members, p.depth + 1);
          pending := pending + ValuesOf(members, p.depth + 1);
          assert pending == rest + Children(p);
        case Arr(items) =>
          pending := pending + ItemsOf(items, p.depth + 1);
      }
      assert pending == rest + Children(p);
    }
    NothingPends();
    return true;
  }

  lemma NothingPends()
    ensures AllFit([])
  {
  }

  lemma ListWeightOne(rest: seq<Pending>, p: Pending)
    ensures ListWeight(rest + [p]) == ListWeight(rest) + Weight(p.item)
  {
    assert (rest + [p])[..|rest|] == rest;
  }

  lemma AllFitOne(p: Pending)
    ensures AllFit([p]) <==> Fits(p.item, p.depth)
  {
    assert [p][0] == p;
  }
}
