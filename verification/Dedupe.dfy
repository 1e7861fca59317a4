/**
 Leaving out what was already reported. Only exact keys and exact content count, and two keys
 are the same only when an operator declared them to be; what the history holds is a
 parameter. Canonical JSON and its digest are injective, so keys and fingerprints are values.
 */
module Dedupe {
  import opened DeliveryTypes
  import opened Unicode

  type Field = int

  datatype Value = Null | Text(text: string) | Data(data: int)

  type Fields = map<Field, Value>

  type EntityKey = seq<Value>

  /** An alias group: the complete identities of one thing. */
  datatype Group = Group(identities: seq<Fields>, evidence: string)

  datatype Config = Config(enabled: bool, keyFields: seq<Field>, contentFields: seq<Field>, groups: seq<Group>)

  predicate Missing(r: Fields, f: Field) {
    f !in r || r[f].Null? || (r[f].Text? && AllSpace(r[f].text))
  }

  /** `derive_entity_key`: the values of the key fields, all of them present. */
  function EntityKeyOf(r: Fields, keyFields: seq<Field>): Option<EntityKey> {
    if keyFields == [] || exists k :: 0 <= k < |keyFields| && Missing(r, keyFields[k]) then None
    else Some(seq(|keyFields|, k requires 0 <= k < |keyFields| && !Missing(r, keyFields[k]) => r[keyFields[k]]))
  }

  function Distinct(fields: seq<Field>): set<Field> {
    set k | 0 <= k < |fields| :: fields[k]
  }

  /** The content fields of a record, all of them present. */
  function Fingerprint(r: Fields, contentFields: seq<Field>): Option<Fields> {
    if contentFields == [] || exists k :: 0 <= k < |contentFields| && (contentFields[k] !in r || r[contentFields[k]].Null?)
    then None
    else Some(map f | f in Distinct(contentFields) && f in r :: r[f])
  }

  /** A record has a key when no key field is absent, null or blank; equal keys are equal values of every key field. */
  lemma KeysAreValues(a: Fields, b: Fields, keyFields: seq<Field>)
    ensures EntityKeyOf(a, keyFields).Some? <==>
              keyFields != [] && forall k :: 0 <= k < |keyFields| ==>
                && keyFields[k] in a && !a[keyFields[k]].Null?
                && (a[keyFields[k]].Text? ==> exists i :: 0 <= i < |a[keyFields[k]].text| && !Space(a[keyFields[k]].text[i]))
    ensures EntityKeyOf(a, keyFields).Some? && EntityKeyOf(b, keyFields).Some? ==>
              (EntityKeyOf(a, keyFields) == EntityKeyOf(b, keyFields) <==>
                 forall k :: 0 <= k < |keyFields| ==> a[keyFields[k]] == b[keyFields[k]])
  {
    var x, y := EntityKeyOf(a, keyFields), EntityKeyOf(b, keyFields);
    if x.Some? && y.Some? {
      assert forall k :: 0 <= k < |keyFields| ==> !Missing(a, keyFields[k]) && !Missing(b, keyFields[k]);
      assert forall k :: 0 <= k < |keyFields| ==> x.value[k] == a[keyFields[k]] && y.value[k] == b[keyFields[k]];
      if forall k :: 0 <= k < |keyFields| ==> a[keyFields[k]] == b[keyFields[k]] {
        assert x.value == y.value;
      }
    }
  }

  /** Contents can be compared when no content field is absent or null; equal fingerprints are equal contents. */
  lemma FingerprintsAreContents(a: Fields, b: Fields, contentFields: seq<Field>)
    ensures Fingerprint(a, contentFields).Some? <==>
              contentFields != [] && forall k :: 0 <= k < |contentFields| ==> contentFields[k] in a && !a[contentFields[k]].Null?
    ensures Fingerprint(a, contentFields).Some? && Fingerprint(b, contentFields).Some? ==>
              (Fingerprint(a, contentFields) == Fingerprint(b, contentFields) <==>
                 forall k :: 0 <= k < |contentFields| ==> a[contentFields[k]] == b[contentFields[k]])
  {
    var x, y := Fingerprint(a, contentFields), Fingerprint(b, contentFields);
    if x.Some? && y.Some? {
      forall k | 0 <= k < |contentFields|
        ensures contentFields[k] in x.value && x.value[contentFields[k]] == a[contentFields[k]]
        ensures contentFields[k] in y.value && y.value[contentFields[k]] == b[contentFields[k]]
      {
        assert contentFields[k] in Distinct(contentFields);
      }
      if forall k :: 0 <= k < |contentFields| ==> a[contentFields[k]] == b[contentFields[k]] {
        assert x.value == y.value;
      }
    }
  }

  // ---------------------------------------------------------------- alias groups

  predicate Complete(identity: Fields, keyFields: seq<Field>) {
    && identity.Keys == Distinct(keyFields)
    && forall f :: f in identity ==> identity[f].Text? && !AllSpace(identity[f].text) && |identity[f].text| <= 256
  }

  predicate GroupFits(g: Group, keyFields: seq<Field>) {
    && !AllSpace(g.evidence) && |g.evidence| <= 2048 && 2 <= |g.identities| <= 8 && keyFields != []
    && forall k :: 0 <= k < |g.identities| ==> Complete(g.identities[k], keyFields)
  }

  /** An identity of the configuration, by group and position. */
  predicate At(c: Config, g: nat, k: nat) {
    g < |c.groups| && k < |c.groups[g].identities|
  }

  function IdentityAt(c: Config, g: nat, k: nat): Fields
    requires At(c, g, k)
  {
    c.groups[g].identities[k]
  }

  /** No identity is repeated, in one group or across groups. */
  ghost predicate NoOverlap(c: Config) {
    forall g, k, h, j :: At(c, g, k) && At(c, h, j) && KeyAt(c, g, k) == KeyAt(c, h, j) ==> g == h && k == j
  }

  function KeyAt(c: Config, g: nat, k: nat): Option<EntityKey>
    requires At(c, g, k)
  {
    EntityKeyOf(IdentityAt(c, g, k), c.keyFields)
  }

  ghost predicate ValidAliases(c: Config) {
    && |c.groups| <= 128
    && (forall g :: 0 <= g < |c.groups| ==> GroupFits(c.groups[g], c.keyFields))
    && NoOverlap(c)
  }

  /** Every group gives its grounds and two to eight full identities, and no identity is spelt twice. */
  ghost predicate Sensible(c: Config) {
    && |c.groups| <= 128
    && (forall g: nat :: g < |c.groups| ==> GroupSensible(c, g))
    && Apart(c)
  }

  ghost predicate GroupSensible(c: Config, g: nat)
    requires g < |c.groups|
  {
    Grounded(c.groups[g]) && c.keyFields != [] && forall k: nat :: At(c, g, k) ==> Spelt(c.groups[g].identities[k], c.keyFields)
  }

  /** No two identities agree on every key field. */
  ghost predicate Apart(c: Config) {
    forall g: nat, k: nat, h: nat, j: nat ::
      At(c, g, k) && At(c, h, j) && AgreeOn(c.keyFields, c.groups[g].identities[k], c.groups[h].identities[j]) ==> g == h && k == j
  }

  ghost predicate Grounded(g: Group) {
    && (exists i :: 0 <= i < |g.evidence| && !Space(g.evidence[i])) && |g.evidence| <= 2048
    && 2 <= |g.identities| <= 8
  }

  /** Each key field, nothing else, with a short text that is not blank. */
  ghost predicate Spelt(identity: Fields, keyFields: seq<Field>) {
    && (forall f :: f in identity <==> f in keyFields)
    && forall f :: f in identity ==>
         && identity[f].Text? && |identity[f].text| <= 256
         && exists i :: 0 <= i < |identity[f].text| && !Space(identity[f].text[i])
  }

  ghost predicate AgreeOn(keyFields: seq<Field>, a: Fields, b: Fields) {
    forall f :: f in keyFields ==> f in a && f in b && a[f] == b[f]
  }

  lemma SpeltIs(identity: Fields, keyFields: seq<Field>)
    ensures Spelt(identity, keyFields) <==> Complete(identity, keyFields)
  {
    assert forall f :: f in Distinct(keyFields) <==> f in keyFields;
    if forall f :: f in identity <==> f in keyFields {
      assert identity.Keys == Distinct(keyFields);
    }
  }

  lemma AgreeIs(a: Fields, b: Fields, keyFields: seq<Field>)
    requires Complete(a, keyFields) && Complete(b, keyFields) && keyFields != []
    ensures AgreeOn(keyFields, a, b) <==> EntityKeyOf(a, keyFields) == EntityKeyOf(b, keyFields)
  {
    CompleteHasKey(a, keyFields);
    CompleteHasKey(b, keyFields);
    KeysAreValues(a, b, keyFields);
    assert forall f :: f in Distinct(keyFields) <==> f in keyFields;
    hide EntityKeyOf;
  }

  lemma SensibleIs(c: Config)
    ensures Sensible(c) <==> ValidAliases(c)
  {
    hide GroupSensible, GroupFits, NoOverlap, Apart;
    forall g: nat | g < |c.groups| ensures GroupSensible(c, g) <==> GroupFits(c.groups[g], c.keyFields) {
      GroupIsSensible(c, g);
    }
    if forall g :: 0 <= g < |c.groups| ==> GroupFits(c.groups[g], c.keyFields) {
      NoOverlapIs(c);
    }
  }

  lemma GroupIsSensible(c: Config, g: nat)
    requires g < |c.groups|
    ensures GroupSensible(c, g) <==> GroupFits(c.groups[g], c.keyFields)
  {
    forall k: nat | At(c, g, k)
      ensures Spelt(c.groups[g].identities[k], c.keyFields) <==> Complete(c.groups[g].identities[k], c.keyFields)
    {
      SpeltIs(c.groups[g].identities[k], c.keyFields);
    }
    hide Spelt, Complete;
    if forall k: nat :: At(c, g, k) ==> Spelt(c.groups[g].identities[k], c.keyFields) {
      forall k | 0 <= k < |c.groups[g].identities| ensures Complete(c.groups[g].identities[k], c.keyFields) {
        assert At(c, g, k);
      }
    }
  }

  lemma NoOverlapIs(c: Config)
    requires forall g :: 0 <= g < |c.groups| ==> GroupFits(c.groups[g], c.keyFields)
    ensures NoOverlap(c) <==> Apart(c)
  {
    forall g: nat, k: nat, h: nat, j: nat | At(c, g, k) && At(c, h, j)
      ensures AgreeOn(c.keyFields, c.groups[g].identities[k], c.groups[h].identities[j]) <==> KeyAt(c, g, k) == KeyAt(c, h, j)
    {
      AgreeIs(IdentityAt(c, g, k), IdentityAt(c, h, j), c.keyFields);
    }
    hide KeyAt, AgreeOn, GroupFits;
  }

  /** The keys of the identities before position k of group g. */
  ghost predicate SeenIs(c: Config, seen: set<EntityKey>, g: nat, k: nat) {
    && (forall h, j :: Before(c, h, j, g, k) ==>
          KeyAt(c, h, j).Some? && KeyAt(c, h, j).value in seen)
    && (forall key :: key in seen ==> SeenAt(c, key, g, k))
  }

  ghost predicate SeenAt(c: Config, key: EntityKey, g: nat, k: nat) {
    exists h, j :: Before(c, h, j, g, k) && KeyAt(c, h, j) == Some(key)
  }

  predicate Before(c: Config, h: nat, j: nat, g: nat, k: nat) {
    At(c, h, j) && (h < g || (h == g && j < k))
  }

  ghost predicate ApartBefore(c: Config, g: nat, k: nat) {
    forall h, j, h', j' :: Before(c, h, j, g, k) && Before(c, h', j', g, k)
                           && KeyAt(c, h, j) == KeyAt(c, h', j')
                           ==> h == h' && j == j'
  }

  lemma CompleteHasKey(identity: Fields, keyFields: seq<Field>)
    requires Complete(identity, keyFields) && keyFields != []
    ensures EntityKeyOf(identity, keyFields).Some?
  {
    forall k | 0 <= k < |keyFields| ensures !Missing(identity, keyFields[k]) {
      assert keyFields[k] in Distinct(keyFields);
    }
  }

  /** The two loops of `validate_entity_aliases` over one `seen` set. */
  method ValidateAliases(c: Config) returns (ok: bool)
    ensures ok <==> ValidAliases(c)
    ensures ok <==> Sensible(c)
  {
    SensibleIs(c);
    hide Sensible, Complete, EntityKeyOf;
    if |c.groups| > 128 {
      return false;
    }
    var seen: set<EntityKey> := {};
    var g := 0;
    while g < |c.groups|
      invariant 0 <= g <= |c.groups|
      invariant forall h :: 0 <= h < g ==> GroupFits(c.groups[h], c.keyFields)
      invariant SeenIs(c, seen, g, 0) && ApartBefore(c, g, 0)
    {
      if !GroupFits(c.groups[g], c.keyFields) {
        return false;
      }
      var k := 0;
      while k < |c.groups[g].identities|
        invariant 0 <= k <= |c.groups[g].identities|
        invariant SeenIs(c, seen, g, k) && ApartBefore(c, g, k)
      {
        CompleteHasKey(IdentityAt(c, g, k), c.keyFields);
        var key := KeyAt(c, g, k).value;
        if key in seen {
          Repeats(c, key, g, k);
          return false;
        }
        SeenGrows(c, seen, key, g, k);
        seen := seen + {key};
        k := k + 1;
      }
      NextGroup(c, seen, g, k);
      g := g + 1;
    }
    assert NoOverlap(c) by {
      AllApart(c);
    }
    return true;
  }

  lemma Repeats(c: Config, key: EntityKey, g: nat, k: nat)
    requires At(c, g, k) && KeyAt(c, g, k) == Some(key) && SeenAt(c, key, g, k)
    ensures !NoOverlap(c)
  {
    var h, j :| Before(c, h, j, g, k) && KeyAt(c, h, j) == Some(key);
    assert At(c, h, j);
  }

  lemma SeenGrows(c: Config, seen: set<EntityKey>, key: EntityKey, g: nat, k: nat)
    requires At(c, g, k) && KeyAt(c, g, k) == Some(key) && key !in seen
    requires SeenIs(c, seen, g, k) && ApartBefore(c, g, k)
    ensures SeenIs(c, seen + {key}, g, k + 1) && ApartBefore(c, g, k + 1)
  {
    hide KeyAt;
    assert Before(c, g, k, g, k + 1);
    forall h, j | Before(c, h, j, g, k + 1) ensures Before(c, h, j, g, k) || (h == g && j == k) {
    }
    forall x | x in seen + {key} ensures SeenAt(c, x, g, k + 1) {
      if x in seen {
        var h, j :| Before(c, h, j, g, k) && KeyAt(c, h, j) == Some(x);
        assert Before(c, h, j, g, k + 1);
      }
    }
  }

  lemma NextGroup(c: Config, seen: set<EntityKey>, g: nat, k: nat)
    requires g < |c.groups| && k == |c.groups[g].identities|
    requires SeenIs(c, seen, g, k) && ApartBefore(c, g, k)
    ensures SeenIs(c, seen, g + 1, 0) && ApartBefore(c, g + 1, 0)
  {
    hide KeyAt;
    forall h, j ensures Before(c, h, j, g + 1, 0) <==> Before(c, h, j, g, k) {
    }
    forall x | x in seen ensures SeenAt(c, x, g + 1, 0) {
      var h, j :| Before(c, h, j, g, k) && KeyAt(c, h, j) == Some(x);
      assert Before(c, h, j, g + 1, 0);
    }
  }

  lemma AllApart(c: Config)
    requires ApartBefore(c, |c.groups|, 0)
    ensures NoOverlap(c)
  {
    hide KeyAt;
    forall h, j | At(c, h, j) ensures Before(c, h, j, |c.groups|, 0) {
    }
  }

  // ---------------------------------------------------------------- equivalent records

  /** Whether group g names this key. */
  ghost predicate Names(c: Config, g: nat, key: EntityKey)
    requires g < |c.groups|
  {
    exists k :: At(c, g, k) && KeyAt(c, g, k) == Some(key)
  }

  /** Two keys are the same thing: equal, or declared in one group. */
  ghost predicate Same(c: Config, a: EntityKey, b: EntityKey) {
    a == b || exists g :: 0 <= g < |c.groups| && Names(c, g, a) && Names(c, g, b)
  }

  /** Validation makes it an equivalence: a key belongs to one group at most. */
  lemma SameIsEquivalence(c: Config, x: EntityKey, y: EntityKey, z: EntityKey)
    requires ValidAliases(c)
    ensures Same(c, x, x)
    ensures Same(c, x, y) ==> Same(c, y, x)
    ensures Same(c, x, y) && Same(c, y, z) ==> Same(c, x, z)
  {
    hide KeyAt, GroupFits;
    if Same(c, x, y) && Same(c, y, z) && x != y && y != z {
      var g :| 0 <= g < |c.groups| && Names(c, g, x) && Names(c, g, y);
      var h :| 0 <= h < |c.groups| && Names(c, h, y) && Names(c, h, z);
      OneGroup(c, y, g, h);
    }
  }

  lemma OneGroup(c: Config, key: EntityKey, g: nat, h: nat)
    requires NoOverlap(c) && g < |c.groups| && h < |c.groups| && Names(c, g, key) && Names(c, h, key)
    ensures g == h
  {
    hide KeyAt;
    var k :| At(c, g, k) && KeyAt(c, g, k) == Some(key);
    var j :| At(c, h, j) && KeyAt(c, h, j) == Some(key);
  }

  /** dict(record, **identity). */
  function Renamed(r: Fields, identity: Fields): Fields {
    r + identity
  }

  /** The first group that names the key, or the number of groups. */
  function GroupOf(c: Config, key: Option<EntityKey>, from: nat): (g: nat)
    requires from <= |c.groups|
    ensures from <= g <= |c.groups|
    ensures g < |c.groups| ==> Lists(c.groups[g], c.keyFields, key)
    ensures forall h :: from <= h < g ==> !Lists(c.groups[h], c.keyFields, key)
    decreases |c.groups| - from
  {
    if from == |c.groups| || Lists(c.groups[from], c.keyFields, key) then from else GroupOf(c, key, from + 1)
  }

  predicate Lists(g: Group, keyFields: seq<Field>, key: Option<EntityKey>) {
    exists k :: 0 <= k < |g.identities| && EntityKeyOf(g.identities[k], keyFields) == key
  }

  lemma ListsIsNames(c: Config, g: nat, key: EntityKey)
    requires g < |c.groups|
    ensures Lists(c.groups[g], c.keyFields, Some(key)) <==> Names(c, g, key)
  {
    hide EntityKeyOf;
    if Lists(c.groups[g], c.keyFields, Some(key)) {
      var k :| 0 <= k < |c.groups[g].identities| && EntityKeyOf(c.groups[g].identities[k], c.keyFields) == Some(key);
      assert At(c, g, k) && KeyAt(c, g, k) == Some(key);
    }
    if Names(c, g, key) {
      var k: nat :| At(c, g, k) && KeyAt(c, g, k) == Some(key);
      assert EntityKeyOf(c.groups[g].identities[k], c.keyFields) == Some(key);
    }
  }

  /** `equivalent_records`: the record under every identity of its group, or as it is. */
  function Equivalents(r: Fields, c: Config): seq<Fields> {
    var g := GroupOf(c, EntityKeyOf(r, c.keyFields), 0);
    if g == |c.groups| then [r]
    else seq(|c.groups[g].identities|, k requires 0 <= k < |c.groups[g].identities| => Renamed(r, c.groups[g].identities[k]))
  }

  lemma RenamedKey(r: Fields, identity: Fields, keyFields: seq<Field>)
    requires Complete(identity, keyFields) && keyFields != []
    ensures EntityKeyOf(Renamed(r, identity), keyFields) == EntityKeyOf(identity, keyFields)
  {
    CompleteHasKey(identity, keyFields);
    var m := Renamed(r, identity);
    forall k | 0 <= k < |keyFields|
      ensures keyFields[k] in identity && m[keyFields[k]] == identity[keyFields[k]]
      ensures !Missing(m, keyFields[k])
    {
      assert keyFields[k] in Distinct(keyFields);
      assert !Missing(identity, keyFields[k]);
    }
    assert EntityKeyOf(m, keyFields).value == EntityKeyOf(identity, keyFields).value;
  }

  /** The keys of the candidates are exactly the keys that are the same as the record's. */
  lemma CandidatesAreTheClass(r: Fields, c: Config, key: EntityKey, other: EntityKey)
    requires ValidAliases(c) && EntityKeyOf(r, c.keyFields) == Some(key)
    ensures Same(c, key, other) <==>
              exists k :: 0 <= k < |Equivalents(r, c)| && EntityKeyOf(Equivalents(r, c)[k], c.keyFields) == Some(other)
  {
    var es, g := Equivalents(r, c), GroupOf(c, Some(key), 0);
    if g == |c.groups| {
      assert es[0] == r;
      forall h | 0 <= h < |c.groups| ensures !Names(c, h, key) {
        ListsIsNames(c, h, key);
      }
    } else {
      ListsIsNames(c, g, key);
      forall k | 0 <= k < |es| ensures EntityKeyOf(es[k], c.keyFields) == KeyAt(c, g, k) {
        RenamedKey(r, IdentityAt(c, g, k), c.keyFields);
      }
      CandidateNames(c, es, g, other);
      if Same(c, key, other) && key != other {
        var h :| 0 <= h < |c.groups| && Names(c, h, key) && Names(c, h, other);
        OneGroup(c, key, g, h);
      }
    }
  }

  lemma CandidateNames(c: Config, es: seq<Fields>, g: nat, other: EntityKey)
    requires g < |c.groups| && |es| == |c.groups[g].identities|
    requires forall k :: 0 <= k < |es| ==> EntityKeyOf(es[k], c.keyFields) == KeyAt(c, g, k)
    ensures Names(c, g, other) <==> exists k :: 0 <= k < |es| && EntityKeyOf(es[k], c.keyFields) == Some(other)
  {
    hide KeyAt, EntityKeyOf;
    if Names(c, g, other) {
      var k: nat :| At(c, g, k) && KeyAt(c, g, k) == Some(other);
      assert EntityKeyOf(es[k], c.keyFields) == Some(other);
    }
    if k :| 0 <= k < |es| && EntityKeyOf(es[k], c.keyFields) == Some(other) {
      assert At(c, g, k);
    }
  }

  // ---------------------------------------------------------------- the decision

  /** The history of reported items: exact keys with exact content. */
  type History = (Option<EntityKey>, Option<Fields>) -> bool

  predicate Comparable(r: Fields, c: Config) {
    EntityKeyOf(r, c.keyFields).Some? && Fingerprint(r, c.contentFields).Some?
  }

  /** Some equivalent record was reported with the content it would have. */
  predicate Reported(r: Fields, c: Config, history: History) {
    exists k :: 0 <= k < |Equivalents(r, c)|
      && history(EntityKeyOf(Equivalents(r, c)[k], c.keyFields), Fingerprint(Equivalents(r, c)[k], c.contentFields))
  }

  predicate LeftOut(r: Fields, c: Config, history: History) {
    Comparable(r, c) && Reported(r, c, history)
  }

  lemma RenamedTwice(r: Fields, a: Fields, b: Fields)
    requires a.Keys == b.Keys
    ensures Renamed(Renamed(r, a), b) == Renamed(r, b)
  {
  }

  /** Fields that are all present stay so when others are put in their place. */
  lemma RenamedComparable(r: Fields, identity: Fields, c: Config)
    requires Complete(identity, c.keyFields) && EntityKeyOf(r, c.keyFields).Some?
    ensures Comparable(Renamed(r, identity), c) <==> Comparable(r, c)
  {
    RenamedKey(r, identity, c.keyFields);
    CompleteHasKey(identity, c.keyFields);
    var m := Renamed(r, identity);
    forall f | f in Distinct(c.keyFields) ensures f in r && !r[f].Null? && f in m && !m[f].Null? {
      var k :| 0 <= k < |c.keyFields| && c.keyFields[k] == f;
      assert !Missing(r, c.keyFields[k]);
    }
    forall f ensures (f !in m || m[f].Null?) <==> (f !in r || r[f].Null?) {
    }
  }

  /** Naming a record by a declared alias of its own identity never changes the decision. */
  lemma DecisionIgnoresAlias(r: Fields, c: Config, history: History, key: EntityKey, g: nat, k: nat)
    requires ValidAliases(c) && EntityKeyOf(r, c.keyFields) == Some(key)
    requires At(c, g, k) && Names(c, g, key)
    ensures LeftOut(Renamed(r, IdentityAt(c, g, k)), c, history) <==> LeftOut(r, c, history)
    ensures Equivalents(Renamed(r, IdentityAt(c, g, k)), c) == Equivalents(r, c)
  {
    var identity := IdentityAt(c, g, k);
    assert GroupFits(c.groups[g], c.keyFields);
    var m := Renamed(r, identity);
    RenamedKey(r, identity, c.keyFields);
    CompleteHasKey(identity, c.keyFields);
    RenamedComparable(r, identity, c);
    var key' := EntityKeyOf(identity, c.keyFields).value;
    assert Names(c, g, key');
    hide EntityKeyOf, Fingerprint, Complete, NoOverlap, KeyAt, Renamed;
    GroupIs(c, key, g);
    GroupIs(c, key', g);
    var es, es' := Equivalents(r, c), Equivalents(m, c);
    forall j | 0 <= j < |es| ensures es'[j] == es[j] {
      RenamedTwice(r, identity, IdentityAt(c, g, j));
    }
    assert es' == es;
  }

  lemma GroupIs(c: Config, key: EntityKey, g: nat)
    requires NoOverlap(c) && g < |c.groups| && Names(c, g, key)
    ensures GroupOf(c, Some(key), 0) == g
  {
    var h := GroupOf(c, Some(key), 0);
    ListsIsNames(c, g, key);
    if h < |c.groups| {
      ListsIsNames(c, h, key);
      OneGroup(c, key, g, h);
    }
  }

  /**
   A record is left out when it is comparable and some identity declared for its key, or its
   own key when none is, was reported with the content the record has under that identity.
   */
  lemma LeftOutIs(r: Fields, c: Config, history: History, key: EntityKey)
    requires ValidAliases(c) && EntityKeyOf(r, c.keyFields) == Some(key)
    ensures forall g: nat :: g < |c.groups| && Names(c, g, key) ==>
              (LeftOut(r, c, history) <==>
                 && Fingerprint(r, c.contentFields).Some?
                 && exists k: nat :: At(c, g, k) && ReportedAs(r, c, history, g, k))
    ensures (forall g: nat :: g < |c.groups| ==> !Names(c, g, key)) ==>
              (LeftOut(r, c, history) <==>
                 Fingerprint(r, c.contentFields).Some? && history(Some(key), Fingerprint(r, c.contentFields)))
  {
    hide EntityKeyOf, Fingerprint, Renamed;
    var es, g := Equivalents(r, c), GroupOf(c, Some(key), 0);
    if g < |c.groups| {
      ListsIsNames(c, g, key);
      GroupLeavesOut(r, c, history, key, g);
      forall h: nat | h < |c.groups| && Names(c, h, key) ensures h == g {
        OneGroup(c, key, g, h);
      }
    } else {
      assert es == [r];
      forall h: nat | h < |c.groups| ensures !Names(c, h, key) {
        ListsIsNames(c, h, key);
      }
      assert es[0] == r;
    }
  }

  /** The history holds identity k of group g with what the record says besides its identity. */
  predicate ReportedAs(r: Fields, c: Config, history: History, g: nat, k: nat)
    requires At(c, g, k)
  {
    history(KeyAt(c, g, k), Fingerprint(Renamed(r, IdentityAt(c, g, k)), c.contentFields))
  }

  lemma GroupLeavesOut(r: Fields, c: Config, history: History, key: EntityKey, g: nat)
    requires ValidAliases(c) && EntityKeyOf(r, c.keyFields) == Some(key)
    requires g < |c.groups| && GroupOf(c, Some(key), 0) == g
    ensures LeftOut(r, c, history) <==>
              Fingerprint(r, c.contentFields).Some? && exists k: nat :: At(c, g, k) && ReportedAs(r, c, history, g, k)
  {
    var es := Equivalents(r, c);
    assert GroupFits(c.groups[g], c.keyFields);
    forall k: nat | At(c, g, k)
      ensures history(EntityKeyOf(es[k], c.keyFields), Fingerprint(es[k], c.contentFields)) == ReportedAs(r, c, history, g, k)
    {
      RenamedKey(r, IdentityAt(c, g, k), c.keyFields);
    }
    hide EntityKeyOf, Fingerprint, Renamed, KeyAt, ReportedAs;
    if k: nat :| At(c, g, k) && ReportedAs(r, c, history, g, k) {
      assert history(EntityKeyOf(es[k], c.keyFields), Fingerprint(es[k], c.contentFields));
    }
    if k :| 0 <= k < |es| && history(EntityKeyOf(es[k], c.keyFields), Fingerprint(es[k], c.contentFields)) {
      assert At(c, g, k);
    }
  }

  // ---------------------------------------------------------------- the loop

  function Kept(records: seq<Fields>, c: Config, history: History): seq<Fields> {
    if records == [] then []
    else
      var last := records[|records| - 1];
      Kept(records[..|records| - 1], c, history) + (if LeftOut(last, c, history) then [] else [last])
  }

  function Dropped(records: seq<Fields>, c: Config, history: History): seq<Fields> {
    if records == [] then []
    else
      var last := records[|records| - 1];
      Dropped(records[..|records| - 1], c, history) + (if LeftOut(last, c, history) then [last] else [])
  }

  predicate Active(c: Config) {
    c.enabled && c.keyFields != [] && c.contentFields != []
  }

  /** Both lists keep the order of the input; `Err` is a configuration that does not validate. */
  method ProcessRecords(records: seq<Fields>, c: Config, history: History)
    returns (result: Result<(seq<Fields>, seq<Fields>)>)
    ensures !Active(c) ==> result == Ok((records, []))
    ensures Active(c) ==> result == if ValidAliases(c) then Ok((Kept(records, c, history), Dropped(records, c, history))) else Err
  {
    if !c.enabled || c.keyFields == [] || c.contentFields == [] {
      return Ok((records, []));
    }
    var valid := ValidateAliases(c);
    if !valid {
      return Err;
    }
    var reportable, excluded: seq<Fields> := [], [];
    var n := 0;
    while n < |records|
      invariant 0 <= n <= |records|
      invariant reportable == Kept(records[..n], c, history) && excluded == Dropped(records[..n], c, history)
    {
      hide EntityKeyOf, Fingerprint, Equivalents;
      assert records[..n + 1][..n] == records[..n];
      var rec := records[n];
      if EntityKeyOf(rec, c.keyFields).None? || Fingerprint(rec, c.contentFields).None? {
        reportable := reportable + [rec];
      } else if Reported(rec, c, history) {
        excluded := excluded + [rec];
      } else {
        reportable := reportable + [rec];
      }
      n := n + 1;
    }
    assert records[..n] == records;
    result := Ok((reportable, excluded));
  }

  /** Nothing is lost and nothing is added. */
  lemma {:induction false} NothingLost(records: seq<Fields>, c: Config, history: History)
    ensures multiset(records) == multiset(Kept(records, c, history)) + multiset(Dropped(records, c, history))
  {
    hide LeftOut;
    if records != [] {
      NothingLost(records[..|records| - 1], c, history);
      assert records == records[..|records| - 1] + [records[|records| - 1]];
    }
  }

  /** A record is left out only when it was reported, and otherwise kept. */
  lemma {:induction false} EachInItsPlace(records: seq<Fields>, c: Config, history: History, r: Fields)
    ensures r in Dropped(records, c, history) <==> r in records && LeftOut(r, c, history)
    ensures r in Kept(records, c, history) <==> r in records && !LeftOut(r, c, history)
  {
    hide LeftOut;
    if records != [] {
      EachInItsPlace(records[..|records| - 1], c, history, r);
      assert records == records[..|records| - 1] + [records[|records| - 1]];
    }
  }

  /** What is decided about one part of the input does not depend on the other, and keeps its order. */
  lemma {:induction false} OrderKept(a: seq<Fields>, b: seq<Fields>, c: Config, history: History)
    ensures Kept(a + b, c, history) == Kept(a, c, history) + Kept(b, c, history)
    ensures Dropped(a + b, c, history) == Dropped(a, c, history) + Dropped(b, c, history)
  {
    hide LeftOut;
    if b == [] {
      assert a + b == a;
    } else {
      OrderKept(a, b[..|b| - 1], c, history);
      assert (a + b)[..|a + b| - 1] == a + b[..|b| - 1];
    }
  }
}
