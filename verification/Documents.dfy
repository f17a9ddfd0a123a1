/**
 * Objects written by the program with literal keys, and reading members of parsed documents by name.
 */
module Documents {
  import opened Wrappers
  import opened Text
  import opened Json
  import opened JsonParser
  import opened CanonicalText

  /** Fit to be canonicalized, stored and read back. */
  predicate Storable(v: Value) { Supported(v) && UniqueKeys(v) && Faithful(v) }

  type Pairs = seq<(string, Option<Value>)>

  function ObjectFields(pairs: Pairs): Fields {
    if pairs == [] then NoFields
    else if pairs[0].1.None? then ObjectFields(pairs[1..])
    else Field(Ascii(pairs[0].0), pairs[0].1.value, ObjectFields(pairs[1..]))
  }

  /** An object literal; an absent member is not written at all. */
  function Object(pairs: Pairs): Value { Obj(ObjectFields(pairs)) }

  predicate DistinctNames(pairs: Pairs) {
    && (forall i :: 0 <= i < |pairs| ==> IsAscii(pairs[i].0))
    && (forall i, j :: 0 <= i < j < |pairs| ==> pairs[i].0 != pairs[j].0)
  }

  /** `document[key]`, undefined as None. */
  function Member(v: Value, key: string): Option<Value> {
    if v.Obj? && Ascii(key) in Keys(v.fields) then Some(Get(v.fields, Ascii(key))) else None
  }

  function StringMember(v: Value, key: string): Option<Text> {
    if Member(v, key).Some? && Member(v, key).value.Str? then Some(Member(v, key).value.s) else None
  }

  lemma {:induction false} ObjectLacks(pairs: Pairs, key: string)
    requires IsAscii(key) && forall i :: 0 <= i < |pairs| ==> IsAscii(pairs[i].0) && pairs[i].0 != key
    ensures Ascii(key) !in Keys(ObjectFields(pairs))
  {
    if pairs != [] {
      AsciiIsInjective(pairs[0].0, key);
      ObjectLacks(pairs[1..], key);
    }
  }

  lemma {:induction false} ObjectMember(pairs: Pairs, i: nat)
    requires DistinctNames(pairs) && i < |pairs|
    ensures Member(Object(pairs), pairs[i].0) == pairs[i].1
  {
    if i == 0 {
      ObjectLacks(pairs[1..], pairs[0].0);
    } else {
      ObjectMember(pairs[1..], i - 1);
      AsciiIsInjective(pairs[0].0, pairs[i].0);
    }
  }

  predicate StorableFields(fields: Fields) {
    SupportedFields(fields) && UniqueKeysFields(fields) && TidyFields(fields, false)
  }

  lemma {:induction false} ObjectFieldsAreStorable(pairs: Pairs)
    requires DistinctNames(pairs) && forall i :: 0 <= i < |pairs| && pairs[i].1.Some? ==> Storable(pairs[i].1.value)
    ensures StorableFields(ObjectFields(pairs))
  {
    if pairs != [] {
      ObjectFieldsAreStorable(pairs[1..]);
      ObjectLacks(pairs[1..], pairs[0].0);
    }
  }

  lemma ObjectStorable(pairs: Pairs)
    requires DistinctNames(pairs) && forall i :: 0 <= i < |pairs| && pairs[i].1.Some? ==> Storable(pairs[i].1.value)
    ensures Storable(Object(pairs))
  {
    ObjectFieldsAreStorable(pairs);
  }

  lemma {:induction false} ObjectSupportsMembers(pairs: Pairs, i: nat)
    requires SupportedFields(ObjectFields(pairs)) && i < |pairs| && pairs[i].1.Some?
    ensures Supported(pairs[i].1.value)
  {
    if i > 0 {
      ObjectSupportsMembers(pairs[1..], i - 1);
    }
  }

  /** Reading a member depends on what the document means, not on how its keys are ordered. */
  lemma MemberByMeaning(v: Value, w: Value, key: string)
    requires MeaningOf(v) == MeaningOf(w)
    ensures Member(v, key).Some? <==> Member(w, key).Some?
    ensures Member(v, key).Some? ==> MeaningOf(Member(v, key).value) == MeaningOf(Member(w, key).value)
    ensures StringMember(v, key) == StringMember(w, key)
  {
    if v.Obj? {
      MembersAreFields(v.fields);
      MembersAreFields(w.fields);
      assert Ascii(key) in Keys(v.fields) <==> Ascii(key) in Members(v.fields);
    }
  }

  // ------------------------------------------------------------------
  // Arrays
  // ------------------------------------------------------------------

  function StringItems(s: seq<Text>): Items {
    if s == [] then NoItems else Item(Str(s[0]), StringItems(s[1..]))
  }

  /** The strings of an array, other elements skipped. */
  function StringsIn(items: Items): seq<Text> {
    match items
    case NoItems => []
    case Item(head, tail) => (if head.Str? then [head.s] else []) + StringsIn(tail)
    case Hole(rest) => StringsIn(rest)
  }

  function ArrayMember(v: Value, key: string): Items {
    if Member(v, key).Some? && Member(v, key).value.Arr? then Member(v, key).value.items else NoItems
  }

  lemma {:induction false} StringItemsRoundTrip(s: seq<Text>)
    ensures StringsIn(StringItems(s)) == s
  {
    if s != [] {
      StringItemsRoundTrip(s[1..]);
    }
  }

  predicate StorableItems(items: Items) { SupportedItems(items) && UniqueKeysItems(items) && TidyItems(items, false) }

  lemma {:induction false} StringItemsAreStorable(s: seq<Text>)
    ensures StorableItems(StringItems(s))
  {
    if s != [] {
      StringItemsAreStorable(s[1..]);
      assert Storable(Str(s[0]));
    }
  }

  lemma {:induction false} StringsByMeaning(a: Items, b: Items)
    requires Elements(a) == Elements(b)
    ensures StringsIn(a) == StringsIn(b)
    decreases a
  {
    FirstElement(a);
    FirstElement(b);
    match a
    case NoItems =>
    case Item(_, tail) => StringsByMeaning(tail, b.tail);
    case Hole(rest) => StringsByMeaning(rest, b.rest);
  }

  lemma ArrayByMeaning(v: Value, w: Value, key: string)
    requires MeaningOf(v) == MeaningOf(w)
    ensures Elements(ArrayMember(v, key)) == Elements(ArrayMember(w, key))
    ensures Member(v, key).Some? && Member(v, key).value.Arr? <==> Member(w, key).Some? && Member(w, key).value.Arr?
  {
    MemberByMeaning(v, w, key);
  }
}
