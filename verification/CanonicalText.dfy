/**
 * What canonical texts are worth: they are read back as the value they were made from, two values
 * share one exactly when they differ in key order only, and a stored document that the database
 * returned with its keys permuted gets the same text and hash again.
 */
module CanonicalText {
  import opened Wrappers
  import opened Text
  import opened Json
  import opened JsonParser

  /** A value with the order of its keys forgotten; a hole is an element that is not there. */
  datatype Meaning =
    | MeansNull
    | MeansBool(b: bool)
    | MeansNumber(n: Number)
    | MeansString(s: Text)
    | MeansArray(elements: seq<Option<Meaning>>)
    | MeansObject(members: map<Text, Meaning>)
    | MeansNothing

  function MeaningOf(v: Value): Meaning {
    match v
    case Null => MeansNull
    case Bool(b) => MeansBool(b)
    case Num(n) => MeansNumber(n)
    case Str(s) => MeansString(s)
    case Arr(items) => MeansArray(Elements(items))
    case Obj(fields) => MeansObject(Members(fields))
    case Unsupported => MeansNothing
  }

  function Elements(items: Items): seq<Option<Meaning>> {
    match items
    case NoItems => []
    case Item(head, tail) => [Some(MeaningOf(head))] + Elements(tail)
    case Hole(rest) => [None] + Elements(rest)
  }

  /** A repeated key keeps its last value. */
  function Members(fields: Fields): map<Text, Meaning> {
    match fields
    case NoFields => map[]
    case Field(key, value, next) => map[key := MeaningOf(value)] + Members(next)
  }

  function Get(fields: Fields, key: Text): (v: Value)
    requires key in Keys(fields)
    ensures Size(v) < SizeFields(fields)
  {
    if fields.key == key && key !in Keys(fields.next) then fields.value else Get(fields.next, key)
  }

  lemma {:induction false} MembersAreFields(fields: Fields)
    ensures Members(fields).Keys == Keys(fields)
    ensures forall key :: key in Keys(fields) ==> Members(fields)[key] == MeaningOf(Get(fields, key))
  {
    match fields
    case NoFields =>
    case Field(_, _, next) => MembersAreFields(next);
  }

  // ------------------------------------------------------------------
  // Sorting keeps the meaning, and the meaning fixes the sorted value
  // ------------------------------------------------------------------

  predicate Ordered(fields: Fields) {
    match fields
    case NoFields => true
    case Field(key, _, next) => (forall k :: k in Keys(next) ==> Less(key, k)) && Ordered(next)
  }

  lemma {:induction false} InsertKeys(key: Text, value: Value, fields: Fields)
    ensures Keys(Insert(key, value, fields)) == {key} + Keys(fields)
  {
    match fields
    case NoFields =>
    case Field(k, _, next) =>
      if !Less(key, k) {
        InsertKeys(key, value, next);
      }
  }

  lemma {:induction false} InsertGet(key: Text, value: Value, fields: Fields, k: Text)
    requires key !in Keys(fields) && (k == key || k in Keys(fields))
    ensures k in Keys(Insert(key, value, fields))
    ensures Get(Insert(key, value, fields), k) == if k == key then value else Get(fields, k)
  {
    InsertKeys(key, value, fields);
    match fields
    case NoFields =>
    case Field(j, _, next) =>
      if !Less(key, j) {
        InsertKeys(key, value, next);
        if k == key || k in Keys(next) {
          InsertGet(key, value, next, k);
        }
      }
  }

  lemma {:induction false} InsertOrdered(key: Text, value: Value, fields: Fields)
    requires key !in Keys(fields) && Ordered(fields)
    ensures Ordered(Insert(key, value, fields))
  {
    match fields
    case NoFields =>
    case Field(k, _, next) =>
      if Less(key, k) {
        forall j | j in Keys(next)
          ensures Less(key, j)
        {
          LessIsTransitive(key, k, j);
        }
      } else {
        LessIsTotal(key, k);
        InsertOrdered(key, value, next);
        InsertKeys(key, value, next);
      }
  }

  /** Sorting gives an ordered object with the same keys, each with its value sorted. */
  lemma {:induction false} SortedFieldsAreOrdered(fields: Fields)
    requires UniqueKeysFields(fields)
    ensures var r := SortedFields(fields);
      && Ordered(r) && Keys(r) == Keys(fields)
      && forall key :: key in Keys(fields) ==> Get(r, key) == Sorted(Get(fields, key))
  {
    match fields
    case NoFields =>
    case Field(key, value, next) =>
      var others := SortedFields(next);
      SortedFieldsAreOrdered(next);
      InsertKeys(key, Sorted(value), others);
      InsertOrdered(key, Sorted(value), others);
      forall k | k in Keys(fields)
        ensures Get(SortedFields(fields), k) == Sorted(Get(fields, k))
      {
        InsertGet(key, Sorted(value), others, k);
      }
  }

  lemma HeadIsLeast(fields: Fields)
    requires fields.Field? && Ordered(fields)
    ensures fields.key !in Keys(fields.next)
    ensures forall k :: k in Keys(fields) ==> !Less(k, fields.key)
  {
    LessIsIrreflexive(fields.key);
    forall k | k in Keys(fields.next)
      ensures !Less(k, fields.key)
    {
      if Less(k, fields.key) {
        LessIsTransitive(k, fields.key, k);
        LessIsIrreflexive(k);
      }
    }
  }

  lemma OnlyEmptyHasNoKeys(fields: Fields)
    ensures Keys(fields) == {} <==> fields.NoFields?
  {
    assert fields.Field? ==> fields.key in Keys(fields);
  }

  /** An ordered object is determined by its keys and their values. */
  lemma {:induction false} OrderedIsUnique(a: Fields, b: Fields)
    requires Ordered(a) && Ordered(b) && Keys(a) == Keys(b)
    requires forall key :: key in Keys(a) ==> Get(a, key) == Get(b, key)
    ensures a == b
  {
    match a
    case NoFields =>
      OnlyEmptyHasNoKeys(b);
    case Field(key, _, next) =>
      assert key in Keys(b);
      HeadIsLeast(a);
      HeadIsLeast(b);
      assert b.key in Keys(a);
      LessIsTotal(key, b.key);
      assert Keys(next) == Keys(a) - {key} && Keys(b.next) == Keys(b) - {b.key};
      assert Get(a, key) == a.value && Get(b, key) == b.value;
      forall k | k in Keys(next)
        ensures Get(next, k) == Get(b.next, k)
      {
        assert Get(a, k) == Get(next, k) && Get(b, k) == Get(b.next, k);
      }
      OrderedIsUnique(next, b.next);
  }

  lemma {:induction false} MeaningFixesSorted(v: Value, w: Value)
    requires UniqueKeys(v) && UniqueKeys(w) && MeaningOf(v) == MeaningOf(w)
    ensures Sorted(v) == Sorted(w)
    decreases Size(v)
  {
    match v
    case Arr(items) => MeaningFixesItems(items, w.items);
    case Obj(fields) => MeaningFixesFields(fields, w.fields);
    case _ =>
  }

  lemma FirstElement(items: Items)
    ensures items.NoItems? <==> Elements(items) == []
    ensures items.Item? ==> Elements(items)[0] == Some(MeaningOf(items.head)) && Elements(items)[1..] == Elements(items.tail)
    ensures items.Hole? ==> Elements(items)[0] == None && Elements(items)[1..] == Elements(items.rest)
  {
  }

  lemma {:induction false} MeaningFixesItems(a: Items, b: Items)
    requires UniqueKeysItems(a) && UniqueKeysItems(b) && Elements(a) == Elements(b)
    ensures SortedItems(a) == SortedItems(b)
    decreases SizeItems(a)
  {
    FirstElement(a);
    FirstElement(b);
    match a
    case NoItems =>
    case Item(head, tail) =>
      MeaningFixesSorted(head, b.head);
      MeaningFixesItems(tail, b.tail);
    case Hole(rest) => MeaningFixesItems(rest, b.rest);
  }

  lemma {:induction false} UniqueGet(fields: Fields, key: Text)
    requires UniqueKeysFields(fields) && key in Keys(fields)
    ensures UniqueKeys(Get(fields, key))
  {
    if !(fields.key == key && key !in Keys(fields.next)) {
      UniqueGet(fields.next, key);
    }
  }

  lemma {:induction false} MeaningFixesFields(a: Fields, b: Fields)
    requires UniqueKeysFields(a) && UniqueKeysFields(b) && Members(a) == Members(b)
    ensures SortedFields(a) == SortedFields(b)
    decreases SizeFields(a)
  {
    MembersAreFields(a);
    MembersAreFields(b);
    SortedFieldsAreOrdered(a);
    SortedFieldsAreOrdered(b);
    forall key | key in Keys(a)
      ensures Get(SortedFields(a), key) == Get(SortedFields(b), key)
    {
      UniqueGet(a, key);
      UniqueGet(b, key);
      assert Members(a)[key] == Members(b)[key];
      MeaningFixesSorted(Get(a, key), Get(b, key));
    }
    OrderedIsUnique(SortedFields(a), SortedFields(b));
  }

  lemma PushPastHead(k: Text, a: Meaning, key: Text, m: Meaning, rest: map<Text, Meaning>)
    requires key != k
    ensures map[k := a] + rest[key := m] == (map[k := a] + rest)[key := m]
  {
  }

  lemma PushInFront(key: Text, m: Meaning, rest: map<Text, Meaning>)
    requires key !in rest
    ensures map[key := m] + rest == rest[key := m]
  {
  }

  lemma {:induction false} InsertMembers(key: Text, value: Value, fields: Fields)
    requires key !in Keys(fields)
    ensures Members(Insert(key, value, fields)) == Members(fields)[key := MeaningOf(value)]
  {
    MembersAreFields(fields);
    PushInFront(key, MeaningOf(value), Members(fields));
    match fields
    case NoFields =>
    case Field(k, v, next) =>
      if !Less(key, k) {
        InsertMembers(key, value, next);
        PushPastHead(k, MeaningOf(v), key, MeaningOf(value), Members(next));
      }
  }

  lemma {:induction false} InsertUnique(key: Text, value: Value, fields: Fields)
    requires key !in Keys(fields) && UniqueKeys(value) && UniqueKeysFields(fields)
    ensures UniqueKeysFields(Insert(key, value, fields))
  {
    match fields
    case NoFields =>
    case Field(k, _, next) =>
      if !Less(key, k) {
        InsertUnique(key, value, next);
        InsertKeys(key, value, next);
      }
  }

  lemma {:induction false} SortedHasUniqueKeys(v: Value)
    requires UniqueKeys(v)
    ensures UniqueKeys(Sorted(v))
  {
    match v
    case Arr(items) => SortedItemsHaveUniqueKeys(items);
    case Obj(fields) => SortedFieldsHaveUniqueKeys(fields);
    case _ =>
  }

  lemma {:induction false} SortedItemsHaveUniqueKeys(items: Items)
    requires UniqueKeysItems(items)
    ensures UniqueKeysItems(SortedItems(items))
  {
    match items
    case NoItems =>
    case Item(head, tail) =>
      SortedHasUniqueKeys(head);
      SortedItemsHaveUniqueKeys(tail);
    case Hole(rest) => SortedItemsHaveUniqueKeys(rest);
  }

  lemma {:induction false} SortedFieldsHaveUniqueKeys(fields: Fields)
    requires UniqueKeysFields(fields)
    ensures UniqueKeysFields(SortedFields(fields))
  {
    match fields
    case NoFields =>
    case Field(key, value, next) =>
      SortedHasUniqueKeys(value);
      SortedFieldsHaveUniqueKeys(next);
      SortedFieldsAreOrdered(next);
      InsertUnique(key, Sorted(value), SortedFields(next));
  }

  lemma {:induction false} SortedMeansTheSame(v: Value)
    requires UniqueKeys(v)
    ensures MeaningOf(Sorted(v)) == MeaningOf(v)
  {
    match v
    case Arr(items) => SortedItemsMeanTheSame(items);
    case Obj(fields) => SortedFieldsMeanTheSame(fields);
    case _ =>
  }

  lemma {:induction false} SortedItemsMeanTheSame(items: Items)
    requires UniqueKeysItems(items)
    ensures Elements(SortedItems(items)) == Elements(items)
  {
    match items
    case NoItems =>
    case Item(head, tail) =>
      SortedMeansTheSame(head);
      SortedItemsMeanTheSame(tail);
    case Hole(rest) => SortedItemsMeanTheSame(rest);
  }

  lemma {:induction false} SortedFieldsMeanTheSame(fields: Fields)
    requires UniqueKeysFields(fields)
    ensures Members(SortedFields(fields)) == Members(fields)
  {
    match fields
    case NoFields =>
    case Field(key, value, next) =>
      SortedMeansTheSame(value);
      SortedFieldsMeanTheSame(next);
      SortedFieldsAreOrdered(next);
      InsertMembers(key, Sorted(value), SortedFields(next));
      MembersAreFields(next);
  }

  // ------------------------------------------------------------------
  // Holes and negative zeros
  // ------------------------------------------------------------------

  predicate Faithful(v: Value) { Tidy(v, false) }

  lemma {:induction false} TidyInsert(key: Text, value: Value, fields: Fields, zeros: bool)
    ensures TidyFields(Insert(key, value, fields), zeros) <==> Tidy(value, zeros) && TidyFields(fields, zeros)
  {
    match fields
    case NoFields =>
    case Field(k, _, next) =>
      if !Less(key, k) {
        TidyInsert(key, value, next, zeros);
      }
  }

  lemma {:induction false} TidySorted(v: Value, zeros: bool)
    ensures Tidy(Sorted(v), zeros) <==> Tidy(v, zeros)
  {
    match v
    case Arr(items) => TidySortedItems(items, zeros);
    case Obj(fields) => TidySortedFields(fields, zeros);
    case _ =>
  }

  lemma {:induction false} TidySortedItems(items: Items, zeros: bool)
    ensures TidyItems(SortedItems(items), zeros) <==> TidyItems(items, zeros)
  {
    match items
    case NoItems =>
    case Item(head, tail) =>
      TidySorted(head, zeros);
      TidySortedItems(tail, zeros);
    case Hole(_) =>
  }

  lemma {:induction false} TidySortedFields(fields: Fields, zeros: bool)
    ensures TidyFields(SortedFields(fields), zeros) <==> TidyFields(fields, zeros)
  {
    match fields
    case NoFields =>
    case Field(key, value, next) =>
      TidySorted(value, zeros);
      TidySortedFields(next, zeros);
      TidyInsert(key, Sorted(value), SortedFields(next), zeros);
  }

  lemma {:induction false} PlainIsFaithful(v: Value)
    requires Dense(v)
    ensures Faithful(Plain(v)) && (Faithful(v) ==> Plain(v) == v)
  {
    match v
    case Arr(items) => PlainItemsAreFaithful(items);
    case Obj(fields) => PlainFieldsAreFaithful(fields);
    case _ =>
  }

  lemma {:induction false} PlainItemsAreFaithful(items: Items)
    requires TidyItems(items, true)
    ensures TidyItems(PlainItems(items), false) && (TidyItems(items, false) ==> PlainItems(items) == items)
  {
    match items
    case NoItems =>
    case Item(head, tail) =>
      PlainIsFaithful(head);
      PlainItemsAreFaithful(tail);
  }

  lemma {:induction false} PlainFieldsAreFaithful(fields: Fields)
    requires TidyFields(fields, true)
    ensures TidyFields(PlainFields(fields), false) && (TidyFields(fields, false) ==> PlainFields(fields) == fields)
  {
    match fields
    case NoFields =>
    case Field(_, value, next) =>
      PlainIsFaithful(value);
      PlainFieldsAreFaithful(next);
  }

  lemma {:induction false} FaithfulIsDense(v: Value)
    requires Faithful(v)
    ensures Dense(v)
  {
    match v
    case Arr(items) => FaithfulItemsAreDense(items);
    case Obj(fields) => FaithfulFieldsAreDense(fields);
    case _ =>
  }

  lemma {:induction false} FaithfulItemsAreDense(items: Items)
    requires TidyItems(items, false)
    ensures TidyItems(items, true)
  {
    match items
    case NoItems =>
    case Item(head, tail) =>
      FaithfulIsDense(head);
      FaithfulItemsAreDense(tail);
  }

  lemma {:induction false} FaithfulFieldsAreDense(fields: Fields)
    requires TidyFields(fields, false)
    ensures TidyFields(fields, true)
  {
    match fields
    case NoFields =>
    case Field(_, value, next) =>
      FaithfulIsDense(value);
      FaithfulFieldsAreDense(next);
  }

  /** Holes and negative zeros are part of the meaning: a value that means the same as a tidy one is tidy. */
  lemma {:induction false} TidyByMeaning(v: Value, w: Value, zeros: bool)
    requires UniqueKeys(v) && Tidy(w, zeros) && MeaningOf(v) == MeaningOf(w)
    ensures Tidy(v, zeros)
    decreases Size(v)
  {
    match v
    case Arr(items) => TidyItemsByMeaning(items, w.items, zeros);
    case Obj(fields) =>
      MembersAreFields(fields);
      MembersAreFields(w.fields);
      forall key | key in Keys(fields)
        ensures Tidy(Get(fields, key), zeros)
      {
        assert Members(fields)[key] == Members(w.fields)[key];
        TidyGet(w.fields, key, zeros);
        UniqueGet(fields, key);
        TidyByMeaning(Get(fields, key), Get(w.fields, key), zeros);
      }
      TidyByGet(fields, zeros);
    case _ =>
  }

  lemma {:induction false} TidyItemsByMeaning(a: Items, b: Items, zeros: bool)
    requires UniqueKeysItems(a) && TidyItems(b, zeros) && Elements(a) == Elements(b)
    ensures TidyItems(a, zeros)
    decreases SizeItems(a)
  {
    FirstElement(a);
    FirstElement(b);
    if a.Item? {
      TidyByMeaning(a.head, b.head, zeros);
      TidyItemsByMeaning(a.tail, b.tail, zeros);
    }
  }

  lemma {:induction false} TidyGet(fields: Fields, key: Text, zeros: bool)
    requires TidyFields(fields, zeros) && key in Keys(fields)
    ensures Tidy(Get(fields, key), zeros)
  {
    if !(fields.key == key && key !in Keys(fields.next)) {
      TidyGet(fields.next, key, zeros);
    }
  }

  lemma {:induction false} TidyByGet(fields: Fields, zeros: bool)
    requires UniqueKeysFields(fields) && forall key :: key in Keys(fields) ==> Tidy(Get(fields, key), zeros)
    ensures TidyFields(fields, zeros)
  {
    match fields
    case NoFields =>
    case Field(key, value, next) =>
      assert Get(fields, key) == value;
      forall k | k in Keys(next)
        ensures Tidy(Get(next, k), zeros)
      {
        assert Get(fields, k) == Get(next, k);
      }
      TidyByGet(next, zeros);
  }

  // ------------------------------------------------------------------
  // What can be told from a text
  // ------------------------------------------------------------------

  lemma {:induction false} PlainPrintsTheSame(v: Value)
    ensures Supported(Plain(v)) <==> Supported(v)
    ensures Supported(v) ==> Print(Plain(v)) == Print(v)
  {
    match v
    case Arr(items) => PlainItemsPrintTheSame(items);
    case Obj(fields) => PlainFieldsPrintTheSame(fields);
    case _ =>
  }

  lemma {:induction false} PlainItemsPrintTheSame(items: Items)
    ensures SupportedItems(PlainItems(items)) <==> SupportedItems(items)
    ensures SupportedItems(items) ==> PrintItems(PlainItems(items)) == PrintItems(items)
  {
    match items
    case NoItems =>
    case Item(head, tail) =>
      PlainPrintsTheSame(head);
      PlainItemsPrintTheSame(tail);
    case Hole(rest) => PlainItemsPrintTheSame(rest);
  }

  lemma {:induction false} PlainFieldsPrintTheSame(fields: Fields)
    ensures SupportedFields(PlainFields(fields)) <==> SupportedFields(fields)
    ensures SupportedFields(fields) ==> PrintFields(PlainFields(fields)) == PrintFields(fields)
  {
    match fields
    case NoFields =>
    case Field(_, value, next) =>
      PlainPrintsTheSame(value);
      PlainFieldsPrintTheSame(next);
  }

  lemma {:induction false} PlainInsert(key: Text, value: Value, fields: Fields)
    ensures PlainFields(Insert(key, value, fields)) == Insert(key, Plain(value), PlainFields(fields))
  {
    match fields
    case NoFields =>
    case Field(k, _, next) =>
      if !Less(key, k) {
        PlainInsert(key, value, next);
      }
  }

  /** Sorting keys and forgetting what does not print commute. */
  lemma {:induction false} PlainOfSorted(v: Value)
    ensures Plain(Sorted(v)) == Sorted(Plain(v))
  {
    match v
    case Arr(items) => PlainOfSortedItems(items);
    case Obj(fields) => PlainOfSortedFields(fields);
    case _ =>
  }

  lemma {:induction false} PlainOfSortedItems(items: Items)
    ensures PlainItems(SortedItems(items)) == SortedItems(PlainItems(items))
    ensures SortedItems(items) == Hole(NoItems) <==> items == Hole(NoItems)
  {
    match items
    case NoItems =>
    case Item(head, tail) =>
      PlainOfSorted(head);
      PlainOfSortedItems(tail);
    case Hole(rest) => PlainOfSortedItems(rest);
  }

  lemma {:induction false} PlainOfSortedFields(fields: Fields)
    ensures PlainFields(SortedFields(fields)) == SortedFields(PlainFields(fields))
  {
    match fields
    case NoFields =>
    case Field(key, value, next) =>
      PlainOfSorted(value);
      PlainOfSortedFields(next);
      PlainInsert(key, Sorted(value), SortedFields(next));
  }

  lemma {:induction false} PlainHasUniqueKeys(v: Value)
    requires UniqueKeys(v)
    ensures UniqueKeys(Plain(v))
  {
    match v
    case Arr(items) => PlainItemsHaveUniqueKeys(items);
    case Obj(fields) => PlainFieldsHaveUniqueKeys(fields);
    case _ =>
  }

  lemma {:induction false} PlainItemsHaveUniqueKeys(items: Items)
    requires UniqueKeysItems(items)
    ensures UniqueKeysItems(PlainItems(items))
  {
    match items
    case NoItems =>
    case Item(head, tail) =>
      PlainHasUniqueKeys(head);
      PlainItemsHaveUniqueKeys(tail);
    case Hole(rest) => PlainItemsHaveUniqueKeys(rest);
  }

  lemma {:induction false} PlainFieldsHaveUniqueKeys(fields: Fields)
    requires UniqueKeysFields(fields)
    ensures UniqueKeysFields(PlainFields(fields)) && Keys(PlainFields(fields)) == Keys(fields)
  {
    match fields
    case NoFields =>
    case Field(_, value, next) =>
      PlainHasUniqueKeys(value);
      PlainFieldsHaveUniqueKeys(next);
  }

  // ------------------------------------------------------------------
  // Canonical texts can be encoded
  // ------------------------------------------------------------------

  /** Surrogates come in pairs, so the UTF-8 encoding loses nothing. */
  predicate WellFormed(t: Text) {
    if t == [] then true
    else if IsHigh(t[0]) then |t| >= 2 && IsLow(t[1]) && WellFormed(t[2..])
    else !IsLow(t[0]) && WellFormed(t[1..])
  }

  lemma {:induction false} WellFormedAppend(a: Text, b: Text)
    requires WellFormed(a) && WellFormed(b)
    ensures WellFormed(a + b)
    decreases |a|
  {
    if a == [] {
      assert a + b == b;
    } else if IsHigh(a[0]) {
      WellFormedAppend(a[2..], b);
      assert (a + b)[2..] == a[2..] + b;
    } else {
      WellFormedAppend(a[1..], b);
      assert (a + b)[1..] == a[1..] + b;
    }
  }

  lemma {:induction false} PlainUnitsAreWellFormed(t: Text)
    requires forall i :: 0 <= i < |t| ==> !IsHigh(t[i]) && !IsLow(t[i])
    ensures WellFormed(t)
  {
    if t != [] {
      PlainUnitsAreWellFormed(t[1..]);
    }
  }

  lemma {:induction false} EscapeIsWellFormed(s: Text)
    ensures WellFormed(Escape(s))
    decreases |s|
  {
    if s == [] {
    } else if |s| >= 2 && IsHigh(s[0]) && IsLow(s[1]) {
      EscapeIsWellFormed(s[2..]);
      assert [s[0], s[1]][2..] == [];
      WellFormedAppend([s[0], s[1]], Escape(s[2..]));
    } else {
      EscapeIsWellFormed(s[1..]);
      PlainUnitsAreWellFormed(EscapeUnit(s[0]));
      WellFormedAppend(EscapeUnit(s[0]), Escape(s[1..]));
    }
  }

  lemma QuotedIsWellFormed(s: Text)
    ensures WellFormed(Quoted(s))
  {
    EscapeIsWellFormed(s);
    PlainUnitsAreWellFormed([QUOTE]);
    WellFormedAppend([QUOTE], Escape(s));
    WellFormedAppend([QUOTE] + Escape(s), [QUOTE]);
  }

  lemma BracketsAreWellFormed(open: CodeUnit, body: Text, close: CodeUnit)
    requires WellFormed(body) && open < 0xD800 && close < 0xD800
    ensures WellFormed([open] + body + [close])
  {
    PlainUnitsAreWellFormed([open]);
    PlainUnitsAreWellFormed([close]);
    WellFormedAppend([open], body);
    WellFormedAppend([open] + body, [close]);
  }

  lemma {:induction false} PrintIsWellFormed(v: Value)
    requires Supported(v)
    ensures WellFormed(Print(v))
  {
    match v
    case Null => PlainUnitsAreWellFormed(NULL);
    case Bool(b) => PlainUnitsAreWellFormed(if b then TRUE else FALSE);
    case Num(n) =>
      TokenRoundTrip(n);
      PlainUnitsAreWellFormed(PrintNumber(n));
    case Str(s) => QuotedIsWellFormed(s);
    case Arr(items) =>
      PrintItemsAreWellFormed(items);
      BracketsAreWellFormed(OPEN_ARRAY, PrintItems(items), CLOSE_ARRAY);
    case Obj(fields) =>
      PrintFieldsAreWellFormed(fields);
      BracketsAreWellFormed(OPEN_OBJECT, PrintFields(fields), CLOSE_OBJECT);
  }

  lemma {:induction false} PrintItemsAreWellFormed(items: Items)
    requires SupportedItems(items)
    ensures WellFormed(PrintItems(items))
  {
    PlainUnitsAreWellFormed([COMMA]);
    match items
    case NoItems =>
    case Item(head, tail) =>
      PrintIsWellFormed(head);
      PrintItemsAreWellFormed(tail);
      WellFormedAppend([COMMA], PrintItems(tail));
      WellFormedAppend(Print(head), if tail.NoItems? then [] else [COMMA] + PrintItems(tail));
    case Hole(rest) =>
      PrintItemsAreWellFormed(rest);
      WellFormedAppend([COMMA], PrintItems(rest));
  }

  lemma {:induction false} PrintFieldsAreWellFormed(fields: Fields)
    requires SupportedFields(fields)
    ensures WellFormed(PrintFields(fields))
  {
    match fields
    case NoFields =>
    case Field(key, value, next) =>
      PlainUnitsAreWellFormed([COMMA]);
      PlainUnitsAreWellFormed([COLON]);
      QuotedIsWellFormed(key);
      PrintIsWellFormed(value);
      PrintFieldsAreWellFormed(next);
      WellFormedAppend([COMMA], PrintFields(next));
      WellFormedAppend(Quoted(key), [COLON]);
      WellFormedAppend(Quoted(key) + [COLON], Print(value));
      WellFormedAppend(Quoted(key) + [COLON] + Print(value), if next.NoFields? then [] else [COMMA] + PrintFields(next));
  }

  /** Whatever strings a document holds, lone surrogates included, its canonical text has none. */
  lemma CanonicalTextIsWellFormed(v: Value)
    requires Supported(v)
    ensures CanonicalizeJson(v).Ok? && WellFormed(CanonicalizeJson(v).value)
  {
    CanonicalIsSortedText(v);
    PrintIsWellFormed(Sorted(v));
  }

  // ------------------------------------------------------------------
  // Main results
  // ------------------------------------------------------------------

  /** SHA-256 over the UTF-8 encoding is taken as injective on texts that can be encoded. */
  ghost predicate Injective(hash: Text -> int) {
    forall a, b :: WellFormed(a) && WellFormed(b) && hash(a) == hash(b) ==> a == b
  }

  /**
   * Parsing a canonical text gives back what was printed, in sorted key order and nothing else
   * changed, exactly when the value had no array hole and no negative zero.
   */
  lemma CanonicalRoundTrip(v: Value)
    requires Supported(v) && UniqueKeys(v)
    ensures CanonicalizeJson(v).Ok?
    ensures var back := Parse(CanonicalizeJson(v).value);
      && (Faithful(v) <==> back.Some? && MeaningOf(back.value) == MeaningOf(v))
      && (Faithful(v) ==> back == Some(Sorted(v)))
  {
    CanonicalIsSortedText(v);
    SortedMeansTheSame(v);
    TidySorted(v, true);
    TidySorted(v, false);
    var t := Print(Sorted(v));
    ParsedIsDense(t);
    if Parse(t).Some? && MeaningOf(Parse(t).value) == MeaningOf(v) {
      TidyByMeaning(v, Parse(t).value, true);
    }
    if Faithful(v) {
      FaithfulIsDense(v);
    }
    if Dense(v) {
      PrintThenParse(Sorted(v));
      PlainIsFaithful(Sorted(v));
      if MeaningOf(Plain(Sorted(v))) == MeaningOf(v) {
        TidyByMeaning(v, Plain(Sorted(v)), false);
      }
    }
  }

  /** Values that differ in key order only have the same canonical text, or are both rejected. */
  lemma KeyOrderIsIrrelevant(v: Value, w: Value)
    requires UniqueKeys(v) && UniqueKeys(w) && MeaningOf(v) == MeaningOf(w)
    ensures CanonicalizeJson(v) == CanonicalizeJson(w)
  {
    MeaningFixesSorted(v, w);
    CanonicalIsSortedText(v);
    CanonicalIsSortedText(w);
  }

  lemma TextFixesMeaning(v: Value, w: Value)
    requires Supported(v) && UniqueKeys(v) && Supported(w) && UniqueKeys(w)
    requires CanonicalizeJson(v) == CanonicalizeJson(w)
    ensures MeaningOf(Plain(v)) == MeaningOf(Plain(w))
  {
    CanonicalIsSortedText(v);
    CanonicalIsSortedText(w);
    PrintThenParseLoosely(Sorted(v));
    PrintThenParseLoosely(Sorted(w));
    PlainOfSorted(v);
    PlainOfSorted(w);
    PlainHasUniqueKeys(v);
    PlainHasUniqueKeys(w);
    SortedMeansTheSame(Plain(v));
    SortedMeansTheSame(Plain(w));
  }

  lemma MeaningFixesText(v: Value, w: Value)
    requires Supported(v) && UniqueKeys(v) && Supported(w) && UniqueKeys(w)
    requires MeaningOf(Plain(v)) == MeaningOf(Plain(w))
    ensures CanonicalizeJson(v) == CanonicalizeJson(w)
  {
    CanonicalIsSortedText(v);
    CanonicalIsSortedText(w);
    PlainHasUniqueKeys(v);
    PlainHasUniqueKeys(w);
    MeaningFixesSorted(Plain(v), Plain(w));
    PlainOfSorted(v);
    PlainOfSorted(w);
    PlainPrintsTheSame(Sorted(v));
    PlainPrintsTheSame(Sorted(w));
  }

  /**
   * The exact kernel of the printer, over everything it accepts: two values have one canonical text,
   * and so one hash, if and only if they differ in key order, in the sign of zeros, and in whether an
   * array that prints as `[]` has no element or one hole.
   */
  lemma SameTextIffSamePlainMeaning(v: Value, w: Value, hash: Text -> int)
    requires Supported(v) && UniqueKeys(v) && Supported(w) && UniqueKeys(w) && Injective(hash)
    ensures CanonicalizeJson(v).Ok? && CanonicalizeJson(w).Ok?
    ensures hash(CanonicalizeJson(v).value) == hash(CanonicalizeJson(w).value) <==> MeaningOf(Plain(v)) == MeaningOf(Plain(w))
  {
    CanonicalTextIsWellFormed(v);
    CanonicalTextIsWellFormed(w);
    if CanonicalizeJson(v) == CanonicalizeJson(w) {
      TextFixesMeaning(v, w);
    }
    if MeaningOf(Plain(v)) == MeaningOf(Plain(w)) {
      MeaningFixesText(v, w);
    }
  }

  /** Without holes and negative zeros only the order of keys is left to differ. */
  lemma SameTextIffSameMeaning(v: Value, w: Value, hash: Text -> int)
    requires Supported(v) && UniqueKeys(v) && Faithful(v)
    requires Supported(w) && UniqueKeys(w) && Faithful(w)
    requires Injective(hash)
    ensures CanonicalizeJson(v).Ok? && CanonicalizeJson(w).Ok?
    ensures hash(CanonicalizeJson(v).value) == hash(CanonicalizeJson(w).value) <==> MeaningOf(v) == MeaningOf(w)
  {
    FaithfulIsDense(v);
    FaithfulIsDense(w);
    PlainIsFaithful(v);
    PlainIsFaithful(w);
    SameTextIffSamePlainMeaning(v, w, hash);
  }

  /** A canonical text is JSON exactly when no hole shows in it, and then it parses to what it shows. */
  lemma CanonicalTextParsesIff(v: Value)
    requires Supported(v) && UniqueKeys(v)
    ensures CanonicalizeJson(v).Ok?
    ensures Parse(CanonicalizeJson(v).value).Some? <==> Dense(Plain(v))
    ensures Parse(CanonicalizeJson(v).value).Some? ==> Parse(CanonicalizeJson(v).value) == Some(Plain(Sorted(v)))
  {
    CanonicalIsSortedText(v);
    var t := Print(Sorted(v));
    PrintThenParseLoosely(Sorted(v));
    StrictIsLoose(t);
    ParsedIsDense(t);
    PlainOfSorted(v);
    TidySorted(Plain(v), true);
    if Dense(Plain(v)) {
      PlainPrintsTheSame(Sorted(v));
      PrintThenParse(Plain(Sorted(v)));
    }
  }

  /**
   * A document is canonicalized, its text parsed and stored, and read back with the keys of its
   * objects in whatever order the store likes: canonicalizing that again gives the same text. Any
   * document whose text is JSON at all has this, negative zeros and lone holes included.
   */
  lemma StoredDocumentKeepsItsText(v: Value, text: Text, stored: Value)
    requires UniqueKeys(v) && CanonicalizeJson(v) == Ok(text)
    requires UniqueKeys(stored) && Parse(text).Some? && MeaningOf(stored) == MeaningOf(Parse(text).value)
    ensures CanonicalizeJson(stored) == Ok(text)
  {
    CanonicalIsSortedText(v);
    CanonicalTextParsesIff(v);
    SortedHasUniqueKeys(v);
    PlainHasUniqueKeys(Sorted(v));
    SortedMeansTheSame(v);
    MeaningFixesSorted(Sorted(v), v);
    var plain := Plain(Sorted(v));
    KeyOrderIsIrrelevant(stored, plain);
    CanonicalIsSortedText(plain);
    PlainOfSorted(Sorted(v));
    PlainPrintsTheSame(Sorted(v));
  }

  /** The two losses: an array with one hole prints like an empty one, negative zero like zero. */
  lemma LossyDocuments()
    ensures CanonicalizeJson(Arr(Hole(NoItems))) == CanonicalizeJson(Arr(NoItems))
    ensures CanonicalizeJson(Num(NegativeZero)) == CanonicalizeJson(Num(Int(0)))
    ensures Parse([45, 48]) == Some(Num(NegativeZero))
  {
    assert [45, 48][1..] == [48];
    assert NumericSpan([48]) == 1 by {
      assert [48][1..] == [];
    }
    assert [45, 48][..2] == [45, 48] && ValueOf([48]) == 0;
  }
}
