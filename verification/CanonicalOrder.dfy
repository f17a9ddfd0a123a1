/**
 * The canonical text of an object, member by member: every key once, and of two keys the one with the
 * smaller code unit at their first difference, or the proper prefix, stands first in the text.
 */
module CanonicalOrder {
  import opened Wrappers
  import opened Text
  import opened Json
  import opened CanonicalText

  function KeyList(fields: Fields): seq<Text> {
    match fields
    case NoFields => []
    case Field(key, _, next) => [key] + KeyList(next)
  }

  /** The text of member `key`: the quoted key, a colon and the canonical text of its value. */
  function MemberText(fields: Fields, key: Text): Text
    requires key in Keys(fields)
  {
    var value := CanonicalizeJson(Get(fields, key));
    Quoted(key) + Ascii(":") + if value.Ok? then value.value else []
  }

  predicate AreKeys(fields: Fields, keys: seq<Text>) { forall i :: 0 <= i < |keys| ==> keys[i] in Keys(fields) }

  function MemberTexts(fields: Fields, keys: seq<Text>): (parts: seq<Text>)
    requires AreKeys(fields, keys)
    ensures |parts| == |keys| && forall i :: 0 <= i < |keys| ==> parts[i] == MemberText(fields, keys[i])
  {
    seq(|keys|, i requires 0 <= i < |keys| => MemberText(fields, keys[i]))
  }

  function Joined(parts: seq<Text>): Text {
    if parts == [] then [] else if |parts| == 1 then parts[0] else (parts[0] + Ascii(",")) + Joined(parts[1..])
  }

  /** The members named, in this order, joined by commas. */
  function MembersText(fields: Fields, keys: seq<Text>): Text
    requires AreKeys(fields, keys)
  {
    Joined(MemberTexts(fields, keys))
  }

  ghost predicate EachKeyOnce(fields: Fields, keys: seq<Text>) {
    && (forall k :: k in keys <==> k in Keys(fields))
    && (forall i, j :: 0 <= i < j < |keys| ==> keys[i] != keys[j])
  }

  predicate InKeyOrder(keys: seq<Text>) { forall i, j :: 0 <= i < j < |keys| ==> ComesFirst(keys[i], keys[j]) }

  lemma {:induction false} KeysAreListed(fields: Fields)
    ensures forall k :: k in KeyList(fields) <==> k in Keys(fields)
  {
    match fields
    case NoFields =>
    case Field(_, _, next) => KeysAreListed(next);
  }

  lemma {:induction false} OrderedIsInKeyOrder(fields: Fields)
    requires Ordered(fields)
    ensures InKeyOrder(KeyList(fields)) && EachKeyOnce(fields, KeyList(fields))
  {
    KeysAreListed(fields);
    match fields
    case NoFields =>
    case Field(key, _, next) =>
      OrderedIsInKeyOrder(next);
      HeadIsLeast(fields);
      KeysAreListed(next);
      forall j | 0 <= j < |KeyList(next)|
        ensures ComesFirst(key, KeyList(next)[j])
      {
        assert KeyList(next)[j] in Keys(next);
        LessIsByIndex(key, KeyList(next)[j]);
      }
  }

  lemma {:induction false} SortKeysOrders(fields: Fields)
    requires UniqueKeysFields(fields)
    ensures Ordered(SortKeys(fields)) && Keys(SortKeys(fields)) == Keys(fields)
    ensures forall k :: k in Keys(fields) ==> Get(SortKeys(fields), k) == Get(fields, k)
  {
    match fields
    case NoFields =>
    case Field(key, value, next) =>
      SortKeysOrders(next);
      InsertKeys(key, value, SortKeys(next));
      InsertOrdered(key, value, SortKeys(next));
      forall k | k in Keys(fields)
        ensures Get(SortKeys(fields), k) == Get(fields, k)
      {
        InsertGet(key, value, SortKeys(next), k);
      }
  }

  lemma JoinedBehind(part: Text, rest: seq<Text>)
    ensures Joined([part] + rest) == part + if rest == [] then [] else [COMMA] + Joined(rest)
  {
    var parts := [part] + rest;
    assert parts[1..] == rest && Ascii(",") == [COMMA];
    assert (part + [COMMA]) + Joined(rest) == part + ([COMMA] + Joined(rest));
  }

  lemma FirstOfMembers(fields: Fields, key: Text, rest: seq<Text>)
    requires key in Keys(fields) && AreKeys(fields, rest)
    ensures AreKeys(fields, [key] + rest)
    ensures MembersText(fields, [key] + rest) == MemberText(fields, key) + if rest == [] then [] else [COMMA] + MembersText(fields, rest)
  {
    assert MemberTexts(fields, [key] + rest) == [MemberText(fields, key)] + MemberTexts(fields, rest);
    JoinedBehind(MemberText(fields, key), MemberTexts(fields, rest));
  }

  lemma FieldText(sorted: Fields, member: Text, others: Text)
    requires sorted.Field? && CanonicalizeJson(sorted.value).Ok? && CanonicalizeFields(sorted.next) == Ok(others)
    requires member == Quoted(sorted.key) + Ascii(":") + CanonicalizeJson(sorted.value).value
    ensures CanonicalizeFields(sorted) == Ok(member + if sorted.next.NoFields? then [] else [COMMA] + others)
  {
    assert Ascii(":") == [COLON];
    var rest := if sorted.next.NoFields? then [] else [COMMA] + others;
    assert CanonicalizeFields(sorted) == Ok(Quoted(sorted.key) + [COLON] + CanonicalizeJson(sorted.value).value + rest);
  }

  predicate SameMembers(sorted: Fields, fields: Fields) {
    Keys(sorted) <= Keys(fields) && forall k :: k in Keys(sorted) ==> Get(sorted, k) == Get(fields, k)
  }

  lemma TailHasSameMembers(sorted: Fields, fields: Fields)
    requires sorted.Field? && Ordered(sorted) && SameMembers(sorted, fields)
    ensures SameMembers(sorted.next, fields) && sorted.key in Keys(fields) && Get(fields, sorted.key) == sorted.value
  {
    HeadIsLeast(sorted);
    assert Get(sorted, sorted.key) == sorted.value;
    assert forall k :: k in Keys(sorted.next) ==> Get(sorted, k) == Get(sorted.next, k);
  }

  lemma {:induction false} FieldsText(sorted: Fields, fields: Fields)
    requires Ordered(sorted) && SupportedFields(sorted) && SameMembers(sorted, fields)
    ensures AreKeys(fields, KeyList(sorted))
    ensures CanonicalizeFields(sorted) == Ok(MembersText(fields, KeyList(sorted)))
  {
    match sorted
    case NoFields =>
    case Field(key, value, next) =>
      TailHasSameMembers(sorted, fields);
      CanonicalIsSortedText(value);
      FieldsText(next, fields);
      FirstOfMembers(fields, key, KeyList(next));
      FieldText(sorted, MemberText(fields, key), MembersText(fields, KeyList(next)));
  }

  lemma ObjectText(fields: Fields, members: Text)
    requires CanonicalizeFields(SortKeys(fields)) == Ok(members)
    ensures CanonicalizeJson(Obj(fields)) == Ok(Ascii("{") + members + Ascii("}"))
  {
    assert Ascii("{") == [OPEN_OBJECT] && Ascii("}") == [CLOSE_OBJECT];
  }

  /** The object is printed as these members in this order, each key once. */
  ghost predicate PrintedAs(fields: Fields, keys: seq<Text>) {
    && EachKeyOnce(fields, keys) && AreKeys(fields, keys)
    && CanonicalizeJson(Obj(fields)) == Ok(Ascii("{") + MembersText(fields, keys) + Ascii("}"))
  }

  /**
   * The canonical text of any object a program can build: its members in braces, every key once, in
   * code unit order.
   */
  lemma CanonicalObjectText(fields: Fields)
    requires SupportedFields(fields) && UniqueKeysFields(fields)
    ensures exists keys: seq<Text> :: PrintedAs(fields, keys) && InKeyOrder(keys)
  {
    var sorted := SortKeys(fields);
    SortKeysOrders(fields);
    SortedValuesOfSortKeys(fields);
    CanonicalFields(sorted);
    OrderedIsInKeyOrder(sorted);
    FieldsText(sorted, fields);
    ObjectText(fields, MembersText(fields, KeyList(sorted)));
    assert PrintedAs(fields, KeyList(sorted));
  }

  predicate StandsAt(text: Text, part: Text, at: nat) { at + |part| <= |text| && text[at..at + |part|] == part }

  lemma StandsBehind(head: Text, rest: Text, part: Text, at: nat)
    requires StandsAt(rest, part, at)
    ensures StandsAt(head + rest, part, |head| + at)
  {
  }

  lemma StandsFirst(part: Text, rest: Text)
    ensures StandsAt(part, part, 0) && StandsAt((part + Ascii(",")) + rest, part, 0)
  {
  }

  /** Where part `i` of the list begins, each part with its comma before it. */
  function Offset(parts: seq<Text>, i: nat): nat
    requires i < |parts|
  {
    if i == 0 then 0 else |parts[0]| + 1 + Offset(parts[1..], i - 1)
  }

  /** Each part stands in the joined text at its offset. */
  lemma {:induction false} PartStandsAtOffset(parts: seq<Text>, i: nat)
    requires i < |parts|
    ensures StandsAt(Joined(parts), parts[i], Offset(parts, i))
  {
    if i == 0 {
      StandsFirst(parts[0], Joined(parts[1..]));
    } else {
      PartStandsAtOffset(parts[1..], i - 1);
      StandsBehind(parts[0] + Ascii(","), Joined(parts[1..]), parts[i], Offset(parts[1..], i - 1));
    }
  }

  lemma {:induction false} OffsetsAscend(parts: seq<Text>, i: nat, j: nat)
    requires i < j < |parts|
    ensures Offset(parts, i) < Offset(parts, j)
  {
    if i > 0 {
      OffsetsAscend(parts[1..], i - 1, j - 1);
    }
  }

  /**
   * Of two keys of an object, the one that comes first by code units is printed first, each member
   * standing in the text at its place behind the opening brace.
   */
  lemma EarlierKeyIsPrintedFirst(fields: Fields, a: Text, b: Text)
    requires SupportedFields(fields) && UniqueKeysFields(fields) && a in Keys(fields) && b in Keys(fields) && ComesFirst(a, b)
    ensures exists keys: seq<Text>, i: nat, j: nat ::
      && PrintedAs(fields, keys) && i < j < |keys| && keys[i] == a && keys[j] == b
      && var parts := MemberTexts(fields, keys);
      && Offset(parts, i) < Offset(parts, j)
      && StandsAt(MembersText(fields, keys), MemberText(fields, a), Offset(parts, i))
      && StandsAt(MembersText(fields, keys), MemberText(fields, b), Offset(parts, j))
  {
    CanonicalObjectText(fields);
    var keys: seq<Text> :| PrintedAs(fields, keys) && InKeyOrder(keys);
    var i: nat :| i < |keys| && keys[i] == a;
    var j: nat :| j < |keys| && keys[j] == b;
    FirstStandsFirst(keys, i, j);
    PartStandsAtOffset(MemberTexts(fields, keys), i);
    PartStandsAtOffset(MemberTexts(fields, keys), j);
    OffsetsAscend(MemberTexts(fields, keys), i, j);
  }

  lemma FirstStandsFirst(keys: seq<Text>, i: nat, j: nat)
    requires InKeyOrder(keys) && i < |keys| && j < |keys| && ComesFirst(keys[i], keys[j])
    ensures i < j
  {
    LessIsByIndex(keys[i], keys[j]);
    LessIsByIndex(keys[j], keys[i]);
    LessIsIrreflexive(keys[i]);
    if j < i {
      LessIsAsymmetric(keys[j], keys[i]);
    }
  }

  // ------------------------------------------------------------------
  // Tokens
  // ------------------------------------------------------------------

  /** The delimiters and literals of JSON. */
  lemma TokensAreJson()
    ensures [OPEN_OBJECT] == Ascii("{") && [CLOSE_OBJECT] == Ascii("}") && [OPEN_ARRAY] == Ascii("[") && [CLOSE_ARRAY] == Ascii("]")
    ensures [COMMA] == Ascii(",") && [COLON] == Ascii(":") && [QUOTE] == Ascii("\"") && [BACKSLASH] == Ascii("\\")
    ensures NULL == Ascii("null") && TRUE == Ascii("true") && FALSE == Ascii("false")
  {
  }

  /** The value of a lower-case hexadecimal digit. */
  function HexValue(c: CodeUnit): Option<int> {
    if '0' as int <= c <= '9' as int then Some(c - '0' as int)
    else if 'a' as int <= c <= 'f' as int then Some(c - 'a' as int + 10)
    else None
  }

  /** `t` is a backslash, a `u` and the four lower-case hexadecimal digits of `c`. */
  predicate IsHexEscape(t: Text, c: CodeUnit) {
    && |t| == 6 && t[..2] == Ascii("\\u")
    && HexValue(t[2]).Some? && HexValue(t[3]).Some? && HexValue(t[4]).Some? && HexValue(t[5]).Some?
    && c == ((HexValue(t[2]).value * 16 + HexValue(t[3]).value) * 16 + HexValue(t[4]).value) * 16 + HexValue(t[5]).value
  }

  /** Which code units are escaped, and how: the seven short forms, lower-case hexadecimal for other controls and lone surrogates. */
  lemma EscapesAreExact(c: CodeUnit)
    ensures c == 34 ==> EscapeUnit(c) == Ascii("\\\"")
    ensures c == 92 ==> EscapeUnit(c) == Ascii("\\\\")
    ensures c == 8 ==> EscapeUnit(c) == Ascii("\\b")
    ensures c == 9 ==> EscapeUnit(c) == Ascii("\\t")
    ensures c == 10 ==> EscapeUnit(c) == Ascii("\\n")
    ensures c == 12 ==> EscapeUnit(c) == Ascii("\\f")
    ensures c == 13 ==> EscapeUnit(c) == Ascii("\\r")
    ensures c !in {34, 92, 8, 9, 10, 12, 13} && (c < 32 || 0xD800 <= c <= 0xDFFF) ==> IsHexEscape(EscapeUnit(c), c)
    ensures c !in {34, 92} && c >= 32 && !(0xD800 <= c <= 0xDFFF) ==> EscapeUnit(c) == [c]
  {
    HexEscapeOf(c);
  }

  lemma HexDigitValue(d: int)
    requires 0 <= d < 16
    ensures HexValue(HexDigit(d)) == Some(d)
  {
  }

  lemma FourDigits(c: CodeUnit)
    ensures c == ((c / 4096 * 16 + c / 256 % 16) * 16 + c / 16 % 16) * 16 + c % 16 && c / 4096 < 16
  {
    assert c / 16 == c / 256 * 16 + c / 16 % 16;
    assert c / 256 == c / 4096 * 16 + c / 256 % 16;
  }

  lemma HexEscapeOf(c: CodeUnit)
    ensures IsHexEscape([BACKSLASH, 117] + Hex4(c), c)
  {
    FourDigits(c);
    HexDigitValue(c / 4096);
    HexDigitValue(c / 256 % 16);
    HexDigitValue(c / 16 % 16);
    HexDigitValue(c % 16);
    assert ([BACKSLASH, 117] + Hex4(c))[..2] == [BACKSLASH, 117] == Ascii("\\u");
  }
}
