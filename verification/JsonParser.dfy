/**
 * A parser for JSON texts without insignificant white space (RFC 8259), and its round trip with the
 * printer of Json. Tokens with a fraction or an exponent are kept as they are spelled.
 */
module JsonParser {
  import opened Wrappers
  import opened Text
  import opened Json

  // ------------------------------------------------------------------
  // Parser
  // ------------------------------------------------------------------

  function HexValue(c: CodeUnit): Option<CodeUnit> {
    if 48 <= c <= 57 then Some(c - 48)
    else if 97 <= c <= 102 then Some(c - 87)
    else if 65 <= c <= 70 then Some(c - 55)
    else None
  }

  function Unhex4(t: Text): Option<CodeUnit>
    requires |t| == 4
  {
    var a, b, c, d := HexValue(t[0]), HexValue(t[1]), HexValue(t[2]), HexValue(t[3]);
    if a.Some? && b.Some? && c.Some? && d.Some? && a.value < 16 && b.value < 16 && c.value < 16 && d.value < 16 then
      Some(a.value * 4096 + b.value * 256 + c.value * 16 + d.value)
    else None
  }

  function LongEscape(letter: CodeUnit): Option<CodeUnit> {
    if letter == QUOTE || letter == BACKSLASH || letter == 47 then Some(letter)
    else if letter == 98 then Some(8)
    else if letter == 116 then Some(9)
    else if letter == 110 then Some(10)
    else if letter == 102 then Some(12)
    else if letter == 114 then Some(13)
    else None
  }

  /** One character of a string body: what it stands for and how long it is. */
  function ParseUnit(t: Text): (r: Option<(CodeUnit, nat)>)
    requires t != [] && t[0] != QUOTE
    ensures r.Some? ==> 0 < r.value.1 <= |t|
  {
    if t[0] == BACKSLASH then
      if |t| < 2 then None
      else if t[1] == 117 then
        if |t| < 6 || Unhex4(t[2..6]).None? then None else Some((Unhex4(t[2..6]).value, 6))
      else if LongEscape(t[1]).Some? then Some((LongEscape(t[1]).value, 2))
      else None
    else if t[0] < 0x20 then None
    else Some((t[0], 1))
  }

  /** The body of a string and its closing quote. */
  function ParseString(t: Text): (r: Option<(Text, Text)>)
    ensures r.Some? ==> |r.value.1| < |t|
  {
    if t == [] then None
    else if t[0] == QUOTE then Some(([], t[1..]))
    else
      var u := ParseUnit(t);
      if u.None? then None
      else
        var others := ParseString(t[u.value.1..]);
        if others.None? then None else Some(([u.value.0] + others.value.0, others.value.1))
  }

  function NumericSpan(t: Text): (n: nat)
    ensures n <= |t| && AllNumeric(t[..n]) && (n < |t| ==> !IsNumeric(t[n]))
  {
    if t == [] || !IsNumeric(t[0]) then 0
    else
      var n := NumericSpan(t[1..]);
      assert forall i :: 1 <= i <= n ==> t[i] == t[1..][i - 1];
      1 + n
  }

  predicate AllDigits(t: Text) { forall i :: 0 <= i < |t| ==> IsDigit(t[i]) }

  function ValueOf(digits: Text): nat
    requires AllDigits(digits)
  {
    if digits == [] then 0 else ValueOf(digits[..|digits| - 1]) * 10 + (digits[|digits| - 1] - 48)
  }

  function ParseInteger(negative: bool, digits: Text): Option<Number>
    requires AllDigits(digits)
  {
    if digits == [] || (|digits| > 1 && digits[0] == 48) || ValueOf(digits) >= INTEGER_BOUND then None
    else if negative && ValueOf(digits) == 0 then Some(NegativeZero)
    else Some(Int(if negative then 0 - ValueOf(digits) else ValueOf(digits)))
  }

  function ParseToken(token: Text): Option<Number> {
    if AllDigits(token) then ParseInteger(false, token)
    else if token[0] == 45 && AllDigits(token[1..]) then ParseInteger(true, token[1..])
    else if IsLexeme(token) then Some(Other(token))
    else None
  }

  function ParseValue(t: Text, holes: bool): (r: Option<(Value, Text)>)
    ensures r.Some? ==> |r.value.1| < |t|
    decreases |t|, 0
  {
    if t == [] then None
    else if t[0] == QUOTE then
      var s := ParseString(t[1..]);
      if s.None? then None else Some((Str(s.value.0), s.value.1))
    else if t[0] == OPEN_ARRAY then
      if |t| > 1 && t[1] == CLOSE_ARRAY then Some((Arr(NoItems), t[2..]))
      else
        var items := ParseItems(t[1..], holes);
        if items.None? then None else Some((Arr(items.value.0), items.value.1))
    else if t[0] == OPEN_OBJECT then
      if |t| > 1 && t[1] == CLOSE_OBJECT then Some((Obj(NoFields), t[2..]))
      else
        var fields := ParseFields(t[1..], holes);
        if fields.None? then None else Some((Obj(fields.value.0), fields.value.1))
    else if NULL <= t then Some((Null, t[4..]))
    else if TRUE <= t then Some((Bool(true), t[4..]))
    else if FALSE <= t then Some((Bool(false), t[5..]))
    else if IsNumeric(t[0]) then
      var n := NumericSpan(t);
      var token := ParseToken(t[..n]);
      if token.None? then None else Some((Num(token.value), t[n..]))
    else None
  }

  function ParseItems(t: Text, holes: bool): (r: Option<(Items, Text)>)
    ensures r.Some? ==> |r.value.1| < |t|
    decreases |t|, 1
  {
    if holes && t != [] && t[0] == CLOSE_ARRAY then Some((Hole(NoItems), t[1..]))
    else if holes && t != [] && t[0] == COMMA then
      var others := ParseItems(t[1..], holes);
      if others.None? then None else Some((Hole(others.value.0), others.value.1))
    else
      var v := ParseValue(t, holes);
      if v.None? || v.value.1 == [] then None
      else if v.value.1[0] == CLOSE_ARRAY then Some((Item(v.value.0, NoItems), v.value.1[1..]))
      else if v.value.1[0] == COMMA then
        var others := ParseItems(v.value.1[1..], holes);
        if others.None? then None else Some((Item(v.value.0, others.value.0), others.value.1))
      else None
  }

  function ParseFields(t: Text, holes: bool): (r: Option<(Fields, Text)>)
    ensures r.Some? ==> |r.value.1| < |t|
    decreases |t|, 1
  {
    if t == [] || t[0] != QUOTE then None
    else
      var key := ParseString(t[1..]);
      if key.None? || key.value.1 == [] || key.value.1[0] != COLON then None
      else
        var v := ParseValue(key.value.1[1..], holes);
        if v.None? || v.value.1 == [] then None
        else if v.value.1[0] == CLOSE_OBJECT then Some((Field(key.value.0, v.value.0, NoFields), v.value.1[1..]))
        else if v.value.1[0] == COMMA then
          var others := ParseFields(v.value.1[1..], holes);
          if others.None? then None else Some((Field(key.value.0, v.value.0, others.value.0), others.value.1))
        else None
  }

  function Whole(v: Option<(Value, Text)>): Option<Value> {
    if v.None? || v.value.1 != [] then None else Some(v.value.0)
  }

  /** JSON: an array element must be there. */
  function Parse(t: Text): Option<Value> { Whole(ParseValue(t, false)) }

  /** The same grammar with elisions, the way the printer writes holes; `[]` is the empty array. */
  function ParseLoosely(t: Text): Option<Value> { Whole(ParseValue(t, true)) }

  // ------------------------------------------------------------------
  // Regrouping
  // ------------------------------------------------------------------

  lemma Regroup3(a: Text, b: Text, c: Text)
    ensures a + b + c == a + (b + c)
  {
  }

  lemma Regroup4(a: Text, b: Text, c: Text, d: Text)
    ensures a + b + c + d == a + (b + c + d)
  {
    Regroup3(a, b, c);
    Regroup3(a, b + c, d);
  }

  lemma Regroup6(a: Text, b: Text, c: Text, d: Text, e: Text, f: Text)
    ensures a + b + c + d + e + f == a + (b + (c + (d + e + f)))
  {
    Regroup4(a + b + c, d, e, f);
    Regroup4(a, b, c, d + e + f);
    Regroup3(b, c, d + e + f);
  }

  // ------------------------------------------------------------------
  // Strings
  // ------------------------------------------------------------------

  lemma HexDigitRoundTrip(d: int)
    requires 0 <= d < 16
    ensures HexValue(HexDigit(d)) == Some(d)
  {
  }

  lemma HexPlaces(c: CodeUnit)
    ensures 0 <= c / 4096 < 16
    ensures c == c / 4096 * 4096 + c / 256 % 16 * 256 + c / 16 % 16 * 16 + c % 16
  {
    assert c / 256 == c / 16 / 16 && c / 4096 == c / 256 / 16;
  }

  lemma HexRoundTrip(c: CodeUnit)
    ensures Unhex4(Hex4(c)) == Some(c)
  {
    HexPlaces(c);
    HexDigitRoundTrip(c / 4096);
    HexDigitRoundTrip(c / 256 % 16);
    HexDigitRoundTrip(c / 16 % 16);
    HexDigitRoundTrip(c % 16);
  }

  lemma UnitRoundTrip(c: CodeUnit, rest: Text)
    ensures var t := EscapeUnit(c) + rest;
      t[0] != QUOTE && ParseUnit(t) == Some((c, |EscapeUnit(c)|))
  {
    var t := EscapeUnit(c) + rest;
    if ShortEscape(c).None? && (c < 0x20 || IsHigh(c) || IsLow(c)) {
      HexRoundTrip(c);
      assert t[2..6] == Hex4(c);
    }
  }

  function Prepend(c: CodeUnit, r: Option<(Text, Text)>): Option<(Text, Text)> {
    if r.None? then None else Some(([c] + r.value.0, r.value.1))
  }

  lemma EscapedStep(c: CodeUnit, after: Text)
    ensures ParseString(EscapeUnit(c) + after) == Prepend(c, ParseString(after))
  {
    UnitRoundTrip(c, after);
    assert (EscapeUnit(c) + after)[|EscapeUnit(c)|..] == after;
  }

  lemma RawStep(c: CodeUnit, after: Text)
    requires c >= 0x20 && c != QUOTE && c != BACKSLASH
    ensures ParseString([c] + after) == Prepend(c, ParseString(after))
  {
    assert ([c] + after)[1..] == after;
  }

  lemma PairStep(high: CodeUnit, low: CodeUnit, after: Text)
    requires IsHigh(high) && IsLow(low)
    ensures ParseString([high, low] + after) == Prepend(high, Prepend(low, ParseString(after)))
  {
    RawStep(low, after);
    RawStep(high, [low] + after);
    assert [high, low] + after == [high] + ([low] + after);
  }

  lemma {:induction false} StringRoundTrip(s: Text, rest: Text)
    ensures ParseString(Escape(s) + [QUOTE] + rest) == Some((s, rest))
    decreases |s|
  {
    if s == [] {
      assert (Escape(s) + [QUOTE] + rest)[1..] == rest;
    } else if |s| >= 2 && IsHigh(s[0]) && IsLow(s[1]) {
      StringRoundTrip(s[2..], rest);
      PairStep(s[0], s[1], Escape(s[2..]) + [QUOTE] + rest);
      Regroup4([s[0], s[1]], Escape(s[2..]), [QUOTE], rest);
      assert s == [s[0]] + ([s[1]] + s[2..]);
    } else {
      StringRoundTrip(s[1..], rest);
      EscapedStep(s[0], Escape(s[1..]) + [QUOTE] + rest);
      Regroup4(EscapeUnit(s[0]), Escape(s[1..]), [QUOTE], rest);
      assert s == [s[0]] + s[1..];
    }
  }

  // ------------------------------------------------------------------
  // Numbers
  // ------------------------------------------------------------------

  lemma {:induction false} DigitsRoundTrip(n: nat)
    ensures AllDigits(Digits(n)) && ValueOf(Digits(n)) == n
    ensures Digits(n) != [] && (n > 0 ==> Digits(n)[0] != 48) && (n == 0 ==> Digits(n) == [48])
  {
    if n >= 10 {
      DigitsRoundTrip(n / 10);
      assert Digits(n)[..|Digits(n)| - 1] == Digits(n / 10);
    }
  }

  lemma LeadingZero(n: nat)
    ensures |Digits(n)| > 1 ==> Digits(n)[0] != 48
  {
    DigitsRoundTrip(n);
  }

  /** What is read back from the text of `n`: negative zero prints like zero. */
  function ReadBack(n: Number): Number { if n == NegativeZero then Int(0) else n }

  predicate IsToken(t: Text) { t != [] && AllNumeric(t) && (IsDigit(t[0]) || t[0] == 45) }

  lemma PositiveRoundTrip(n: nat)
    requires n < INTEGER_BOUND
    ensures IsToken(Digits(n)) && ParseToken(Digits(n)) == Some(Int(n))
  {
    DigitsRoundTrip(n);
    LeadingZero(n);
  }

  lemma NegativeRoundTrip(n: nat)
    requires 0 < n < INTEGER_BOUND
    ensures IsToken([45] + Digits(n)) && ParseToken([45] + Digits(n)) == Some(Int(0 - n))
  {
    var t: Text := [45] + Digits(n);
    DigitsRoundTrip(n);
    LeadingZero(n);
    assert t[1..] == Digits(n);
    assert !IsDigit(t[0]);
  }

  lemma TokenRoundTrip(n: Number)
    requires n != NonFinite
    ensures IsToken(PrintNumber(n)) && ParseToken(PrintNumber(n)) == Some(ReadBack(n))
  {
    match n
    case Int(i) =>
      if i < 0 {
        NegativeRoundTrip(-i);
      } else {
        PositiveRoundTrip(i);
      }
    case NegativeZero =>
      assert PrintNumber(n) == Digits(0);
      PositiveRoundTrip(0);
    case Other(lexeme) =>
      LexemeIsNoInteger(lexeme);
  }

  lemma LexemeIsNoInteger(t: Lexeme)
    ensures !AllDigits(t) && !AllDigits(t[1..])
  {
    var i :| 0 <= i < |t| && (t[i] == 46 || t[i] == 101);
    assert !IsDigit(t[i]);
    assert i != 0 && t[1..][i - 1] == t[i];
  }

  lemma {:induction false} SpanOfToken(t: Text, rest: Text)
    requires AllNumeric(t) && (rest == [] || !IsNumeric(rest[0]))
    ensures NumericSpan(t + rest) == |t|
    decreases |t|
  {
    if t == [] {
      assert t + rest == rest;
    } else {
      SpanOfToken(t[1..], rest);
      assert (t + rest)[1..] == t[1..] + rest;
    }
  }

  lemma NumberRoundTrip(n: Number, rest: Text, holes: bool)
    requires n != NonFinite && (rest == [] || !IsNumeric(rest[0]))
    ensures ParseValue(PrintNumber(n) + rest, holes) == Some((Num(ReadBack(n)), rest))
  {
    var t := PrintNumber(n);
    TokenRoundTrip(n);
    SpanOfToken(t, rest);
    assert (t + rest)[..|t|] == t && (t + rest)[|t|..] == rest;
    assert (t + rest)[0] == t[0];
  }

  // ------------------------------------------------------------------
  // Values
  // ------------------------------------------------------------------

  /** No array has a hole and, unless allowed, no number is negative zero. */
  predicate Tidy(v: Value, allowNegativeZero: bool) {
    match v
    case Num(n) => n == NegativeZero ==> allowNegativeZero
    case Arr(items) => TidyItems(items, allowNegativeZero)
    case Obj(fields) => TidyFields(fields, allowNegativeZero)
    case _ => true
  }

  predicate TidyItems(items: Items, allowNegativeZero: bool) {
    match items
    case NoItems => true
    case Item(head, tail) => Tidy(head, allowNegativeZero) && TidyItems(tail, allowNegativeZero)
    case Hole(_) => false
  }

  predicate TidyFields(fields: Fields, allowNegativeZero: bool) {
    match fields
    case NoFields => true
    case Field(_, value, next) => Tidy(value, allowNegativeZero) && TidyFields(next, allowNegativeZero)
  }

  predicate Dense(v: Value) { Tidy(v, true) }

  /**
   * What can be told from the text of a value: negative zero prints like zero, and an array of one
   * hole like the empty array.
   */
  function Plain(v: Value): Value {
    match v
    case Num(n) => Num(ReadBack(n))
    case Arr(items) => if items == Hole(NoItems) then Arr(NoItems) else Arr(PlainItems(items))
    case Obj(fields) => Obj(PlainFields(fields))
    case _ => v
  }

  function PlainItems(items: Items): Items {
    match items
    case NoItems => NoItems
    case Item(head, tail) => Item(Plain(head), PlainItems(tail))
    case Hole(rest) => Hole(PlainItems(rest))
  }

  function PlainFields(fields: Fields): Fields {
    match fields
    case NoFields => NoFields
    case Field(key, value, next) => Field(key, Plain(value), PlainFields(next))
  }

  lemma FirstUnit(v: Value)
    requires Supported(v)
    ensures Print(v) != [] && Print(v)[0] != CLOSE_ARRAY && Print(v)[0] != COMMA
  {
    if v.Num? {
      TokenRoundTrip(v.n);
    }
  }

  predicate Stops(rest: Text) { rest == [] || !IsNumeric(rest[0]) }

  /** Whatever follows, the parser reads exactly the printed value. */
  lemma {:induction false} ValueRoundTrip(v: Value, rest: Text, holes: bool)
    requires Supported(v) && (holes || Dense(v)) && Stops(rest)
    ensures ParseValue(Print(v) + rest, holes) == Some((Plain(v), rest))
    decreases v, 0
  {
    match v
    case Null => NullRoundTrip(rest, holes);
    case Bool(b) => LiteralRoundTrip(b, rest, holes);
    case Num(n) => NumberRoundTrip(n, rest, holes);
    case Str(s) => KeyRoundTrip(s, rest);
    case Arr(items) => ArrayRoundTrip(items, rest, holes);
    case Obj(fields) => ObjectRoundTrip(fields, rest, holes);
  }

  lemma NullRoundTrip(rest: Text, holes: bool)
    ensures ParseValue(NULL + rest, holes) == Some((Null, rest))
  {
    assert (NULL + rest)[4..] == rest;
  }

  lemma LiteralRoundTrip(b: bool, rest: Text, holes: bool)
    ensures ParseValue((if b then TRUE else FALSE) + rest, holes) == Some((Bool(b), rest))
  {
    assert (TRUE + rest)[4..] == rest && (FALSE + rest)[5..] == rest;
  }

  lemma OpenArray(body: Text, holes: bool)
    requires body != [] && body[0] != CLOSE_ARRAY
    ensures var r, items := ParseValue([OPEN_ARRAY] + body, holes), ParseItems(body, holes);
      r == if items.None? then None else Some((Arr(items.value.0), items.value.1))
  {
    assert ([OPEN_ARRAY] + body)[1..] == body;
  }

  lemma EmptyBrackets(rest: Text, holes: bool)
    ensures ParseValue([OPEN_ARRAY] + [] + [CLOSE_ARRAY] + rest, holes) == Some((Arr(NoItems), rest))
    ensures ParseValue([OPEN_OBJECT] + [] + [CLOSE_OBJECT] + rest, holes) == Some((Obj(NoFields), rest))
  {
    assert ([OPEN_ARRAY] + [] + [CLOSE_ARRAY] + rest)[2..] == rest;
    assert ([OPEN_OBJECT] + [] + [CLOSE_OBJECT] + rest)[2..] == rest;
  }

  lemma {:induction false} ArrayRoundTrip(items: Items, rest: Text, holes: bool)
    requires SupportedItems(items) && (holes || TidyItems(items, true))
    ensures ParseValue(Print(Arr(items)) + rest, holes) == Some((Plain(Arr(items)), rest))
    decreases items, 2
  {
    if PrintItems(items) == [] {
      EmptyItems(items);
      EmptyBrackets(rest, holes);
    } else {
      FirstOfItems(items);
      ItemsRoundTrip(items, rest, holes);
      OpenArray(PrintItems(items) + [CLOSE_ARRAY] + rest, holes);
      Regroup4([OPEN_ARRAY], PrintItems(items), [CLOSE_ARRAY], rest);
    }
  }

  /** Only no element and a single hole print as nothing. */
  lemma EmptyItems(items: Items)
    requires SupportedItems(items)
    ensures PrintItems(items) == [] <==> items == NoItems || items == Hole(NoItems)
  {
    if items.Item? {
      FirstUnit(items.head);
    }
  }

  lemma FirstOfItems(items: Items)
    requires SupportedItems(items) && PrintItems(items) != []
    ensures PrintItems(items)[0] != CLOSE_ARRAY && items != NoItems && items != Hole(NoItems)
  {
    if items.Item? {
      FirstUnit(items.head);
    }
  }

  /** One element: its text, and whatever comes after it. */
  lemma ItemStep(text: Text, v: Value, after: Text, holes: bool)
    requires ParseValue(text + after, holes) == Some((v, after)) && after != []
    requires after[0] == CLOSE_ARRAY || after[0] == COMMA
    requires text != [] && text[0] != CLOSE_ARRAY && text[0] != COMMA
    ensures var r := ParseItems(text + after, holes);
      r == if after[0] == CLOSE_ARRAY then Some((Item(v, NoItems), after[1..]))
           else if ParseItems(after[1..], holes).None? then None
           else Some((Item(v, ParseItems(after[1..], holes).value.0), ParseItems(after[1..], holes).value.1))
  {
  }

  lemma {:induction false} ItemsRoundTrip(items: Items, rest: Text, holes: bool)
    requires items != NoItems && SupportedItems(items) && (holes || TidyItems(items, true))
    ensures ParseItems(PrintItems(items) + [CLOSE_ARRAY] + rest, holes) == Some((PlainItems(items), rest))
    decreases items, 1
  {
    if items.Hole? {
      HoleRoundTrip(items, rest, holes);
    } else {
      var others := if items.tail.NoItems? then [] else [COMMA] + PrintItems(items.tail);
      var after := others + [CLOSE_ARRAY] + rest;
      assert PrintItems(items) == Print(items.head) + others;
      Regroup4(Print(items.head), others, [CLOSE_ARRAY], rest);
      FirstUnit(items.head);
      ValueRoundTrip(items.head, after, holes);
      ItemStep(Print(items.head), Plain(items.head), after, holes);
      if items.tail.NoItems? {
        assert after[1..] == rest;
      } else {
        Regroup4([COMMA], PrintItems(items.tail), [CLOSE_ARRAY], rest);
        assert after[1..] == PrintItems(items.tail) + [CLOSE_ARRAY] + rest;
        ItemsRoundTrip(items.tail, rest, holes);
      }
    }
  }

  lemma {:induction false} HoleRoundTrip(items: Items, rest: Text, holes: bool)
    requires items.Hole? && SupportedItems(items) && holes
    ensures ParseItems(PrintItems(items) + [CLOSE_ARRAY] + rest, holes) == Some((PlainItems(items), rest))
    decreases items, 0
  {
    if items.rest.NoItems? {
      assert [] + [CLOSE_ARRAY] + rest == [CLOSE_ARRAY] + rest && ([CLOSE_ARRAY] + rest)[1..] == rest;
    } else {
      var after := PrintItems(items.rest) + [CLOSE_ARRAY] + rest;
      Regroup4([COMMA], PrintItems(items.rest), [CLOSE_ARRAY], rest);
      assert ([COMMA] + after)[1..] == after;
      ItemsRoundTrip(items.rest, rest, holes);
    }
  }

  lemma FieldsStartWithQuote(fields: Fields)
    requires fields.Field? && SupportedFields(fields)
    ensures PrintFields(fields) != [] && PrintFields(fields)[0] == QUOTE
  {
  }

  lemma OpenObject(body: Text, holes: bool)
    requires body != [] && body[0] == QUOTE
    ensures var r, fields := ParseValue([OPEN_OBJECT] + body, holes), ParseFields(body, holes);
      r == if fields.None? then None else Some((Obj(fields.value.0), fields.value.1))
  {
    assert ([OPEN_OBJECT] + body)[1..] == body;
  }

  lemma {:induction false} ObjectRoundTrip(fields: Fields, rest: Text, holes: bool)
    requires SupportedFields(fields) && (holes || TidyFields(fields, true))
    ensures ParseValue(Print(Obj(fields)) + rest, holes) == Some((Obj(PlainFields(fields)), rest))
    decreases fields, 1
  {
    if fields.NoFields? {
      EmptyBrackets(rest, holes);
    } else {
      FieldsRoundTrip(fields, rest, holes);
      FieldsStartWithQuote(fields);
      OpenObject(PrintFields(fields) + [CLOSE_OBJECT] + rest, holes);
      Regroup4([OPEN_OBJECT], PrintFields(fields), [CLOSE_OBJECT], rest);
    }
  }

  /** One field: its key, its value, and whatever comes after it. */
  lemma FieldStep(key: Text, text: Text, v: Value, after: Text, holes: bool)
    requires ParseValue(text + after, holes) == Some((v, after)) && after != []
    requires after[0] == CLOSE_OBJECT || after[0] == COMMA
    ensures var r := ParseFields(Quoted(key) + ([COLON] + (text + after)), holes);
      r == if after[0] == CLOSE_OBJECT then Some((Field(key, v, NoFields), after[1..]))
           else if ParseFields(after[1..], holes).None? then None
           else Some((Field(key, v, ParseFields(after[1..], holes).value.0), ParseFields(after[1..], holes).value.1))
  {
    KeyRoundTrip(key, [COLON] + (text + after));
    assert ([COLON] + (text + after))[1..] == text + after;
  }

  lemma {:induction false} FieldsRoundTrip(fields: Fields, rest: Text, holes: bool)
    requires fields.Field? && SupportedFields(fields) && (holes || TidyFields(fields, true))
    ensures ParseFields(PrintFields(fields) + [CLOSE_OBJECT] + rest, holes) == Some((PlainFields(fields), rest))
    decreases fields, 0
  {
    var others := if fields.next.NoFields? then [] else [COMMA] + PrintFields(fields.next);
    var after := others + [CLOSE_OBJECT] + rest;
    Regroup6(Quoted(fields.key), [COLON], Print(fields.value), others, [CLOSE_OBJECT], rest);
    AfterField(fields.next, rest);
    ValueRoundTrip(fields.value, after, holes);
    FieldStep(fields.key, Print(fields.value), Plain(fields.value), after, holes);
    if fields.next.Field? {
      FieldsRoundTrip(fields.next, rest, holes);
    }
  }

  lemma AfterField(next: Fields, rest: Text)
    requires SupportedFields(next)
    ensures var others := if next.NoFields? then [] else [COMMA] + PrintFields(next);
      var after := others + [CLOSE_OBJECT] + rest;
      && Stops(after) && after != []
      && (next.NoFields? ==> after[0] == CLOSE_OBJECT && after[1..] == rest)
      && (next.Field? ==> after[0] == COMMA && after[1..] == PrintFields(next) + [CLOSE_OBJECT] + rest)
  {
    if next.Field? {
      Regroup4([COMMA], PrintFields(next), [CLOSE_OBJECT], rest);
    }
  }

  lemma KeyRoundTrip(key: Text, rest: Text)
    ensures var t := Quoted(key) + rest;
      t[0] == QUOTE && ParseString(t[1..]) == Some((key, rest))
  {
    StringRoundTrip(key, rest);
    assert (Quoted(key) + rest)[1..] == Escape(key) + [QUOTE] + rest;
  }

  /** The whole text of a value without holes parses to that value. */
  lemma PrintThenParse(v: Value)
    requires Supported(v) && Dense(v)
    ensures Parse(Print(v)) == Some(Plain(v))
  {
    ValueRoundTrip(v, [], false);
    assert Print(v) + [] == Print(v);
  }

  /** With elisions allowed, the text of any supported value parses, to what can be told from it. */
  lemma PrintThenParseLoosely(v: Value)
    requires Supported(v)
    ensures ParseLoosely(Print(v)) == Some(Plain(v))
  {
    ValueRoundTrip(v, [], true);
    assert Print(v) + [] == Print(v);
  }

  // ------------------------------------------------------------------
  // The parser invents no holes
  // ------------------------------------------------------------------

  lemma {:induction false} ParsedIsDense(t: Text)
    ensures ParseValue(t, false).Some? ==> Dense(ParseValue(t, false).value.0)
    decreases |t|, 0
  {
    if t != [] && t[0] == OPEN_ARRAY && !(|t| > 1 && t[1] == CLOSE_ARRAY) {
      ParsedItemsAreDense(t[1..]);
    } else if t != [] && t[0] == OPEN_OBJECT && !(|t| > 1 && t[1] == CLOSE_OBJECT) {
      ParsedFieldsAreDense(t[1..]);
    }
  }

  lemma {:induction false} ParsedItemsAreDense(t: Text)
    ensures ParseItems(t, false).Some? ==> TidyItems(ParseItems(t, false).value.0, true)
    decreases |t|, 1
  {
    ParsedIsDense(t);
    var v := ParseValue(t, false);
    if v.Some? && v.value.1 != [] && v.value.1[0] == COMMA {
      ParsedItemsAreDense(v.value.1[1..]);
    }
  }

  lemma {:induction false} ParsedFieldsAreDense(t: Text)
    ensures ParseFields(t, false).Some? ==> TidyFields(ParseFields(t, false).value.0, true)
    decreases |t|, 1
  {
    if ParseFields(t, false).Some? {
      var key := ParseString(t[1..]);
      var v := ParseValue(key.value.1[1..], false);
      ParsedIsDense(key.value.1[1..]);
      if v.value.1[0] == COMMA {
        ParsedFieldsAreDense(v.value.1[1..]);
      }
    }
  }

  // ------------------------------------------------------------------
  // Elisions only add texts
  // ------------------------------------------------------------------

  lemma {:induction false} StrictIsLoose(t: Text)
    ensures ParseValue(t, false).Some? ==> ParseValue(t, true) == ParseValue(t, false)
    decreases |t|, 0
  {
    if t != [] && t[0] == OPEN_ARRAY && !(|t| > 1 && t[1] == CLOSE_ARRAY) {
      StrictItemsAreLoose(t[1..]);
    } else if t != [] && t[0] == OPEN_OBJECT && !(|t| > 1 && t[1] == CLOSE_OBJECT) {
      StrictFieldsAreLoose(t[1..]);
    }
  }

  lemma {:induction false} StrictItemsAreLoose(t: Text)
    ensures ParseItems(t, false).Some? ==> ParseItems(t, true) == ParseItems(t, false)
    decreases |t|, 1
  {
    StrictIsLoose(t);
    var v := ParseValue(t, false);
    if v.Some? && v.value.1 != [] && v.value.1[0] == COMMA {
      StrictItemsAreLoose(v.value.1[1..]);
    }
  }

  lemma {:induction false} StrictFieldsAreLoose(t: Text)
    ensures ParseFields(t, false).Some? ==> ParseFields(t, true) == ParseFields(t, false)
    decreases |t|, 1
  {
    if ParseFields(t, false).Some? {
      var key := ParseString(t[1..]);
      var v := ParseValue(key.value.1[1..], false);
      StrictIsLoose(key.value.1[1..]);
      if v.value.1[0] == COMMA {
        StrictFieldsAreLoose(v.value.1[1..]);
      }
    }
  }
}
