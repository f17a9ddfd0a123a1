/**
 * Canonical JSON (packages/engine/src/canonicalize.ts): the printer over JavaScript values, a parser
 * for its texts, and what a value means when the order of its keys is forgotten.
 */
module Json {
  import opened Wrappers
  import opened Text

  // ------------------------------------------------------------------
  // Values
  // ------------------------------------------------------------------

  /** Integers print as decimal digits below this bound. */
  const INTEGER_BOUND := 1_000_000_000_000_000_000_000
  type SmallInt = i: int | -INTEGER_BOUND < i < INTEGER_BOUND

  predicate IsDigit(c: CodeUnit) { 48 <= c <= 57 }

  /** Digits, '-', '+', '.', 'e'. */
  predicate IsNumeric(c: CodeUnit) { IsDigit(c) || c == 45 || c == 43 || c == 46 || c == 101 }

  predicate AllNumeric(t: Text) { forall i :: 0 <= i < |t| ==> IsNumeric(t[i]) }

  /** The shortest round-tripping text of a number that does not print as an integer: it has a '.' or an 'e'. */
  predicate IsLexeme(t: Text) {
    t != [] && (IsDigit(t[0]) || t[0] == 45) && AllNumeric(t) && (46 in t || 101 in t)
  }

  type Lexeme = t: Text | IsLexeme(t) witness [49, 46, 53]

  datatype Number = Int(i: SmallInt) | NegativeZero | Other(lexeme: Lexeme) | NonFinite

  /**
   * `Unsupported` stands for a bigint, undefined, function, symbol or object with a prototype of
   * its own. `Hole` is an element a sparse array does not have.
   */
  datatype Value = Null | Bool(b: bool) | Num(n: Number) | Str(s: Text) | Arr(items: Items) | Obj(fields: Fields) | Unsupported
  datatype Items = NoItems | Item(head: Value, tail: Items) | Hole(rest: Items)
  datatype Fields = NoFields | Field(key: Text, value: Value, next: Fields)

  // ------------------------------------------------------------------
  // Printer
  // ------------------------------------------------------------------

  const NULL: Text := [110, 117, 108, 108]
  const TRUE: Text := [116, 114, 117, 101]
  const FALSE: Text := [102, 97, 108, 115, 101]
  const QUOTE: CodeUnit := 34
  const BACKSLASH: CodeUnit := 92
  const COMMA: CodeUnit := 44
  const COLON: CodeUnit := 58
  const OPEN_ARRAY: CodeUnit := 91
  const CLOSE_ARRAY: CodeUnit := 93
  const OPEN_OBJECT: CodeUnit := 123
  const CLOSE_OBJECT: CodeUnit := 125

  predicate IsHigh(c: CodeUnit) { 0xD800 <= c <= 0xDBFF }
  predicate IsLow(c: CodeUnit) { 0xDC00 <= c <= 0xDFFF }

  function HexDigit(d: int): CodeUnit
    requires 0 <= d < 16
  {
    if d < 10 then 48 + d else 87 + d
  }

  function Hex4(c: CodeUnit): Text {
    [HexDigit(c / 4096), HexDigit(c / 256 % 16), HexDigit(c / 16 % 16), HexDigit(c % 16)]
  }

  /** The letter after the backslash of a two-character escape. */
  function ShortEscape(c: CodeUnit): Option<CodeUnit> {
    if c == QUOTE then Some(QUOTE)
    else if c == BACKSLASH then Some(BACKSLASH)
    else if c == 8 then Some(98)
    else if c == 9 then Some(116)
    else if c == 10 then Some(110)
    else if c == 12 then Some(102)
    else if c == 13 then Some(114)
    else None
  }

  function EscapeUnit(c: CodeUnit): Text {
    if ShortEscape(c).Some? then [BACKSLASH, ShortEscape(c).value]
    else if c < 0x20 || IsHigh(c) || IsLow(c) then [BACKSLASH, 117] + Hex4(c)
    else [c]
  }

  /** A surrogate pair is copied; a lone surrogate is escaped. */
  function Escape(s: Text): Text {
    if s == [] then []
    else if |s| >= 2 && IsHigh(s[0]) && IsLow(s[1]) then [s[0], s[1]] + Escape(s[2..])
    else EscapeUnit(s[0]) + Escape(s[1..])
  }

  function Quoted(s: Text): Text { [QUOTE] + Escape(s) + [QUOTE] }

  function Digits(n: nat): Text {
    if n < 10 then [48 + n] else Digits(n / 10) + [48 + n % 10]
  }

  function PrintNumber(n: Number): Text
    requires n != NonFinite
  {
    match n
    case Int(i) => if i < 0 then [45] + Digits(-i) else Digits(i)
    case NegativeZero => [48]
    case Other(lexeme) => lexeme
  }

  predicate Supported(v: Value) {
    match v
    case Unsupported => false
    case Num(n) => n != NonFinite
    case Arr(items) => SupportedItems(items)
    case Obj(fields) => SupportedFields(fields)
    case _ => true
  }

  predicate SupportedItems(items: Items) {
    match items
    case NoItems => true
    case Item(head, tail) => Supported(head) && SupportedItems(tail)
    case Hole(rest) => SupportedItems(rest)
  }

  predicate SupportedFields(fields: Fields) {
    match fields
    case NoFields => true
    case Field(_, value, next) => Supported(value) && SupportedFields(next)
  }

  /** Prints a value with its keys in the order given. */
  function Print(v: Value): Text
    requires Supported(v)
  {
    match v
    case Null => NULL
    case Bool(b) => if b then TRUE else FALSE
    case Num(n) => PrintNumber(n)
    case Str(s) => Quoted(s)
    case Arr(items) => [OPEN_ARRAY] + PrintItems(items) + [CLOSE_ARRAY]
    case Obj(fields) => [OPEN_OBJECT] + PrintFields(fields) + [CLOSE_OBJECT]
  }

  /** Elements joined by commas; a hole joins as nothing. */
  function PrintItems(items: Items): Text
    requires SupportedItems(items)
  {
    match items
    case NoItems => []
    case Item(head, tail) => Print(head) + if tail.NoItems? then [] else [COMMA] + PrintItems(tail)
    case Hole(rest) => if rest.NoItems? then [] else [COMMA] + PrintItems(rest)
  }

  function PrintFields(fields: Fields): Text
    requires SupportedFields(fields)
  {
    match fields
    case NoFields => []
    case Field(key, value, next) =>
      Quoted(key) + [COLON] + Print(value) + if next.NoFields? then [] else [COMMA] + PrintFields(next)
  }

  // ------------------------------------------------------------------
  // Key order
  // ------------------------------------------------------------------

  function Keys(fields: Fields): set<Text> {
    match fields
    case NoFields => {}
    case Field(key, _, next) => {key} + Keys(next)
  }

  function Insert(key: Text, value: Value, fields: Fields): Fields {
    match fields
    case NoFields => Field(key, value, NoFields)
    case Field(k, v, next) =>
      if Less(key, k) then Field(key, value, fields) else Field(k, v, Insert(key, value, next))
  }

  /** The value with the keys of every object sorted. */
  function Sorted(v: Value): Value {
    match v
    case Arr(items) => Arr(SortedItems(items))
    case Obj(fields) => Obj(SortedFields(fields))
    case _ => v
  }

  function SortedItems(items: Items): Items {
    match items
    case NoItems => NoItems
    case Item(head, tail) => Item(Sorted(head), SortedItems(tail))
    case Hole(rest) => Hole(SortedItems(rest))
  }

  function SortedFields(fields: Fields): Fields {
    match fields
    case NoFields => NoFields
    case Field(key, value, next) => Insert(key, Sorted(value), SortedFields(next))
  }

  /** Objects of JavaScript have each key once. */
  predicate UniqueKeys(v: Value) {
    match v
    case Arr(items) => UniqueKeysItems(items)
    case Obj(fields) => UniqueKeysFields(fields)
    case _ => true
  }

  predicate UniqueKeysItems(items: Items) {
    match items
    case NoItems => true
    case Item(head, tail) => UniqueKeys(head) && UniqueKeysItems(tail)
    case Hole(rest) => UniqueKeysItems(rest)
  }

  predicate UniqueKeysFields(fields: Fields) {
    match fields
    case NoFields => true
    case Field(key, value, next) => key !in Keys(next) && UniqueKeys(value) && UniqueKeysFields(next)
  }

  lemma InsertSupported(key: Text, value: Value, fields: Fields)
    ensures SupportedFields(Insert(key, value, fields)) <==> Supported(value) && SupportedFields(fields)
  {
  }

  lemma {:induction false} SortedSupported(v: Value)
    ensures Supported(Sorted(v)) <==> Supported(v)
  {
    match v
    case Arr(items) => SortedSupportedItems(items);
    case Obj(fields) => SortedSupportedFields(fields);
    case _ =>
  }

  lemma {:induction false} SortedSupportedItems(items: Items)
    ensures SupportedItems(SortedItems(items)) <==> SupportedItems(items)
  {
    match items
    case NoItems =>
    case Item(head, tail) =>
      SortedSupported(head);
      SortedSupportedItems(tail);
    case Hole(rest) => SortedSupportedItems(rest);
  }

  lemma {:induction false} SortedSupportedFields(fields: Fields)
    ensures SupportedFields(SortedFields(fields)) <==> SupportedFields(fields)
  {
    match fields
    case NoFields =>
    case Field(key, value, next) =>
      SortedSupported(value);
      SortedSupportedFields(next);
      InsertSupported(key, Sorted(value), SortedFields(next));
  }

  // ------------------------------------------------------------------
  // Canonical text
  // ------------------------------------------------------------------

  datatype CanonicalizationError = CanonicalizationError

  function Size(v: Value): nat {
    match v
    case Arr(items) => 1 + SizeItems(items)
    case Obj(fields) => 1 + SizeFields(fields)
    case _ => 1
  }

  function SizeItems(items: Items): nat {
    match items
    case NoItems => 0
    case Item(head, tail) => 1 + Size(head) + SizeItems(tail)
    case Hole(rest) => 1 + SizeItems(rest)
  }

  function SizeFields(fields: Fields): nat {
    match fields
    case NoFields => 0
    case Field(_, value, next) => 1 + Size(value) + SizeFields(next)
  }

  function SortKeys(fields: Fields): (r: Fields)
    ensures SizeFields(r) == SizeFields(fields)
  {
    match fields
    case NoFields => NoFields
    case Field(key, value, next) =>
      InsertSize(key, value, SortKeys(next));
      Insert(key, value, SortKeys(next))
  }

  lemma InsertSize(key: Text, value: Value, fields: Fields)
    ensures SizeFields(Insert(key, value, fields)) == 1 + Size(value) + SizeFields(fields)
  {
  }

  /** The first unsupported value met, anywhere, fails the whole document. */
  function CanonicalizeJson(v: Value): Result<Text, CanonicalizationError>
    decreases Size(v)
  {
    match v
    case Null => Ok(NULL)
    case Bool(b) => Ok(if b then TRUE else FALSE)
    case Num(n) => if n == NonFinite then Err(CanonicalizationError) else Ok(PrintNumber(n))
    case Str(s) => Ok(Quoted(s))
    case Arr(items) =>
      var r := CanonicalizeItems(items);
      if r.Err? then r else Ok([OPEN_ARRAY] + r.value + [CLOSE_ARRAY])
    case Obj(fields) =>
      var r := CanonicalizeFields(SortKeys(fields));
      if r.Err? then r else Ok([OPEN_OBJECT] + r.value + [CLOSE_OBJECT])
    case Unsupported => Err(CanonicalizationError)
  }

  function CanonicalizeItems(items: Items): Result<Text, CanonicalizationError>
    decreases SizeItems(items)
  {
    match items
    case NoItems => Ok([])
    case Item(head, tail) =>
      var first, others := CanonicalizeJson(head), CanonicalizeItems(tail);
      if first.Err? then first
      else if others.Err? then others
      else Ok(first.value + if tail.NoItems? then [] else [COMMA] + others.value)
    case Hole(rest) =>
      var others := CanonicalizeItems(rest);
      if others.Err? || rest.NoItems? then others else Ok([COMMA] + others.value)
  }

  function CanonicalizeFields(fields: Fields): Result<Text, CanonicalizationError>
    decreases SizeFields(fields)
  {
    match fields
    case NoFields => Ok([])
    case Field(key, value, next) =>
      var first, others := CanonicalizeJson(value), CanonicalizeFields(next);
      if first.Err? then first
      else if others.Err? then others
      else Ok(Quoted(key) + [COLON] + first.value + if next.NoFields? then [] else [COMMA] + others.value)
  }

  function SortedValues(fields: Fields): Fields {
    match fields
    case NoFields => NoFields
    case Field(key, value, next) => Field(key, Sorted(value), SortedValues(next))
  }

  lemma SortedValuesInsert(key: Text, value: Value, fields: Fields)
    ensures SortedValues(Insert(key, value, fields)) == Insert(key, Sorted(value), SortedValues(fields))
    ensures SupportedFields(Insert(key, value, fields)) <==> Supported(value) && SupportedFields(fields)
  {
  }

  lemma {:induction false} SortedValuesOfSortKeys(fields: Fields)
    ensures SortedValues(SortKeys(fields)) == SortedFields(fields)
    ensures SupportedFields(SortKeys(fields)) <==> SupportedFields(fields)
  {
    match fields
    case NoFields =>
    case Field(key, value, next) =>
      SortedValuesOfSortKeys(next);
      SortedValuesInsert(key, value, SortKeys(next));
  }

  /** The canonical text is the plain text of the value with its keys sorted; it exists exactly for supported values. */
  lemma {:induction false} CanonicalIsSortedText(v: Value)
    ensures Supported(Sorted(v)) <==> Supported(v)
    ensures CanonicalizeJson(v) == if Supported(v) then Ok(Print(Sorted(v))) else Err(CanonicalizationError)
    decreases Size(v)
  {
    SortedSupported(v);
    match v
    case Arr(items) => CanonicalItems(items);
    case Obj(fields) =>
      SortedValuesOfSortKeys(fields);
      CanonicalFields(SortKeys(fields));
    case _ =>
  }

  lemma {:induction false} CanonicalItems(items: Items)
    ensures SupportedItems(SortedItems(items)) <==> SupportedItems(items)
    ensures CanonicalizeItems(items) == if SupportedItems(items) then Ok(PrintItems(SortedItems(items))) else Err(CanonicalizationError)
    decreases SizeItems(items)
  {
    match items
    case NoItems =>
    case Item(head, tail) =>
      CanonicalIsSortedText(head);
      CanonicalItems(tail);
    case Hole(rest) => CanonicalItems(rest);
  }

  lemma {:induction false} CanonicalFields(fields: Fields)
    ensures SupportedFields(SortedValues(fields)) <==> SupportedFields(fields)
    ensures CanonicalizeFields(fields) == if SupportedFields(fields) then Ok(PrintFields(SortedValues(fields))) else Err(CanonicalizationError)
    decreases SizeFields(fields)
  {
    match fields
    case NoFields =>
    case Field(key, value, next) =>
      CanonicalIsSortedText(value);
      CanonicalFields(next);
  }
}
