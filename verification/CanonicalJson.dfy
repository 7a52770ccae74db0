/**
 The canonical serializer the Gate action identities are digests of, on UTF-16 code units.
 Numbers are carried as the text `Number::toString` gives for them.
*/
module CanonicalJson {
  import opened Wrappers

  type Unit = n: nat | n < 0x1_0000
  type Text = seq<Unit>

  datatype Json =
    | Null
    | Bool(value: bool)
    | Number(lexeme: Text)
    | String(text: Text)
    | Array(items: seq<Json>)
    | Object(entries: seq<Entry>)

  /** An own property; the entries of an object stand in insertion order. */
  datatype Entry = Entry(key: Text, value: Json)

  const QUOTE: Unit := 34
  const COMMA: Unit := 44
  const COLON: Unit := 58
  const OPEN_BRACKET: Unit := 91
  const BACKSLASH: Unit := 92
  const CLOSE_BRACKET: Unit := 93
  const OPEN_BRACE: Unit := 123
  const CLOSE_BRACE: Unit := 125
  const NULL_TEXT: Text := [110, 117, 108, 108]
  const TRUE_TEXT: Text := [116, 114, 117, 101]
  const FALSE_TEXT: Text := [102, 97, 108, 115, 101]

  /** Digits, sign, point and exponent. */
  predicate NumberUnit(c: Unit) {
    48 <= c <= 57 || c in {43, 45, 46, 101}
  }

  predicate DistinctKeys(entries: seq<Entry>) {
    forall i, j | 0 <= i < j < |entries| :: entries[i].key != entries[j].key
  }

  predicate WellFormed(v: Json) {
    match v
    case Null | Bool(_) | String(_) => true
    case Number(lexeme) => lexeme != [] && forall c | c in lexeme :: NumberUnit(c)
    case Array(items) => forall i | 0 <= i < |items| :: WellFormed(items[i])
    case Object(entries) => DistinctKeys(entries) && forall i | 0 <= i < |entries| :: WellFormed(entries[i].value)
  }

  // ---------------------------------------------------------------- strings

  predicate HighSurrogate(c: Unit) {
    0xD800 <= c < 0xDC00
  }

  predicate LowSurrogate(c: Unit) {
    0xDC00 <= c < 0xE000
  }

  /** A surrogate without its partner; it has to be escaped, a pair is written as it is. */
  predicate Lone(s: Text, i: nat)
    requires i < |s|
  {
    || (HighSurrogate(s[i]) && !(i + 1 < |s| && LowSurrogate(s[i + 1])))
    || (LowSurrogate(s[i]) && !(i > 0 && HighSurrogate(s[i - 1])))
  }

  function HexDigit(d: nat): Unit
    requires d < 16
  {
    if d < 10 then 48 + d else 87 + d
  }

  function Hex(c: Unit): Text {
    [HexDigit(c / 0x1000), HexDigit(c / 0x100 % 16), HexDigit(c / 0x10 % 16), HexDigit(c % 16)]
  }

  /** The letter of a two-character escape. */
  function ShortEscape(c: Unit): (letter: Unit)
    requires c in {8, 9, 10, 12, 13, 34, 92}
  {
    if c == 8 then 98 else if c == 9 then 116 else if c == 10 then 110
    else if c == 12 then 102 else if c == 13 then 114 else c
  }

  function QuoteUnit(s: Text, i: nat): (r: Text)
    requires i < |s|
    ensures |r| > 0
  {
    if s[i] in {8, 9, 10, 12, 13, 34, 92} then [BACKSLASH, ShortEscape(s[i])]
    else if s[i] < 0x20 || Lone(s, i) then [BACKSLASH, 117] + Hex(s[i])
    else [s[i]]
  }

  function QuoteFrom(s: Text, i: nat): Text
    requires i <= |s|
    decreases |s| - i
  {
    if i == |s| then [QUOTE] else QuoteUnit(s, i) + QuoteFrom(s, i + 1)
  }

  function Quoted(s: Text): Text {
    [QUOTE] + QuoteFrom(s, 0)
  }

  // ---------------------------------------------------------------- values

  /** A total order on property names. */
  type KeyOrder = (Text, Text) -> bool

  ghost predicate TotalOrder(below: KeyOrder) {
    && (forall a, b :: below(a, b) || below(b, a))
    && (forall a, b :: below(a, b) && below(b, a) ==> a == b)
    && (forall a, b, c :: below(a, b) && below(b, c) ==> below(a, c))
  }

  function Insert(e: Entry, sorted: seq<Entry>, below: KeyOrder): seq<Entry> {
    if sorted == [] || below(e.key, sorted[0].key) then [e] + sorted
    else [sorted[0]] + Insert(e, sorted[1..], below)
  }

  function Sort(entries: seq<Entry>, below: KeyOrder): seq<Entry> {
    if entries == [] then [] else Insert(entries[0], Sort(entries[1..], below), below)
  }

  /** The value with every object's properties in the given order. */
  function Canon(v: Json, below: KeyOrder): Json {
    match v
    case Array(items) => Array(seq(|items|, i requires 0 <= i < |items| => Canon(items[i], below)))
    case Object(entries) =>
      Object(Sort(seq(|entries|, i requires 0 <= i < |entries| => Entry(entries[i].key, Canon(entries[i].value, below))), below))
    case _ => v
  }

  function Width(v: Json): nat {
    match v
    case Array(items) => |items|
    case Object(entries) => |entries|
    case _ => 0
  }

  /** The text of a value, properties in the order in which they stand. */
  function Render(v: Json): Text
    decreases v, Width(v) + 1
  {
    match v
    case Null => NULL_TEXT
    case Bool(value) => if value then TRUE_TEXT else FALSE_TEXT
    case Number(lexeme) => lexeme
    case String(text) => Quoted(text)
    case Array(items) => [OPEN_BRACKET] + RenderItems(v, 0)
    case Object(entries) => [OPEN_BRACE] + RenderEntries(v, 0)
  }

  /** The elements from `i` on, separated by commas, and the closing bracket. */
  function RenderItems(v: Json, i: nat): Text
    requires v.Array? && i <= |v.items|
    decreases v, |v.items| - i
  {
    if i == |v.items| then [CLOSE_BRACKET]
    else (if i == 0 then [] else [COMMA]) + Render(v.items[i]) + RenderItems(v, i + 1)
  }

  function RenderEntries(v: Json, i: nat): Text
    requires v.Object? && i <= |v.entries|
    decreases v, |v.entries| - i
  {
    if i == |v.entries| then [CLOSE_BRACE]
    else (if i == 0 then [] else [COMMA]) + Quoted(v.entries[i].key) + [COLON] + Render(v.entries[i].value) + RenderEntries(v, i + 1)
  }

  /** Lexicographic order of code units, the order `Array.prototype.sort` gives. */
  predicate UnitOrder(a: Text, b: Text) {
    a == [] || (b != [] && (a[0] < b[0] || (a[0] == b[0] && UnitOrder(a[1..], b[1..]))))
  }

  function StableGateJson(v: Json): Text {
    Render(Canon(v, UnitOrder))
  }

  predicate HasKey(entries: seq<Entry>, key: Text) {
    exists i | 0 <= i < |entries| :: entries[i].key == key
  }

  /** The position of the first property with this name. */
  function IndexOf(entries: seq<Entry>, key: Text): (i: nat)
    requires HasKey(entries, key)
    ensures i < |entries| && entries[i].key == key
  {
    if entries[0].key == key then 0
    else
      assert HasKey(entries[1..], key) by {
        var i :| 0 <= i < |entries| && entries[i].key == key;
        assert entries[1..][i - 1].key == key;
      }
      1 + IndexOf(entries[1..], key)
  }

  /** Equality up to the order of object properties, at every depth. */
  predicate Same(v: Json, w: Json) {
    match (v, w)
    case (Array(a), Array(b)) => |a| == |b| && forall i | 0 <= i < |a| :: Same(a[i], b[i])
    case (Object(a), Object(b)) =>
      && (forall j | 0 <= j < |b| :: HasKey(a, b[j].key))
      && (forall i | 0 <= i < |a| :: HasKey(b, a[i].key) && Same(a[i].value, b[IndexOf(b, a[i].key)].value))
    case _ => v == w
  }

  // ---------------------------------------------------------------- the serializer of query digests

  const MAX_DEPTH: int := 32

  predicate Digits(key: Text) {
    forall i | 0 <= i < |key| :: 48 <= key[i] <= 57
  }

  function DigitValue(c: Unit): (d: nat)
    requires 48 <= c <= 57
    ensures d < 10
  {
    (c as int) - 48
  }

  function IndexValue(key: Text): nat
    requires Digits(key)
  {
    if key == [] then 0 else IndexValue(key[..|key| - 1]) * 10 + DigitValue(key[|key| - 1])
  }

  /** A property name engines enumerate as an array index: a decimal below 2^32 - 1 without leading zeros. */
  predicate IsIndex(key: Text) {
    Digits(key) && key != [] && (|key| > 1 ==> key[0] != 48) && IndexValue(key) < 0xFFFF_FFFF
  }

  /** How the properties of a rebuilt object are enumerated: indices by value, then the rest as inserted, that is sorted. */
  predicate EnumerationOrder(a: Text, b: Text) {
    if IsIndex(a) then IsIndex(b) ==> IndexValue(a) <= IndexValue(b)
    else !IsIndex(b) && UnitOrder(a, b)
  }

  /** No more than `levels` arrays or objects around any part of the value. */
  predicate Nests(v: Json, levels: int) {
    levels >= 0 &&
    match v
    case Array(items) => forall i | 0 <= i < |items| :: Nests(items[i], levels - 1)
    case Object(entries) => forall i | 0 <= i < |entries| :: Nests(entries[i].value, levels - 1)
    case _ => true
  }

  /** The properties of an object whose parts could all be rebuilt. */
  function Rebuilt(v: Json, depth: nat): seq<Entry>
    requires v.Object?
    requires forall i | 0 <= i < |v.entries| :: CanonicalJsonAt(v.entries[i].value, depth + 1).Success?
    decreases v, 0
  {
    seq(|v.entries|, i requires 0 <= i < |v.entries| =>
      Entry(v.entries[i].key, CanonicalJsonAt(v.entries[i].value, depth + 1).value))
  }

  function CanonicalJsonAt(v: Json, depth: nat): Result<Json>
    decreases v, 1
  {
    if depth > MAX_DEPTH then Failure("canonical JSON depth exceeds the limit")
    else match v
      case Array(items) =>
        if exists i | 0 <= i < |items| :: CanonicalJsonAt(items[i], depth + 1).Failure? then
          Failure("canonical JSON depth exceeds the limit")
        else Success(Array(seq(|items|, i requires 0 <= i < |items| => CanonicalJsonAt(items[i], depth + 1).value)))
      case Object(entries) =>
        if exists i | 0 <= i < |entries| :: CanonicalJsonAt(entries[i].value, depth + 1).Failure? then
          Failure("canonical JSON depth exceeds the limit")
        else Success(Object(Sort(Rebuilt(v, depth), EnumerationOrder)))
      case _ => Success(v)
  }

  function QueryText(v: Json): Result<Text> {
    match CanonicalJsonAt(v, 0)
    case Success(c) => Success(Render(c))
    case Failure(error) => Failure(error)
  }
}
