/**
 What the canonical text of a value is: the one arrangement of it whose properties ascend, written as JSON
 writes it (RFC 8259).
*/
module CanonicalJsonTexts {
  import opened Wrappers
  import opened CanonicalJson
  import opened CanonicalJsonProofs

  // ---------------------------------------------------------------- the canonical arrangement

  /** The properties of every object, at every depth, stand in ascending order. */
  ghost predicate Sorted(v: Json, below: KeyOrder) {
    match v
    case Array(items) => forall i | 0 <= i < |items| :: Sorted(items[i], below)
    case Object(entries) => Ordered(entries, below) && forall i | 0 <= i < |entries| :: Sorted(entries[i].value, below)
    case _ => true
  }

  lemma {:induction false} CanonIsSorted(v: Json, below: KeyOrder)
    requires TotalOrder(below) && WellFormed(v)
    ensures Sorted(Canon(v, below), below)
  {
    match v
    case Array(items) =>
      forall i | 0 <= i < |items| ensures Sorted(Canon(items[i], below), below) {
        CanonIsSorted(items[i], below);
      }
    case Object(entries) =>
      CanonObject(entries, below);
      var c := Canon(v, below).entries;
      forall i | 0 <= i < |c| ensures Sorted(c[i].value, below) {
        assert c[i] in c;
        var k :| 0 <= k < |entries| && Normal(entries, below)[k] == c[i];
        CanonIsSorted(entries[k].value, below);
      }
    case _ =>
  }

  lemma {:induction false} SortedIsCanon(v: Json, below: KeyOrder)
    requires TotalOrder(below) && WellFormed(v) && Sorted(v, below)
    ensures Canon(v, below) == v
  {
    match v
    case Array(items) =>
      forall i | 0 <= i < |items| ensures Canon(items[i], below) == items[i] {
        SortedIsCanon(items[i], below);
      }
      assert Canon(v, below).items == items;
    case Object(entries) =>
      forall i | 0 <= i < |entries| ensures Canon(entries[i].value, below) == entries[i].value {
        SortedIsCanon(entries[i].value, below);
      }
      CanonObject(entries, below);
      assert Normal(entries, below) == entries;
      SortSorts(entries, below);
      OrderedUnique(Sort(entries, below), entries, below);
    case _ =>
  }

  /** The normal form of a value is the one sorted value equal to it up to property order. */
  lemma CanonIsTheSortedArrangement(v: Json, w: Json, below: KeyOrder)
    requires TotalOrder(below) && WellFormed(v) && WellFormed(w)
    ensures w == Canon(v, below) <==> Same(v, w) && Sorted(w, below)
  {
    CanonIsSorted(v, below);
    CanonWellFormed(v, below);
    SortedIsCanon(Canon(v, below), below);
    SameIsEqualCanon(v, w, below);
    if Sorted(w, below) { SortedIsCanon(w, below); }
  }

  /** Names ascend as code units do: a name is below another that continues it, or that is greater where they first differ. */
  lemma {:induction false} UnitOrderMeans(a: Text, b: Text)
    ensures UnitOrder(a, b) <==>
            || a <= b
            || exists i | 0 <= i < |a| && i < |b| :: a[..i] == b[..i] && a[i] < b[i]
  {
    if a != [] && b != [] {
      if a[0] < b[0] {
        assert a[..0] == b[..0];
      } else if a[0] == b[0] {
        UnitOrderMeans(a[1..], b[1..]);
        assert a == [a[0]] + a[1..] && b == [b[0]] + b[1..];
        if i :| 0 <= i < |a[1..]| && i < |b[1..]| && a[1..][..i] == b[1..][..i] && a[1..][i] < b[1..][i] {
          assert a[..i + 1] == [a[0]] + a[1..][..i] && b[..i + 1] == [b[0]] + b[1..][..i];
        }
        if i :| 0 <= i < |a| && i < |b| && a[..i] == b[..i] && a[i] < b[i] {
          assert i > 0;
          assert a[1..][..i - 1] == a[..i][1..] && b[1..][..i - 1] == b[..i][1..];
        }
      }
    }
  }

  /** Properties of a rebuilt object that name array indices come first, by value; the others ascend. */
  lemma EnumerationMeans(a: Text, b: Text)
    ensures !IsIndex(a) && IsIndex(b) ==> !EnumerationOrder(a, b)
    ensures IsIndex(a) && !IsIndex(b) ==> EnumerationOrder(a, b)
    ensures IsIndex(a) && IsIndex(b) && IndexValue(a) < IndexValue(b) ==> EnumerationOrder(a, b) && !EnumerationOrder(b, a)
    ensures !IsIndex(a) && !IsIndex(b) ==> (EnumerationOrder(a, b) <==> UnitOrder(a, b))
  {
  }

  /** Query digests are taken of values nested up to 32 levels deep, and of no others. */
  lemma RebuiltUpTo32Levels(v: Json)
    ensures QueryText(v).Success? <==> Nests(v, 32)
    ensures QueryText(v).Success? ==> QueryText(v).value == Render(Canon(v, EnumerationOrder))
  {
    RebuildIsCanon(v, 0);
  }

  // ---------------------------------------------------------------- the text

  /** The code units of ASCII text. */
  function Units(s: string): (t: Text)
    requires forall i | 0 <= i < |s| :: s[i] as int < 128
    ensures |t| == |s| && forall i | 0 <= i < |s| :: t[i] == s[i] as int
  {
    seq(|s|, i requires 0 <= i < |s| => s[i] as int)
  }

  function Joined(texts: seq<Text>): Text {
    if texts == [] then [] else if |texts| == 1 then texts[0] else texts[0] + Units(",") + Joined(texts[1..])
  }

  function ItemTexts(items: seq<Json>): (t: seq<Text>)
    ensures |t| == |items| && forall i | 0 <= i < |items| :: t[i] == Render(items[i])
  {
    seq(|items|, i requires 0 <= i < |items| => Render(items[i]))
  }

  function PropertyTexts(entries: seq<Entry>): (t: seq<Text>)
    ensures |t| == |entries| && forall i | 0 <= i < |entries| :: t[i] == Quoted(entries[i].key) + Units(":") + Render(entries[i].value)
  {
    seq(|entries|, i requires 0 <= i < |entries| => Quoted(entries[i].key) + Units(":") + Render(entries[i].value))
  }

  /** The separator in front of the elements from `i` on. */
  function Separator(i: nat, n: nat): Text {
    if i == 0 || i == n then [] else [COMMA]
  }

  lemma JoinedFrom(texts: seq<Text>, i: nat)
    requires i < |texts|
    ensures Joined(texts[i..]) == texts[i] + (Separator(i + 1, |texts|) + Joined(texts[i + 1..]))
  {
    assert texts[i..][1..] == texts[i + 1..] && Units(",") == [COMMA];
    if i + 1 == |texts| { assert texts[i..] == [texts[i]]; }
  }

  lemma Assemble(head: Text, text: Text, rest: Text, close: Text)
    ensures head + text + (rest + close) == head + (text + rest) + close
  {
  }

  lemma AtTheEnds(v: Json)
    ensures v.Array? ==> var n := |v.items|; RenderItems(v, n) == Separator(n, n) + Joined(ItemTexts(v.items)[n..]) + [CLOSE_BRACKET]
    ensures v.Object? ==> var n := |v.entries|; RenderEntries(v, n) == Separator(n, n) + Joined(PropertyTexts(v.entries)[n..]) + [CLOSE_BRACE]
  {
  }

  lemma {:induction false} ItemsText(v: Json, i: nat)
    requires v.Array? && i <= |v.items|
    ensures RenderItems(v, i) == Separator(i, |v.items|) + Joined(ItemTexts(v.items)[i..]) + [CLOSE_BRACKET]
    decreases |v.items| - i
  {
    hide RenderItems, ItemTexts, Joined, Separator, Render;
    if i == |v.items| {
      AtTheEnds(v);
    } else {
      ItemsText(v, i + 1);
      ItemsTextStep(v, i);
    }
  }

  lemma ItemsTextStep(v: Json, i: nat)
    requires v.Array? && i < |v.items|
    requires RenderItems(v, i + 1) == Separator(i + 1, |v.items|) + Joined(ItemTexts(v.items)[i + 1..]) + [CLOSE_BRACKET]
    ensures RenderItems(v, i) == Separator(i, |v.items|) + Joined(ItemTexts(v.items)[i..]) + [CLOSE_BRACKET]
  {
    hide RenderItems, ItemTexts, Joined, Separator, Render;
    var n, texts := |v.items|, ItemTexts(v.items);
    ItemStep(v, i);
    JoinedFrom(texts, i);
    Assemble(Separator(i, n), texts[i], Separator(i + 1, n) + Joined(texts[i + 1..]), [CLOSE_BRACKET]);
  }

  lemma ItemStep(v: Json, i: nat)
    requires v.Array? && i < |v.items|
    ensures RenderItems(v, i) == Separator(i, |v.items|) + ItemTexts(v.items)[i] + RenderItems(v, i + 1)
  {
    hide Joined, Render;
  }

  lemma PropertyStep(v: Json, i: nat)
    requires v.Object? && i < |v.entries|
    ensures RenderEntries(v, i) == Separator(i, |v.entries|) + PropertyTexts(v.entries)[i] + RenderEntries(v, i + 1)
  {
    hide Joined, Render, Quoted;
    assert Units(":") == [COLON];
    var e := v.entries[i];
    assert PropertyTexts(v.entries)[i] == Quoted(e.key) + [COLON] + Render(e.value);
  }

  lemma {:induction false} EntriesText(v: Json, i: nat)
    requires v.Object? && i <= |v.entries|
    ensures RenderEntries(v, i) == Separator(i, |v.entries|) + Joined(PropertyTexts(v.entries)[i..]) + [CLOSE_BRACE]
    decreases |v.entries| - i
  {
    hide RenderEntries, PropertyTexts, Joined, Separator, Render, Quoted;
    if i == |v.entries| {
      AtTheEnds(v);
    } else {
      EntriesText(v, i + 1);
      EntriesTextStep(v, i);
    }
  }

  lemma EntriesTextStep(v: Json, i: nat)
    requires v.Object? && i < |v.entries|
    requires RenderEntries(v, i + 1) == Separator(i + 1, |v.entries|) + Joined(PropertyTexts(v.entries)[i + 1..]) + [CLOSE_BRACE]
    ensures RenderEntries(v, i) == Separator(i, |v.entries|) + Joined(PropertyTexts(v.entries)[i..]) + [CLOSE_BRACE]
  {
    hide RenderEntries, PropertyTexts, Joined, Separator, Render, Quoted;
    var n, texts := |v.entries|, PropertyTexts(v.entries);
    PropertyStep(v, i);
    JoinedFrom(texts, i);
    Assemble(Separator(i, n), texts[i], Separator(i + 1, n) + Joined(texts[i + 1..]), [CLOSE_BRACE]);
  }

  /** Every value is written as JSON writes it, without any white space. */
  lemma TextIsJson(v: Json)
    ensures match v
            case Null => Render(v) == Units("null")
            case Bool(value) => Render(v) == if value then Units("true") else Units("false")
            case Number(lexeme) => Render(v) == lexeme
            case String(text) => Render(v) == Quoted(text)
            case Array(items) => Render(v) == Units("[") + Joined(ItemTexts(items)) + Units("]")
            case Object(entries) => Render(v) == Units("{") + Joined(PropertyTexts(entries)) + Units("}")
  {
    hide Quoted, Joined, RenderItems, RenderEntries;
    match v
    case Null => assert Units("null") == NULL_TEXT;
    case Bool(_) => assert Units("true") == TRUE_TEXT && Units("false") == FALSE_TEXT;
    case Array(_) => ItemsText(v, 0); assert ItemTexts(v.items)[0..] == ItemTexts(v.items) && Units("[") == [OPEN_BRACKET] && Units("]") == [CLOSE_BRACKET];
    case Object(_) => EntriesText(v, 0); assert PropertyTexts(v.entries)[0..] == PropertyTexts(v.entries) && Units("{") == [OPEN_BRACE] && Units("}") == [CLOSE_BRACE];
    case _ =>
  }

  // ---------------------------------------------------------------- strings

  const HEX_DIGITS := "0123456789abcdef"

  /** A unit that stands for itself. */
  predicate Plain(c: Unit) {
    c >= 0x20 && c != 34 && c != 92 && !(0xD800 <= c < 0xE000)
  }

  lemma {:induction false} PlainText(s: Text, i: nat)
    requires i <= |s| && forall k | 0 <= k < |s| :: Plain(s[k])
    ensures QuoteFrom(s, i) == s[i..] + [QUOTE]
    decreases |s| - i
  {
    if i < |s| { PlainText(s, i + 1); }
  }

  /** How a string of one unit is written: the named escapes, four lower-case digits for the rest, and itself. */
  lemma StringsOfOneUnit(c: Unit)
    ensures c == 8 ==> Quoted([c]) == Units("\"\\b\"")
    ensures c == 9 ==> Quoted([c]) == Units("\"\\t\"")
    ensures c == 10 ==> Quoted([c]) == Units("\"\\n\"")
    ensures c == 12 ==> Quoted([c]) == Units("\"\\f\"")
    ensures c == 13 ==> Quoted([c]) == Units("\"\\r\"")
    ensures c == 34 ==> Quoted([c]) == Units("\"\\\"\"")
    ensures c == 92 ==> Quoted([c]) == Units("\"\\\\\"")
    ensures Plain(c) ==> Quoted([c]) == Units("\"") + [c] + Units("\"")
    ensures c !in {8, 9, 10, 12, 13, 34, 92} && !Plain(c) ==>
              Quoted([c]) == Units("\"\\u" + [HEX_DIGITS[c / 0x1000], HEX_DIGITS[c / 0x100 % 16], HEX_DIGITS[c / 0x10 % 16], HEX_DIGITS[c % 16]] + "\"")
  {
    assert QuoteFrom([c], 0) == QuoteUnit([c], 0) + [QUOTE];
    if Plain(c) { PlainText([c], 0); }
    if c !in {8, 9, 10, 12, 13, 34, 92} && !Plain(c) {
      HexIs(c / 0x1000);
      HexIs(c / 0x100 % 16);
      HexIs(c / 0x10 % 16);
      HexIs(c % 16);
    }
  }

  lemma HexIs(d: nat)
    requires d < 16
    ensures HEX_DIGITS[d] as int == HexDigit(d)
  {
  }
}
