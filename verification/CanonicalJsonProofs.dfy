/** The canonical text is blind to property order and tells everything else apart. */
module CanonicalJsonProofs {
  import opened CanonicalJson

  // ---------------------------------------------------------------- unique readability of text

  function HexValue(c: Unit): int {
    if 48 <= c <= 57 then c - 48 else c - 87
  }

  /** The unit a piece of quoted text starts with, and how many units spell it. */
  function Decode(text: Text): (int, nat) {
    if text == [] then (-1, 0)
    else if text[0] != BACKSLASH then (text[0], 1)
    else if |text| >= 6 && text[1] == 117 then
      (HexValue(text[2]) * 0x1000 + HexValue(text[3]) * 0x100 + HexValue(text[4]) * 0x10 + HexValue(text[5]), 6)
    else if |text| >= 2 then
      ((match text[1] case 98 => 8 case 116 => 9 case 110 => 10 case 102 => 12 case 114 => 13 case c => c), 2)
    else (-1, 0)
  }

  lemma HexDecodes(c: Unit)
    ensures var h := Hex(c);
            HexValue(h[0]) * 0x1000 + HexValue(h[1]) * 0x100 + HexValue(h[2]) * 0x10 + HexValue(h[3]) == c
  {
    assert c / 0x100 == c / 0x1000 * 16 + c / 0x100 % 16;
    assert c / 0x10 == c / 0x100 * 16 + c / 0x10 % 16;
  }

  lemma UnitDecodes(s: Text, i: nat, rest: Text)
    requires i < |s|
    ensures Decode(QuoteUnit(s, i) + rest) == (s[i], |QuoteUnit(s, i)|)
    ensures (QuoteUnit(s, i) + rest)[0] != QUOTE
  {
    HexDecodes(s[i]);
  }

  lemma QuotedHead(s: Text, i: nat, a: Text)
    requires i <= |s|
    ensures QuoteFrom(s, i) + a != [] && ((QuoteFrom(s, i) + a)[0] == QUOTE <==> i == |s|)
    ensures i < |s| ==> QuoteFrom(s, i) + a == QuoteUnit(s, i) + (QuoteFrom(s, i + 1) + a)
    ensures i < |s| ==> Decode(QuoteFrom(s, i) + a) == (s[i], |QuoteUnit(s, i)|)
  {
    if i < |s| {
      UnitDecodes(s, i, QuoteFrom(s, i + 1) + a);
      assert QuoteFrom(s, i) + a == QuoteUnit(s, i) + (QuoteFrom(s, i + 1) + a);
    }
  }

  /** Quoted content reads back in one way only, whatever follows the closing quote. */
  lemma {:induction false} QuotedFromReadable(s: Text, i: nat, t: Text, j: nat, a: Text, b: Text)
    requires i <= |s| && j <= |t|
    requires QuoteFrom(s, i) + a == QuoteFrom(t, j) + b
    ensures s[i..] == t[j..] && a == b
    decreases |s| - i
  {
    QuotedHead(s, i, a);
    QuotedHead(t, j, b);
    if i < |s| {
      Drop(QuoteUnit(s, i), QuoteFrom(s, i + 1) + a, QuoteUnit(t, j), QuoteFrom(t, j + 1) + b);
      QuotedFromReadable(s, i + 1, t, j + 1, a, b);
      assert s[i..] == [s[i]] + s[i + 1..] && t[j..] == [t[j]] + t[j + 1..];
    } else {
      Drop([QUOTE], a, [QUOTE], b);
    }
  }

  /** Equal texts that begin with pieces of the same length have equal pieces and equal rests. */
  lemma Drop(p: Text, a: Text, q: Text, b: Text)
    requires p + a == q + b && |p| == |q|
    ensures p == q && a == b
  {
    assert (p + a)[..|p|] == p && (q + b)[..|q|] == q;
    assert (p + a)[|p|..] == a && (q + b)[|q|..] == b;
  }

  lemma Unbracket(open: Unit, p: Text, a: Text, q: Text, b: Text)
    requires [open] + p + a == [open] + q + b
    ensures p + a == q + b
  {
    assert [open] + p + a == [open] + (p + a) && [open] + q + b == [open] + (q + b);
    Drop([open], p + a, [open], q + b);
  }

  lemma QuotedReadable(s: Text, t: Text, a: Text, b: Text)
    requires Quoted(s) + a == Quoted(t) + b
    ensures s == t && a == b
  {
    Unbracket(QUOTE, QuoteFrom(s, 0), a, QuoteFrom(t, 0), b);
    QuotedFromReadable(s, 0, t, 0, a, b);
    assert s[0..] == s && t[0..] == t;
  }

  /** What can follow a value inside a text. */
  predicate Delimited(rest: Text) {
    rest == [] || rest[0] in {COMMA, CLOSE_BRACKET, CLOSE_BRACE}
  }

  /** The length of the number a text starts with. */
  function Span(text: Text): nat {
    if text == [] || !NumberUnit(text[0]) then 0 else 1 + Span(text[1..])
  }

  lemma {:induction false} SpanOf(p: Text, rest: Text)
    requires Delimited(rest) && forall c | c in p :: NumberUnit(c)
    ensures Span(p + rest) == |p|
  {
    if p == [] {
      assert p + rest == rest;
    } else {
      assert p[0] in p;
      assert (p + rest)[1..] == p[1..] + rest;
      SpanOf(p[1..], rest);
    }
  }

  lemma NumberReadable(p: Text, q: Text, a: Text, b: Text)
    requires p + a == q + b && Delimited(a) && Delimited(b)
    requires (forall c | c in p :: NumberUnit(c)) && (forall c | c in q :: NumberUnit(c))
    ensures p == q && a == b
  {
    SpanOf(p, a);
    SpanOf(q, b);
    Drop(p, a, q, b);
  }

  /** The first unit of a text names the kind of value. */
  function Kind(c: Unit): nat {
    if c == NULL_TEXT[0] then 0 else if c == TRUE_TEXT[0] then 1 else if c == FALSE_TEXT[0] then 2
    else if c == QUOTE then 3 else if c == OPEN_BRACKET then 4 else if c == OPEN_BRACE then 5 else 6
  }

  function KindOf(v: Json): nat {
    match v
    case Null => 0
    case Bool(value) => if value then 1 else 2
    case Number(_) => 6
    case String(_) => 3
    case Array(_) => 4
    case Object(_) => 5
  }

  lemma KindShows(v: Json, rest: Text)
    requires WellFormed(v)
    ensures Render(v) != [] && Kind((Render(v) + rest)[0]) == KindOf(v)
    ensures Render(v)[0] !in {COMMA, CLOSE_BRACKET, CLOSE_BRACE}
  {
    if v.Number? { assert v.lexeme[0] in v.lexeme; }
  }

  function Comma(i: nat): Text {
    if i == 0 then [] else [COMMA]
  }

  lemma ItemsHead(v: Json, i: nat, a: Text)
    requires v.Array? && WellFormed(v) && i <= |v.items|
    ensures i < |v.items| ==> RenderItems(v, i) + a == Comma(i) + (Render(v.items[i]) + (RenderItems(v, i + 1) + a))
    ensures RenderItems(v, i) + a != [] && ((RenderItems(v, i) + a)[0] == CLOSE_BRACKET <==> i == |v.items|)
    ensures i < |v.items| ==> Delimited(RenderItems(v, i + 1) + a)
  {
    if i < |v.items| {
      var rest := RenderItems(v, i + 1) + a;
      assert RenderItems(v, i) + a == Comma(i) + (Render(v.items[i]) + rest);
      KindShows(v.items[i], rest);
    }
  }

  lemma EntriesHead(v: Json, i: nat, a: Text)
    requires v.Object? && i <= |v.entries|
    ensures i < |v.entries| ==>
              RenderEntries(v, i) + a
              == Comma(i) + (Quoted(v.entries[i].key) + ([COLON] + (Render(v.entries[i].value) + (RenderEntries(v, i + 1) + a))))
    ensures RenderEntries(v, i) + a != [] && ((RenderEntries(v, i) + a)[0] == CLOSE_BRACE <==> i == |v.entries|)
    ensures i < |v.entries| ==> Delimited(RenderEntries(v, i + 1) + a)
  {
    if i < |v.entries| {
      var e := v.entries[i];
      assert RenderEntries(v, i) + a == Comma(i) + (Quoted(e.key) + ([COLON] + (Render(e.value) + (RenderEntries(v, i + 1) + a))));
    }
  }

  /** Unique readability: a text that continues with a delimiter starts with one value only. */
  lemma {:induction false} Readable(v: Json, w: Json, a: Text, b: Text)
    requires WellFormed(v) && WellFormed(w) && Delimited(a) && Delimited(b)
    requires Render(v) + a == Render(w) + b
    ensures v == w && a == b
    decreases v, Width(v) + 1
  {
    KindShows(v, a);
    KindShows(w, b);
    match v
    case Number(p) => NumberReadable(p, w.lexeme, a, b);
    case String(s) => QuotedReadable(s, w.text, a, b);
    case Array(_) =>
      Unbracket(OPEN_BRACKET, RenderItems(v, 0), a, RenderItems(w, 0), b);
      ItemsReadable(v, w, 0, a, b);
      assert v.items[0..] == v.items && w.items[0..] == w.items;
    case Object(_) =>
      Unbracket(OPEN_BRACE, RenderEntries(v, 0), a, RenderEntries(w, 0), b);
      EntriesReadable(v, w, 0, a, b);
      assert v.entries[0..] == v.entries && w.entries[0..] == w.entries;
    case _ => Drop(Render(v), a, Render(w), b);
  }

  lemma {:induction false} ItemsReadable(v: Json, w: Json, i: nat, a: Text, b: Text)
    requires v.Array? && w.Array? && WellFormed(v) && WellFormed(w)
    requires i <= |v.items| && i <= |w.items|
    requires RenderItems(v, i) + a == RenderItems(w, i) + b
    ensures v.items[i..] == w.items[i..] && a == b
    decreases v, |v.items| - i
  {
    ItemsHead(v, i, a);
    ItemsHead(w, i, b);
    if i < |v.items| {
      var p, q := RenderItems(v, i + 1) + a, RenderItems(w, i + 1) + b;
      Drop(Comma(i), Render(v.items[i]) + p, Comma(i), Render(w.items[i]) + q);
      Readable(v.items[i], w.items[i], p, q);
      ItemsReadable(v, w, i + 1, a, b);
      assert v.items[i..] == [v.items[i]] + v.items[i + 1..] && w.items[i..] == [w.items[i]] + w.items[i + 1..];
    } else {
      Drop([CLOSE_BRACKET], a, [CLOSE_BRACKET], b);
    }
  }

  lemma PropertyReadable(comma: Text, key: Text, other: Text, a: Text, b: Text)
    requires comma + (Quoted(key) + ([COLON] + a)) == comma + (Quoted(other) + ([COLON] + b))
    ensures key == other && a == b
  {
    Drop(comma, Quoted(key) + ([COLON] + a), comma, Quoted(other) + ([COLON] + b));
    QuotedReadable(key, other, [COLON] + a, [COLON] + b);
    Drop([COLON], a, [COLON], b);
  }

  lemma {:induction false} EntriesReadable(v: Json, w: Json, i: nat, a: Text, b: Text)
    requires v.Object? && w.Object? && WellFormed(v) && WellFormed(w)
    requires i <= |v.entries| && i <= |w.entries|
    requires RenderEntries(v, i) + a == RenderEntries(w, i) + b
    ensures v.entries[i..] == w.entries[i..] && a == b
    decreases v, |v.entries| - i
  {
    EntriesHead(v, i, a);
    EntriesHead(w, i, b);
    if i < |v.entries| {
      var e, f := v.entries[i], w.entries[i];
      var p, q := RenderEntries(v, i + 1) + a, RenderEntries(w, i + 1) + b;
      PropertyReadable(Comma(i), e.key, f.key, Render(e.value) + p, Render(f.value) + q);
      Readable(e.value, f.value, p, q);
      EntriesReadable(v, w, i + 1, a, b);
      assert v.entries[i..] == [e] + v.entries[i + 1..] && w.entries[i..] == [f] + w.entries[i + 1..];
    } else {
      Drop([CLOSE_BRACE], a, [CLOSE_BRACE], b);
    }
  }

  /** Two well-formed values are written the same only if they are the same, property order included. */
  lemma RenderInjective(v: Json, w: Json)
    requires WellFormed(v) && WellFormed(w)
    ensures Render(v) == Render(w) <==> v == w
  {
    if Render(v) == Render(w) {
      assert Render(v) + [] == Render(w) + [];
      Readable(v, w, [], []);
    }
  }

  // ---------------------------------------------------------------- sorting properties

  ghost predicate Ordered(s: seq<Entry>, below: KeyOrder) {
    forall i, j | 0 <= i < j < |s| :: below(s[i].key, s[j].key) && s[i].key != s[j].key
  }

  lemma {:induction false} InsertKeeps(e: Entry, s: seq<Entry>, below: KeyOrder)
    ensures |Insert(e, s, below)| == |s| + 1
    ensures forall x :: x in Insert(e, s, below) <==> x == e || x in s
  {
    if s == [] || below(e.key, s[0].key) {
    } else {
      InsertKeeps(e, s[1..], below);
      assert s == [s[0]] + s[1..];
    }
  }

  lemma {:induction false} InsertOrdered(e: Entry, s: seq<Entry>, below: KeyOrder)
    requires TotalOrder(below) && Ordered(s, below)
    requires forall x | x in s :: x.key != e.key
    ensures Ordered(Insert(e, s, below), below)
  {
    if s == [] || below(e.key, s[0].key) {
      forall j | 0 <= j < |s| ensures below(e.key, s[j].key) && s[j].key != e.key {
        assert s[j] in s;
        assert j > 0 ==> below(s[0].key, s[j].key);
      }
    } else {
      InsertOrdered(e, s[1..], below);
      InsertKeeps(e, s[1..], below);
      var r := Insert(e, s[1..], below);
      forall j | 0 <= j < |r| ensures below(s[0].key, r[j].key) && s[0].key != r[j].key {
        assert r[j] in r;
        assert s[0] in s;
      }
    }
  }

  lemma {:induction false} SortSorts(s: seq<Entry>, below: KeyOrder)
    requires TotalOrder(below) && DistinctKeys(s)
    ensures Ordered(Sort(s, below), below) && |Sort(s, below)| == |s|
    ensures forall x :: x in Sort(s, below) <==> x in s
  {
    if s != [] {
      SortSorts(s[1..], below);
      InsertKeeps(s[0], Sort(s[1..], below), below);
      forall x | x in Sort(s[1..], below) ensures x.key != s[0].key {
        assert x in s[1..];
      }
      InsertOrdered(s[0], Sort(s[1..], below), below);
      assert s == [s[0]] + s[1..];
    }
  }

  lemma TailOf(s: seq<Entry>, t: seq<Entry>, below: KeyOrder)
    requires s != [] && t != [] && s[0] == t[0] && Ordered(s, below)
    requires forall x | x in s :: x in t
    ensures forall x | x in s[1..] :: x in t[1..]
  {
    forall x | x in s[1..] ensures x in t[1..] {
      var k :| 0 <= k < |s[1..]| && s[1..][k] == x;
      assert s[k + 1] == x && x.key != s[0].key;
      assert s[k + 1] in s;
      assert t == [t[0]] + t[1..];
    }
  }

  lemma NoneOrFirst(s: seq<Entry>)
    ensures if s == [] then forall x :: x !in s else s[0] in s
  {
  }

  /** There is one ordered arrangement of a set of properties. */
  lemma {:induction false} OrderedUnique(s: seq<Entry>, t: seq<Entry>, below: KeyOrder)
    requires TotalOrder(below) && Ordered(s, below) && Ordered(t, below)
    requires forall x :: x in s <==> x in t
    ensures s == t
  {
    NoneOrFirst(s);
    NoneOrFirst(t);
    if s != [] && t != [] {
      assert s[0] == t[0];
      TailOf(s, t, below);
      TailOf(t, s, below);
      OrderedUnique(s[1..], t[1..], below);
    }
  }

  // ---------------------------------------------------------------- order blindness

  /** The properties of an object with their values in normal form, in insertion order. */
  function Normal(entries: seq<Entry>, below: KeyOrder): (r: seq<Entry>)
    ensures |r| == |entries|
    ensures forall i | 0 <= i < |entries| :: r[i] == Entry(entries[i].key, Canon(entries[i].value, below))
  {
    seq(|entries|, i requires 0 <= i < |entries| => Entry(entries[i].key, Canon(entries[i].value, below)))
  }

  lemma CanonObject(entries: seq<Entry>, below: KeyOrder)
    requires TotalOrder(below) && DistinctKeys(entries)
    ensures Canon(Object(entries), below) == Object(Sort(Normal(entries, below), below))
    ensures Ordered(Sort(Normal(entries, below), below), below)
    ensures forall x :: x in Canon(Object(entries), below).entries <==> x in Normal(entries, below)
  {
    var direct := seq(|entries|, i requires 0 <= i < |entries| => Entry(entries[i].key, Canon(entries[i].value, below)));
    assert direct == Normal(entries, below);
    SortSorts(Normal(entries, below), below);
  }

  lemma SortedEqually(c: seq<Entry>, d: seq<Entry>, below: KeyOrder)
    requires TotalOrder(below) && DistinctKeys(c) && DistinctKeys(d)
    ensures Sort(c, below) == Sort(d, below) <==> (forall x | x in c :: x in d) && (forall x | x in d :: x in c)
  {
    SortSorts(c, below);
    SortSorts(d, below);
    if (forall x | x in c :: x in d) && (forall x | x in d :: x in c) {
      OrderedUnique(Sort(c, below), Sort(d, below), below);
    }
  }

  /** What induction knows of the property values of two objects. */
  predicate ValuesAgree(a: seq<Entry>, b: seq<Entry>, below: KeyOrder) {
    forall i, j | 0 <= i < |a| && 0 <= j < |b| ::
      Same(a[i].value, b[j].value) <==> Canon(a[i].value, below) == Canon(b[j].value, below)
  }

  lemma SameThenContained(a: seq<Entry>, b: seq<Entry>, below: KeyOrder)
    requires DistinctKeys(b) && ValuesAgree(a, b, below) && Same(Object(a), Object(b))
    ensures forall x | x in Normal(a, below) :: x in Normal(b, below)
    ensures forall x | x in Normal(b, below) :: x in Normal(a, below)
  {
    var c, d := Normal(a, below), Normal(b, below);
    forall i | 0 <= i < |a| ensures c[i] in d && c[i] == d[IndexOf(b, a[i].key)] {
      assert c[i] == d[IndexOf(b, a[i].key)];
    }
    forall j | 0 <= j < |b| ensures d[j] in c {
      var i := IndexOf(a, b[j].key);
      assert c[i] == d[IndexOf(b, a[i].key)];
      assert IndexOf(b, a[i].key) == j;
    }
  }

  lemma ContainedThenSame(a: seq<Entry>, b: seq<Entry>, below: KeyOrder)
    requires DistinctKeys(b) && ValuesAgree(a, b, below)
    requires forall x | x in Normal(a, below) :: x in Normal(b, below)
    requires forall x | x in Normal(b, below) :: x in Normal(a, below)
    ensures Same(Object(a), Object(b))
  {
    var c, d := Normal(a, below), Normal(b, below);
    forall j | 0 <= j < |b| ensures HasKey(a, b[j].key) {
      assert d[j] in c;
      var i :| 0 <= i < |c| && c[i] == d[j];
      assert a[i].key == b[j].key;
    }
    forall i | 0 <= i < |a| ensures HasKey(b, a[i].key) && Same(a[i].value, b[IndexOf(b, a[i].key)].value) {
      assert c[i] in d;
      var j :| 0 <= j < |d| && d[j] == c[i];
      assert b[j].key == a[i].key;
      assert IndexOf(b, a[i].key) == j;
    }
  }

  lemma SameObjectsIffEqualCanon(a: seq<Entry>, b: seq<Entry>, below: KeyOrder)
    requires TotalOrder(below) && DistinctKeys(a) && DistinctKeys(b) && ValuesAgree(a, b, below)
    ensures Same(Object(a), Object(b)) <==> Canon(Object(a), below) == Canon(Object(b), below)
  {
    CanonObject(a, below);
    CanonObject(b, below);
    SortedEqually(Normal(a, below), Normal(b, below), below);
    if Same(Object(a), Object(b)) { SameThenContained(a, b, below); }
    if Canon(Object(a), below) == Canon(Object(b), below) { ContainedThenSame(a, b, below); }
  }

  /** Equality up to property order is equality of the normal forms. */
  lemma {:induction false} SameIsEqualCanon(v: Json, w: Json, below: KeyOrder)
    requires TotalOrder(below) && WellFormed(v) && WellFormed(w)
    ensures Same(v, w) <==> Canon(v, below) == Canon(w, below)
    decreases v
  {
    match (v, w)
    case (Array(a), Array(b)) =>
      var c, d := Canon(v, below).items, Canon(w, below).items;
      forall i | 0 <= i < |a| && i < |b| ensures Same(a[i], b[i]) <==> c[i] == d[i] {
        SameIsEqualCanon(a[i], b[i], below);
      }
    case (Object(a), Object(b)) =>
      forall i, j | 0 <= i < |a| && 0 <= j < |b|
        ensures Same(a[i].value, b[j].value) <==> Canon(a[i].value, below) == Canon(b[j].value, below)
      {
        SameIsEqualCanon(a[i].value, b[j].value, below);
      }
      SameObjectsIffEqualCanon(a, b, below);
    case _ =>
  }

  lemma {:induction false} CanonWellFormed(v: Json, below: KeyOrder)
    requires TotalOrder(below) && WellFormed(v)
    ensures WellFormed(Canon(v, below))
  {
    match v
    case Array(items) =>
      forall i | 0 <= i < |items| ensures WellFormed(Canon(items[i], below)) {
        CanonWellFormed(items[i], below);
      }
    case Object(entries) =>
      CanonObject(entries, below);
      var c := Canon(v, below).entries;
      forall k | 0 <= k < |c| ensures WellFormed(c[k].value) {
        assert c[k] in c;
        var i :| 0 <= i < |entries| && Normal(entries, below)[i] == c[k];
        CanonWellFormed(entries[i].value, below);
      }
    case _ =>
  }

  lemma {:induction false} UnitOrderConnects(a: Text, b: Text)
    ensures UnitOrder(a, b) || UnitOrder(b, a)
    ensures UnitOrder(a, b) && UnitOrder(b, a) ==> a == b
  {
    if a != [] && b != [] && a[0] == b[0] {
      UnitOrderConnects(a[1..], b[1..]);
      assert a == [a[0]] + a[1..] && b == [b[0]] + b[1..];
    }
  }

  lemma {:induction false} UnitOrderTransitive(a: Text, b: Text, c: Text)
    requires UnitOrder(a, b) && UnitOrder(b, c)
    ensures UnitOrder(a, c)
  {
    if a != [] && a[0] == b[0] && b[0] == c[0] {
      UnitOrderTransitive(a[1..], b[1..], c[1..]);
    }
  }

  lemma UnitOrderIsTotal()
    ensures TotalOrder(UnitOrder)
  {
    forall a, b ensures (UnitOrder(a, b) || UnitOrder(b, a)) && (UnitOrder(a, b) && UnitOrder(b, a) ==> a == b) {
      UnitOrderConnects(a, b);
    }
    forall a, b, c | UnitOrder(a, b) && UnitOrder(b, c) ensures UnitOrder(a, c) {
      UnitOrderTransitive(a, b, c);
    }
  }

  /** The canonical text forgets the order of object properties and nothing else. */
  lemma SameTextIffSame(v: Json, w: Json)
    requires WellFormed(v) && WellFormed(w)
    ensures StableGateJson(v) == StableGateJson(w) <==> Same(v, w)
  {
    UnitOrderIsTotal();
    CanonWellFormed(v, UnitOrder);
    CanonWellFormed(w, UnitOrder);
    RenderInjective(Canon(v, UnitOrder), Canon(w, UnitOrder));
    SameIsEqualCanon(v, w, UnitOrder);
  }

  // ---------------------------------------------------------------- the query identities

  predicate NoLeadingZero(a: Text) {
    Digits(a) && a != [] && (|a| > 1 ==> a[0] != 48)
  }

  /** A decimal without leading zeros has one digit exactly if its value is below ten. */
  lemma {:induction false} ValueOfPrefix(a: Text)
    requires NoLeadingZero(a)
    ensures |a| > 1 ==> NoLeadingZero(a[..|a| - 1]) && IndexValue(a[..|a| - 1]) > 0
    ensures |a| == 1 ==> IndexValue(a) == DigitValue(a[0])
    decreases |a|
  {
    if |a| > 1 {
      var p := a[..|a| - 1];
      assert p[0] == a[0];
      ValueOfPrefix(p);
    } else {
      assert a[..0] == [];
    }
  }

  lemma {:induction false} ValueInjective(a: Text, b: Text)
    requires NoLeadingZero(a) && NoLeadingZero(b) && IndexValue(a) == IndexValue(b)
    ensures a == b
    decreases |a|
  {
    ValueOfPrefix(a);
    ValueOfPrefix(b);
    var p, q := a[..|a| - 1], b[..|b| - 1];
    var x, y := a[|a| - 1], b[|b| - 1];
    assert IndexValue(a) == IndexValue(p) * 10 + DigitValue(x);
    assert IndexValue(b) == IndexValue(q) * 10 + DigitValue(y);
    assert |a| == 1 ==> p == [];
    assert |b| == 1 ==> q == [];
    assert IndexValue(p) == IndexValue(q) && x == y;
    if |a| > 1 { ValueInjective(p, q); }
    assert a == p + [x] && b == q + [y];
  }

  lemma EnumerationOrderIsTotal()
    ensures TotalOrder(EnumerationOrder)
  {
    forall a, b
      ensures EnumerationOrder(a, b) || EnumerationOrder(b, a)
      ensures EnumerationOrder(a, b) && EnumerationOrder(b, a) ==> a == b
    {
      UnitOrderConnects(a, b);
      if IsIndex(a) && IsIndex(b) && IndexValue(a) == IndexValue(b) { ValueInjective(a, b); }
    }
    forall a, b, c | EnumerationOrder(a, b) && EnumerationOrder(b, c) ensures EnumerationOrder(a, c) {
      if !IsIndex(a) && !IsIndex(b) && !IsIndex(c) { UnitOrderTransitive(a, b, c); }
    }
  }

  predicate PartRebuilt(v: Json, depth: nat) {
    && (CanonicalJsonAt(v, depth).Success? <==> Nests(v, MAX_DEPTH - depth))
    && (CanonicalJsonAt(v, depth).Success? ==> CanonicalJsonAt(v, depth).value == Canon(v, EnumerationOrder))
  }

  lemma ArrayRebuilt(items: seq<Json>, depth: nat)
    requires forall i | 0 <= i < |items| :: PartRebuilt(items[i], depth + 1)
    ensures PartRebuilt(Array(items), depth)
  {
    if CanonicalJsonAt(Array(items), depth).Success? {
      forall i | 0 <= i < |items| ensures Nests(items[i], MAX_DEPTH - depth - 1) {
        assert PartRebuilt(items[i], depth + 1) && !CanonicalJsonAt(items[i], depth + 1).Failure?;
      }
    }
  }

  lemma ObjectRebuilt(entries: seq<Entry>, depth: nat)
    requires forall i | 0 <= i < |entries| :: PartRebuilt(entries[i].value, depth + 1)
    ensures PartRebuilt(Object(entries), depth)
  {
    var v := Object(entries);
    if CanonicalJsonAt(v, depth).Success? {
      forall i | 0 <= i < |entries| ensures Nests(entries[i].value, MAX_DEPTH - depth - 1) {
        assert PartRebuilt(entries[i].value, depth + 1) && !CanonicalJsonAt(entries[i].value, depth + 1).Failure?;
      }
      assert Rebuilt(v, depth) == Normal(entries, EnumerationOrder);
    }
  }

  /** Rebuilding a value for a query digest succeeds exactly within the nesting limit, and yields the normal form. */
  lemma {:induction false} RebuildIsCanon(v: Json, depth: nat)
    ensures CanonicalJsonAt(v, depth).Success? <==> Nests(v, MAX_DEPTH - depth)
    ensures CanonicalJsonAt(v, depth).Success? ==> CanonicalJsonAt(v, depth).value == Canon(v, EnumerationOrder)
    decreases v
  {
    match v
    case Array(items) =>
      forall i | 0 <= i < |items| ensures PartRebuilt(items[i], depth + 1) {
        RebuildIsCanon(items[i], depth + 1);
      }
      ArrayRebuilt(items, depth);
    case Object(entries) =>
      forall i | 0 <= i < |entries| ensures PartRebuilt(entries[i].value, depth + 1) {
        RebuildIsCanon(entries[i].value, depth + 1);
      }
      ObjectRebuilt(entries, depth);
    case _ =>
  }

  /** Query digests are taken of texts that agree exactly for values equal up to property order. */
  lemma SameQueryTextIffSame(v: Json, w: Json)
    requires WellFormed(v) && WellFormed(w)
    requires QueryText(v).Success? && QueryText(w).Success?
    ensures QueryText(v).value == QueryText(w).value <==> Same(v, w)
  {
    EnumerationOrderIsTotal();
    RebuildIsCanon(v, 0);
    RebuildIsCanon(w, 0);
    CanonWellFormed(v, EnumerationOrder);
    CanonWellFormed(w, EnumerationOrder);
    RenderInjective(Canon(v, EnumerationOrder), Canon(w, EnumerationOrder));
    SameIsEqualCanon(v, w, EnumerationOrder);
  }
}
