/**
  Canonical JSON: a printer that sorts object keys. Comparing the printed strings stands in for
  comparing values, so what matters is that the printer is injective up to key order.
*/
module StableJson {
  import opened Text

  /** The text of a finite number; the language prints equal numbers alike and different ones differently. */
  type NumberText = t: Text | |t| > 0 && forall i :: 0 <= i < |t| ==> IsNumberUnit(t[i]) witness [48]

  /** Digits, '+', '-', '.', 'e'. */
  predicate IsNumberUnit(u: Unit) { 48 <= u <= 57 || u in [43, 45, 46, 101] }

  datatype NonFiniteKind = NotANumber | PositiveInfinity | NegativeInfinity

  datatype Json =
    | Null
    | Undefined
    | Bool(b: bool)
    | Number(text: NumberText)
    | NonFinite(kind: NonFiniteKind)
    | Str(s: Text)
    | Arr(items: seq<Json>)
    | Obj(entries: seq<Entry>)

  /** One own property, in insertion order within its object. */
  datatype Entry = Entry(key: Text, value: Json)

  /** An object has each key once. */
  predicate WellFormed(v: Json) {
    match v
    case Arr(items) => forall i :: 0 <= i < |items| ==> WellFormed(items[i])
    case Obj(entries) =>
      DistinctKeys(entries) && forall i :: 0 <= i < |entries| ==> WellFormed(entries[i].value)
    case _ => true
  }

  predicate DistinctKeys(entries: seq<Entry>) {
    forall i, j :: 0 <= i < j < |entries| ==> entries[i].key != entries[j].key
  }

  predicate AllFinite(v: Json) {
    match v
    case NonFinite(_) => false
    case Arr(items) => forall i :: 0 <= i < |items| ==> AllFinite(items[i])
    case Obj(entries) => forall i :: 0 <= i < |entries| ==> AllFinite(entries[i].value)
    case _ => true
  }

  /**
    Equality of values whose object keys have no order. With `blurred`, the numbers JSON cannot
    write (NaN and the infinities) count as null.
  */
  predicate Same(a: Json, b: Json, blurred: bool) {
    match a
    case Null => b == Null || (blurred && b.NonFinite?)
    case NonFinite(_) => if blurred then b.NonFinite? || b == Null else a == b
    case Arr(items) =>
      b.Arr? && |items| == |b.items| && forall i :: 0 <= i < |items| ==> Same(items[i], b.items[i], blurred)
    case Obj(entries) =>
      && b.Obj? && Keys(entries) == Keys(b.entries)
      && forall i, j :: 0 <= i < |entries| && 0 <= j < |b.entries| && entries[i].key == b.entries[j].key ==>
           Same(entries[i].value, b.entries[j].value, blurred)
    case _ => a == b
  }

  function Keys(entries: seq<Entry>): set<Text> { set i | 0 <= i < |entries| :: entries[i].key }

  // ---------------------------------------------------------------------------------------------
  // The printer
  // ---------------------------------------------------------------------------------------------

  const QUOTE: Unit := 34
  const COMMA: Unit := 44
  const COLON: Unit := 58
  const BACKSLASH: Unit := 92
  const OPEN_ARRAY: Unit := 91
  const CLOSE_ARRAY: Unit := 93
  const OPEN_OBJECT: Unit := 123
  const CLOSE_OBJECT: Unit := 125
  const NULL_WORD: Text := [110, 117, 108, 108]
  const TRUE_WORD: Text := [116, 114, 117, 101]
  const FALSE_WORD: Text := [102, 97, 108, 115, 101]
  const UNDEFINED_WORD: Text := [117, 110, 100, 101, 102, 105, 110, 101, 100]

  predicate IsHighSurrogate(u: Unit) { 0xd800 <= u <= 0xdbff }

  predicate IsLowSurrogate(u: Unit) { 0xdc00 <= u <= 0xdfff }

  function HexDigit(d: int): (u: Unit)
    requires 0 <= d < 16
    ensures u as int == if d < 10 then 48 + d else 87 + d
  {
    if d < 10 then (48 + d) as Unit else (87 + d) as Unit
  }

  /** Units JSON.stringify does not copy: quote, backslash, control characters, unpaired surrogates. */
  predicate NeedsEscape(u: Unit) {
    u == QUOTE || u == BACKSLASH || u < 0x20 || IsHighSurrogate(u) || IsLowSurrogate(u)
  }

  function Escape(u: Unit): (t: Text)
    requires NeedsEscape(u)
    ensures |t| >= 2 && t[0] == BACKSLASH
  {
    if u == QUOTE then [BACKSLASH, QUOTE]
    else if u == BACKSLASH then [BACKSLASH, BACKSLASH]
    else if u == 8 then [BACKSLASH, 98]
    else if u == 9 then [BACKSLASH, 116]
    else if u == 10 then [BACKSLASH, 110]
    else if u == 12 then [BACKSLASH, 102]
    else if u == 13 then [BACKSLASH, 114]
    else
      var n := u as int;
      [BACKSLASH, 117, HexDigit(n / 0x1000), HexDigit(n / 0x100 % 16), HexDigit(n / 16 % 16), HexDigit(n % 16)]
  }

  predicate StartsWithPair(s: Text) { |s| >= 2 && IsHighSurrogate(s[0]) && IsLowSurrogate(s[1]) }

  /** What follows the opening quote. */
  function QuoteBody(s: Text): (t: Text)
    ensures t != []
  {
    if s == [] then [QUOTE]
    else if StartsWithPair(s) then s[..2] + QuoteBody(s[2..])
    else if NeedsEscape(s[0]) then Escape(s[0]) + QuoteBody(s[1..])
    else [s[0]] + QuoteBody(s[1..])
  }

  /** JSON.stringify of a string. */
  function Quote(s: Text): Text { [QUOTE] + QuoteBody(s) }

  /** parts.join(",") */
  function Join(parts: seq<Text>): Text {
    if parts == [] then []
    else if |parts| == 1 then parts[0]
    else parts[0] + [COMMA] + Join(parts[1..])
  }

  /** Array.prototype.sort with the key comparator, as an insertion sort. */
  function SortByKey(entries: seq<Entry>): (sorted: seq<Entry>)
    ensures multiset(sorted) == multiset(entries)
    ensures forall e :: e in sorted <==> e in entries
  {
    if entries == [] then []
    else
      assert entries == [entries[0]] + entries[1..];
      Insert(entries[0], SortByKey(entries[1..]))
  }

  function Insert(e: Entry, sorted: seq<Entry>): (r: seq<Entry>)
    ensures multiset(r) == multiset(sorted) + multiset{e}
    ensures forall x :: x in r <==> x == e || x in sorted
  {
    if sorted == [] then [e]
    else if Less(sorted[0].key, e.key) then
      assert sorted == [sorted[0]] + sorted[1..];
      [sorted[0]] + Insert(e, sorted[1..])
    else [e] + sorted
  }

  /** stableJson */
  function Print(v: Json): Text {
    match v
    case Null => NULL_WORD
    case NonFinite(_) => NULL_WORD
    case Undefined => UNDEFINED_WORD
    case Bool(b) => if b then TRUE_WORD else FALSE_WORD
    case Number(text) => text
    case Str(s) => Quote(s)
    case Arr(items) =>
      [OPEN_ARRAY] + Join(seq(|items|, i requires 0 <= i < |items| => Print(items[i]))) + [CLOSE_ARRAY]
    case Obj(entries) =>
      var sorted := SortByKey(entries);
      [OPEN_OBJECT]
      + Join(seq(|sorted|, i requires 0 <= i < |sorted| =>
               assert sorted[i] in entries;
               Quote(sorted[i].key) + [COLON] + Print(sorted[i].value)))
      + [CLOSE_OBJECT]
  }

  predicate JsonEqual(a: Json, b: Json) { Print(a) == Print(b) }

  // ---------------------------------------------------------------------------------------------
  // What is printed, character by character
  // ---------------------------------------------------------------------------------------------

  function Units(s: string): Text { seq(|s|, i requires 0 <= i < |s| => (s[i] as int % 0x1_0000) as Unit) }

  /** The value of a lower-case hexadecimal digit. */
  function HexValue(u: Unit): int {
    if 48 <= u <= 57 then u as int - 48 else if 97 <= u <= 102 then u as int - 87 else -1
  }

  /** A backslash, a `u`, and four digits of this value. */
  predicate IsUnicodeEscape(t: Text, u: Unit) {
    && |t| == 6 && t[..2] == Units("\\u")
    && (forall i :: 2 <= i < 6 ==> HexValue(t[i]) >= 0)
    && 4096 * HexValue(t[2]) + 256 * HexValue(t[3]) + 16 * HexValue(t[4]) + HexValue(t[5]) == u as int
  }

  lemma EscapeIsWritten(u: Unit)
    requires NeedsEscape(u)
    ensures match u
            case 34 => Escape(u) == Units("\\\"")
            case 92 => Escape(u) == Units("\\\\")
            case 8 => Escape(u) == Units("\\b")
            case 9 => Escape(u) == Units("\\t")
            case 10 => Escape(u) == Units("\\n")
            case 12 => Escape(u) == Units("\\f")
            case 13 => Escape(u) == Units("\\r")
            case _ => IsUnicodeEscape(Escape(u), u)
  {
    if u !in {34, 92, 8, 9, 10, 12, 13} {
      HexIsWritten(u);
    }
  }

  lemma HexIsWritten(u: Unit)
    requires NeedsEscape(u) && u !in {34, 92, 8, 9, 10, 12, 13}
    ensures IsUnicodeEscape(Escape(u), u)
  {
    HexIsExact(u as int);
  }

  /** How one unit is written inside quotes, by ECMA-262, section 25.5.2.3. */
  lemma UnitIsWritten(u: Unit, rest: Text)
    ensures QuoteBody([]) == Units("\"")
    ensures rest != [] && 0xd800 <= u <= 0xdbff && 0xdc00 <= rest[0] <= 0xdfff ==>
              QuoteBody([u] + rest) == [u, rest[0]] + QuoteBody(rest[1..])
    ensures !(rest != [] && 0xd800 <= u <= 0xdbff && 0xdc00 <= rest[0] <= 0xdfff) ==>
              QuoteBody([u] + rest) ==
              (if u in {34, 92} || u < 32 || 0xd800 <= u <= 0xdfff then Escape(u) else [u]) + QuoteBody(rest)
  {
    assert ([u] + rest)[0] == u && ([u] + rest)[1..] == rest;
    if StartsWithPair([u] + rest) {
      assert ([u] + rest)[..2] == [u, rest[0]] && ([u] + rest)[2..] == rest[1..];
    }
  }

  lemma WordIsWritten()
    ensures Print(Null) == Units("null") && Print(Undefined) == Units("undefined")
    ensures Print(Bool(true)) == Units("true") && Print(Bool(false)) == Units("false")
    ensures Print(Arr([])) == Units("[]") && Print(Obj([])) == Units("{}")
  {
  }

  lemma PunctuationIsWritten()
    ensures [OPEN_ARRAY] == Units("[") && [CLOSE_ARRAY] == Units("]") && [COMMA] == Units(",")
    ensures [OPEN_OBJECT] == Units("{") && [CLOSE_OBJECT] == Units("}") && [COLON] == Units(":")
  {
  }

  lemma JoinOfTwo(open: Text, p: Text, q: Text, close: Text)
    ensures open + Join([p, q]) + close == open + p + [COMMA] + q + close
  {
    assert [p, q][1..] == [q];
    assert open + (p + [COMMA] + q) == open + p + [COMMA] + q;
  }

  /** Brackets and commas around printed items, in their order. */
  lemma ItemsAreWritten(v: Json, w: Json)
    ensures Print(Arr([v, w])) == Units("[") + Print(v) + Units(",") + Print(w) + Units("]")
  {
    var items := [v, w];
    PrintArr(items);
    assert ItemParts(items) == [Print(v), Print(w)];
    JoinOfTwo([OPEN_ARRAY], Print(v), Print(w), [CLOSE_ARRAY]);
    PunctuationIsWritten();
  }

  lemma LesserKeyFirst(e: Entry, f: Entry)
    requires Less(e.key, f.key)
    ensures SortByKey([e, f]) == [e, f] == SortByKey([f, e])
  {
    LessIsTotal(e.key, f.key);
    assert [e, f][1..] == [f] && [f, e][1..] == [e];
  }

  lemma SortedAreWritten(entries: seq<Entry>, e: Entry, f: Entry)
    requires SortByKey(entries) == [e, f]
    ensures Print(Obj(entries)) == Units("{") + PrintEntry(e) + Units(",") + PrintEntry(f) + Units("}")
  {
    PrintObj(entries);
    JoinOfTwo([OPEN_OBJECT], PrintEntry(e), PrintEntry(f), [CLOSE_OBJECT]);
    assert EntryParts([e, f]) == [PrintEntry(e), PrintEntry(f)];
    PunctuationIsWritten();
  }

  /** Braces, colons and commas around printed properties, the lesser key first. */
  lemma EntriesAreWritten(e: Entry, f: Entry)
    requires Less(e.key, f.key)
    ensures PrintEntry(e) == Quote(e.key) + Units(":") + Print(e.value)
    ensures Print(Obj([e, f])) == Print(Obj([f, e])) ==
            Units("{") + PrintEntry(e) + Units(",") + PrintEntry(f) + Units("}")
  {
    PunctuationIsWritten();
    LesserKeyFirst(e, f);
    SortedAreWritten([e, f], e, f);
    SortedAreWritten([f, e], e, f);
  }

  // ---------------------------------------------------------------------------------------------
  // Strings delimit themselves
  // ---------------------------------------------------------------------------------------------

  lemma HexIsExact(n: int)
    requires 0 <= n < 0x1_0000
    ensures n == n / 0x1000 * 0x1000 + n / 0x100 % 16 * 0x100 + n / 16 % 16 * 16 + n % 16
    ensures 0 <= n / 0x1000 < 16
  {
    assert n / 0x100 == n / 0x1000 * 16 + n / 0x100 % 16;
    assert n / 16 == n / 0x100 * 16 + n / 16 % 16;
  }

  lemma EscapeDelimits(a: Unit, b: Unit, x: Text, y: Text)
    requires NeedsEscape(a) && NeedsEscape(b) && Escape(a) + x == Escape(b) + y
    ensures a == b && x == y
  {
    var p, q := Escape(a) + x, Escape(b) + y;
    assert p[1] == Escape(a)[1] && q[1] == Escape(b)[1];
    assert x == p[|Escape(a)|..] && y == q[|Escape(b)|..];
    if p[1] == 117 {
      HexIsExact(a as int);
      HexIsExact(b as int);
      assert forall i :: 2 <= i < 6 ==> p[i] == Escape(a)[i] && q[i] == Escape(b)[i];
      assert Escape(a)[2] == Escape(b)[2] && Escape(a)[3] == Escape(b)[3];
      assert Escape(a)[4] == Escape(b)[4] && Escape(a)[5] == Escape(b)[5];
    }
  }

  function Consumed(s: Text): (n: nat)
    requires s != []
    ensures 1 <= n <= |s|
  {
    if StartsWithPair(s) then 2 else 1
  }

  function Head(s: Text): (t: Text)
    requires s != []
    ensures t != [] && t[0] != QUOTE
    ensures QuoteBody(s) == t + QuoteBody(s[Consumed(s)..])
  {
    if StartsWithPair(s) then s[..2] else if NeedsEscape(s[0]) then Escape(s[0]) else [s[0]]
  }

  /** Copied units, escapes and surrogate pairs can be told apart from their first unit on. */
  lemma HeadsDelimit(s: Text, t: Text, x: Text, y: Text)
    requires s != [] && t != [] && Head(s) + x == Head(t) + y
    ensures Consumed(s) == Consumed(t) && s[..Consumed(s)] == t[..Consumed(t)] && x == y
  {
    var p, q := Head(s) + x, Head(t) + y;
    assert p[0] == Head(s)[0] && q[0] == Head(t)[0];
    assert x == p[|Head(s)|..] && y == q[|Head(t)|..];
    if StartsWithPair(s) || StartsWithPair(t) {
      assert StartsWithPair(s) && StartsWithPair(t);
      assert p[1] == s[1] && q[1] == t[1];
    } else if NeedsEscape(s[0]) {
      EscapeDelimits(s[0], t[0], x, y);
    }
  }

  lemma BodyUnfolds(s: Text, x: Text)
    ensures (QuoteBody(s) + x)[0] == QUOTE <==> s == []
    ensures s == [] ==> (QuoteBody(s) + x)[1..] == x
    ensures s != [] ==> QuoteBody(s) + x == Head(s) + (QuoteBody(s[Consumed(s)..]) + x)
  {
  }

  lemma Rejoin(s: Text, t: Text, n: nat)
    requires n <= |s| && n <= |t| && s[..n] == t[..n] && s[n..] == t[n..]
    ensures s == t
  {
  }

  lemma {:induction false} QuoteBodyDelimits(s: Text, t: Text, x: Text, y: Text)
    requires QuoteBody(s) + x == QuoteBody(t) + y
    ensures s == t && x == y
    decreases |s|
  {
    BodyUnfolds(s, x);
    BodyUnfolds(t, y);
    if s != [] {
      var n := Consumed(s);
      HeadsDelimit(s, t, QuoteBody(s[n..]) + x, QuoteBody(t[Consumed(t)..]) + y);
      QuoteBodyDelimits(s[n..], t[n..], x, y);
      Rejoin(s, t, n);
    }
  }

  lemma QuoteDelimits(s: Text, t: Text, x: Text, y: Text)
    requires Quote(s) + x == Quote(t) + y
    ensures s == t && x == y
  {
    assert (Quote(s) + x)[1..] == QuoteBody(s) + x && (Quote(t) + y)[1..] == QuoteBody(t) + y;
    QuoteBodyDelimits(s, t, x, y);
  }

  // ---------------------------------------------------------------------------------------------
  // Printed values delimit themselves wherever they can occur
  // ---------------------------------------------------------------------------------------------

  /** What can follow a printed value: nothing, a comma, or a closing bracket. */
  predicate SafeTail(x: Text) { x == [] || x[0] == COMMA || x[0] == CLOSE_ARRAY || x[0] == CLOSE_OBJECT }

  ghost predicate Delimits(p: Text, q: Text) {
    forall x, y :: SafeTail(x) && SafeTail(y) && p + x == q + y ==> p == q && x == y
  }

  /** What follows the first of some joined parts. */
  function AfterFirst(parts: seq<Text>, close: Unit, x: Text): Text
    requires parts != []
  {
    if |parts| == 1 then [close] + x else [COMMA] + (Join(parts[1..]) + [close] + x)
  }

  lemma JoinStartsWithFirst(parts: seq<Text>, close: Unit, x: Text)
    requires parts != []
    ensures Join(parts) + [close] + x == parts[0] + AfterFirst(parts, close, x)
  {
  }

  ghost predicate Opens(parts: seq<Text>, close: Unit) {
    forall i :: 0 <= i < |parts| ==> parts[i] != [] && parts[i][0] != close
  }

  lemma {:induction false} ListDelimits(pa: seq<Text>, pb: seq<Text>, close: Unit, x: Text, y: Text)
    requires close == CLOSE_ARRAY || close == CLOSE_OBJECT
    requires Opens(pa, close) && Opens(pb, close)
    requires forall i, j :: 0 <= i < |pa| && 0 <= j < |pb| ==> Delimits(pa[i], pb[j])
    requires Join(pa) + [close] + x == Join(pb) + [close] + y
    ensures pa == pb && x == y
    decreases |pa|
  {
    if pa == [] || pb == [] {
      EmptyListDelimits(pa, pb, close, x, y);
    } else {
      var ra, rb := AfterFirst(pa, close, x), AfterFirst(pb, close, y);
      JoinStartsWithFirst(pa, close, x);
      JoinStartsWithFirst(pb, close, y);
      assert Delimits(pa[0], pb[0]);
      assert pa[0] == pb[0] && ra == rb;
      assert ra[1..] == rb[1..];
      if |pa| > 1 {
        assert ra[0] == COMMA && rb[0] == COMMA && |pb| > 1;
        assert ra[1..] == Join(pa[1..]) + [close] + x;
        ListDelimits(pa[1..], pb[1..], close, x, y);
      } else {
        assert ra[0] == close && |pb| == 1;
      }
      assert pa == [pa[0]] + pa[1..] && pb == [pb[0]] + pb[1..];
    }
  }

  lemma EmptyListDelimits(pa: seq<Text>, pb: seq<Text>, close: Unit, x: Text, y: Text)
    requires Opens(pa, close) && Opens(pb, close) && (pa == [] || pb == [])
    requires Join(pa) + [close] + x == Join(pb) + [close] + y
    ensures pa == pb && x == y
  {
    FirstOfList(pa, close, x);
    FirstOfList(pb, close, y);
    assert (Join(pa) + [close] + x)[0] == (Join(pb) + [close] + y)[0];
    assert ([close] + x)[1..] == x && ([close] + y)[1..] == y;
    assert Join([]) + [close] + x == [close] + x && Join([]) + [close] + y == [close] + y;
  }

  lemma FirstOfList(parts: seq<Text>, close: Unit, x: Text)
    requires Opens(parts, close)
    ensures (Join(parts) + [close] + x)[0] == close <==> parts == []
  {
  }

  lemma LongerNumberDiffers(s: NumberText, t: NumberText, x: Text, y: Text)
    requires |s| < |t| && SafeTail(x)
    ensures s + x != t + y
  {
    assert (t + y)[|s|] == t[|s|];
    if x != [] {
      assert (s + x)[|s|] == x[0];
    }
  }

  lemma NumberDelimits(s: NumberText, t: NumberText)
    ensures Delimits(s, t)
  {
    forall x, y | SafeTail(x) && SafeTail(y) && s + x == t + y
      ensures s == t && x == y
    {
      if |s| < |t| {
        LongerNumberDiffers(s, t, x, y);
      } else if |t| < |s| {
        LongerNumberDiffers(t, s, y, x);
      } else {
        var p, q := s + x, t + y;
        assert s == p[..|s|] && t == q[..|t|] && x == p[|s|..] && y == q[|t|..];
      }
    }
  }

  lemma WordDelimits(w: Text)
    ensures Delimits(w, w)
  {
    forall x, y | SafeTail(x) && SafeTail(y) && w + x == w + y
      ensures x == y
    {
      assert x == (w + x)[|w|..] && y == (w + y)[|w|..];
    }
  }

  lemma DifferentStarts(p: Text, q: Text)
    requires p != [] && q != [] && p[0] != q[0]
    ensures Delimits(p, q)
  {
    forall x: Text, y: Text
      ensures p + x != q + y
    {
      assert (p + x)[0] == p[0] && (q + y)[0] == q[0];
    }
  }

  function ItemParts(items: seq<Json>): seq<Text> {
    seq(|items|, i requires 0 <= i < |items| => Print(items[i]))
  }

  function PrintEntry(e: Entry): Text { Quote(e.key) + [COLON] + Print(e.value) }

  function EntryParts(entries: seq<Entry>): seq<Text> {
    seq(|entries|, i requires 0 <= i < |entries| => PrintEntry(entries[i]))
  }

  lemma PrintArr(items: seq<Json>)
    ensures Print(Arr(items)) == [OPEN_ARRAY] + Join(ItemParts(items)) + [CLOSE_ARRAY]
  {
  }

  lemma PrintObj(entries: seq<Entry>)
    ensures Print(Obj(entries)) == [OPEN_OBJECT] + Join(EntryParts(SortByKey(entries))) + [CLOSE_OBJECT]
  {
    var sorted := SortByKey(entries);
    assert seq(|sorted|, i requires 0 <= i < |sorted| =>
             assert sorted[i] in entries;
             Quote(sorted[i].key) + [COLON] + Print(sorted[i].value)) == EntryParts(sorted);
  }

  lemma PrintStarts(v: Json)
    ensures Print(v) != [] && Print(v)[0] != CLOSE_ARRAY && Print(v)[0] != CLOSE_OBJECT
    ensures v.Arr? <==> Print(v)[0] == OPEN_ARRAY
    ensures v.Obj? <==> Print(v)[0] == OPEN_OBJECT
    ensures v.Str? <==> Print(v)[0] == QUOTE
    ensures v.Number? <==> IsNumberUnit(Print(v)[0])
  {
  }

  lemma {:induction false} PrintDelimits(a: Json, b: Json)
    ensures Delimits(Print(a), Print(b))
    decreases a
  {
    PrintStarts(a);
    PrintStarts(b);
    if Print(a)[0] != Print(b)[0] && !(a.Number? && b.Number?) {
      DifferentStarts(Print(a), Print(b));
    } else if a.Number? {
      NumberDelimits(a.text, b.text);
    } else if a.Str? {
      forall x, y | SafeTail(x) && SafeTail(y) && Print(a) + x == Print(b) + y
        ensures Print(a) == Print(b) && x == y
      {
        QuoteDelimits(a.s, b.s, x, y);
      }
    } else if a.Arr? {
      forall x, y | SafeTail(x) && SafeTail(y) && Print(a) + x == Print(b) + y
        ensures Print(a) == Print(b) && x == y
      {
        ItemsDelimit(a, b, x, y);
      }
    } else if a.Obj? {
      forall x, y | SafeTail(x) && SafeTail(y) && Print(a) + x == Print(b) + y
        ensures Print(a) == Print(b) && x == y
      {
        EntriesDelimit(a, b, x, y);
      }
    } else {
      WordDelimits(Print(a));
    }
  }

  lemma ItemPartsOpen(items: seq<Json>)
    ensures Opens(ItemParts(items), CLOSE_ARRAY)
  {
  }

  lemma DropFirst(open: Unit, body: Text, close: Unit, x: Text)
    ensures ([open] + body + [close] + x)[1..] == body + [close] + x
  {
  }

  lemma BracketsDelimit(pa: seq<Text>, pb: seq<Text>, open: Unit, close: Unit, x: Text, y: Text)
    requires close == CLOSE_ARRAY || close == CLOSE_OBJECT
    requires Opens(pa, close) && Opens(pb, close)
    requires forall i, j :: 0 <= i < |pa| && 0 <= j < |pb| ==> Delimits(pa[i], pb[j])
    requires [open] + Join(pa) + [close] + x == [open] + Join(pb) + [close] + y
    ensures pa == pb && x == y
  {
    DropFirst(open, Join(pa), close, x);
    DropFirst(open, Join(pb), close, y);
    ListDelimits(pa, pb, close, x, y);
  }

  lemma {:induction false} ItemsDelimit(a: Json, b: Json, x: Text, y: Text)
    requires a.Arr? && b.Arr? && Print(a) + x == Print(b) + y
    ensures ItemParts(a.items) == ItemParts(b.items) && x == y && Print(a) == Print(b)
    decreases a, 0
  {
    var pa, pb := ItemParts(a.items), ItemParts(b.items);
    ItemPartsOpen(a.items);
    ItemPartsOpen(b.items);
    forall i, j | 0 <= i < |pa| && 0 <= j < |pb|
      ensures Delimits(pa[i], pb[j])
    {
      PrintDelimits(a.items[i], b.items[j]);
    }
    PrintArr(a.items);
    PrintArr(b.items);
    BracketsDelimit(pa, pb, OPEN_ARRAY, CLOSE_ARRAY, x, y);
  }

  lemma FieldDelimitsBefore(j: Text, k: Text, p: Text, q: Text, x: Text, y: Text)
    requires Delimits(p, q) && SafeTail(x) && SafeTail(y)
    requires Quote(j) + [COLON] + p + x == Quote(k) + [COLON] + q + y
    ensures x == y && j == k && p == q
  {
    var u, v := [COLON] + (p + x), [COLON] + (q + y);
    assert Quote(j) + [COLON] + p + x == Quote(j) + u && Quote(k) + [COLON] + q + y == Quote(k) + v;
    QuoteDelimits(j, k, u, v);
    assert u[1..] == p + x && v[1..] == q + y;
  }

  lemma FieldDelimits(j: Text, k: Text, p: Text, q: Text)
    requires Delimits(p, q)
    ensures Delimits(Quote(j) + [COLON] + p, Quote(k) + [COLON] + q)
    ensures Quote(j) + [COLON] + p == Quote(k) + [COLON] + q ==> j == k && p == q
  {
    forall x, y | SafeTail(x) && SafeTail(y) && Quote(j) + [COLON] + p + x == Quote(k) + [COLON] + q + y
      ensures x == y && j == k && p == q
    {
      FieldDelimitsBefore(j, k, p, q, x, y);
    }
    if Quote(j) + [COLON] + p == Quote(k) + [COLON] + q {
      assert Quote(j) + [COLON] + p + [] == Quote(k) + [COLON] + q + [];
    }
  }

  lemma EntryPartsOpen(entries: seq<Entry>)
    ensures Opens(EntryParts(entries), CLOSE_OBJECT)
  {
  }

  lemma {:induction false} EntriesDelimit(a: Json, b: Json, x: Text, y: Text)
    requires a.Obj? && b.Obj? && Print(a) + x == Print(b) + y
    ensures EntryParts(SortByKey(a.entries)) == EntryParts(SortByKey(b.entries)) && x == y && Print(a) == Print(b)
    decreases a, 0
  {
    var sa, sb := SortByKey(a.entries), SortByKey(b.entries);
    var pa, pb := EntryParts(sa), EntryParts(sb);
    EntryPartsOpen(sa);
    EntryPartsOpen(sb);
    forall i, j | 0 <= i < |pa| && 0 <= j < |pb|
      ensures Delimits(pa[i], pb[j])
    {
      assert sa[i] in a.entries;
      PrintDelimits(sa[i].value, sb[j].value);
      FieldDelimits(sa[i].key, sb[j].key, Print(sa[i].value), Print(sb[j].value));
    }
    PrintObj(a.entries);
    PrintObj(b.entries);
    BracketsDelimit(pa, pb, OPEN_OBJECT, CLOSE_OBJECT, x, y);
  }

  // ---------------------------------------------------------------------------------------------
  // Sorting forgets the order of keys and nothing else
  // ---------------------------------------------------------------------------------------------

  predicate StrictlySorted(entries: seq<Entry>) {
    forall i, j :: 0 <= i < j < |entries| ==> Less(entries[i].key, entries[j].key)
  }

  lemma PrependIsStrict(e: Entry, rest: seq<Entry>)
    requires StrictlySorted(rest) && forall x :: x in rest ==> Less(e.key, x.key)
    ensures StrictlySorted([e] + rest)
  {
  }

  lemma LessThanAll(e: Entry, sorted: seq<Entry>)
    requires StrictlySorted(sorted) && sorted != [] && Less(e.key, sorted[0].key)
    ensures forall x :: x in sorted ==> Less(e.key, x.key)
  {
    forall i | 0 < i < |sorted|
      ensures Less(e.key, sorted[i].key)
    {
      LessIsTransitive(e.key, sorted[0].key, sorted[i].key);
    }
  }

  lemma {:induction false} InsertIsStrict(e: Entry, sorted: seq<Entry>)
    requires StrictlySorted(sorted) && forall x :: x in sorted ==> x.key != e.key
    ensures StrictlySorted(Insert(e, sorted))
  {
    if sorted != [] {
      assert sorted[0] in sorted;
      LessIsTotal(sorted[0].key, e.key);
      if Less(sorted[0].key, e.key) {
        InsertIsStrict(e, sorted[1..]);
        PrependIsStrict(sorted[0], Insert(e, sorted[1..]));
      } else {
        LessThanAll(e, sorted);
        PrependIsStrict(e, sorted);
      }
    }
  }

  lemma {:induction false} SortIsStrict(entries: seq<Entry>)
    requires DistinctKeys(entries)
    ensures StrictlySorted(SortByKey(entries))
  {
    if entries != [] {
      SortIsStrict(entries[1..]);
      InsertIsStrict(entries[0], SortByKey(entries[1..]));
    }
  }

  /** Two strictly sorted lists with the same keys have the same keys in the same places. */
  lemma {:induction false} StrictOrderIsUnique(a: seq<Entry>, b: seq<Entry>)
    requires StrictlySorted(a) && StrictlySorted(b) && Keys(a) == Keys(b)
    ensures |a| == |b| && forall i :: 0 <= i < |a| ==> a[i].key == b[i].key
  {
    HasKeys(a);
    HasKeys(b);
    if a != [] {
      assert a[0].key in Keys(b);
      assert b[0].key in Keys(a);
      var j :| 0 <= j < |b| && b[j].key == a[0].key;
      var i :| 0 <= i < |a| && a[i].key == b[0].key;
      LessIsTotal(a[0].key, b[0].key);
      assert a[0].key == b[0].key;
      TailKeys(a);
      TailKeys(b);
      StrictOrderIsUnique(a[1..], b[1..]);
    }
  }

  lemma HasKeys(a: seq<Entry>)
    ensures Keys(a) == {} <==> a == []
  {
    if a != [] {
      assert a[0].key in Keys(a);
    }
  }

  lemma TailKeys(a: seq<Entry>)
    requires StrictlySorted(a) && a != []
    ensures Keys(a[1..]) == Keys(a) - {a[0].key}
  {
    LessIsTotal(a[0].key, a[0].key);
    forall i | 0 < i < |a|
      ensures a[i].key != a[0].key && a[i].key in Keys(a[1..])
    {
      assert a[i] == a[1..][i - 1];
    }
  }

  lemma SortKeepsKeys(entries: seq<Entry>)
    ensures Keys(SortByKey(entries)) == Keys(entries)
  {
    var sorted := SortByKey(entries);
    forall k | k in Keys(entries)
      ensures k in Keys(sorted)
    {
      var i :| 0 <= i < |entries| && entries[i].key == k;
      assert entries[i] in sorted;
    }
    forall k | k in Keys(sorted)
      ensures k in Keys(entries)
    {
      var i :| 0 <= i < |sorted| && sorted[i].key == k;
      assert sorted[i] in entries;
    }
  }

  // ---------------------------------------------------------------------------------------------
  // The main results
  // ---------------------------------------------------------------------------------------------

  lemma {:induction false} PrintedAlikeIsSame(a: Json, b: Json)
    requires WellFormed(a) && WellFormed(b) && Print(a) == Print(b)
    ensures Same(a, b, true)
    decreases a
  {
    PrintStarts(a);
    PrintStarts(b);
    assert Print(a) + [] == Print(b) + [];
    if a.Str? {
      QuoteDelimits(a.s, b.s, [], []);
    } else if a.Arr? {
      ItemsDelimit(a, b, [], []);
      assert |a.items| == |ItemParts(a.items)| == |ItemParts(b.items)| == |b.items|;
      forall i | 0 <= i < |a.items|
        ensures Same(a.items[i], b.items[i], true)
      {
        assert ItemParts(a.items)[i] == ItemParts(b.items)[i];
        PrintedAlikeIsSame(a.items[i], b.items[i]);
      }
    } else if a.Obj? {
      EntriesDelimit(a, b, [], []);
      EntriesAlike(a, b);
    }
  }

  lemma {:induction false} EntriesAlike(a: Json, b: Json)
    requires a.Obj? && b.Obj? && WellFormed(a) && WellFormed(b)
    requires EntryParts(SortByKey(a.entries)) == EntryParts(SortByKey(b.entries))
    ensures Same(a, b, true)
    decreases a, 0
  {
    var sa, sb := SortByKey(a.entries), SortByKey(b.entries);
    assert |sa| == |EntryParts(sa)| == |EntryParts(sb)| == |sb|;
    forall k | 0 <= k < |sa|
      ensures sa[k].key == sb[k].key && Same(sa[k].value, sb[k].value, true)
    {
      assert PrintEntry(sa[k]) == EntryParts(sa)[k] == EntryParts(sb)[k] == PrintEntry(sb[k]);
      PrintDelimits(sa[k].value, sb[k].value);
      FieldDelimits(sa[k].key, sb[k].key, Print(sa[k].value), Print(sb[k].value));
      assert sa[k] in a.entries && sb[k] in b.entries;
      PrintedAlikeIsSame(sa[k].value, sb[k].value);
    }
    SortKeepsKeys(a.entries);
    SortKeepsKeys(b.entries);
    SortIsStrict(a.entries);
    SortedAlikeIsSame(a.entries, b.entries, sa, sb);
  }

  lemma SortedAlikeIsSame(a: seq<Entry>, b: seq<Entry>, sa: seq<Entry>, sb: seq<Entry>)
    requires StrictlySorted(sa) && |sa| == |sb| && Keys(sa) == Keys(a) && Keys(sb) == Keys(b)
    requires (forall e :: e in a ==> e in sa) && (forall e :: e in b ==> e in sb)
    requires forall k :: 0 <= k < |sa| ==> sa[k].key == sb[k].key && Same(sa[k].value, sb[k].value, true)
    ensures Same(Obj(a), Obj(b), true)
  {
    assert Keys(a) == Keys(b);
    forall i, j | 0 <= i < |a| && 0 <= j < |b| && a[i].key == b[j].key
      ensures Same(a[i].value, b[j].value, true)
    {
      assert a[i] in sa && b[j] in sb;
      var k :| 0 <= k < |sa| && sa[k] == a[i];
      var l :| 0 <= l < |sb| && sb[l] == b[j];
      LessIsTotal(sa[k].key, sa[l].key);
      assert k == l;
    }
  }

  lemma {:induction false} SameIsPrintedAlike(a: Json, b: Json)
    requires WellFormed(a) && WellFormed(b) && Same(a, b, true)
    ensures Print(a) == Print(b)
    decreases a
  {
    if a.Arr? {
      PrintArr(a.items);
      PrintArr(b.items);
      forall i | 0 <= i < |a.items|
        ensures ItemParts(a.items)[i] == ItemParts(b.items)[i]
      {
        SameIsPrintedAlike(a.items[i], b.items[i]);
      }
      assert ItemParts(a.items) == ItemParts(b.items);
    } else if a.Obj? {
      PrintObj(a.entries);
      PrintObj(b.entries);
      SortIsStrict(a.entries);
      SortIsStrict(b.entries);
      SortKeepsKeys(a.entries);
      SortKeepsKeys(b.entries);
      var sa, sb := SortByKey(a.entries), SortByKey(b.entries);
      StrictOrderIsUnique(sa, sb);
      forall k | 0 <= k < |sa|
        ensures EntryParts(sa)[k] == EntryParts(sb)[k]
      {
        assert sa[k] in a.entries && sb[k] in b.entries;
        SameIsPrintedAlike(sa[k].value, sb[k].value);
      }
      assert EntryParts(sa) == EntryParts(sb);
    }
  }

  /** On all values, comparing canonical strings decides equality with non-finite numbers taken as null. */
  lemma JsonEqualIsBlurredEquality(a: Json, b: Json)
    requires WellFormed(a) && WellFormed(b)
    ensures JsonEqual(a, b) <==> Same(a, b, true)
  {
    if JsonEqual(a, b) {
      PrintedAlikeIsSame(a, b);
    }
    if Same(a, b, true) {
      SameIsPrintedAlike(a, b);
    }
  }

  lemma {:induction false} BlurMattersOnlyToNonFinite(a: Json, b: Json)
    requires AllFinite(a) && AllFinite(b)
    ensures Same(a, b, true) <==> Same(a, b, false)
    decreases a
  {
    if a.Arr? && b.Arr? && |a.items| == |b.items| {
      forall i | 0 <= i < |a.items|
        ensures Same(a.items[i], b.items[i], true) <==> Same(a.items[i], b.items[i], false)
      {
        BlurMattersOnlyToNonFinite(a.items[i], b.items[i]);
      }
    } else if a.Obj? && b.Obj? {
      forall i, j | 0 <= i < |a.entries| && 0 <= j < |b.entries|
        ensures Same(a.entries[i].value, b.entries[j].value, true) <==>
                Same(a.entries[i].value, b.entries[j].value, false)
      {
        BlurMattersOnlyToNonFinite(a.entries[i].value, b.entries[j].value);
      }
    }
  }

  /** On values JSON can write, jsonEqual decides equality of values with unordered keys. */
  lemma JsonEqualDecidesEquality(a: Json, b: Json)
    requires WellFormed(a) && WellFormed(b) && AllFinite(a) && AllFinite(b)
    ensures JsonEqual(a, b) <==> Same(a, b, false)
  {
    JsonEqualIsBlurredEquality(a, b);
    BlurMattersOnlyToNonFinite(a, b);
  }

  /** Without finiteness it does not: NaN and null print alike. */
  lemma NonFiniteCollides()
    ensures JsonEqual(NonFinite(NotANumber), Null) && !Same(NonFinite(NotANumber), Null, false)
  {
  }
}
