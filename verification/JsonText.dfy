/** JSON values and the text `JSON.stringify` gives them, over UTF-16 code units. */
module JsonText {
  type Unit = u: int | 0 <= u < 0x10000
  type Text = seq<Unit>

  const QUOTE: Unit := 0x22
  const COMMA: Unit := 0x2c
  const COLON: Unit := 0x3a
  const LBRACKET: Unit := 0x5b
  const BACKSLASH: Unit := 0x5c
  const RBRACKET: Unit := 0x5d
  const LBRACE: Unit := 0x7b
  const RBRACE: Unit := 0x7d

  const NULL_TEXT: Text := [0x6e, 0x75, 0x6c, 0x6c]
  const TRUE_TEXT: Text := [0x74, 0x72, 0x75, 0x65]
  const FALSE_TEXT: Text := [0x66, 0x61, 0x6c, 0x73, 0x65]

  datatype Field = Field(key: Text, value: Json)

  /** A number stands for itself through the text `JSON.stringify` prints for it; object fields keep
      the order in which `Object.keys` lists them. */
  datatype Json =
    | Null
    | Bool(b: bool)
    | Number(digits: Text)
    | Str(s: Text)
    | Arr(items: seq<Json>)
    | Obj(fields: seq<Field>)

  predicate NumberUnit(u: Unit) {
    0x30 <= u <= 0x39 || u == 0x2b || u == 0x2d || u == 0x2e || u == 0x65
  }

  predicate NumberText(t: Text) {
    t != [] && (forall i :: 0 <= i < |t| ==> NumberUnit(t[i]))
  }

  predicate DistinctKeys(fields: seq<Field>) {
    forall i, j :: 0 <= i < j < |fields| ==> fields[i].key != fields[j].key
  }

  predicate WellFormed(v: Json) {
    match v
    case Number(digits) => NumberText(digits)
    case Arr(items) => forall i :: 0 <= i < |items| ==> WellFormed(items[i])
    case Obj(fields) => DistinctKeys(fields) && forall i :: 0 <= i < |fields| ==> WellFormed(fields[i].value)
    case _ => true
  }

  // ---- Strings

  predicate High(u: Unit) { 0xd800 <= u < 0xdc00 }
  predicate Low(u: Unit) { 0xdc00 <= u < 0xe000 }

  function HexUnit(d: int): Unit
    requires 0 <= d < 16
  {
    if d < 10 then 0x30 + d else 0x61 + (d - 10)
  }

  function Hex4(u: Unit): (t: Text)
    ensures |t| == 4
  {
    [HexUnit(u / 0x1000), HexUnit(u / 0x100 % 16), HexUnit(u / 16 % 16), HexUnit(u % 16)]
  }

  /** One unit that is not half of a surrogate pair. */
  function EscapeUnit(u: Unit): (t: Text)
    ensures t != []
  {
    if u == 0x08 then [BACKSLASH, 0x62]
    else if u == 0x09 then [BACKSLASH, 0x74]
    else if u == 0x0a then [BACKSLASH, 0x6e]
    else if u == 0x0c then [BACKSLASH, 0x66]
    else if u == 0x0d then [BACKSLASH, 0x72]
    else if u == QUOTE || u == BACKSLASH then [BACKSLASH, u]
    else if u < 0x20 || High(u) || Low(u) then [BACKSLASH, 0x75] + Hex4(u)
    else [u]
  }

  function Escape(s: Text): Text {
    if s == [] then []
    else if |s| > 1 && High(s[0]) && Low(s[1]) then [s[0], s[1]] + Escape(s[2..])
    else EscapeUnit(s[0]) + Escape(s[1..])
  }

  function Quoted(s: Text): Text {
    [QUOTE] + Escape(s) + [QUOTE]
  }

  // ---- Values, fields in the order they stand

  function Print(v: Json): Text
    decreases v, 1
  {
    match v
    case Null => NULL_TEXT
    case Bool(b) => if b then TRUE_TEXT else FALSE_TEXT
    case Number(digits) => digits
    case Str(s) => Quoted(s)
    case Arr(items) => [LBRACKET] + PrintItems(items) + [RBRACKET]
    case Obj(fields) => [LBRACE] + PrintFields(fields) + [RBRACE]
  }

  function PrintItems(items: seq<Json>): Text
    decreases items, 0
  {
    if items == [] then []
    else if |items| == 1 then Print(items[0])
    else Print(items[0]) + [COMMA] + PrintItems(items[1..])
  }

  function PrintField(f: Field): Text
    decreases f, 0
  {
    Quoted(f.key) + [COLON] + Print(f.value)
  }

  function PrintFields(fields: seq<Field>): Text
    decreases fields, 0
  {
    if fields == [] then []
    else if |fields| == 1 then PrintField(fields[0])
    else PrintField(fields[0]) + [COMMA] + PrintFields(fields[1..])
  }

  // ---- A reader for quoted strings: what the escapes mean

  datatype Read = Stuck | Took(value: Text, rest: Text)

  predicate HexDigitUnit(u: Unit) { 0x30 <= u <= 0x39 || 0x61 <= u <= 0x66 }

  function HexValue(u: Unit): (d: int)
    requires HexDigitUnit(u)
    ensures 0 <= d < 16
  {
    if u <= 0x39 then u - 0x30 else u - 0x61 + 10
  }

  /** Reads up to the closing quote. */
  function ReadRest(t: Text): Read
    decreases |t|
  {
    if t == [] then Stuck
    else if t[0] == QUOTE then Took([], t[1..])
    else if t[0] != BACKSLASH then Prepend(t[0], ReadRest(t[1..]))
    else if |t| < 2 then Stuck
    else if t[1] == 0x75 then
      if |t| < 6 || !(forall i :: 2 <= i < 6 ==> HexDigitUnit(t[i])) then Stuck
      else
        var u := HexValue(t[2]) * 0x1000 + HexValue(t[3]) * 0x100 + HexValue(t[4]) * 16 + HexValue(t[5]);
        Prepend(u, ReadRest(t[6..]))
    else if t[1] == 0x62 then Prepend(0x08, ReadRest(t[2..]))
    else if t[1] == 0x74 then Prepend(0x09, ReadRest(t[2..]))
    else if t[1] == 0x6e then Prepend(0x0a, ReadRest(t[2..]))
    else if t[1] == 0x66 then Prepend(0x0c, ReadRest(t[2..]))
    else if t[1] == 0x72 then Prepend(0x0d, ReadRest(t[2..]))
    else Prepend(t[1], ReadRest(t[2..]))
  }

  function Prepend(u: Unit, r: Read): Read {
    match r
    case Stuck => Stuck
    case Took(value, rest) => Took([u] + value, rest)
  }

  lemma ReadPlainUnit(u: Unit, t: Text)
    requires u != QUOTE && u != BACKSLASH
    ensures ReadRest([u] + t) == Prepend(u, ReadRest(t))
  {
    assert ([u] + t)[1..] == t;
  }

  lemma ReadShortEscape(u: Unit, c: Unit, t: Text)
    requires [BACKSLASH, c] == EscapeUnit(u)
    ensures ReadRest([BACKSLASH, c] + t) == Prepend(u, ReadRest(t))
  {
    var e := [BACKSLASH, c] + t;
    assert e[0] == BACKSLASH && e[1] == c && e[2..] == t;
    assert c == EscapeUnit(u)[1];
  }

  lemma ReadHexEscape(u: Unit, t: Text)
    ensures ReadRest([BACKSLASH, 0x75] + Hex4(u) + t) == Prepend(u, ReadRest(t))
  {
    var h := Hex4(u);
    var e := [BACKSLASH, 0x75] + h + t;
    assert e[0] == BACKSLASH && e[1] == 0x75 && e[6..] == t;
    assert e[2] == h[0] && e[3] == h[1] && e[4] == h[2] && e[5] == h[3];
    Hex4Value(u);
  }

  lemma HexUnitValue(d: int)
    requires 0 <= d < 16
    ensures HexDigitUnit(HexUnit(d)) && HexValue(HexUnit(d)) == d
  {
  }

  lemma Base16(u: int)
    requires 0 <= u < 0x10000
    ensures u / 0x1000 * 0x1000 + u / 0x100 % 16 * 0x100 + u / 16 % 16 * 16 + u % 16 == u
  {
    var a, b, c := u / 16, u / 0x100, u / 0x1000;
    assert a / 16 == b && b / 16 == c;
  }

  lemma Hex4Value(u: Unit)
    ensures var h := Hex4(u);
            && (forall i :: 0 <= i < 4 ==> HexDigitUnit(h[i]))
            && HexValue(h[0]) * 0x1000 + HexValue(h[1]) * 0x100 + HexValue(h[2]) * 16 + HexValue(h[3]) == u
  {
    HexUnitValue(u / 0x1000);
    HexUnitValue(u / 0x100 % 16);
    HexUnitValue(u / 16 % 16);
    HexUnitValue(u % 16);
    Base16(u);
  }

  predicate HasShortEscape(u: Unit) {
    u == 0x08 || u == 0x09 || u == 0x0a || u == 0x0c || u == 0x0d || u == QUOTE || u == BACKSLASH
  }

  lemma ReadEscapedUnit(u: Unit, t: Text)
    ensures ReadRest(EscapeUnit(u) + t) == Prepend(u, ReadRest(t))
  {
    if HasShortEscape(u) {
      ReadShortEscape(u, EscapeUnit(u)[1], t);
    } else if u < 0x20 || High(u) || Low(u) {
      ReadHexEscape(u, t);
    } else {
      ReadPlainUnit(u, t);
    }
  }

  lemma EscapedPair(h: Unit, l: Unit, others: Text, close: Text)
    ensures ([h, l] + others) + close == [h] + ([l] + (others + close))
  {
  }

  lemma EscapedOne(e: Text, others: Text, close: Text)
    ensures (e + others) + close == e + (others + close)
  {
  }

  /** Quoting loses nothing and the closing quote is found where it was put, whatever follows. */
  lemma {:induction false} ReadQuoted(s: Text, rest: Text)
    ensures ReadRest(Escape(s) + ([QUOTE] + rest)) == Took(s, rest)
    decreases |s|
  {
    var close := [QUOTE] + rest;
    if s == [] {
      assert Escape(s) + close == close;
      assert close[1..] == rest;
    } else if |s| > 1 && High(s[0]) && Low(s[1]) {
      ReadQuoted(s[2..], rest);
      var tail := Escape(s[2..]) + close;
      EscapedPair(s[0], s[1], Escape(s[2..]), close);
      ReadPlainUnit(s[1], tail);
      ReadPlainUnit(s[0], [s[1]] + tail);
      assert s == [s[0]] + ([s[1]] + s[2..]);
    } else {
      ReadQuoted(s[1..], rest);
      var tail := Escape(s[1..]) + close;
      EscapedOne(EscapeUnit(s[0]), Escape(s[1..]), close);
      ReadEscapedUnit(s[0], tail);
      assert s == [s[0]] + s[1..];
    }
  }

  lemma QuotedPrefix(s1: Text, s2: Text, r1: Text, r2: Text)
    requires Quoted(s1) + r1 == Quoted(s2) + r2
    ensures s1 == s2 && r1 == r2
  {
    QuotedSplit(s1, r1);
    QuotedSplit(s2, r2);
    Cancel([QUOTE], Escape(s1) + ([QUOTE] + r1), Escape(s2) + ([QUOTE] + r2));
    ReadQuoted(s1, r1);
    ReadQuoted(s2, r2);
  }

  lemma QuotedSplit(s: Text, r: Text)
    ensures Quoted(s) + r == [QUOTE] + (Escape(s) + ([QUOTE] + r))
  {
  }

  // ---- Printing is unambiguous

  /** What may follow a value: nothing, a comma or a closing bracket. */
  predicate Delimited(t: Text) {
    t == [] || t[0] == COMMA || t[0] == RBRACKET || t[0] == RBRACE
  }

  lemma PrintStarts(v: Json)
    requires WellFormed(v)
    ensures Print(v) != []
    ensures match v
            case Null => Print(v)[0] == 0x6e
            case Bool(b) => Print(v)[0] == if b then 0x74 else 0x66
            case Number(_) => NumberUnit(Print(v)[0])
            case Str(_) => Print(v)[0] == QUOTE
            case Arr(_) => Print(v)[0] == LBRACKET
            case Obj(_) => Print(v)[0] == LBRACE
  {
  }

  /** How many number units a text starts with. */
  function NumberRun(t: Text): nat {
    if t == [] || !NumberUnit(t[0]) then 0 else 1 + NumberRun(t[1..])
  }

  lemma {:induction false} NumberRunIs(a: Text, s: Text)
    requires Delimited(s) && forall i :: 0 <= i < |a| ==> NumberUnit(a[i])
    ensures NumberRun(a + s) == |a|
  {
    if a == [] {
      assert a + s == s;
    } else {
      NumberRunIs(a[1..], s);
      assert (a + s)[1..] == a[1..] + s;
    }
  }

  lemma NumberPrefix(a: Text, b: Text, s: Text, t: Text)
    requires a + s == b + t && Delimited(s) && Delimited(t)
    requires forall i :: 0 <= i < |a| ==> NumberUnit(a[i])
    requires forall i :: 0 <= i < |b| ==> NumberUnit(b[i])
    ensures a == b && s == t
  {
    NumberRunIs(a, s);
    NumberRunIs(b, t);
    assert a == (a + s)[..|a|] && b == (b + t)[..|b|];
    assert s == (a + s)[|a|..] && t == (b + t)[|b|..];
  }

  /** Two texts that begin with the print of a value begin with the same value. */
  lemma PrintPrefix(x: Json, y: Json, s: Text, t: Text)
    requires WellFormed(x) && WellFormed(y) && Delimited(s) && Delimited(t)
    requires Print(x) + s == Print(y) + t
    ensures x == y && s == t
    decreases x, 1
  {
    PrintStarts(x);
    PrintStarts(y);
    assert (Print(x) + s)[0] == Print(x)[0] && (Print(y) + t)[0] == Print(y)[0];
    SameShape(x, y);
    match x {
      case Null => Cancel(NULL_TEXT, s, t);
      case Bool(b) => Cancel(Print(x), s, t);
      case Number(digits) => NumberPrefix(digits, y.digits, s, t);
      case Str(str) => QuotedPrefix(str, y.s, s, t);
      case Arr(items) =>
        Bracketed(LBRACKET, PrintItems(items), RBRACKET, s);
        Bracketed(LBRACKET, PrintItems(y.items), RBRACKET, t);
        Cancel([LBRACKET], PrintItems(items) + ([RBRACKET] + s), PrintItems(y.items) + ([RBRACKET] + t));
        ItemsPrefix(items, y.items, s, t);
      case Obj(fields) =>
        Bracketed(LBRACE, PrintFields(fields), RBRACE, s);
        Bracketed(LBRACE, PrintFields(y.fields), RBRACE, t);
        Cancel([LBRACE], PrintFields(fields) + ([RBRACE] + s), PrintFields(y.fields) + ([RBRACE] + t));
        FieldsPrefix(fields, y.fields, s, t);
    }
  }

  lemma SameShape(x: Json, y: Json)
    requires WellFormed(x) && WellFormed(y) && Print(x) != [] && Print(y) != [] && Print(x)[0] == Print(y)[0]
    ensures x.Null? <==> y.Null?
    ensures x.Number? <==> y.Number?
    ensures x.Str? <==> y.Str?
    ensures x.Arr? <==> y.Arr?
    ensures x.Obj? <==> y.Obj?
    ensures x.Bool? ==> x == y
  {
    PrintStarts(x);
    PrintStarts(y);
  }

  lemma Bracketed(open: Unit, body: Text, close: Unit, rest: Text)
    ensures ([open] + body + [close]) + rest == [open] + (body + ([close] + rest))
  {
  }

  lemma NothingThen(t: Text)
    ensures [] + t == t
  {
  }

  lemma Listed(first: Text, others: Text, rest: Text)
    ensures (first + [COMMA] + others) + rest == first + ([COMMA] + others + rest)
  {
  }

  lemma HeadAndTail<T>(xs: seq<T>, ys: seq<T>)
    requires xs != [] && ys != [] && xs[0] == ys[0]
    requires |xs| == 1 <==> |ys| == 1
    requires |xs| > 1 ==> xs[1..] == ys[1..]
    ensures xs == ys
  {
    assert |xs| > 1 ==> xs == [xs[0]] + xs[1..] && ys == [ys[0]] + ys[1..];
  }

  lemma Cancel(p: Text, s: Text, t: Text)
    requires p + s == p + t
    ensures s == t
  {
    assert s == (p + s)[|p|..] && t == (p + t)[|p|..];
  }

  /** What follows the first item of a list: the closing bracket, or a comma and the other items. */
  function ItemsTail(items: seq<Json>, s: Text): (t: Text)
    requires items != []
    ensures Delimited(t)
  {
    if |items| == 1 then [RBRACKET] + s else [COMMA] + PrintItems(items[1..]) + ([RBRACKET] + s)
  }

  lemma ItemsSplit(items: seq<Json>, s: Text)
    requires items != []
    ensures PrintItems(items) + ([RBRACKET] + s) == Print(items[0]) + ItemsTail(items, s)
  {
    if |items| > 1 {
      Listed(Print(items[0]), PrintItems(items[1..]), [RBRACKET] + s);
    }
  }

  lemma {:induction false} ItemsPrefix(xs: seq<Json>, ys: seq<Json>, s: Text, t: Text)
    requires forall i :: 0 <= i < |xs| ==> WellFormed(xs[i])
    requires forall i :: 0 <= i < |ys| ==> WellFormed(ys[i])
    requires PrintItems(xs) + ([RBRACKET] + s) == PrintItems(ys) + ([RBRACKET] + t)
    ensures xs == ys && s == t
    decreases xs, 0
  {
    if xs == [] || ys == [] {
      ItemsStart(xs, s);
      ItemsStart(ys, t);
      NothingThen([RBRACKET] + s);
      NothingThen([RBRACKET] + t);
      Cancel([RBRACKET], s, t);
    } else {
      ItemsSplit(xs, s);
      ItemsSplit(ys, t);
      PrintPrefix(xs[0], ys[0], ItemsTail(xs, s), ItemsTail(ys, t));
      ItemsTailPrefix(xs, ys, s, t);
      if |xs| > 1 {
        ItemsPrefix(xs[1..], ys[1..], s, t);
      }
      HeadAndTail(xs, ys);
    }
  }

  lemma ItemsTailPrefix(xs: seq<Json>, ys: seq<Json>, s: Text, t: Text)
    requires xs != [] && ys != [] && ItemsTail(xs, s) == ItemsTail(ys, t)
    ensures |xs| == 1 <==> |ys| == 1
    ensures |xs| == 1 ==> s == t
    ensures |xs| > 1 ==> PrintItems(xs[1..]) + ([RBRACKET] + s) == PrintItems(ys[1..]) + ([RBRACKET] + t)
  {
    assert |xs| == 1 <==> ItemsTail(xs, s)[0] == RBRACKET;
    assert |ys| == 1 <==> ItemsTail(ys, t)[0] == RBRACKET;
    if |xs| == 1 {
      Cancel([RBRACKET], s, t);
    } else {
      assert ItemsTail(xs, s) == [COMMA] + (PrintItems(xs[1..]) + ([RBRACKET] + s));
      assert ItemsTail(ys, t) == [COMMA] + (PrintItems(ys[1..]) + ([RBRACKET] + t));
      Cancel([COMMA], PrintItems(xs[1..]) + ([RBRACKET] + s), PrintItems(ys[1..]) + ([RBRACKET] + t));
    }
  }

  lemma ItemsStart(xs: seq<Json>, s: Text)
    requires forall i :: 0 <= i < |xs| ==> WellFormed(xs[i])
    ensures (PrintItems(xs) + ([RBRACKET] + s))[0] == RBRACKET <==> xs == []
  {
    if xs != [] {
      ItemsSplit(xs, s);
      PrintStarts(xs[0]);
    }
  }

  function FieldsTail(fields: seq<Field>, s: Text): (t: Text)
    requires fields != []
    ensures Delimited(t)
  {
    if |fields| == 1 then [RBRACE] + s else [COMMA] + PrintFields(fields[1..]) + ([RBRACE] + s)
  }

  lemma FieldThen(f: Field, rest: Text)
    ensures PrintField(f) + rest == Quoted(f.key) + ([COLON] + (Print(f.value) + rest))
  {
  }

  lemma FieldsSplit(fields: seq<Field>, s: Text)
    requires fields != []
    ensures PrintFields(fields) + ([RBRACE] + s)
         == Quoted(fields[0].key) + ([COLON] + (Print(fields[0].value) + FieldsTail(fields, s)))
  {
    FieldThen(fields[0], FieldsTail(fields, s));
    if |fields| > 1 {
      Listed(PrintField(fields[0]), PrintFields(fields[1..]), [RBRACE] + s);
    }
  }

  lemma {:induction false} FieldsPrefix(xs: seq<Field>, ys: seq<Field>, s: Text, t: Text)
    requires forall i :: 0 <= i < |xs| ==> WellFormed(xs[i].value)
    requires forall i :: 0 <= i < |ys| ==> WellFormed(ys[i].value)
    requires PrintFields(xs) + ([RBRACE] + s) == PrintFields(ys) + ([RBRACE] + t)
    ensures xs == ys && s == t
    decreases xs, 0
  {
    if xs == [] || ys == [] {
      FieldsStart(xs, s);
      FieldsStart(ys, t);
      NothingThen([RBRACE] + s);
      NothingThen([RBRACE] + t);
      Cancel([RBRACE], s, t);
    } else {
      FieldsSplit(xs, s);
      FieldsSplit(ys, t);
      var xr := Print(xs[0].value) + FieldsTail(xs, s);
      var yr := Print(ys[0].value) + FieldsTail(ys, t);
      QuotedPrefix(xs[0].key, ys[0].key, [COLON] + xr, [COLON] + yr);
      Cancel([COLON], xr, yr);
      PrintPrefix(xs[0].value, ys[0].value, FieldsTail(xs, s), FieldsTail(ys, t));
      FieldsTailPrefix(xs, ys, s, t);
      if |xs| > 1 {
        FieldsPrefix(xs[1..], ys[1..], s, t);
      }
      HeadAndTail(xs, ys);
    }
  }

  lemma FieldsTailPrefix(xs: seq<Field>, ys: seq<Field>, s: Text, t: Text)
    requires xs != [] && ys != [] && FieldsTail(xs, s) == FieldsTail(ys, t)
    ensures |xs| == 1 <==> |ys| == 1
    ensures |xs| == 1 ==> s == t
    ensures |xs| > 1 ==> PrintFields(xs[1..]) + ([RBRACE] + s) == PrintFields(ys[1..]) + ([RBRACE] + t)
  {
    assert |xs| == 1 <==> FieldsTail(xs, s)[0] == RBRACE;
    assert |ys| == 1 <==> FieldsTail(ys, t)[0] == RBRACE;
    if |xs| == 1 {
      Cancel([RBRACE], s, t);
    } else {
      assert FieldsTail(xs, s) == [COMMA] + (PrintFields(xs[1..]) + ([RBRACE] + s));
      assert FieldsTail(ys, t) == [COMMA] + (PrintFields(ys[1..]) + ([RBRACE] + t));
      Cancel([COMMA], PrintFields(xs[1..]) + ([RBRACE] + s), PrintFields(ys[1..]) + ([RBRACE] + t));
    }
  }

  lemma FieldsStart(xs: seq<Field>, s: Text)
    ensures (PrintFields(xs) + ([RBRACE] + s))[0] == RBRACE <==> xs == []
  {
    if xs != [] {
      FieldsSplit(xs, s);
    }
  }

  /** Distinct values print distinctly. */
  lemma PrintInjective(x: Json, y: Json)
    requires WellFormed(x) && WellFormed(y) && Print(x) == Print(y)
    ensures x == y
  {
    assert Print(x) + [] == Print(x) && Print(y) + [] == Print(y);
    PrintPrefix(x, y, [], []);
  }
}
