/** The repair of raw control characters inside JSON strings (src/domain/agent-loop.ts,
    `sanitizeJsonControlChars`): a two-flag automaton over UTF-16 units, and what it does to JSON. */
module JsonRepair {
  import opened JsonText

  const LF: Unit := 0x0a
  const CR: Unit := 0x0d
  const TAB: Unit := 0x09

  datatype Mode = Mode(inString: bool, escaped: bool)

  const OUTSIDE: Mode := Mode(false, false)

  predicate Control(u: Unit) {
    u == LF || u == CR || u == TAB
  }

  function ShortFor(u: Unit): Unit
    requires Control(u)
  {
    if u == LF then 0x6e else if u == CR then 0x72 else 0x74
  }

  function Advance(m: Mode, u: Unit): Mode {
    if m.escaped then m.(escaped := false)
    else if u == BACKSLASH then m.(escaped := true)
    else if u == QUOTE then m.(inString := !m.inString)
    else m
  }

  predicate Repaired(m: Mode, u: Unit) {
    m.inString && !m.escaped && Control(u)
  }

  function Emit(m: Mode, u: Unit): Text {
    if Repaired(m, u) then [BACKSLASH, ShortFor(u)] else [u]
  }

  function Sanitized(t: Text, m: Mode): Text {
    if t == [] then [] else Emit(m, t[0]) + Sanitized(t[1..], Advance(m, t[0]))
  }

  function ModeAfter(t: Text, m: Mode): Mode {
    if t == [] then m else ModeAfter(t[1..], Advance(m, t[0]))
  }

  /** The loop over the text with its two flags. */
  method Sanitize(t: Text) returns (result: Text)
    ensures result == Sanitized(t, OUTSIDE)
  {
    result := [];
    var inString, escaped := false, false;
    for i := 0 to |t|
      invariant Sanitized(t, OUTSIDE) == result + Sanitized(t[i..], Mode(inString, escaped))
    {
      var ch := t[i];
      ghost var m := Mode(inString, escaped);
      assert t[i..][1..] == t[i + 1..];
      assert result + (Emit(m, ch) + Sanitized(t[i + 1..], Advance(m, ch)))
          == (result + Emit(m, ch)) + Sanitized(t[i + 1..], Advance(m, ch));
      if escaped {
        result, escaped := result + [ch], false;
      } else if ch == BACKSLASH {
        result, escaped := result + [ch], true;
      } else if ch == QUOTE {
        inString, result := !inString, result + [ch];
      } else if inString && ch == LF {
        result := result + [BACKSLASH, 0x6e];
      } else if inString && ch == CR {
        result := result + [BACKSLASH, 0x72];
      } else if inString && ch == TAB {
        result := result + [BACKSLASH, 0x74];
      } else {
        result := result + [ch];
      }
    }
  }

  // ---- On any text at all

  /** No raw LF, CR or tab inside a string, except directly after a backslash. */
  predicate Settled(t: Text, m: Mode) {
    t == [] || (!Repaired(m, t[0]) && Settled(t[1..], Advance(m, t[0])))
  }

  lemma {:induction false} SanitizedConcat(x: Text, y: Text, m: Mode)
    ensures Sanitized(x + y, m) == Sanitized(x, m) + Sanitized(y, ModeAfter(x, m))
    ensures ModeAfter(x + y, m) == ModeAfter(y, ModeAfter(x, m))
  {
    if x == [] {
      assert x + y == y;
    } else {
      assert (x + y)[1..] == x[1..] + y;
      SanitizedConcat(x[1..], y, Advance(m, x[0]));
    }
  }

  /** A text is left unchanged exactly when it has nothing to repair. */
  lemma {:induction false} UnchangedExactly(t: Text, m: Mode)
    ensures Sanitized(t, m) == t <==> Settled(t, m)
    ensures |Sanitized(t, m)| >= |t|
  {
    if t != [] {
      UnchangedExactly(t[1..], Advance(m, t[0]));
      assert t == [t[0]] + t[1..];
      if Sanitized(t, m) == t {
        assert |Emit(m, t[0])| == 1;
        assert Sanitized(t, m)[1..] == Sanitized(t[1..], Advance(m, t[0]));
      }
    }
  }

  /** The output has nothing left to repair, and ends in the mode the input ends in. */
  lemma {:induction false} SanitizedSettles(t: Text, m: Mode)
    ensures Settled(Sanitized(t, m), m) && ModeAfter(Sanitized(t, m), m) == ModeAfter(t, m)
  {
    if t != [] {
      var rest, m' := Sanitized(t[1..], Advance(m, t[0])), Advance(m, t[0]);
      SanitizedSettles(t[1..], m');
      if Repaired(m, t[0]) {
        var out := [BACKSLASH, ShortFor(t[0])] + rest;
        assert out[1..] == [ShortFor(t[0])] + rest && out[1..][1..] == rest;
        assert Settled(out[1..], Advance(m, BACKSLASH));
        assert ModeAfter(out[1..], Advance(m, BACKSLASH)) == ModeAfter(rest, m');
      } else {
        assert ([t[0]] + rest)[1..] == rest;
      }
    }
  }

  lemma Idempotent(t: Text)
    ensures Sanitized(Sanitized(t, OUTSIDE), OUTSIDE) == Sanitized(t, OUTSIDE)
  {
    SanitizedSettles(t, OUTSIDE);
    UnchangedExactly(Sanitized(t, OUTSIDE), OUTSIDE);
  }

  /** What stands outside strings, with the quotes that bound them. */
  function Outline(t: Text, m: Mode): Text {
    if t == [] then []
    else (if m.inString && Advance(m, t[0]).inString then [] else [t[0]]) + Outline(t[1..], Advance(m, t[0]))
  }

  /** The string structure is the input's, unit for unit. */
  lemma {:induction false} StructureKept(t: Text, m: Mode)
    ensures Outline(Sanitized(t, m), m) == Outline(t, m)
  {
    if t != [] {
      StructureKept(t[1..], Advance(m, t[0]));
      EmitOutline(t[0], Sanitized(t[1..], Advance(m, t[0])), m);
    }
  }

  /** What one unit turns into leaves what the unit would leave. */
  lemma {:induction false} EmitOutline(u: Unit, rest: Text, m: Mode)
    ensures Outline(Emit(m, u) + rest, m) ==
              (if m.inString && Advance(m, u).inString then [] else [u]) + Outline(rest, Advance(m, u))
  {
    if Repaired(m, u) {
      var escape := Advance(m, BACKSLASH);
      assert Emit(m, u) + rest == [BACKSLASH] + ([ShortFor(u)] + rest);
      OutlineCons(BACKSLASH, [ShortFor(u)] + rest, m);
      OutlineCons(ShortFor(u), rest, escape);
      assert Advance(escape, ShortFor(u)) == Advance(m, u) == m;
    } else {
      OutlineCons(u, rest, m);
    }
  }

  lemma {:induction false} OutlineCons(u: Unit, rest: Text, m: Mode)
    ensures Outline([u] + rest, m) ==
              (if m.inString && Advance(m, u).inString then [] else [u]) + Outline(rest, Advance(m, u))
  {
    assert ([u] + rest)[1..] == rest;
  }

  // ---- On JSON: the grammar of RFC 8259, with raw LF, CR and tab let into strings

  /** One character of a string, as spelled: sections 7 and, for Raw, not in the RFC. */
  datatype Char = Plain(u: Unit) | Short(c: Unit) | Hex(digits: Text) | Raw(u: Unit)

  /** Scalars and gaps (whitespace) are any text without quotes and backslashes; that covers all literals,
      numbers and whitespace of sections 2, 3 and 6. */
  datatype Tree =
    | Scalar(text: Text)
    | String(chars: seq<Char>)
    | Array(gap: Text, items: seq<Item>)
    | Object(gap: Text, members: seq<Member>)
  datatype Item = Item(before: Text, value: Tree, after: Text)
  datatype Member = Member(before: Text, key: seq<Char>, afterKey: Text, item: Item)

  predicate Bare(t: Text) {
    forall i :: 0 <= i < |t| ==> t[i] != QUOTE && t[i] != BACKSLASH
  }

  predicate ShortUnit(c: Unit) {
    c == QUOTE || c == BACKSLASH || c == 0x2f || c == 0x62 || c == 0x66 || c == 0x6e || c == 0x72 || c == 0x74
  }

  predicate HexDigit(u: Unit) {
    HexDigitUnit(u) || 0x41 <= u <= 0x46
  }

  predicate CharOk(c: Char) {
    match c
    case Plain(u) => u >= 0x20 && u != QUOTE && u != BACKSLASH
    case Short(c) => ShortUnit(c)
    case Hex(digits) => |digits| == 4 && forall i :: 0 <= i < 4 ==> HexDigit(digits[i])
    case Raw(u) => Control(u)
  }

  predicate CharsOk(chars: seq<Char>) {
    forall i :: 0 <= i < |chars| ==> CharOk(chars[i])
  }

  predicate TreeOk(v: Tree)
    decreases v
  {
    match v
    case Scalar(text) => Bare(text)
    case String(chars) => CharsOk(chars)
    case Array(gap, items) => Bare(gap) && forall i :: 0 <= i < |items| ==> ItemOk(items[i])
    case Object(gap, members) => Bare(gap) && forall i :: 0 <= i < |members| ==> MemberOk(members[i])
  }

  predicate ItemOk(x: Item)
    decreases x
  {
    Bare(x.before) && TreeOk(x.value) && Bare(x.after)
  }

  predicate MemberOk(x: Member)
    decreases x
  {
    Bare(x.before) && CharsOk(x.key) && Bare(x.afterKey) && ItemOk(x.item)
  }

  function SpellChar(c: Char): Text {
    match c
    case Plain(u) => [u]
    case Short(c) => [BACKSLASH, c]
    case Hex(digits) => [BACKSLASH, 0x75] + digits
    case Raw(u) => [u]
  }

  function SpellChars(chars: seq<Char>): Text {
    if chars == [] then [] else SpellChar(chars[0]) + SpellChars(chars[1..])
  }

  function SpellString(chars: seq<Char>): Text {
    [QUOTE] + (SpellChars(chars) + [QUOTE])
  }

  function Spell(v: Tree): Text
    decreases v, 1
  {
    match v
    case Scalar(text) => text
    case String(chars) => SpellString(chars)
    case Array(gap, items) => [LBRACKET] + (gap + (SpellItems(items) + [RBRACKET]))
    case Object(gap, members) => [LBRACE] + (gap + (SpellMembers(members) + [RBRACE]))
  }

  function SpellItem(x: Item): Text
    decreases x, 0
  {
    x.before + (Spell(x.value) + x.after)
  }

  function SpellItems(items: seq<Item>): Text
    decreases items, 0
  {
    if items == [] then []
    else if |items| == 1 then SpellItem(items[0])
    else SpellItem(items[0]) + ([COMMA] + SpellItems(items[1..]))
  }

  function SpellMember(x: Member): Text
    decreases x, 0
  {
    x.before + (SpellString(x.key) + (x.afterKey + ([COLON] + SpellItem(x.item))))
  }

  function SpellMembers(members: seq<Member>): Text
    decreases members, 0
  {
    if members == [] then []
    else if |members| == 1 then SpellMember(members[0])
    else SpellMember(members[0]) + ([COMMA] + SpellMembers(members[1..]))
  }

  // ---- Meaning, and the strict tree

  datatype Value = Atom(text: Text) | Words(s: seq<int>) | Many(items: seq<Value>) | Named(fields: seq<(seq<int>, Value)>)

  function HexNibble(u: Unit): int {
    if u <= 0x39 then u - 0x30 else if u <= 0x46 then u - 0x41 + 10 else u - 0x61 + 10
  }

  function CharValue(c: Char): int {
    match c
    case Plain(u) => u
    case Short(c) =>
      if c == 0x62 then 0x08 else if c == 0x66 then 0x0c else if c == 0x6e then LF else if c == 0x72 then CR
      else if c == 0x74 then TAB else c
    case Hex(d) => if |d| == 4 then HexNibble(d[0]) * 0x1000 + HexNibble(d[1]) * 0x100 + HexNibble(d[2]) * 16 + HexNibble(d[3]) else 0
    case Raw(u) => u
  }

  function CharsValue(chars: seq<Char>): seq<int> {
    seq(|chars|, i requires 0 <= i < |chars| => CharValue(chars[i]))
  }

  function Meaning(v: Tree): Value
    decreases v
  {
    match v
    case Scalar(text) => Atom(text)
    case String(chars) => Words(CharsValue(chars))
    case Array(_, items) => Many(seq(|items|, i requires 0 <= i < |items| => Meaning(items[i].value)))
    case Object(_, members) =>
      Named(seq(|members|, i requires 0 <= i < |members| => (CharsValue(members[i].key), Meaning(members[i].item.value))))
  }

  function FixChar(c: Char): Char {
    if c.Raw? && Control(c.u) then Short(ShortFor(c.u)) else c
  }

  function FixChars(chars: seq<Char>): (r: seq<Char>)
    ensures |r| == |chars| && forall i :: 0 <= i < |chars| ==> r[i] == FixChar(chars[i])
  {
    seq(|chars|, i requires 0 <= i < |chars| => FixChar(chars[i]))
  }

  /** The same tree with every raw control spelled as its escape. */
  function Fix(v: Tree): Tree
    decreases v, 1
  {
    match v
    case Scalar(_) => v
    case String(chars) => String(FixChars(chars))
    case Array(gap, items) => Array(gap, seq(|items|, i requires 0 <= i < |items| => FixItem(items[i])))
    case Object(gap, members) => Object(gap, seq(|members|, i requires 0 <= i < |members| => FixMember(members[i])))
  }

  function FixItem(x: Item): Item
    decreases x, 0
  {
    Item(x.before, Fix(x.value), x.after)
  }

  function FixMember(x: Member): Member
    decreases x, 0
  {
    Member(x.before, FixChars(x.key), x.afterKey, FixItem(x.item))
  }

  predicate StrictChars(chars: seq<Char>) {
    forall i :: 0 <= i < |chars| ==> !chars[i].Raw?
  }

  /** Valid under RFC 8259. */
  predicate Strict(v: Tree)
    decreases v
  {
    match v
    case Scalar(_) => true
    case String(chars) => StrictChars(chars)
    case Array(_, items) => forall i :: 0 <= i < |items| ==> Strict(items[i].value)
    case Object(_, members) =>
      forall i :: 0 <= i < |members| ==> StrictChars(members[i].key) && Strict(members[i].item.value)
  }

  predicate Fixed(v: Tree) {
    TreeOk(Fix(v)) && Strict(Fix(v)) && Meaning(Fix(v)) == Meaning(v) && (Strict(v) ==> Fix(v) == v)
  }

  lemma CharsFixed(chars: seq<Char>)
    requires CharsOk(chars)
    ensures CharsOk(FixChars(chars)) && StrictChars(FixChars(chars)) && CharsValue(FixChars(chars)) == CharsValue(chars)
    ensures StrictChars(chars) ==> FixChars(chars) == chars
  {
  }

  /** The strict tree is valid, means the same, and is the tree itself when that was valid. */
  lemma {:induction false} FixIsStrict(v: Tree)
    requires TreeOk(v)
    ensures Fixed(v)
    decreases v
  {
    match v
    case Scalar(_) =>
    case String(chars) => CharsFixed(chars);
    case Array(gap, items) =>
      forall i | 0 <= i < |items| ensures Fixed(items[i].value) {
        assert ItemOk(items[i]);
        FixIsStrict(items[i].value);
      }
      ArrayFixed(gap, items);
    case Object(gap, members) =>
      forall i | 0 <= i < |members| ensures Fixed(members[i].item.value) {
        assert MemberOk(members[i]) && ItemOk(members[i].item);
        FixIsStrict(members[i].item.value);
      }
      ObjectFixed(gap, members);
  }

  lemma ArrayFixed(gap: Text, items: seq<Item>)
    requires TreeOk(Array(gap, items)) && forall i :: 0 <= i < |items| ==> Fixed(items[i].value)
    ensures Fixed(Array(gap, items))
  {
    var v := Array(gap, items);
    forall i | 0 <= i < |items|
      ensures ItemOk(FixItem(items[i])) && (Strict(items[i].value) ==> FixItem(items[i]) == items[i])
    {
      assert ItemOk(items[i]) && Fixed(items[i].value);
    }
    assert Strict(v) ==> Fix(v).items == items;
    assert Meaning(Fix(v)).items == Meaning(v).items;
  }

  lemma ObjectFixed(gap: Text, members: seq<Member>)
    requires TreeOk(Object(gap, members)) && forall i :: 0 <= i < |members| ==> Fixed(members[i].item.value)
    ensures Fixed(Object(gap, members))
  {
    var v := Object(gap, members);
    forall i | 0 <= i < |members| ensures MemberFixed(members[i]) {
      assert MemberOk(members[i]) && Fixed(members[i].item.value);
      MemberIsFixed(members[i]);
    }
    forall i | 0 <= i < |members| ensures MemberOk(Fix(v).members[i]) && Meaning(Fix(v)).fields[i] == Meaning(v).fields[i] {
      assert MemberFixed(members[i]) && Fix(v).members[i] == FixMember(members[i]);
    }
    assert Strict(Fix(v)) by {
      assert forall i :: 0 <= i < |members| ==> MemberFixed(members[i]);
    }
    if Strict(v) {
      assert forall i :: 0 <= i < |members| ==> MemberFixed(members[i]);
      assert Fix(v).members == members;
    }
    assert Meaning(Fix(v)).fields == Meaning(v).fields;
  }

  predicate MemberFixed(x: Member) {
    var y := FixMember(x);
    && MemberOk(y) && StrictChars(y.key) && Strict(y.item.value)
    && CharsValue(y.key) == CharsValue(x.key) && Meaning(y.item.value) == Meaning(x.item.value)
    && (StrictChars(x.key) && Strict(x.item.value) ==> y == x)
  }

  lemma MemberIsFixed(x: Member)
    requires MemberOk(x) && Fixed(x.item.value)
    ensures MemberFixed(x)
  {
    CharsFixed(x.key);
    assert ItemOk(x.item) && ItemOk(FixItem(x.item));
  }

  // ---- The automaton spells the strict tree

  /** Read from outside strings, `x` is rewritten to `y` and ends outside strings. */
  predicate Turns(x: Text, y: Text) {
    Sanitized(x, OUTSIDE) == y && ModeAfter(x, OUTSIDE) == OUTSIDE
  }

  lemma TurnsConcat(a: Text, b: Text, x: Text, y: Text)
    requires Turns(a, b) && Turns(x, y)
    ensures Turns(a + x, b + y)
  {
    SanitizedConcat(a, x, OUTSIDE);
  }

  lemma {:induction false} BareTurns(t: Text)
    requires Bare(t)
    ensures Turns(t, t)
  {
    if t != [] {
      assert t == [t[0]] + t[1..];
      BareTurns(t[1..]);
    }
  }

  lemma {:induction false} CharTurns(c: Char)
    requires CharOk(c)
    ensures Sanitized(SpellChar(c), Mode(true, false)) == SpellChar(FixChar(c))
    ensures ModeAfter(SpellChar(c), Mode(true, false)) == Mode(true, false)
  {
    var m := Mode(true, false);
    match c
    case Plain(u) => SanitizedOne(u, m);
    case Raw(u) => SanitizedOne(u, m);
    case Short(s) => SanitizedTwo(BACKSLASH, s, m);
    case Hex(d) =>
      SanitizedTwo(BACKSLASH, 0x75, m);
      DigitsTurn(d);
      SanitizedConcat([BACKSLASH, 0x75], d, m);
  }

  lemma {:induction false} DigitsTurn(d: Text)
    requires CharOk(Hex(d))
    ensures Sanitized(d, Mode(true, false)) == d && ModeAfter(d, Mode(true, false)) == Mode(true, false)
  {
    var m := Mode(true, false);
    SanitizedTwo(d[0], d[1], m);
    SanitizedTwo(d[2], d[3], m);
    SanitizedConcat([d[0], d[1]], [d[2], d[3]], m);
    assert d == [d[0], d[1]] + [d[2], d[3]];
  }

  lemma SanitizedOne(u: Unit, m: Mode)
    ensures Sanitized([u], m) == Emit(m, u) && ModeAfter([u], m) == Advance(m, u)
  {
    assert [u][1..] == [];
  }

  lemma SanitizedTwo(u: Unit, w: Unit, m: Mode)
    ensures Sanitized([u, w], m) == Emit(m, u) + Emit(Advance(m, u), w)
    ensures ModeAfter([u, w], m) == Advance(Advance(m, u), w)
  {
    assert [u, w][1..] == [w];
    SanitizedOne(w, Advance(m, u));
  }

  lemma {:induction false} CharsTurn(chars: seq<Char>)
    requires CharsOk(chars)
    ensures Sanitized(SpellChars(chars), Mode(true, false)) == SpellChars(FixChars(chars))
    ensures ModeAfter(SpellChars(chars), Mode(true, false)) == Mode(true, false)
  {
    if chars != [] {
      CharTurns(chars[0]);
      CharsTurn(chars[1..]);
      SanitizedConcat(SpellChar(chars[0]), SpellChars(chars[1..]), Mode(true, false));
      assert FixChars(chars)[1..] == FixChars(chars[1..]);
    }
  }

  lemma StringTurns(chars: seq<Char>)
    requires CharsOk(chars)
    ensures Turns(SpellString(chars), SpellString(FixChars(chars)))
  {
    var body, m := SpellChars(chars), Mode(true, false);
    CharsTurn(chars);
    SanitizedOne(QUOTE, OUTSIDE);
    SanitizedOne(QUOTE, m);
    SanitizedConcat(body, [QUOTE], m);
    SanitizedConcat([QUOTE], body + [QUOTE], OUTSIDE);
  }

  lemma OneTurns(u: Unit)
    requires u != QUOTE && u != BACKSLASH
    ensures Turns([u], [u])
  {
    BareTurns([u]);
  }

  lemma ItemTurns(x: Item)
    requires ItemOk(x)
    ensures Turns(SpellItem(x), SpellItem(FixItem(x)))
    decreases x, 1
  {
    BareTurns(x.before);
    BareTurns(x.after);
    TreeTurns(x.value);
    TurnsConcat(Spell(x.value), Spell(Fix(x.value)), x.after, x.after);
    TurnsConcat(x.before, x.before, Spell(x.value) + x.after, Spell(Fix(x.value)) + x.after);
  }

  lemma {:induction false} ItemsTurn(items: seq<Item>, fixed: seq<Item>)
    requires |fixed| == |items| && forall i :: 0 <= i < |items| ==> ItemOk(items[i]) && fixed[i] == FixItem(items[i])
    ensures Turns(SpellItems(items), SpellItems(fixed))
    decreases items, 1
  {
    if |items| > 0 {
      ItemTurns(items[0]);
    }
    if |items| > 1 {
      ItemsTurn(items[1..], fixed[1..]);
      OneTurns(COMMA);
      TurnsConcat([COMMA], [COMMA], SpellItems(items[1..]), SpellItems(fixed[1..]));
      TurnsConcat(SpellItem(items[0]), SpellItem(fixed[0]), [COMMA] + SpellItems(items[1..]), [COMMA] + SpellItems(fixed[1..]));
    }
  }

  lemma MemberTurns(x: Member)
    requires MemberOk(x)
    ensures Turns(SpellMember(x), SpellMember(FixMember(x)))
    decreases x, 1
  {
    var y := FixMember(x);
    var tail, tail' := [COLON] + SpellItem(x.item), [COLON] + SpellItem(y.item);
    ItemTurns(x.item);
    OneTurns(COLON);
    TurnsConcat([COLON], [COLON], SpellItem(x.item), SpellItem(y.item));
    BareTurns(x.afterKey);
    TurnsConcat(x.afterKey, x.afterKey, tail, tail');
    StringTurns(x.key);
    TurnsConcat(SpellString(x.key), SpellString(y.key), x.afterKey + tail, x.afterKey + tail');
    BareTurns(x.before);
    TurnsConcat(x.before, x.before, SpellString(x.key) + (x.afterKey + tail), SpellString(y.key) + (x.afterKey + tail'));
  }

  lemma {:induction false} MembersTurn(members: seq<Member>, fixed: seq<Member>)
    requires |fixed| == |members| && forall i :: 0 <= i < |members| ==> MemberOk(members[i]) && fixed[i] == FixMember(members[i])
    ensures Turns(SpellMembers(members), SpellMembers(fixed))
    decreases members, 1
  {
    if |members| > 0 {
      MemberTurns(members[0]);
    }
    if |members| > 1 {
      MembersTurn(members[1..], fixed[1..]);
      OneTurns(COMMA);
      TurnsConcat([COMMA], [COMMA], SpellMembers(members[1..]), SpellMembers(fixed[1..]));
      TurnsConcat(SpellMember(members[0]), SpellMember(fixed[0]),
                  [COMMA] + SpellMembers(members[1..]), [COMMA] + SpellMembers(fixed[1..]));
    }
  }

  lemma BracketTurns(open: Unit, gap: Text, body: Text, fixed: Text, close: Unit)
    requires Bare([open]) && Bare(gap) && Bare([close]) && Turns(body, fixed)
    ensures Turns([open] + (gap + (body + [close])), [open] + (gap + (fixed + [close])))
  {
    BareTurns([open]);
    BareTurns(gap);
    BareTurns([close]);
    TurnsConcat(body, fixed, [close], [close]);
    TurnsConcat(gap, gap, body + [close], fixed + [close]);
    TurnsConcat([open], [open], gap + (body + [close]), gap + (fixed + [close]));
  }

  /** The main result: on every JSON text whose strings may hold raw LF, CR and tab, the repair spells the
      strict tree, which is valid and means the same (`FixIsStrict`). */
  lemma TreeTurns(v: Tree)
    requires TreeOk(v)
    ensures Turns(Spell(v), Spell(Fix(v)))
    decreases v, 2
  {
    match v
    case Scalar(text) => BareTurns(text);
    case String(chars) => StringTurns(chars);
    case Array(gap, items) =>
      ItemsTurn(items, Fix(v).items);
      BracketTurns(LBRACKET, gap, SpellItems(items), SpellItems(Fix(v).items), RBRACKET);
    case Object(gap, members) =>
      MembersTurn(members, Fix(v).members);
      BracketTurns(LBRACE, gap, SpellMembers(members), SpellMembers(Fix(v).members), RBRACE);
  }

  /** Valid JSON, with whitespace around it, is left unchanged. */
  lemma ValidUnchanged(x: Item)
    requires ItemOk(x) && Strict(x.value)
    ensures Sanitized(SpellItem(x), OUTSIDE) == SpellItem(x)
  {
    ItemTurns(x);
    FixIsStrict(x.value);
  }
}
