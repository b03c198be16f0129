/** `canonicalDispatch`: rebuild every object by assigning its keys in sorted order, then print.
    A JavaScript object does not list its keys in assignment order: array indices come first, by value,
    and assigning `__proto__` creates no own key. This module says exactly when that matters. */
module DispatchText {
  import opened JsonText
  import opened CanonicalJson

  const PROTO: Text := [0x5f, 0x5f, 0x70, 0x72, 0x6f, 0x74, 0x6f, 0x5f, 0x5f]
  const SIGNATURE: Text := [0x73, 0x69, 0x67, 0x6e, 0x61, 0x74, 0x75, 0x72, 0x65]
  const MAX_INDEX: nat := 4294967294

  predicate Digit(u: Unit) { 0x30 <= u <= 0x39 }

  function Decimal(k: Text): (n: int) {
    if k == [] then 0 else Decimal(k[..|k| - 1]) * 10 + (k[|k| - 1] as int - 0x30)
  }

  /** The canonical numeric text of an array index. */
  predicate IsIndex(k: Text) {
    && k != [] && (forall i :: 0 <= i < |k| ==> Digit(k[i]))
    && (k[0] == 0x30 ==> |k| == 1)
    && 0 <= Decimal(k) <= MAX_INDEX
  }

  /** Whether an own key `x` is listed before an own key `y` that was created after it. */
  predicate ListedBefore(x: Text, y: Text) {
    IsIndex(y) ==> IsIndex(x) && Decimal(x) < Decimal(y)
  }

  /** `obj[f.key] = f.value` on an object created by `{}`. */
  function Assign(obj: seq<Field>, f: Field): seq<Field> {
    if f.key == PROTO then obj
    else if IndexOf(obj, f.key) >= 0 then obj[IndexOf(obj, f.key) := f]
    else PlaceNew(obj, f)
  }

  function PlaceNew(obj: seq<Field>, f: Field): (r: seq<Field>)
    ensures forall g :: g in r <==> g == f || g in obj
    ensures |r| == |obj| + 1
  {
    if obj == [] then [f]
    else if ListedBefore(obj[0].key, f.key) then
      assert forall g :: g in obj <==> g == obj[0] || g in obj[1..];
      [obj[0]] + PlaceNew(obj[1..], f)
    else [f] + obj
  }

  function AssignAll(fields: seq<Field>): seq<Field> {
    if fields == [] then [] else Assign(AssignAll(fields[..|fields| - 1]), fields[|fields| - 1])
  }

  function DeepSort(v: Json): Json
    decreases v, 1
  {
    match v
    case Arr(items) => Arr(DeepItems(items))
    case Obj(fields) => Obj(AssignAll(SortFields(DeepFields(fields))))
    case _ => v
  }

  function DeepItems(items: seq<Json>): (r: seq<Json>)
    ensures |r| == |items| && forall i :: 0 <= i < |items| ==> r[i] == DeepSort(items[i])
    decreases items, 0
  {
    if items == [] then [] else [DeepSort(items[0])] + DeepItems(items[1..])
  }

  function DeepField(f: Field): Field
    decreases f, 0
  {
    Field(f.key, DeepSort(f.value))
  }

  function DeepFields(fields: seq<Field>): (r: seq<Field>)
    ensures |r| == |fields| && forall i :: 0 <= i < |fields| ==> r[i] == DeepField(fields[i])
    decreases fields, 0
  {
    if fields == [] then [] else [DeepField(fields[0])] + DeepFields(fields[1..])
  }

  /** Every own field but the signature, in deterministic order. */
  function CanonicalDispatch(dispatch: seq<Field>): Text {
    Print(DeepSort(Obj(Unsigned(dispatch))))
  }

  function Unsigned(fields: seq<Field>): (r: seq<Field>)
    ensures forall f :: f in r <==> f in fields && f.key != SIGNATURE
  {
    if fields == [] then []
    else if fields[0].key == SIGNATURE then Unsigned(fields[1..])
    else [fields[0]] + Unsigned(fields[1..])
  }

  // ---- The order in which a JavaScript object lists its keys

  predicate Listed(obj: seq<Field>) {
    && (forall i :: 0 <= i < |obj| ==> obj[i].key != PROTO)
    && (forall i, j :: 0 <= i < j < |obj| ==> ListedBefore(obj[i].key, obj[j].key))
  }

  lemma ListedBeforeTransitive(x: Text, y: Text, z: Text)
    requires ListedBefore(x, y) && ListedBefore(y, z)
    ensures ListedBefore(x, z)
  {
  }

  lemma ListedTotal(x: Text, y: Text)
    requires x != y
    ensures ListedBefore(x, y) || ListedBefore(y, x)
  {
    if IsIndex(x) && IsIndex(y) && Decimal(x) == Decimal(y) {
      IndexTextUnique(x, y);
    }
  }

  lemma ListedCons(f: Field, rest: seq<Field>)
    requires Listed(rest) && f.key != PROTO && forall g :: g in rest ==> ListedBefore(f.key, g.key)
    ensures Listed([f] + rest)
  {
    var r := [f] + rest;
    forall i, j | 0 <= i < j < |r| ensures ListedBefore(r[i].key, r[j].key) {
      assert r[j] == rest[j - 1] && rest[j - 1] in rest;
      assert i > 0 ==> r[i] == rest[i - 1];
    }
  }

  lemma ListedTail(obj: seq<Field>)
    requires Listed(obj) && obj != []
    ensures Listed(obj[1..]) && forall g :: g in obj[1..] ==> g in obj && ListedBefore(obj[0].key, g.key)
  {
    forall g | g in obj[1..] ensures g in obj && ListedBefore(obj[0].key, g.key) {
      var k :| 0 <= k < |obj[1..]| && obj[1..][k] == g;
      assert obj[k + 1] == g;
    }
  }

  lemma {:induction false} PlaceNewListed(obj: seq<Field>, f: Field)
    requires Listed(obj) && f.key != PROTO && forall g :: g in obj ==> g.key != f.key
    ensures Listed(PlaceNew(obj, f))
  {
    if obj == [] {
    } else {
      ListedTail(obj);
      assert obj[0] in obj;
      if ListedBefore(obj[0].key, f.key) {
        PlaceNewListed(obj[1..], f);
        ListedCons(obj[0], PlaceNew(obj[1..], f));
      } else {
        ListedTotal(f.key, obj[0].key);
        forall g | g in obj ensures ListedBefore(f.key, g.key) {
          if g != obj[0] {
            assert obj == [obj[0]] + obj[1..];
            ListedBeforeTransitive(f.key, obj[0].key, g.key);
          }
        }
        ListedCons(f, obj);
      }
    }
  }

  lemma {:induction false} DecimalInjective(x: Text, y: Text)
    requires |x| == |y| && (forall i :: 0 <= i < |x| ==> Digit(x[i])) && (forall i :: 0 <= i < |y| ==> Digit(y[i]))
    requires Decimal(x) == Decimal(y)
    ensures x == y
  {
    if x != [] {
      var n := |x| - 1;
      DecimalInjective(x[..n], y[..n]);
      assert x == x[..n] + [x[n]] && y == y[..n] + [y[n]];
    }
  }

  function Pow10(k: nat): nat {
    if k == 0 then 1 else 10 * Pow10(k - 1)
  }

  lemma {:induction false} DecimalRange(x: Text)
    requires x != [] && (forall i :: 0 <= i < |x| ==> Digit(x[i])) && x[0] != 0x30
    ensures Pow10(|x| - 1) <= Decimal(x) < Pow10(|x|)
  {
    var n := |x| - 1;
    if n == 0 {
      assert Decimal(x[..0]) == 0;
    } else {
      DecimalRange(x[..n]);
    }
  }

  lemma Pow10Grows(m: nat, n: nat)
    requires m <= n
    ensures 1 <= Pow10(m) <= Pow10(n)
  {
    if m < n {
      Pow10Grows(m, n - 1);
    } else if n > 0 {
      Pow10Grows(m - 1, n - 1);
    }
  }

  lemma ShorterIsSmaller(x: Text, y: Text)
    requires IsIndex(x) && IsIndex(y) && x[0] != 0x30 && y[0] != 0x30 && |x| < |y|
    ensures Decimal(x) < Decimal(y)
  {
    DecimalRange(x);
    DecimalRange(y);
    Pow10Grows(|x|, |y| - 1);
  }

  /** An index has one canonical text. */
  lemma IndexTextUnique(x: Text, y: Text)
    requires IsIndex(x) && IsIndex(y) && Decimal(x) == Decimal(y)
    ensures x == y
  {
    ZeroText(x);
    ZeroText(y);
    if x[0] != 0x30 {
      if |x| < |y| {
        ShorterIsSmaller(x, y);
      } else if |y| < |x| {
        ShorterIsSmaller(y, x);
      }
    }
    DecimalInjective(x, y);
  }

  lemma ZeroText(x: Text)
    requires IsIndex(x)
    ensures x[0] == 0x30 <==> Decimal(x) == 0
    ensures Decimal(x) == 0 ==> |x| == 1
  {
    if x[0] == 0x30 {
      assert Decimal(x[..0]) == 0;
    } else {
      DecimalRange(x);
      Pow10Grows(0, |x| - 1);
    }
  }

  lemma {:induction false} AssignAllListed(fields: seq<Field>)
    ensures Listed(AssignAll(fields)) && DistinctKeys(AssignAll(fields))
    ensures forall f :: f in AssignAll(fields) ==> f in fields
  {
    if fields != [] {
      var n := |fields| - 1;
      var obj, f := AssignAll(fields[..n]), fields[n];
      AssignAllListed(fields[..n]);
      assert fields == fields[..n] + [f];
      if f.key != PROTO && IndexOf(obj, f.key) < 0 {
        PlaceNewListed(obj, f);
        PlaceNewDistinct(obj, f);
      } else if f.key != PROTO {
        var r := Assign(obj, f);
        assert |r| == |obj| && forall i :: 0 <= i < |obj| ==> r[i].key == obj[i].key;
        assert forall g :: g in r ==> g == f || g in obj;
      }
    }
  }

  lemma {:induction false} PlaceNewDistinct(obj: seq<Field>, f: Field)
    requires DistinctKeys(obj) && forall g :: g in obj ==> g.key != f.key
    ensures DistinctKeys(PlaceNew(obj, f))
  {
    var r := PlaceNew(obj, f);
    if obj != [] && ListedBefore(obj[0].key, f.key) {
      var rest := PlaceNew(obj[1..], f);
      PlaceNewDistinct(obj[1..], f);
      forall j | 0 < j < |r| ensures r[0].key != r[j].key {
        assert r[j] == rest[j - 1] && rest[j - 1] in rest;
        if r[j] != f {
          var k :| 0 <= k < |obj[1..]| && obj[1..][k] == r[j];
          assert obj[k + 1] == r[j];
        }
      }
      assert forall i :: 0 < i < |r| ==> r[i] == rest[i - 1];
    } else {
      assert forall i :: 0 < i < |r| ==> r[i] == obj[i - 1] && obj[i - 1] in obj;
    }
  }

  /** Assigning fields that already stand in listing order keeps them where they stand. */
  lemma {:induction false} AssignAllInOrder(fields: seq<Field>)
    requires Listed(fields) && DistinctKeys(fields)
    ensures AssignAll(fields) == fields
  {
    if fields != [] {
      var n := |fields| - 1;
      var front := fields[..n];
      FrontInOrder(fields, n);
      AssignAllInOrder(front);
      AssignLast(front, fields[n]);
      assert fields == front + [fields[n]];
    }
  }

  lemma AssignLast(obj: seq<Field>, f: Field)
    requires f.key != PROTO && IndexOf(obj, f.key) < 0
    requires forall i :: 0 <= i < |obj| ==> ListedBefore(obj[i].key, f.key)
    ensures Assign(obj, f) == obj + [f]
  {
    PlaceNewLast(obj, f);
  }

  lemma FrontInOrder(fields: seq<Field>, n: nat)
    requires Listed(fields) && DistinctKeys(fields) && n < |fields|
    ensures Listed(fields[..n]) && DistinctKeys(fields[..n])
    ensures IndexOf(fields[..n], fields[n].key) < 0
    ensures forall i :: 0 <= i < n ==> ListedBefore(fields[..n][i].key, fields[n].key)
  {
  }

  lemma {:induction false} PlaceNewLast(obj: seq<Field>, f: Field)
    requires forall i :: 0 <= i < |obj| ==> ListedBefore(obj[i].key, f.key)
    ensures PlaceNew(obj, f) == obj + [f]
  {
    if obj != [] {
      PlaceNewLast(obj[1..], f);
      assert obj == [obj[0]] + obj[1..];
    }
  }

  // ---- When the two canonical printers agree

  /** Sorted order and listing order agree on every object of `v`, and no key is `__proto__`. */
  predicate OrderKept(v: Json)
    decreases v
  {
    match v
    case Arr(items) => forall i :: 0 <= i < |items| ==> OrderKept(items[i])
    case Obj(fields) =>
      && KeysKept(fields)
      && forall i :: 0 <= i < |fields| ==> OrderKept(fields[i].value)
    case _ => true
  }

  predicate KeysKept(fields: seq<Field>) {
    && (forall i :: 0 <= i < |fields| ==> fields[i].key != PROTO)
    && (forall i, j :: 0 <= i < |fields| && 0 <= j < |fields| && Less(fields[i].key, fields[j].key) ==>
          ListedBefore(fields[i].key, fields[j].key))
  }

  /** The keys people write: none is `__proto__` and none is an array index. */
  predicate Ordinary(v: Json)
    decreases v
  {
    match v
    case Arr(items) => forall i :: 0 <= i < |items| ==> Ordinary(items[i])
    case Obj(fields) =>
      && (forall i :: 0 <= i < |fields| ==> fields[i].key != PROTO && !IsIndex(fields[i].key))
      && forall i :: 0 <= i < |fields| ==> Ordinary(fields[i].value)
    case _ => true
  }

  lemma {:induction false} OrdinaryKeepsOrder(v: Json)
    requires Ordinary(v)
    ensures OrderKept(v)
  {
    match v
    case Arr(items) =>
      forall i | 0 <= i < |items| ensures OrderKept(items[i]) {
        OrdinaryKeepsOrder(items[i]);
      }
    case Obj(fields) =>
      forall i | 0 <= i < |fields| ensures OrderKept(fields[i].value) {
        OrdinaryKeepsOrder(fields[i].value);
      }
    case _ =>
  }

  lemma {:induction false} KeptIsCanon(v: Json)
    requires WellFormed(v) && OrderKept(v)
    ensures DeepSort(v) == Canon(v)
  {
    match v
    case Arr(items) =>
      forall i | 0 <= i < |items| ensures DeepItems(items)[i] == CanonItems(items)[i] {
        KeptIsCanon(items[i]);
      }
      assert DeepItems(items) == CanonItems(items);
    case Obj(fields) =>
      forall i | 0 <= i < |fields| ensures DeepFields(fields)[i] == CanonFields(fields)[i] {
        KeptIsCanon(fields[i].value);
      }
      assert DeepFields(fields) == CanonFields(fields);
      SortedListed(fields);
      AssignAllInOrder(SortFields(CanonFields(fields)));
    case _ =>
  }

  lemma SortedListed(fields: seq<Field>)
    requires DistinctKeys(fields)
    ensures DistinctKeys(SortFields(CanonFields(fields)))
    ensures Listed(SortFields(CanonFields(fields))) <==> KeysKept(fields)
  {
    var sorted := SortFields(CanonFields(fields));
    CanonObjectAscending(fields);
    forall i, j | 0 <= i < j < |sorted| ensures sorted[i].key != sorted[j].key {
      LessAsymmetric(sorted[i].key, sorted[j].key);
    }
    if KeysKept(fields) {
      KeptIsListed(fields, sorted);
    }
    if Listed(sorted) {
      ListedIsKept(fields, sorted);
    }
  }

  lemma KeptIsListed(fields: seq<Field>, sorted: seq<Field>)
    requires sorted == SortFields(CanonFields(fields)) && Ascending(sorted) && KeysKept(fields)
    ensures Listed(sorted)
  {
    forall i | 0 <= i < |sorted| ensures exists k :: 0 <= k < |fields| && fields[k].key == sorted[i].key {
      assert sorted[i] in CanonFields(fields);
      var k := PositionOf(CanonFields(fields), sorted[i]);
    }
  }

  lemma ListedIsKept(fields: seq<Field>, sorted: seq<Field>)
    requires sorted == SortFields(CanonFields(fields)) && Ascending(sorted) && Listed(sorted)
    ensures KeysKept(fields)
  {
    var c := CanonFields(fields);
    forall i | 0 <= i < |fields| ensures fields[i].key != PROTO {
      var p := PositionOf(sorted, c[i]);
    }
    forall i, j | 0 <= i < |fields| && 0 <= j < |fields| && Less(fields[i].key, fields[j].key)
      ensures ListedBefore(fields[i].key, fields[j].key)
    {
      var p := PositionOf(sorted, c[i]);
      var q := PositionOf(sorted, c[j]);
      LessAsymmetric(fields[i].key, fields[j].key);
    }
  }

  lemma PositionOf(sorted: seq<Field>, f: Field) returns (p: nat)
    requires f in sorted
    ensures p < |sorted| && sorted[p] == f
  {
    p :| 0 <= p < |sorted| && sorted[p] == f;
  }

  lemma {:induction false} CanonMeansKept(v: Json)
    requires WellFormed(v) && DeepSort(v) == Canon(v)
    ensures OrderKept(v)
  {
    match v
    case Arr(items) =>
      forall i | 0 <= i < |items| ensures OrderKept(items[i]) {
        assert DeepItems(items)[i] == CanonItems(items)[i];
        CanonMeansKept(items[i]);
      }
    case Obj(fields) =>
      var d := DeepFields(fields);
      var sorted := SortFields(CanonFields(fields));
      AssignAllListed(SortFields(d));
      SortedListed(fields);
      forall i | 0 <= i < |fields| ensures OrderKept(fields[i].value) {
        assert CanonFields(fields)[i] in sorted;
        assert CanonFields(fields)[i] in d;
        var k := PositionOf(d, CanonFields(fields)[i]);
        assert k == i;
        CanonMeansKept(fields[i].value);
      }
    case _ =>
  }

  lemma {:induction false} DeepSortWellFormed(v: Json)
    requires WellFormed(v)
    ensures WellFormed(DeepSort(v))
  {
    match v
    case Arr(items) =>
      forall i | 0 <= i < |items| ensures WellFormed(DeepItems(items)[i]) {
        DeepSortWellFormed(items[i]);
      }
    case Obj(fields) =>
      var d := DeepFields(fields);
      var obj := AssignAll(SortFields(d));
      AssignAllListed(SortFields(d));
      forall i | 0 <= i < |obj| ensures WellFormed(obj[i].value) {
        assert obj[i] in obj;
        var k := PositionOf(d, obj[i]);
        DeepSortWellFormed(fields[k].value);
      }
    case _ =>
  }

  /** The main result: the two printers give one text exactly when listing order keeps sorted order. */
  lemma PrintersAgree(v: Json)
    requires WellFormed(v)
    ensures Print(DeepSort(v)) == StableJson(v) <==> OrderKept(v)
  {
    StableIsCanonPrint(v);
    if OrderKept(v) {
      KeptIsCanon(v);
    }
    if Print(DeepSort(v)) == StableJson(v) {
      DeepSortWellFormed(v);
      CanonWellFormed(v);
      PrintInjective(DeepSort(v), Canon(v));
      CanonMeansKept(v);
    }
  }

  // ---- What the sort forgets, exactly

  /** The value without any `__proto__` field. */
  function Strip(v: Json): Json
    decreases v, 1
  {
    match v
    case Arr(items) => Arr(StripItems(items))
    case Obj(fields) => Obj(StripFields(fields))
    case _ => v
  }

  function StripItems(items: seq<Json>): (r: seq<Json>)
    ensures |r| == |items| && forall i :: 0 <= i < |items| ==> r[i] == Strip(items[i])
    decreases items, 0
  {
    if items == [] then [] else [Strip(items[0])] + StripItems(items[1..])
  }

  function StripFields(fields: seq<Field>): seq<Field>
    decreases fields, 0
  {
    if fields == [] then []
    else if fields[0].key == PROTO then StripFields(fields[1..])
    else [Field(fields[0].key, Strip(fields[0].value))] + StripFields(fields[1..])
  }

  lemma {:induction false} StripFieldsFrom(fields: seq<Field>, g: Field) returns (i: nat)
    requires g in StripFields(fields)
    ensures i < |fields| && fields[i].key != PROTO && g == Field(fields[i].key, Strip(fields[i].value))
  {
    if fields[0].key != PROTO && g == Field(fields[0].key, Strip(fields[0].value)) {
      i := 0;
    } else {
      i := StripFieldsFrom(fields[1..], g);
      i := i + 1;
    }
  }

  lemma {:induction false} StripFieldsHave(fields: seq<Field>, i: nat)
    requires i < |fields| && fields[i].key != PROTO
    ensures Field(fields[i].key, Strip(fields[i].value)) in StripFields(fields)
  {
    if i > 0 {
      StripFieldsHave(fields[1..], i - 1);
    }
  }

  lemma {:induction false} StripDistinct(fields: seq<Field>)
    requires DistinctKeys(fields)
    ensures DistinctKeys(StripFields(fields))
  {
    if fields != [] {
      var tail := fields[1..];
      assert forall i :: 0 <= i < |tail| ==> tail[i] == fields[i + 1];
      StripDistinct(tail);
      var r := StripFields(tail);
      forall j | 0 <= j < |r| ensures r[j].key != fields[0].key {
        var i := StripFieldsFrom(tail, r[j]);
      }
    }
  }

  lemma {:induction false} StripWellFormed(v: Json)
    requires WellFormed(v)
    ensures WellFormed(Strip(v))
  {
    match v
    case Arr(items) =>
      forall i | 0 <= i < |items| ensures WellFormed(StripItems(items)[i]) {
        StripWellFormed(items[i]);
      }
    case Obj(fields) =>
      StripDistinct(fields);
      var r := StripFields(fields);
      forall j | 0 <= j < |r| ensures WellFormed(r[j].value) {
        var i := StripFieldsFrom(fields, r[j]);
        StripWellFormed(fields[i].value);
      }
    case _ =>
  }

  function NoProto(fields: seq<Field>): (r: seq<Field>)
    ensures forall f :: f in r <==> f in fields && f.key != PROTO
  {
    if fields == [] then []
    else
      assert forall f :: f in fields <==> f in fields[..|fields| - 1] || f == fields[|fields| - 1];
      NoProto(fields[..|fields| - 1]) + if fields[|fields| - 1].key == PROTO then [] else [fields[|fields| - 1]]
  }

  lemma {:induction false} NoProtoAscending(fields: seq<Field>)
    requires Ascending(fields)
    ensures Ascending(NoProto(fields))
  {
    if fields != [] {
      var n := |fields| - 1;
      NoProtoAscending(fields[..n]);
      var r := NoProto(fields[..n]);
      forall i | 0 <= i < |r| ensures Less(r[i].key, fields[n].key) {
        assert r[i] in r;
        var k := PositionOf(fields[..n], r[i]);
      }
    }
  }

  lemma {:induction false} AssignSkipsProto(fields: seq<Field>)
    ensures AssignAll(NoProto(fields)) == AssignAll(fields)
  {
    if fields != [] {
      var n := |fields| - 1;
      AssignSkipsProto(fields[..n]);
      var front := NoProto(fields[..n]);
      if fields[n].key == PROTO {
        assert NoProto(fields) == front;
      } else {
        assert NoProto(fields)[..|front|] == front;
      }
    }
  }

  /** Objects with the same fields but for `__proto__` are rebuilt alike. */
  lemma RebuiltAlike(x: seq<Field>, y: seq<Field>)
    requires DistinctKeys(x) && DistinctKeys(y)
    requires forall f: Field :: f.key != PROTO ==> (f in x <==> f in y)
    ensures AssignAll(SortFields(x)) == AssignAll(SortFields(y))
  {
    SortAscending(x);
    SortAscending(y);
    NoProtoAscending(SortFields(x));
    NoProtoAscending(SortFields(y));
    AscendingUnique(NoProto(SortFields(x)), NoProto(SortFields(y)));
    AssignSkipsProto(SortFields(x));
    AssignSkipsProto(SortFields(y));
  }

  /** Distinct keys but `__proto__` all get their field. */
  lemma {:induction false} AssignAllKeeps(fields: seq<Field>, f: Field)
    requires DistinctKeys(fields) && f in fields && f.key != PROTO
    ensures f in AssignAll(fields)
  {
    var n := |fields| - 1;
    var obj, last := AssignAll(fields[..n]), fields[n];
    AssignAllListed(fields[..n]);
    assert fields == fields[..n] + [last];
    forall i | 0 <= i < |obj| ensures obj[i].key != last.key {
      var k := PositionOf(fields[..n], obj[i]);
    }
    if f != last {
      AssignAllKeeps(fields[..n], f);
    }
  }

  lemma DeepDistinct(fields: seq<Field>)
    requires DistinctKeys(fields)
    ensures DistinctKeys(DeepFields(fields)) && DistinctKeys(SortFields(DeepFields(fields)))
  {
    var d := DeepFields(fields);
    assert forall i :: 0 <= i < |d| ==> d[i].key == fields[i].key;
    SortAscending(d);
    var sorted := SortFields(d);
    forall i, j | 0 <= i < j < |sorted| ensures sorted[i].key != sorted[j].key {
      LessAsymmetric(sorted[i].key, sorted[j].key);
    }
  }

  /** The rebuilt value depends only on the canonical form of what is left. */
  lemma {:induction false} RebuiltFromCanon(v: Json)
    requires WellFormed(v)
    ensures DeepSort(Canon(Strip(v))) == DeepSort(v)
  {
    match v
    case Arr(items) =>
      forall i | 0 <= i < |items| ensures DeepItems(CanonItems(StripItems(items)))[i] == DeepItems(items)[i] {
        RebuiltFromCanon(items[i]);
      }
      assert DeepItems(CanonItems(StripItems(items))) == DeepItems(items);
    case Obj(fields) =>
      var left := SortFields(CanonFields(StripFields(fields)));
      forall i | 0 <= i < |fields| ensures DeepSort(Canon(Strip(fields[i].value))) == DeepSort(fields[i].value) {
        RebuiltFromCanon(fields[i].value);
      }
      StripWellFormed(v);
      CanonWellFormed(Strip(v));
      DeepDistinct(fields);
      DeepDistinct(left);
      RebuiltFieldsAlike(fields, left);
      RebuiltAlike(DeepFields(fields), DeepFields(left));
    case _ =>
  }

  lemma RebuiltFieldsAlike(fields: seq<Field>, left: seq<Field>)
    requires left == SortFields(CanonFields(StripFields(fields)))
    requires forall i :: 0 <= i < |fields| ==> DeepSort(Canon(Strip(fields[i].value))) == DeepSort(fields[i].value)
    ensures forall f: Field :: f.key != PROTO ==> (f in DeepFields(fields) <==> f in DeepFields(left))
  {
    var s, d, e := StripFields(fields), DeepFields(fields), DeepFields(left);
    forall f: Field | f.key != PROTO && f in d ensures f in e {
      var i := PositionOf(d, f);
      StripFieldsHave(fields, i);
      var j := PositionOf(s, Field(fields[i].key, Strip(fields[i].value)));
      assert CanonFields(s)[j] in CanonFields(s);
      var k := PositionOf(left, CanonFields(s)[j]);
      assert e[k] == f;
    }
    forall f | f in e ensures f in d {
      var k := PositionOf(e, f);
      assert left[k] in left && left[k] in CanonFields(s);
      var j := PositionOf(CanonFields(s), left[k]);
      var i := StripFieldsFrom(fields, s[j]);
      assert d[i] == f;
    }
  }

  /** Rebuilding loses nothing else: the canonical form of the result is that of the stripped value. */
  lemma {:induction false} RebuiltKeepsCanon(v: Json)
    requires WellFormed(v)
    ensures Canon(DeepSort(v)) == Canon(Strip(v))
  {
    match v
    case Arr(items) =>
      forall i | 0 <= i < |items| ensures CanonItems(DeepItems(items))[i] == CanonItems(StripItems(items))[i] {
        RebuiltKeepsCanon(items[i]);
      }
      assert CanonItems(DeepItems(items)) == CanonItems(StripItems(items));
    case Obj(fields) =>
      forall i | 0 <= i < |fields| ensures Canon(DeepSort(fields[i].value)) == Canon(Strip(fields[i].value)) {
        RebuiltKeepsCanon(fields[i].value);
      }
      var obj := AssignAll(SortFields(DeepFields(fields)));
      DeepDistinct(fields);
      AssignAllListed(SortFields(DeepFields(fields)));
      StripDistinct(fields);
      SameCanonFields(fields, obj);
      CanonObjectAscending(obj);
      CanonObjectAscending(StripFields(fields));
      AscendingUnique(SortFields(CanonFields(obj)), SortFields(CanonFields(StripFields(fields))));
    case _ =>
  }

  lemma SameCanonFields(fields: seq<Field>, obj: seq<Field>)
    requires DistinctKeys(SortFields(DeepFields(fields))) && obj == AssignAll(SortFields(DeepFields(fields))) && Listed(obj)
    requires forall f :: f in obj ==> f in SortFields(DeepFields(fields))
    requires forall i :: 0 <= i < |fields| ==> Canon(DeepSort(fields[i].value)) == Canon(Strip(fields[i].value))
    ensures forall f :: f in CanonFields(obj) <==> f in CanonFields(StripFields(fields))
  {
    var s, d, c := StripFields(fields), DeepFields(fields), CanonFields(obj);
    forall f | f in c ensures f in CanonFields(s) {
      var k := PositionOf(c, f);
      assert obj[k] in obj && obj[k] in d;
      var i := PositionOf(d, obj[k]);
      StripFieldsHave(fields, i);
      var j := PositionOf(s, Field(fields[i].key, Strip(fields[i].value)));
      assert CanonFields(s)[j] == f;
    }
    forall f | f in CanonFields(s) ensures f in c {
      var j := PositionOf(CanonFields(s), f);
      var i := StripFieldsFrom(fields, s[j]);
      assert d[i] in d && d[i] in SortFields(d);
      AssignAllKeeps(SortFields(d), d[i]);
      var k := PositionOf(obj, d[i]);
      assert c[k] == f;
    }
  }

  /** The sort-then-print form is canonical and injective up to key order and `__proto__` fields, exactly. */
  lemma SortedTextExactly(a: Json, b: Json)
    requires WellFormed(a) && WellFormed(b)
    ensures Print(DeepSort(a)) == Print(DeepSort(b)) <==> Same(Strip(a), Strip(b))
  {
    StripWellFormed(a);
    StripWellFormed(b);
    if Print(DeepSort(a)) == Print(DeepSort(b)) {
      DeepSortWellFormed(a);
      DeepSortWellFormed(b);
      PrintInjective(DeepSort(a), DeepSort(b));
      RebuiltKeepsCanon(a);
      RebuiltKeepsCanon(b);
      SameCanonIsSame(Strip(a), Strip(b));
    } else if Same(Strip(a), Strip(b)) {
      SameHasSameCanon(Strip(a), Strip(b));
      RebuiltFromCanon(a);
      RebuiltFromCanon(b);
    }
  }

  /** Two dispatches are signed over one text if and only if they are the same up to key order once the
      signature and every `__proto__` field are taken out. */
  lemma DispatchTextCanonical(a: seq<Field>, b: seq<Field>)
    requires WellFormed(Obj(a)) && WellFormed(Obj(b))
    ensures CanonicalDispatch(a) == CanonicalDispatch(b) <==> Same(Strip(Obj(Unsigned(a))), Strip(Obj(Unsigned(b))))
  {
    UnsignedKeeps(a);
    UnsignedKeeps(b);
    SortedTextExactly(Obj(Unsigned(a)), Obj(Unsigned(b)));
  }

  /** No object of `v` has a `__proto__` field. */
  predicate ProtoFree(v: Json)
    decreases v
  {
    match v
    case Arr(items) => forall i :: 0 <= i < |items| ==> ProtoFree(items[i])
    case Obj(fields) =>
      && (forall i :: 0 <= i < |fields| ==> fields[i].key != PROTO)
      && forall i :: 0 <= i < |fields| ==> ProtoFree(fields[i].value)
    case _ => true
  }

  /** Stripping changes a value if and only if it has such a field. */
  lemma {:induction false} StripChangesExactly(v: Json)
    ensures Strip(v) == v <==> ProtoFree(v)
    decreases v, 1
  {
    match v
    case Arr(items) =>
      forall i | 0 <= i < |items| ensures StripItems(items)[i] == items[i] <==> ProtoFree(items[i]) {
        StripChangesExactly(items[i]);
      }
      if ProtoFree(v) {
        assert StripItems(items) == items;
      }
    case Obj(fields) => StripFieldsExactly(fields);
    case _ =>
  }

  lemma {:induction false} StripFieldsExactly(fields: seq<Field>)
    ensures |StripFields(fields)| <= |fields|
    ensures StripFields(fields) == fields <==> ProtoFree(Obj(fields))
    decreases fields, 0
  {
    if fields != [] {
      var tail := fields[1..];
      StripChangesExactly(fields[0].value);
      StripFieldsExactly(tail);
      assert fields == [fields[0]] + tail;
      assert ProtoFree(Obj(fields)) <==> fields[0].key != PROTO && ProtoFree(fields[0].value) && ProtoFree(Obj(tail)) by {
        assert forall i :: 0 < i < |fields| ==> fields[i] == tail[i - 1];
        assert forall i :: 0 <= i < |tail| ==> tail[i] == fields[i + 1];
      }
      if StripFields(fields) == fields {
        assert StripFields(fields)[0] == fields[0] && StripFields(fields)[1..] == tail;
      }
    }
  }

  lemma UnsignedKeeps(fields: seq<Field>)
    requires WellFormed(Obj(fields))
    ensures WellFormed(Obj(Unsigned(fields)))
  {
    UnsignedDistinct(fields);
    var r := Unsigned(fields);
    forall i | 0 <= i < |r| ensures exists k :: 0 <= k < |fields| && fields[k] == r[i] {
      assert r[i] in r && r[i] in fields;
    }
  }

  lemma {:induction false} UnsignedDistinct(fields: seq<Field>)
    requires DistinctKeys(fields)
    ensures DistinctKeys(Unsigned(fields))
  {
    if fields != [] {
      var tail := fields[1..];
      assert forall i :: 0 <= i < |tail| ==> tail[i] == fields[i + 1];
      UnsignedDistinct(tail);
      var r := Unsigned(tail);
      forall i | 0 <= i < |r| ensures r[i].key != fields[0].key {
        assert r[i] in r && r[i] in tail;
        var k := PositionOf(tail, r[i]);
      }
    }
  }

  /** Without the condition the texts differ: the index key "1" moves before "!", although "!" sorts first. */
  lemma PrintersDisagree()
    ensures var v := Obj([Field([0x21], Null), Field([0x31], Null)]);
            WellFormed(v) && Print(DeepSort(v)) != StableJson(v)
  {
    var x, y := [0x21], [0x31];
    var v := Obj([Field(x, Null), Field(y, Null)]);
    assert x[0] == 0x21 && y[0] == 0x31;
    OneIsIndex();
    assert Less(v.fields[0].key, v.fields[1].key) && !ListedBefore(v.fields[0].key, v.fields[1].key);
    assert !KeysKept(v.fields);
    PrintersAgree(v);
  }

  lemma OneIsIndex()
    ensures IsIndex([0x31])
  {
    assert [0x31][..0] == [];
    assert Decimal([0x31]) == 1;
  }

  /** A value and what is left of it without its `__proto__` fields always get one text, so any value with
      such a field shares its text with a different one. */
  lemma ProtoFieldIsLost(v: Json)
    requires WellFormed(v)
    ensures Print(DeepSort(v)) == Print(DeepSort(Strip(v)))
    ensures Strip(v) != v <==> !ProtoFree(v)
  {
    StripWellFormed(v);
    StripTwice(v);
    SameIsReflexive(Strip(v));
    SortedTextExactly(v, Strip(v));
    StripChangesExactly(v);
  }

  lemma StripTwice(v: Json)
    ensures Strip(Strip(v)) == Strip(v)
    decreases v
  {
    StripIsProtoFree(v);
    StripChangesExactly(Strip(v));
  }

  lemma {:induction false} StripIsProtoFree(v: Json)
    ensures ProtoFree(Strip(v))
    decreases v
  {
    match v
    case Arr(items) =>
      forall i | 0 <= i < |items| ensures ProtoFree(StripItems(items)[i]) {
        StripIsProtoFree(items[i]);
      }
    case Obj(fields) =>
      var r := StripFields(fields);
      forall j | 0 <= j < |r| ensures r[j].key != PROTO && ProtoFree(r[j].value) {
        var i := StripFieldsFrom(fields, r[j]);
        StripIsProtoFree(fields[i].value);
      }
    case _ =>
  }

  lemma SameIsReflexive(v: Json)
    requires WellFormed(v)
    ensures Same(v, v)
  {
    SameCanonIsSame(v, v);
  }
}
