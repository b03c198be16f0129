/** The two canonical printers: `stableJson` (src/foundations/action-digest.ts) sorts keys while it
    prints; `canonicalDispatch` (src/capabilities/execution/worker-execution-boundary.ts) rebuilds every
    object in sorted order and lets `JSON.stringify` print it. */
module CanonicalJson {
  import opened JsonText

  // ---- Key order: `Array.prototype.sort` on strings compares code units

  predicate Less(a: Text, b: Text) {
    if b == [] then false
    else if a == [] then true
    else if a[0] != b[0] then a[0] < b[0]
    else Less(a[1..], b[1..])
  }

  lemma {:induction false} LessTotal(a: Text, b: Text)
    ensures a == b || Less(a, b) || Less(b, a)
  {
    if a != [] && b != [] && a[0] == b[0] {
      LessTotal(a[1..], b[1..]);
      assert a == [a[0]] + a[1..] && b == [b[0]] + b[1..];
    }
  }

  lemma {:induction false} LessAsymmetric(a: Text, b: Text)
    requires Less(a, b)
    ensures !Less(b, a) && a != b
  {
    if a != [] && a[0] == b[0] {
      LessAsymmetric(a[1..], b[1..]);
    }
  }

  lemma {:induction false} LessTransitive(a: Text, b: Text, c: Text)
    requires Less(a, b) && Less(b, c)
    ensures Less(a, c)
  {
    if a != [] && a[0] == b[0] && b[0] == c[0] {
      LessTransitive(a[1..], b[1..], c[1..]);
    }
  }

  predicate Ascending(fields: seq<Field>) {
    forall i, j :: 0 <= i < j < |fields| ==> Less(fields[i].key, fields[j].key)
  }

  /** `Object.keys(value).sort()`, with each key's value beside it. */
  function SortFields(fields: seq<Field>): (sorted: seq<Field>)
    ensures forall f :: f in sorted <==> f in fields
    ensures |sorted| == |fields|
  {
    if fields == [] then [] else Insert(fields[0], SortFields(fields[1..]))
  }

  function Insert(f: Field, sorted: seq<Field>): (r: seq<Field>)
    ensures forall g :: g in r <==> g == f || g in sorted
    ensures |r| == |sorted| + 1
  {
    if sorted == [] || !Less(sorted[0].key, f.key) then [f] + sorted
    else
      var tail := Insert(f, sorted[1..]);
      assert forall g :: g in sorted <==> g == sorted[0] || g in sorted[1..];
      [sorted[0]] + tail
  }

  lemma {:induction false} InsertAscending(f: Field, sorted: seq<Field>)
    requires Ascending(sorted)
    requires forall g :: g in sorted ==> g.key != f.key
    ensures Ascending(Insert(f, sorted))
  {
    var r := Insert(f, sorted);
    if sorted == [] {
    } else if !Less(sorted[0].key, f.key) {
      LessTotal(sorted[0].key, f.key);
      assert sorted[0] in sorted;
      forall j | 0 <= j < |sorted| ensures Less(f.key, sorted[j].key) {
        if j > 0 {
          LessTransitive(f.key, sorted[0].key, sorted[j].key);
        }
      }
    } else {
      InsertAscending(f, sorted[1..]);
      forall j | 0 < j < |r| ensures Less(r[0].key, r[j].key) {
        assert r[j] in Insert(f, sorted[1..]);
        if r[j] != f {
          var k :| 0 <= k < |sorted[1..]| && sorted[1..][k] == r[j];
          assert sorted[k + 1] == r[j];
        }
      }
      assert forall i :: 0 < i < |r| ==> r[i] == Insert(f, sorted[1..])[i - 1];
    }
  }

  lemma {:induction false} SortAscending(fields: seq<Field>)
    requires DistinctKeys(fields)
    ensures Ascending(SortFields(fields))
  {
    if fields != [] {
      SortAscending(fields[1..]);
      forall g | g in SortFields(fields[1..]) ensures g.key != fields[0].key {
        var k :| 0 <= k < |fields[1..]| && fields[1..][k] == g;
        assert fields[k + 1] == g;
      }
      InsertAscending(fields[0], SortFields(fields[1..]));
    }
  }

  /** An ascending list is determined by its elements. */
  lemma {:induction false} AscendingUnique(x: seq<Field>, y: seq<Field>)
    requires Ascending(x) && Ascending(y)
    requires forall f :: f in x <==> f in y
    ensures x == y
  {
    if x == [] {
      NonEmptyHasElement(y);
    } else {
      assert x[0] in x && x[0] in y;
      HeadsAgree(x, y);
      forall f ensures f in x[1..] <==> f in y[1..] {
        InTail(x, f);
        InTail(y, f);
      }
      AscendingUnique(x[1..], y[1..]);
    }
  }

  lemma NonEmptyHasElement(x: seq<Field>)
    ensures x != [] ==> exists f :: f in x
  {
    if x != [] {
      assert x[0] in x;
    }
  }

  lemma HeadsAgree(x: seq<Field>, y: seq<Field>)
    requires Ascending(x) && Ascending(y) && x != [] && y != []
    requires forall f :: f in x <==> f in y
    ensures x[0] == y[0]
  {
    assert x[0] in x && y[0] in y;
    var i :| 0 <= i < |y| && y[i] == x[0];
    var j :| 0 <= j < |x| && x[j] == y[0];
    if i > 0 && j > 0 {
      LessAsymmetric(y[0].key, y[i].key);
    }
  }

  lemma InTail(x: seq<Field>, f: Field)
    requires Ascending(x) && x != []
    ensures f in x[1..] <==> f in x && f != x[0]
  {
    if f in x[1..] {
      var k :| 0 <= k < |x[1..]| && x[1..][k] == f;
      assert x[k + 1] == f && Less(x[0].key, x[k + 1].key);
      LessAsymmetric(x[0].key, f.key);
    }
    if f in x && f != x[0] {
      var k :| 0 <= k < |x| && x[k] == f;
      assert x[1..][k - 1] == f;
    }
  }

  // ---- stableJson

  lemma SortedWithin(v: Json)
    requires v.Obj?
    ensures forall i :: 0 <= i < |v.fields| ==> SortFields(v.fields)[i].value < v
  {
    forall i | 0 <= i < |v.fields| ensures SortFields(v.fields)[i].value < v {
      assert SortFields(v.fields)[i] in v.fields;
      var k :| 0 <= k < |v.fields| && v.fields[k] == SortFields(v.fields)[i];
    }
  }

  function StableJson(v: Json): Text
    decreases v, 1
  {
    match v
    case Arr(items) => [LBRACKET] + StableItems(items) + [RBRACKET]
    case Obj(fields) =>
      SortedWithin(v);
      [LBRACE] + StableFields(SortFields(fields), v) + [RBRACE]
    case _ => Print(v)
  }

  function StableItems(items: seq<Json>): Text
    decreases items, 0
  {
    if items == [] then []
    else if |items| == 1 then StableJson(items[0])
    else StableJson(items[0]) + [COMMA] + StableItems(items[1..])
  }

  function StableFields(fields: seq<Field>, ghost whole: Json): Text
    requires forall i :: 0 <= i < |fields| ==> fields[i].value < whole
    decreases whole, 0, |fields|
  {
    if fields == [] then []
    else
      var first := Quoted(fields[0].key) + [COLON] + StableJson(fields[0].value);
      if |fields| == 1 then first else first + [COMMA] + StableFields(fields[1..], whole)
  }

  // ---- What "equal ignoring object key order" means

  /** Where `key` stands, or -1. */
  function IndexOf(fields: seq<Field>, key: Text): (i: int)
    ensures -1 <= i < |fields|
    ensures i >= 0 ==> fields[i].key == key
    ensures i == -1 ==> forall k :: 0 <= k < |fields| ==> fields[k].key != key
  {
    if fields == [] then -1
    else if fields[0].key == key then 0
    else
      var i := IndexOf(fields[1..], key);
      assert forall k :: 0 < k < |fields| ==> fields[k] == fields[1..][k - 1];
      if i < 0 then -1 else i + 1
  }

  predicate SameKeys(fa: seq<Field>, fb: seq<Field>) {
    && (forall i :: 0 <= i < |fa| ==> IndexOf(fb, fa[i].key) >= 0)
    && (forall j :: 0 <= j < |fb| ==> IndexOf(fa, fb[j].key) >= 0)
  }

  predicate Same(a: Json, b: Json)
    decreases a
  {
    match a
    case Arr(items) =>
      b.Arr? && |items| == |b.items| && forall i :: 0 <= i < |items| ==> Same(items[i], b.items[i])
    case Obj(fields) =>
      && b.Obj? && SameKeys(fields, b.fields)
      && forall i :: 0 <= i < |fields| ==> Same(fields[i].value, b.fields[IndexOf(b.fields, fields[i].key)].value)
    case _ => a == b
  }

  // ---- Canonical values: every object in ascending key order

  function Canon(v: Json): (c: Json)
    decreases v, 1
  {
    match v
    case Arr(items) => Arr(CanonItems(items))
    case Obj(fields) => Obj(SortFields(CanonFields(fields)))
    case _ => v
  }

  function CanonItems(items: seq<Json>): (r: seq<Json>)
    ensures |r| == |items| && forall i :: 0 <= i < |items| ==> r[i] == Canon(items[i])
    decreases items, 0
  {
    if items == [] then [] else [Canon(items[0])] + CanonItems(items[1..])
  }

  function CanonField(f: Field): Field
    decreases f, 0
  {
    Field(f.key, Canon(f.value))
  }

  function CanonFields(fields: seq<Field>): (r: seq<Field>)
    ensures |r| == |fields| && forall i :: 0 <= i < |fields| ==> r[i] == CanonField(fields[i])
    decreases fields, 0
  {
    if fields == [] then [] else [CanonField(fields[0])] + CanonFields(fields[1..])
  }

  lemma {:induction false} CanonWellFormed(v: Json)
    requires WellFormed(v)
    ensures WellFormed(Canon(v))
  {
    match v
    case Arr(items) =>
      forall i | 0 <= i < |items| ensures WellFormed(CanonItems(items)[i]) {
        CanonWellFormed(items[i]);
      }
    case Obj(fields) =>
      var c := CanonFields(fields);
      var sorted := SortFields(c);
      CanonObjectAscending(fields);
      forall i, j | 0 <= i < j < |sorted| ensures sorted[i].key != sorted[j].key {
        LessAsymmetric(sorted[i].key, sorted[j].key);
      }
      forall i | 0 <= i < |sorted| ensures WellFormed(sorted[i].value) {
        assert sorted[i] in c;
        var k :| 0 <= k < |c| && c[k] == sorted[i];
        CanonWellFormed(fields[k].value);
      }
    case _ =>
  }

  lemma CanonObjectAscending(fields: seq<Field>)
    requires DistinctKeys(fields)
    ensures Ascending(SortFields(CanonFields(fields)))
  {
    var c := CanonFields(fields);
    assert forall i :: 0 <= i < |fields| ==> c[i].key == fields[i].key;
    SortAscending(c);
  }

  /** Sorting by key commutes with canonicalising the values. */
  lemma {:induction false} SortCanonFields(fields: seq<Field>)
    ensures SortFields(CanonFields(fields)) == CanonFields(SortFields(fields))
  {
    if fields != [] {
      SortCanonFields(fields[1..]);
      InsertCanonField(fields[0], SortFields(fields[1..]));
    }
  }

  lemma {:induction false} InsertCanonField(f: Field, sorted: seq<Field>)
    ensures Insert(CanonField(f), CanonFields(sorted)) == CanonFields(Insert(f, sorted))
  {
    if sorted != [] && Less(sorted[0].key, f.key) {
      InsertCanonField(f, sorted[1..]);
    } else {
      assert ([f] + sorted)[1..] == sorted;
    }
  }

  /** Sorting while printing is printing what was sorted first. */
  lemma StableIsCanonPrint(v: Json)
    ensures StableJson(v) == Print(Canon(v))
    decreases v, 1
  {
    match v
    case Arr(items) => StableItemsPrint(items);
    case Obj(fields) =>
      SortedWithin(v);
      StableFieldsPrint(SortFields(fields), v);
      SortCanonFields(fields);
    case _ =>
  }

  lemma {:induction false} StableItemsPrint(items: seq<Json>)
    ensures StableItems(items) == PrintItems(CanonItems(items))
    decreases items, 0
  {
    if items != [] {
      StableIsCanonPrint(items[0]);
      StableItemsPrint(items[1..]);
      assert CanonItems(items)[1..] == CanonItems(items[1..]);
    }
  }

  lemma {:induction false} StableFieldsPrint(fields: seq<Field>, whole: Json)
    requires forall i :: 0 <= i < |fields| ==> fields[i].value < whole
    ensures StableFields(fields, whole) == PrintFields(CanonFields(fields))
    decreases whole, 0, |fields|
  {
    if fields != [] {
      StableIsCanonPrint(fields[0].value);
      StableFieldsPrint(fields[1..], whole);
      assert CanonFields(fields)[1..] == CanonFields(fields[1..]);
    }
  }

  // ---- Canonical forms agree exactly on values that are the same up to key order

  /** Some field of `fields` is canonically `f`. */
  predicate Holds(fields: seq<Field>, f: Field) {
    exists j :: 0 <= j < |fields| && fields[j].key == f.key && Canon(fields[j].value) == f.value
  }

  lemma HoldsIsMembership(fields: seq<Field>, f: Field)
    ensures Holds(fields, f) <==> f in CanonFields(fields)
  {
    var c := CanonFields(fields);
    if f in c {
      var k :| 0 <= k < |c| && c[k] == f;
      assert c[k] == CanonField(fields[k]);
    }
    if Holds(fields, f) {
      var j :| 0 <= j < |fields| && fields[j].key == f.key && Canon(fields[j].value) == f.value;
      assert c[j] == f;
    }
  }

  /** Fields matched both ways, with matched fields canonically equal, give one sorted list. */
  lemma MatchedFieldsSort(fa: seq<Field>, fb: seq<Field>)
    requires DistinctKeys(fa) && DistinctKeys(fb)
    requires forall i :: 0 <= i < |fa| ==> Holds(fb, CanonField(fa[i]))
    requires forall j :: 0 <= j < |fb| ==> Holds(fa, CanonField(fb[j]))
    ensures SortFields(CanonFields(fa)) == SortFields(CanonFields(fb))
  {
    var ca, cb := CanonFields(fa), CanonFields(fb);
    forall f ensures f in ca <==> f in cb {
      HoldsIsMembership(fa, f);
      HoldsIsMembership(fb, f);
    }
    CanonObjectAscending(fa);
    CanonObjectAscending(fb);
    AscendingUnique(SortFields(ca), SortFields(cb));
  }

  lemma {:induction false} SameHasSameCanon(a: Json, b: Json)
    requires WellFormed(a) && WellFormed(b) && Same(a, b)
    ensures Canon(a) == Canon(b)
    decreases a
  {
    match a
    case Arr(items) =>
      forall i | 0 <= i < |items| ensures CanonItems(items)[i] == CanonItems(b.items)[i] {
        SameHasSameCanon(items[i], b.items[i]);
      }
      assert CanonItems(items) == CanonItems(b.items);
    case Obj(fields) =>
      forall i | 0 <= i < |fields| ensures Holds(b.fields, CanonField(fields[i])) {
        SameHasSameCanon(fields[i].value, b.fields[IndexOf(b.fields, fields[i].key)].value);
      }
      forall j | 0 <= j < |b.fields| ensures Holds(fields, CanonField(b.fields[j])) {
        var i := IndexOf(fields, b.fields[j].key);
        IndexOfDistinct(b.fields, j);
        SameHasSameCanon(fields[i].value, b.fields[IndexOf(b.fields, fields[i].key)].value);
      }
      MatchedFieldsSort(fields, b.fields);
    case _ =>
  }

  lemma IndexOfDistinct(fields: seq<Field>, j: nat)
    requires DistinctKeys(fields) && j < |fields|
    ensures IndexOf(fields, fields[j].key) == j
  {
  }

  /** Every field of an object has a canonically equal field in any object that sorts to the same list. */
  lemma SortedFieldsMatch(fa: seq<Field>, fb: seq<Field>, i: nat) returns (j: nat)
    requires SortFields(CanonFields(fa)) == SortFields(CanonFields(fb)) && i < |fa|
    ensures j < |fb| && fa[i].key == fb[j].key && Canon(fa[i].value) == Canon(fb[j].value)
  {
    var ca, cb := CanonFields(fa), CanonFields(fb);
    assert ca[i] in SortFields(ca) && ca[i] in cb;
    j :| 0 <= j < |cb| && cb[j] == ca[i];
  }

  lemma {:induction false} SameCanonIsSame(a: Json, b: Json)
    requires WellFormed(b) && Canon(a) == Canon(b)
    ensures Same(a, b)
    decreases a
  {
    match a
    case Arr(items) =>
      forall i | 0 <= i < |items| ensures Same(items[i], b.items[i]) {
        assert CanonItems(items)[i] == CanonItems(b.items)[i];
        SameCanonIsSame(items[i], b.items[i]);
      }
    case Obj(fields) =>
      forall i | 0 <= i < |fields|
        ensures IndexOf(b.fields, fields[i].key) >= 0
        ensures Same(fields[i].value, b.fields[IndexOf(b.fields, fields[i].key)].value)
      {
        var j := SortedFieldsMatch(fields, b.fields, i);
        IndexOfDistinct(b.fields, j);
        SameCanonIsSame(fields[i].value, b.fields[j].value);
      }
      forall j | 0 <= j < |b.fields| ensures IndexOf(fields, b.fields[j].key) >= 0 {
        var i := SortedFieldsMatch(b.fields, fields, j);
      }
    case _ =>
  }

  /** The main result for `stableJson`: canonical and injective. */
  lemma StableJsonCanonical(a: Json, b: Json)
    requires WellFormed(a) && WellFormed(b)
    ensures StableJson(a) == StableJson(b) <==> Same(a, b)
  {
    StableIsCanonPrint(a);
    StableIsCanonPrint(b);
    CanonWellFormed(a);
    CanonWellFormed(b);
    if StableJson(a) == StableJson(b) {
      PrintInjective(Canon(a), Canon(b));
      SameCanonIsSame(a, b);
    } else if Same(a, b) {
      SameHasSameCanon(a, b);
    }
  }
}
