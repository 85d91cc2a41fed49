/**
 * The key-sorting JSON normal form, in the two shapes the system uses:
 * rebuilding objects and then `JSON.stringify` (queue job ids, connector
 * imports, prompt manifests) and printing the sorted entries directly
 * (signed update manifests).
 *
 * `localeCompare` is any strict total order on keys, passed as `less`.
 */
module CanonicalJson {
  import opened Json
  import opened Decimal
  import Sets

  type KeyOrder = (string, string) -> bool

  ghost predicate StrictTotal(less: KeyOrder) {
    && (forall a :: !less(a, a))
    && (forall a, b, c :: less(a, b) && less(b, c) ==> less(a, c))
    && (forall a, b :: a != b ==> less(a, b) || less(b, a))
  }

  // ----- sorting the entries of an object -----

  function Insert(less: KeyOrder, field: Field, sorted: seq<Field>): seq<Field> {
    if sorted == [] || less(field.key, sorted[0].key) then [field] + sorted
    else [sorted[0]] + Insert(less, field, sorted[1..])
  }

  /** `Object.entries(value).sort(([left], [right]) => left.localeCompare(right))`. */
  function SortFields(less: KeyOrder, fields: seq<Field>): seq<Field> {
    if fields == [] then [] else Insert(less, fields[0], SortFields(less, fields[1..]))
  }

  ghost predicate Sorted(less: KeyOrder, fields: seq<Field>) {
    forall i, j | 0 <= i < j < |fields| :: less(fields[i].key, fields[j].key)
  }

  lemma {:induction false} InsertKeepsFields(less: KeyOrder, field: Field, sorted: seq<Field>)
    ensures |Insert(less, field, sorted)| == |sorted| + 1
    ensures forall f :: f in Insert(less, field, sorted) <==> f == field || f in sorted
  {
    if sorted != [] && !less(field.key, sorted[0].key) {
      InsertKeepsFields(less, field, sorted[1..]);
      assert sorted == [sorted[0]] + sorted[1..];
    }
  }

  lemma {:induction false} InsertSorts(less: KeyOrder, field: Field, sorted: seq<Field>)
    requires StrictTotal(less) && Sorted(less, sorted)
    requires forall f | f in sorted :: f.key != field.key
    ensures Sorted(less, Insert(less, field, sorted))
  {
    if sorted != [] && !less(field.key, sorted[0].key) {
      var tail := Insert(less, field, sorted[1..]);
      assert sorted[0] in sorted;
      assert forall f | f in sorted[1..] :: f in sorted;
      InsertSorts(less, field, sorted[1..]);
      InsertKeepsFields(less, field, sorted[1..]);
      assert forall j | 0 <= j < |tail| :: tail[j] in tail;
    }
  }

  lemma {:induction false} SortKeepsFields(less: KeyOrder, fields: seq<Field>)
    ensures |SortFields(less, fields)| == |fields|
    ensures forall f :: f in SortFields(less, fields) <==> f in fields
  {
    if fields != [] {
      SortKeepsFields(less, fields[1..]);
      InsertKeepsFields(less, fields[0], SortFields(less, fields[1..]));
      assert fields == [fields[0]] + fields[1..];
    }
  }

  lemma {:induction false} SortSorts(less: KeyOrder, fields: seq<Field>)
    requires StrictTotal(less) && DistinctKeys(fields)
    ensures Sorted(less, SortFields(less, fields))
  {
    if fields != [] {
      SortSorts(less, fields[1..]);
      SortKeepsFields(less, fields[1..]);
      InsertSorts(less, fields[0], SortFields(less, fields[1..]));
    }
  }

  lemma SortedIsDistinct(less: KeyOrder, fields: seq<Field>)
    requires StrictTotal(less) && Sorted(less, fields)
    ensures DistinctKeys(fields)
  {}

  lemma HeadMember(a: seq<Field>)
    requires a != []
    ensures a[0] in a
  {}

  lemma TailMembers(less: KeyOrder, a: seq<Field>)
    requires StrictTotal(less) && Sorted(less, a) && a != []
    ensures forall f :: f in a[1..] <==> f in a && f != a[0]
  {
    assert a == [a[0]] + a[1..];
    assert a[0] !in a[1..];
  }

  /** A sorted sequence is determined by the entries it holds. */
  lemma {:induction false} SortedUnique(less: KeyOrder, a: seq<Field>, b: seq<Field>)
    requires StrictTotal(less) && Sorted(less, a) && Sorted(less, b)
    requires forall f :: f in a <==> f in b
    ensures a == b
  {
    if a == [] {
      if b != [] { HeadMember(b); }
    } else {
      assert a[0] in b;
      assert b[0] in a;
      var i :| 0 <= i < |a| && a[i] == b[0];
      var j :| 0 <= j < |b| && b[j] == a[0];
      assert i == 0 && j == 0;
      TailMembers(less, a);
      TailMembers(less, b);
      SortedUnique(less, a[1..], b[1..]);
    }
  }

  // ----- the normal form -----

  /** Every object's entries sorted by key, at every depth. */
  function Canonical(less: KeyOrder, j: Json): Json
    decreases j, 1
  {
    match j
    case Arr(items) => Arr(CanonicalItems(less, items))
    case Obj(fields) => Obj(SortFields(less, CanonicalFields(less, fields)))
    case _ => j
  }

  function CanonicalItems(less: KeyOrder, items: seq<Json>): (r: seq<Json>)
    ensures |r| == |items|
    ensures forall i | 0 <= i < |items| :: r[i] == Canonical(less, items[i])
    decreases items, 0
  {
    if items == [] then [] else [Canonical(less, items[0])] + CanonicalItems(less, items[1..])
  }

  function CanonicalFields(less: KeyOrder, fields: seq<Field>): (r: seq<Field>)
    ensures |r| == |fields|
    ensures forall i | 0 <= i < |fields| :: r[i] == Field(fields[i].key, Canonical(less, fields[i].value))
    decreases fields, 0
  {
    if fields == [] then []
    else [CanonicalField(less, fields[0])] + CanonicalFields(less, fields[1..])
  }

  function CanonicalField(less: KeyOrder, field: Field): (r: Field)
    ensures r == Field(field.key, Canonical(less, field.value))
    decreases field, 0
  {
    Field(field.key, Canonical(less, field.value))
  }

  /** Equal up to the order of object keys, at every depth. */
  ghost predicate EqualUpToKeyOrder(a: Json, b: Json)
    decreases a
  {
    match a
    case Arr(items) =>
      b.Arr? && |items| == |b.items|
      && forall i | 0 <= i < |items| :: EqualUpToKeyOrder(items[i], b.items[i])
    case Obj(fields) =>
      b.Obj? && |fields| == |b.fields|
      && forall i | 0 <= i < |fields| :: HasCounterpart(fields[i], b.fields)
    case _ => a == b
  }

  ghost predicate HasCounterpart(field: Field, fields: seq<Field>)
    decreases field
  {
    exists j | 0 <= j < |fields| ::
      field.key == fields[j].key && EqualUpToKeyOrder(field.value, fields[j].value)
  }

  lemma CanonicalFieldsDistinct(less: KeyOrder, fields: seq<Field>)
    requires StrictTotal(less) && DistinctKeys(fields)
    ensures DistinctKeys(CanonicalFields(less, fields))
    ensures Sorted(less, SortFields(less, CanonicalFields(less, fields)))
  {
    SortSorts(less, CanonicalFields(less, fields));
  }

  lemma {:induction false} CanonicalWellFormed(less: KeyOrder, j: Json)
    requires StrictTotal(less) && WellFormed(j)
    ensures WellFormed(Canonical(less, j))
    decreases j
  {
    match j
    case Arr(items) =>
      forall i | 0 <= i < |items| ensures WellFormed(Canonical(less, items[i])) {
        CanonicalWellFormed(less, items[i]);
      }
    case Obj(fields) =>
      var mapped := CanonicalFields(less, fields);
      CanonicalFieldsDistinct(less, fields);
      SortedIsDistinct(less, SortFields(less, mapped));
      SortKeepsFields(less, mapped);
      forall i | 0 <= i < |mapped| ensures WellFormed(mapped[i].value) {
        CanonicalWellFormed(less, fields[i].value);
      }
      assert forall f | f in mapped :: WellFormed(f.value);
      assert forall i | 0 <= i < |mapped| :: SortFields(less, mapped)[i] in mapped;
    case _ =>
  }

  lemma {:induction false} DistinctCount(fields: seq<Field>)
    requires DistinctKeys(fields)
    ensures |set f | f in fields| == |fields|
  {
    if fields != [] {
      DistinctCount(fields[1..]);
      assert (set f | f in fields) == {fields[0]} + (set f | f in fields[1..]);
      assert fields[0] !in fields[1..];
    } else {
      assert (set f | f in fields) == {};
    }
  }

  lemma SameFields(a: seq<Field>, b: seq<Field>)
    requires DistinctKeys(a) && DistinctKeys(b) && |a| == |b|
    requires forall i | 0 <= i < |a| :: a[i] in b
    ensures forall f :: f in a <==> f in b
  {
    var p, q := set f | f in a, set f | f in b;
    DistinctCount(a);
    DistinctCount(b);
    Sets.SubsetSize(p, q);
    forall f ensures f in a <==> f in b {
      assert f in p <==> f in q;
    }
  }

  lemma {:induction false} EqualImpliesSameCanonical(less: KeyOrder, a: Json, b: Json)
    requires StrictTotal(less) && WellFormed(a) && WellFormed(b)
    requires EqualUpToKeyOrder(a, b)
    ensures Canonical(less, a) == Canonical(less, b)
    decreases a
  {
    match a
    case Arr(items) =>
      forall i | 0 <= i < |items| ensures Canonical(less, items[i]) == Canonical(less, b.items[i]) {
        EqualImpliesSameCanonical(less, items[i], b.items[i]);
      }
      assert CanonicalItems(less, items) == CanonicalItems(less, b.items);
    case Obj(fields) =>
      var p, q := CanonicalFields(less, fields), CanonicalFields(less, b.fields);
      forall i | 0 <= i < |p| ensures p[i] in q {
        assert HasCounterpart(fields[i], b.fields);
        var j :| 0 <= j < |b.fields| && fields[i].key == b.fields[j].key
                 && EqualUpToKeyOrder(fields[i].value, b.fields[j].value);
        EqualImpliesSameCanonical(less, fields[i].value, b.fields[j].value);
        assert q[j] == p[i];
      }
      CanonicalFieldsDistinct(less, fields);
      CanonicalFieldsDistinct(less, b.fields);
      SameFields(p, q);
      SortKeepsFields(less, p);
      SortKeepsFields(less, q);
      SortedUnique(less, SortFields(less, p), SortFields(less, q));
    case _ =>
  }

  lemma {:induction false} SameCanonicalImpliesEqual(less: KeyOrder, a: Json, b: Json)
    requires StrictTotal(less)
    requires Canonical(less, a) == Canonical(less, b)
    ensures EqualUpToKeyOrder(a, b)
    decreases a
  {
    match a
    case Arr(items) =>
      forall i | 0 <= i < |items| ensures EqualUpToKeyOrder(items[i], b.items[i]) {
        assert CanonicalItems(less, items)[i] == CanonicalItems(less, b.items)[i];
        SameCanonicalImpliesEqual(less, items[i], b.items[i]);
      }
    case Obj(fields) =>
      var p, q := CanonicalFields(less, fields), CanonicalFields(less, b.fields);
      SortKeepsFields(less, p);
      SortKeepsFields(less, q);
      forall i | 0 <= i < |fields| ensures HasCounterpart(fields[i], b.fields) {
        assert p[i] in p;
        assert p[i] in q;
        var j :| 0 <= j < |q| && q[j] == p[i];
        SameCanonicalImpliesEqual(less, fields[i].value, b.fields[j].value);
      }
    case _ =>
  }

  lemma {:induction false} EqualToCanonical(less: KeyOrder, j: Json)
    requires StrictTotal(less)
    ensures EqualUpToKeyOrder(Canonical(less, j), j)
    decreases j
  {
    match j
    case Arr(items) =>
      forall i | 0 <= i < |items| ensures EqualUpToKeyOrder(Canonical(less, items[i]), items[i]) {
        EqualToCanonical(less, items[i]);
      }
    case Obj(fields) =>
      var p := CanonicalFields(less, fields);
      var sorted := SortFields(less, p);
      SortKeepsFields(less, p);
      forall i | 0 <= i < |sorted| ensures HasCounterpart(sorted[i], fields) {
        assert sorted[i] in p;
        var k :| 0 <= k < |p| && p[k] == sorted[i];
        EqualToCanonical(less, fields[k].value);
      }
    case _ =>
  }

  /** Canonicalising twice is canonicalising once. */
  lemma CanonicalIdempotent(less: KeyOrder, j: Json)
    requires StrictTotal(less) && WellFormed(j)
    ensures Canonical(less, Canonical(less, j)) == Canonical(less, j)
  {
    CanonicalWellFormed(less, j);
    EqualToCanonical(less, j);
    EqualImpliesSameCanonical(less, Canonical(less, j), j);
  }

  /** The keys of every object ascend, at every depth. */
  ghost predicate Ascending(less: KeyOrder, j: Json)
    decreases j
  {
    match j
    case Arr(items) => forall i | 0 <= i < |items| :: Ascending(less, items[i])
    case Obj(fields) => Sorted(less, fields) && forall i | 0 <= i < |fields| :: Ascending(less, fields[i].value)
    case _ => true
  }

  lemma {:induction false} CanonicalAscends(less: KeyOrder, j: Json)
    requires StrictTotal(less) && WellFormed(j)
    ensures Ascending(less, Canonical(less, j))
    decreases j
  {
    match j
    case Arr(items) =>
      forall i | 0 <= i < |items| ensures Ascending(less, Canonical(less, items[i])) { CanonicalAscends(less, items[i]); }
    case Obj(fields) =>
      var mapped := CanonicalFields(less, fields);
      CanonicalFieldsDistinct(less, fields);
      SortKeepsFields(less, mapped);
      forall i | 0 <= i < |mapped| ensures Ascending(less, mapped[i].value) { CanonicalAscends(less, fields[i].value); }
      assert forall f | f in mapped :: Ascending(less, f.value);
      assert forall i | 0 <= i < |mapped| :: SortFields(less, mapped)[i] in mapped;
    case _ =>
  }

  lemma {:induction false} AscendingIsCanonical(less: KeyOrder, j: Json)
    requires StrictTotal(less) && Ascending(less, j)
    ensures Canonical(less, j) == j
    decreases j
  {
    match j
    case Arr(items) =>
      forall i | 0 <= i < |items| ensures Canonical(less, items[i]) == items[i] { AscendingIsCanonical(less, items[i]); }
      assert CanonicalItems(less, items) == items;
    case Obj(fields) =>
      forall i | 0 <= i < |fields| ensures Canonical(less, fields[i].value) == fields[i].value {
        AscendingIsCanonical(less, fields[i].value);
      }
      assert CanonicalFields(less, fields) == fields;
      SortedIsDistinct(less, fields);
      SortSorts(less, fields);
      SortKeepsFields(less, fields);
      SortedUnique(less, SortFields(less, fields), fields);
    case _ =>
  }

  /** The canonical form of a value is the one value equal to it up to key order whose keys ascend at every depth. */
  lemma CanonicalIsTheSortedForm(less: KeyOrder, j: Json, c: Json)
    requires StrictTotal(less) && WellFormed(j) && WellFormed(c)
    ensures c == Canonical(less, j) <==> EqualUpToKeyOrder(c, j) && Ascending(less, c)
  {
    CanonicalAscends(less, j);
    EqualToCanonical(less, j);
    if EqualUpToKeyOrder(c, j) && Ascending(less, c) {
      EqualImpliesSameCanonical(less, c, j);
      AscendingIsCanonical(less, c);
    }
  }

  /** Two values have one canonical text exactly when they differ in key order only. */
  lemma CanonicalTextDecidesEquality(less: KeyOrder, a: Json, b: Json)
    requires StrictTotal(less) && WellFormed(a) && WellFormed(b)
    ensures Print(Canonical(less, a)) == Print(Canonical(less, b)) <==> EqualUpToKeyOrder(a, b)
  {
    CanonicalWellFormed(less, a);
    CanonicalWellFormed(less, b);
    PrintInjective(Canonical(less, a), Canonical(less, b));
    if EqualUpToKeyOrder(a, b) {
      EqualImpliesSameCanonical(less, a, b);
    }
    if Canonical(less, a) == Canonical(less, b) {
      SameCanonicalImpliesEqual(less, a, b);
    }
  }

  // ----- rebuilding objects: Object.fromEntries and property order -----

  predicate Lex(a: string, b: string) {
    b != [] && (a == [] || a[0] < b[0] || (a[0] == b[0] && Lex(a[1..], b[1..])))
  }

  lemma {:induction false} LexTransitive(a: string, b: string, c: string)
    requires Lex(a, b) && Lex(b, c)
    ensures Lex(a, c)
  {
    if a != [] && a[0] == b[0] && b[0] == c[0] {
      LexTransitive(a[1..], b[1..], c[1..]);
    }
  }

  lemma {:induction false} LexTotal(a: string, b: string)
    ensures a == b || Lex(a, b) || Lex(b, a)
    ensures !Lex(a, a)
  {
    if a != [] {
      LexTotal(a[1..], if b == [] then [] else b[1..]);
      assert a == [a[0]] + a[1..];
    }
    if b != [] {
      assert b == [b[0]] + b[1..];
    }
  }

  /** A canonical numeric key below 2^32 - 1: JavaScript enumerates these first, in numeric order. */
  predicate IsArrayIndex(key: string) {
    && 0 < |key| <= 10
    && (forall i | 0 <= i < |key| :: '0' <= key[i] <= '9')
    && (|key| == 1 || key[0] != '0')
    && (|key| == 10 ==> Lex(key, "4294967295"))
  }

  predicate IndexLess(a: string, b: string) {
    |a| < |b| || (|a| == |b| && Lex(a, b))
  }

  /** The order in which JavaScript enumerates string keys that were inserted in `less` order. */
  function PropertyOrder(less: KeyOrder): KeyOrder {
    (a, b) =>
      if IsArrayIndex(a) then !IsArrayIndex(b) || IndexLess(a, b)
      else !IsArrayIndex(b) && less(a, b)
  }

  lemma IndexLessStrictTotal()
    ensures StrictTotal(IndexLess)
  {
    forall a, b, c | IndexLess(a, b) && IndexLess(b, c) ensures IndexLess(a, c) {
      if |a| == |b| && |b| == |c| {
        LexTransitive(a, b, c);
      }
    }
    forall a, b ensures !IndexLess(a, a) && (a == b || IndexLess(a, b) || IndexLess(b, a)) {
      LexTotal(a, b);
    }
  }

  lemma PropertyOrderStrictTotal(less: KeyOrder)
    requires StrictTotal(less)
    ensures StrictTotal(PropertyOrder(less))
  {
    IndexLessStrictTotal();
  }

  lemma {:induction false} LexSnoc(a: string, b: string, x: char, y: char)
    requires |a| == |b|
    ensures Lex(a + [x], b + [y]) <==> Lex(a, b) || (a == b && x < y)
  {
    if a == [] {
      assert [x][1..] == [] && [y][1..] == [];
    } else {
      assert (a + [x])[1..] == a[1..] + [x] && (b + [y])[1..] == b[1..] + [y];
      LexSnoc(a[1..], b[1..], x, y);
      assert a == [a[0]] + a[1..] && b == [b[0]] + b[1..];
    }
  }

  /** On digits, as many on both sides, the lexicographic order is the numeric one. */
  lemma {:induction false} LexIsNumeric(a: string, b: string)
    requires IsDigits(a) && IsDigits(b) && |a| == |b|
    ensures Lex(a, b) <==> ValueOf(a) < ValueOf(b)
    ensures a == b <==> ValueOf(a) == ValueOf(b)
    decreases |a|
  {
    if a != "" {
      var n := |a| - 1;
      LexIsNumeric(a[..n], b[..n]);
      LexSnoc(a[..n], b[..n], a[n], b[n]);
      assert a == a[..n] + [a[n]] && b == b[..n] + [b[n]];
    }
  }

  lemma IndexLessIsNumeric(a: nat, b: nat)
    ensures IndexLess(Digits(a), Digits(b)) <==> a < b
  {
    DigitsRead(a);
    DigitsRead(b);
    if a <= b { DigitsLengthMonotone(a, b); } else { DigitsLengthMonotone(b, a); }
    if |Digits(a)| == |Digits(b)| { LexIsNumeric(Digits(a), Digits(b)); }
  }

  lemma OneMoreDigit(n: nat, d: nat)
    requires n > 0 && d < 10
    ensures Digits(10 * n + d) == Digits(n) + [Digit(d)]
  {}

  lemma LargestIndex()
    ensures IsDigits("4294967295") && ValueOf("4294967295") == 0xFFFF_FFFF && Digits(0xFFFF_FFFF) == "4294967295"
  {
    OneMoreDigit(4, 2);
    OneMoreDigit(42, 9);
    OneMoreDigit(429, 4);
    OneMoreDigit(4294, 9);
    OneMoreDigit(42949, 6);
    OneMoreDigit(429496, 7);
    OneMoreDigit(4294967, 2);
    OneMoreDigit(42949672, 9);
    OneMoreDigit(429496729, 5);
    assert Digits(0xFFFF_FFFF) == "4294967295";
    DigitsRead(0xFFFF_FFFF);
  }

  lemma IndexIsBelow(n: nat)
    ensures IsArrayIndex(Digits(n)) <==> n < 0xFFFF_FFFF
  {
    LargestIndex();
    DigitsRead(n);
    IndexLessIsNumeric(n, 0xFFFF_FFFF);
    if n <= 0xFFFF_FFFF { DigitsLengthMonotone(n, 0xFFFF_FFFF); } else { DigitsLengthMonotone(0xFFFF_FFFF, n); }
  }

  /** An array index is the decimal text of a number below 2^32 - 1. */
  lemma IsArrayIndexIff(key: string)
    ensures IsArrayIndex(key) <==> exists n: nat :: n < 0xFFFF_FFFF && key == Digits(n)
  {
    if IsArrayIndex(key) {
      ReadDigits(key);
      IndexIsBelow(ValueOf(key));
    }
    if n: nat :| n < 0xFFFF_FFFF && key == Digits(n) { IndexIsBelow(n); }
  }

  /** Rebuilt objects enumerate index keys first and by number, and the other keys in the order they were sorted. */
  lemma PropertyOrderIs(less: KeyOrder, a: string, b: string, m: nat, n: nat)
    ensures IsArrayIndex(a) && !IsArrayIndex(b) ==> PropertyOrder(less)(a, b) && !PropertyOrder(less)(b, a)
    ensures !IsArrayIndex(a) && !IsArrayIndex(b) ==> (PropertyOrder(less)(a, b) <==> less(a, b))
    ensures m < 0xFFFF_FFFF && n < 0xFFFF_FFFF ==> (PropertyOrder(less)(Digits(m), Digits(n)) <==> m < n)
  {
    IndexIsBelow(m);
    IndexIsBelow(n);
    IndexLessIsNumeric(m, n);
  }

  function IndexFields(fields: seq<Field>): (r: seq<Field>)
    ensures forall f :: f in r <==> f in fields && IsArrayIndex(f.key)
  {
    if fields == [] then []
    else
      assert fields == [fields[0]] + fields[1..];
      (if IsArrayIndex(fields[0].key) then [fields[0]] else []) + IndexFields(fields[1..])
  }

  function NamedFields(fields: seq<Field>): (r: seq<Field>)
    ensures forall f :: f in r <==> f in fields && !IsArrayIndex(f.key)
  {
    if fields == [] then []
    else
      assert fields == [fields[0]] + fields[1..];
      (if IsArrayIndex(fields[0].key) then [] else [fields[0]]) + NamedFields(fields[1..])
  }

  /** `Object.fromEntries(fields)`: index keys move to the front, the others keep their order. */
  function FromEntries(fields: seq<Field>): seq<Field> {
    SortFields(IndexLess, IndexFields(fields)) + NamedFields(fields)
  }

  lemma ConsSorted(less: KeyOrder, first: Field, rest: seq<Field>)
    requires Sorted(less, rest) && forall i | 0 <= i < |rest| :: less(first.key, rest[i].key)
    ensures Sorted(less, [first] + rest)
  {}

  lemma {:induction false} IndexFieldsKeepOrder(less: KeyOrder, fields: seq<Field>)
    requires Sorted(less, fields)
    ensures Sorted(less, IndexFields(fields))
  {
    if fields != [] {
      var rest := IndexFields(fields[1..]);
      IndexFieldsKeepOrder(less, fields[1..]);
      if IsArrayIndex(fields[0].key) {
        forall i | 0 <= i < |rest| ensures less(fields[0].key, rest[i].key) {
          assert rest[i] in fields[1..];
        }
        ConsSorted(less, fields[0], rest);
      }
    }
  }

  lemma {:induction false} NamedFieldsKeepOrder(less: KeyOrder, fields: seq<Field>)
    requires Sorted(less, fields)
    ensures Sorted(less, NamedFields(fields))
  {
    if fields != [] {
      var rest := NamedFields(fields[1..]);
      NamedFieldsKeepOrder(less, fields[1..]);
      if !IsArrayIndex(fields[0].key) {
        forall i | 0 <= i < |rest| ensures less(fields[0].key, rest[i].key) {
          assert rest[i] in fields[1..];
        }
        ConsSorted(less, fields[0], rest);
      }
    }
  }

  lemma FromEntriesSorted(less: KeyOrder, fields: seq<Field>)
    requires StrictTotal(less) && DistinctKeys(fields)
    ensures FromEntries(SortFields(less, fields)) == SortFields(PropertyOrder(less), fields)
  {
    var sorted := SortFields(less, fields);
    var order := PropertyOrder(less);
    var left, right := SortFields(IndexLess, IndexFields(sorted)), NamedFields(sorted);
    SortSorts(less, fields);
    SortKeepsFields(less, fields);
    IndexFieldsKeepOrder(less, sorted);
    NamedFieldsKeepOrder(less, sorted);
    SortedIsDistinct(less, IndexFields(sorted));
    IndexLessStrictTotal();
    SortSorts(IndexLess, IndexFields(sorted));
    SortKeepsFields(IndexLess, IndexFields(sorted));
    assert forall i | 0 <= i < |left| :: left[i] in left;
    assert forall i | 0 <= i < |right| :: right[i] in right;
    assert Sorted(order, left + right);
    PropertyOrderStrictTotal(less);
    SortSorts(order, fields);
    SortKeepsFields(order, fields);
    SortedUnique(order, left + right, SortFields(order, fields));
  }

  /** The rebuilding form: `Object.fromEntries(entries.sort(...).map(...))` at every depth. */
  function Canonicalize(less: KeyOrder, j: Json): Json
    decreases j, 1
  {
    match j
    case Arr(items) => Arr(CanonicalizeItems(less, items))
    case Obj(fields) => Obj(FromEntries(SortFields(less, CanonicalizeFields(less, fields))))
    case _ => j
  }

  function CanonicalizeItems(less: KeyOrder, items: seq<Json>): (r: seq<Json>)
    ensures |r| == |items|
    ensures forall i | 0 <= i < |items| :: r[i] == Canonicalize(less, items[i])
    decreases items, 0
  {
    if items == [] then [] else [Canonicalize(less, items[0])] + CanonicalizeItems(less, items[1..])
  }

  function CanonicalizeFields(less: KeyOrder, fields: seq<Field>): (r: seq<Field>)
    ensures |r| == |fields|
    ensures forall i | 0 <= i < |fields| :: r[i] == Field(fields[i].key, Canonicalize(less, fields[i].value))
    decreases fields, 0
  {
    if fields == [] then []
    else [CanonicalizeField(less, fields[0])] + CanonicalizeFields(less, fields[1..])
  }

  function CanonicalizeField(less: KeyOrder, field: Field): (r: Field)
    ensures r == Field(field.key, Canonicalize(less, field.value))
    decreases field, 0
  {
    Field(field.key, Canonicalize(less, field.value))
  }

  /** Rebuilding sorts by JavaScript's property order, whatever the locale order was. */
  lemma {:induction false} CanonicalizeIsCanonical(less: KeyOrder, j: Json)
    requires StrictTotal(less) && WellFormed(j)
    ensures Canonicalize(less, j) == Canonical(PropertyOrder(less), j)
    decreases j
  {
    var order := PropertyOrder(less);
    match j
    case Arr(items) =>
      forall i | 0 <= i < |items| ensures Canonicalize(less, items[i]) == Canonical(order, items[i]) {
        CanonicalizeIsCanonical(less, items[i]);
      }
      assert CanonicalizeItems(less, items) == CanonicalItems(order, items);
    case Obj(fields) =>
      forall i | 0 <= i < |fields|
        ensures Canonicalize(less, fields[i].value) == Canonical(order, fields[i].value)
      {
        CanonicalizeIsCanonical(less, fields[i].value);
      }
      assert CanonicalizeFields(less, fields) == CanonicalFields(order, fields);
      FromEntriesSorted(less, CanonicalFields(order, fields));
    case _ =>
  }

  /** Queue job ids, connector imports and prompt manifests: one text exactly per value up to key order. */
  lemma RebuiltTextDecidesEquality(less: KeyOrder, a: Json, b: Json)
    requires StrictTotal(less) && WellFormed(a) && WellFormed(b)
    ensures Print(Canonicalize(less, a)) == Print(Canonicalize(less, b)) <==> EqualUpToKeyOrder(a, b)
    ensures Canonicalize(less, Canonicalize(less, a)) == Canonicalize(less, a)
  {
    var order := PropertyOrder(less);
    PropertyOrderStrictTotal(less);
    CanonicalizeIsCanonical(less, a);
    CanonicalizeIsCanonical(less, b);
    CanonicalTextDecidesEquality(order, a, b);
    CanonicalWellFormed(order, a);
    CanonicalizeIsCanonical(less, Canonical(order, a));
    CanonicalIdempotent(order, a);
  }

  /** The rebuilt form is the one value equal up to key order whose keys ascend in property order at every depth. */
  lemma RebuiltIsTheSortedForm(less: KeyOrder, j: Json, c: Json)
    requires StrictTotal(less) && WellFormed(j) && WellFormed(c)
    ensures c == Canonicalize(less, j) <==> EqualUpToKeyOrder(c, j) && Ascending(PropertyOrder(less), c)
  {
    PropertyOrderStrictTotal(less);
    CanonicalizeIsCanonical(less, j);
    CanonicalIsTheSortedForm(PropertyOrder(less), j, c);
  }

  // ----- printing the sorted entries directly -----

  /** The signed-manifest printer: sorts an object's entries, then prints each value recursively. */
  function DirectWrite(less: KeyOrder, j: Json, rest: string): string
    decreases j, 1, 0
  {
    match j
    case Arr(items) => ['['] + DirectItems(less, items, [']'] + rest)
    case Obj(fields) =>
      SortKeepsFields(less, fields);
      assert forall f | f in fields :: f.value < j;
      assert forall i | 0 <= i < |fields| :: SortFields(less, fields)[i] in fields;
      ['{'] + DirectFields(less, j, SortFields(less, fields), ['}'] + rest)
    case _ => Write(j, rest)
  }

  function DirectItems(less: KeyOrder, items: seq<Json>, rest: string): string
    decreases items, 0, 0
  {
    if items == [] then rest
    else DirectWrite(less, items[0], if |items| == 1 then rest else [','] + DirectItems(less, items[1..], rest))
  }

  function DirectFields(less: KeyOrder, ghost owner: Json, fields: seq<Field>, rest: string): string
    requires forall i | 0 <= i < |fields| :: fields[i].value < owner
    decreases owner, 0, |fields|
  {
    if fields == [] then rest
    else
      WriteString(fields[0].key, [':'] + DirectWrite(less, fields[0].value,
        if |fields| == 1 then rest else [','] + DirectFields(less, owner, fields[1..], rest)))
  }

  function DirectPrint(less: KeyOrder, j: Json): string {
    DirectWrite(less, j, "")
  }

  lemma {:induction false} InsertCommutes(less: KeyOrder, field: Field, sorted: seq<Field>)
    ensures Insert(less, CanonicalField(less, field), CanonicalFields(less, sorted))
         == CanonicalFields(less, Insert(less, field, sorted))
  {
    if sorted != [] && !less(field.key, sorted[0].key) {
      InsertCommutes(less, field, sorted[1..]);
    } else {
      assert ([field] + sorted)[1..] == sorted;
    }
  }

  lemma {:induction false} SortCommutes(less: KeyOrder, fields: seq<Field>)
    ensures SortFields(less, CanonicalFields(less, fields)) == CanonicalFields(less, SortFields(less, fields))
  {
    if fields != [] {
      SortCommutes(less, fields[1..]);
      assert CanonicalFields(less, fields)[1..] == CanonicalFields(less, fields[1..]);
      InsertCommutes(less, fields[0], SortFields(less, fields[1..]));
    }
  }

  lemma {:induction false} DirectWriteIsCanonical(less: KeyOrder, j: Json, rest: string)
    ensures DirectWrite(less, j, rest) == Write(Canonical(less, j), rest)
    decreases j, 1, 0
  {
    match j
    case Arr(items) =>
      DirectItemsAreCanonical(less, items, [']'] + rest);
    case Obj(fields) =>
      SortKeepsFields(less, fields);
      assert forall f | f in fields :: f.value < j;
      assert forall i | 0 <= i < |fields| :: SortFields(less, fields)[i] in fields;
      DirectFieldsAreCanonical(less, j, SortFields(less, fields), ['}'] + rest);
      SortCommutes(less, fields);
    case _ =>
  }

  lemma {:induction false} DirectItemsAreCanonical(less: KeyOrder, items: seq<Json>, rest: string)
    ensures DirectItems(less, items, rest) == WriteItems(CanonicalItems(less, items), rest)
    decreases items, 0, 0
  {
    if items != [] {
      if |items| > 1 {
        DirectItemsAreCanonical(less, items[1..], rest);
      }
      var next := if |items| == 1 then rest else [','] + DirectItems(less, items[1..], rest);
      DirectWriteIsCanonical(less, items[0], next);
      assert CanonicalItems(less, items)[1..] == CanonicalItems(less, items[1..]);
    }
  }

  lemma {:induction false} DirectFieldsAreCanonical(less: KeyOrder, owner: Json, fields: seq<Field>, rest: string)
    requires forall i | 0 <= i < |fields| :: fields[i].value < owner
    ensures DirectFields(less, owner, fields, rest) == WriteFields(CanonicalFields(less, fields), rest)
    decreases owner, 0, |fields|
  {
    if fields != [] {
      if |fields| > 1 {
        DirectFieldsAreCanonical(less, owner, fields[1..], rest);
      }
      var next := if |fields| == 1 then rest else [','] + DirectFields(less, owner, fields[1..], rest);
      DirectWriteIsCanonical(less, fields[0].value, next);
      assert CanonicalFields(less, fields)[1..] == CanonicalFields(less, fields[1..]);
    }
  }

  /** Signed manifests: the printed text decides equality up to key order. */
  lemma DirectTextDecidesEquality(less: KeyOrder, a: Json, b: Json)
    requires StrictTotal(less) && WellFormed(a) && WellFormed(b)
    ensures DirectPrint(less, a) == Print(Canonical(less, a))
    ensures DirectPrint(less, a) == DirectPrint(less, b) <==> EqualUpToKeyOrder(a, b)
  {
    DirectWriteIsCanonical(less, a, "");
    DirectWriteIsCanonical(less, b, "");
    CanonicalTextDecidesEquality(less, a, b);
  }
}
