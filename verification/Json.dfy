/** Payload canonicalisation of `chain.rs`: object members are collected into
    a map ordered by key, at every depth. */
module Json {
  import opened Common

  datatype Atom = Null | Bool(b: bool) | Number(digits: string) | Text(s: string)

  datatype Field = Field(key: string, value: Value)

  /** `fields` keeps the order in which the members were written. */
  datatype Value = Scalar(atom: Atom) | Array(items: seq<Value>) | Object(fields: seq<Field>)

  /** Lexicographic order on keys. */
  predicate Less(a: string, b: string) {
    b != [] && (a == [] || a[0] < b[0] || (a[0] == b[0] && Less(a[1..], b[1..])))
  }

  lemma {:induction false} LessTotal(a: string, b: string)
    ensures Less(a, b) || a == b || Less(b, a)
    ensures !(Less(a, b) && Less(b, a)) && !Less(a, a)
  {
    if a != [] && b != [] {
      LessTotal(a[1..], b[1..]);
      if a[0] == b[0] && a[1..] == b[1..] {
        assert a == [a[0]] + a[1..] && b == [b[0]] + b[1..];
      }
    }
    if a != [] {
      LessIrreflexive(a);
    }
  }

  lemma {:induction false} LessIrreflexive(a: string)
    ensures !Less(a, a)
  {
    if a != [] {
      LessIrreflexive(a[1..]);
    }
  }

  lemma {:induction false} LessTransitive(a: string, b: string, c: string)
    requires Less(a, b) && Less(b, c)
    ensures Less(a, c)
  {
    if a != [] && a[0] == b[0] && b[0] == c[0] {
      LessTransitive(a[1..], b[1..], c[1..]);
    }
  }

  /** Insertion into an ordered map held as a list: an existing key is overwritten. */
  function Insert(sorted: seq<Field>, field: Field): seq<Field> {
    if sorted == [] || Less(field.key, sorted[0].key) then [field] + sorted
    else if field.key == sorted[0].key then [field] + sorted[1..]
    else [sorted[0]] + Insert(sorted[1..], field)
  }

  function Canonical(v: Value): Value
    decreases v
  {
    match v
    case Scalar(_) => v
    case Array(items) => Array(CanonicalItems(items))
    case Object(fields) => Object(CanonicalFields(fields))
  }

  function CanonicalItems(items: seq<Value>): (r: seq<Value>)
    ensures |r| == |items|
    decreases items
  {
    if items == [] then [] else [Canonical(items[0])] + CanonicalItems(items[1..])
  }

  function CanonicalFields(fields: seq<Field>): seq<Field>
    decreases fields
  {
    if fields == [] then []
    else
      var last := fields[|fields| - 1];
      Insert(CanonicalFields(fields[..|fields| - 1]), Field(last.key, Canonical(last.value)))
  }

  // ------------------------------------------------ the reference relation

  /** The value a member list gives a key: the last one written. */
  function Lookup(fields: seq<Field>, key: string): (r: Option<Value>)
    ensures r.Some? ==> exists i :: 0 <= i < |fields| && fields[i] == Field(key, r.value)
  {
    if fields == [] then None
    else if fields[|fields| - 1].key == key then Some(fields[|fields| - 1].value)
    else Lookup(fields[..|fields| - 1], key)
  }

  /** Equal up to the order of object members, at every depth. */
  ghost predicate Same(a: Value, b: Value)
    decreases a
  {
    match (a, b)
    case (Scalar(x), Scalar(y)) => x == y
    case (Array(xs), Array(ys)) => |xs| == |ys| && forall i | 0 <= i < |xs| :: Same(xs[i], ys[i])
    case (Object(fs), Object(gs)) =>
      (forall key: string ::
         match (Lookup(fs, key), Lookup(gs, key))
         case (None, None) => true
         case (Some(x), Some(y)) => Same(x, y)
         case _ => false)
    case _ => false
  }

  // --------------------------------------------------------- ordered lists

  ghost predicate Sorted(fields: seq<Field>) {
    forall i, j | 0 <= i < j < |fields| :: Less(fields[i].key, fields[j].key)
  }

  lemma {:induction false} InsertSorted(sorted: seq<Field>, field: Field)
    requires Sorted(sorted)
    ensures Sorted(Insert(sorted, field))
    ensures forall f | f in Insert(sorted, field) :: f == field || f in sorted
  {
    if sorted == [] {
    } else if Less(field.key, sorted[0].key) {
      forall j | 0 <= j < |sorted| ensures Less(field.key, sorted[j].key) {
        if j > 0 {
          LessTransitive(field.key, sorted[0].key, sorted[j].key);
        }
      }
    } else if field.key != sorted[0].key {
      LessTotal(field.key, sorted[0].key);
      InsertSorted(sorted[1..], field);
      var rest := Insert(sorted[1..], field);
      forall j | 0 <= j < |rest| ensures Less(sorted[0].key, rest[j].key) {
        assert rest[j] in rest;
      }
    }
  }

  /** The first entry with a key; on sorted lists it is the only one. */
  function Find(sorted: seq<Field>, key: string): (r: Option<Value>)
    ensures r.Some? ==> Field(key, r.value) in sorted
    ensures r.None? ==> forall f | f in sorted :: f.key != key
  {
    if sorted == [] then None
    else if sorted[0].key == key then Some(sorted[0].value)
    else Find(sorted[1..], key)
  }

  lemma {:induction false} FindInsert(sorted: seq<Field>, field: Field, key: string)
    requires Sorted(sorted)
    ensures Find(Insert(sorted, field), key) == if key == field.key then Some(field.value) else Find(sorted, key)
  {
    if sorted == [] {
      assert ([field] + sorted)[1..] == sorted;
    } else if Less(field.key, sorted[0].key) {
      assert ([field] + sorted)[1..] == sorted;
    } else if field.key == sorted[0].key {
      assert ([field] + sorted[1..])[1..] == sorted[1..];
    } else {
      FindInsert(sorted[1..], field, key);
      var rest := Insert(sorted[1..], field);
      assert ([sorted[0]] + rest)[1..] == rest;
    }
  }

  lemma {:induction false} SortedUnique(a: seq<Field>, b: seq<Field>)
    requires Sorted(a) && Sorted(b)
    requires forall key :: Find(a, key) == Find(b, key)
    ensures a == b
  {
    if a == [] {
      assert b != [] ==> Find(a, b[0].key) == Find(b, b[0].key);
    } else {
      assert Find(b, a[0].key) == Some(a[0].value);
      assert b != [] && Find(a, b[0].key) == Some(b[0].value);
      LessTotal(a[0].key, b[0].key);
      HeadLeast(a, b[0].key);
      HeadLeast(b, a[0].key);
      assert a[0] == b[0];
      forall key ensures Find(a[1..], key) == Find(b[1..], key) {
        assert Find(a, key) == Find(b, key);
        if key == a[0].key {
          TailLacksHead(a);
          TailLacksHead(b);
        }
      }
      SortedUnique(a[1..], b[1..]);
      assert a == [a[0]] + a[1..] && b == [b[0]] + b[1..];
    }
  }

  lemma HeadLeast(sorted: seq<Field>, key: string)
    requires Sorted(sorted) && sorted != [] && Find(sorted, key).Some?
    ensures !Less(key, sorted[0].key)
  {
    var i :| 0 <= i < |sorted| && sorted[i].key == key;
    LessTotal(key, sorted[0].key);
  }

  lemma TailLacksHead(sorted: seq<Field>)
    requires Sorted(sorted) && sorted != []
    ensures Find(sorted[1..], sorted[0].key).None?
  {
    forall f | f in sorted[1..] ensures f.key != sorted[0].key {
      LessIrreflexive(f.key);
    }
  }

  function Map(r: Option<Value>): Option<Value> {
    if r.Some? then Some(Canonical(r.value)) else None
  }

  /** The ordered form of a member list: sorted, and with the same value for
      every key, canonicalised. */
  lemma {:induction false} CanonicalFieldsFind(fields: seq<Field>, key: string)
    ensures Sorted(CanonicalFields(fields))
    ensures Find(CanonicalFields(fields), key) == Map(Lookup(fields, key))
  {
    if fields != [] {
      var last := fields[|fields| - 1];
      CanonicalFieldsFind(fields[..|fields| - 1], key);
      var before := CanonicalFields(fields[..|fields| - 1]);
      InsertSorted(before, Field(last.key, Canonical(last.value)));
      FindInsert(before, Field(last.key, Canonical(last.value)), key);
    }
  }

  lemma {:induction false} FindIsLookup(sorted: seq<Field>, key: string)
    requires Sorted(sorted)
    ensures Find(sorted, key) == Lookup(sorted, key)
  {
    var found, looked := Find(sorted, key), Lookup(sorted, key);
    LookupComplete(sorted, key);
    if found.Some? && looked.Some? {
      var i :| 0 <= i < |sorted| && sorted[i] == Field(key, found.value);
      var j :| 0 <= j < |sorted| && sorted[j] == Field(key, looked.value);
      LessIrreflexive(key);
      assert i == j;
    }
  }

  lemma {:induction false} LookupComplete(fields: seq<Field>, key: string)
    ensures Lookup(fields, key).None? ==> forall f | f in fields :: f.key != key
  {
    if fields != [] && fields[|fields| - 1].key != key {
      LookupComplete(fields[..|fields| - 1], key);
      assert fields == fields[..|fields| - 1] + [fields[|fields| - 1]];
    }
  }

  lemma {:induction false} CanonicalItemsAt(items: seq<Value>, i: nat)
    requires i < |items|
    ensures CanonicalItems(items)[i] == Canonical(items[i])
  {
    if i > 0 {
      CanonicalItemsAt(items[1..], i - 1);
    }
  }

  // ------------------------------------------------------------- theorems

  /** Canonical forms are equal exactly when the values agree up to member order. */
  lemma {:induction false} CanonicalIffSame(a: Value, b: Value)
    ensures Canonical(a) == Canonical(b) <==> Same(a, b)
    decreases a
  {
    match (a, b)
    case (Array(xs), Array(ys)) =>
      if |xs| == |ys| {
        forall i | 0 <= i < |xs|
          ensures CanonicalItems(xs)[i] == CanonicalItems(ys)[i] <==> Same(xs[i], ys[i])
        {
          CanonicalItemsAt(xs, i);
          CanonicalItemsAt(ys, i);
          CanonicalIffSame(xs[i], ys[i]);
        }
      }
    case (Object(fs), Object(gs)) =>
      forall key: string
        ensures Find(CanonicalFields(fs), key) == Find(CanonicalFields(gs), key) <==>
          match (Lookup(fs, key), Lookup(gs, key))
          case (None, None) => true
          case (Some(x), Some(y)) => Same(x, y)
          case _ => false
      {
        CanonicalFieldsFind(fs, key);
        CanonicalFieldsFind(gs, key);
        if Lookup(fs, key).Some? && Lookup(gs, key).Some? {
          CanonicalIffSame(Lookup(fs, key).value, Lookup(gs, key).value);
        }
      }
      CanonicalFieldsFind(fs, "");
      CanonicalFieldsFind(gs, "");
      if Same(a, b) {
        SortedUnique(CanonicalFields(fs), CanonicalFields(gs));
      }
    case _ =>
  }

  /** A value and its canonical form agree up to member order. */
  lemma {:induction false} CanonicalSame(v: Value)
    ensures Same(Canonical(v), v)
    decreases v
  {
    match v
    case Scalar(_) =>
    case Array(items) =>
      forall i | 0 <= i < |items| ensures Same(CanonicalItems(items)[i], items[i]) {
        CanonicalItemsAt(items, i);
        CanonicalSame(items[i]);
      }
    case Object(fields) =>
      forall key: string
        ensures match (Lookup(CanonicalFields(fields), key), Lookup(fields, key))
                case (None, None) => true
                case (Some(x), Some(y)) => Same(x, y)
                case _ => false
      {
        CanonicalFieldsFind(fields, key);
        FindIsLookup(CanonicalFields(fields), key);
        if Lookup(fields, key).Some? {
          CanonicalSame(Lookup(fields, key).value);
        }
      }
  }

  lemma CanonicalIdempotent(v: Value)
    ensures Canonical(Canonical(v)) == Canonical(v)
  {
    CanonicalSame(v);
    CanonicalIffSame(Canonical(v), v);
  }
}
