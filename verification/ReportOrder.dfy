/** Stable sorting of exceptions, and why a sorted report is the only one with its contents. */
module ReportOrder {
  import opened Prelude
  import opened Reconcile

  function OfKey(ex: seq<Exception>, k: SortKey): seq<Exception> {
    if ex == [] then []
    else OfKey(ex[..|ex|-1], k) + (if KeyOf(ex[|ex|-1]) == k then [ex[|ex|-1]] else [])
  }

  /** Puts e after everything it does not precede. */
  function Insert(ex: seq<Exception>, e: Exception): seq<Exception> {
    if ex == [] || !Less(e, ex[|ex|-1]) then ex + [e]
    else Insert(ex[..|ex|-1], e) + [ex[|ex|-1]]
  }

  lemma {:induction false} InsertMembers(ex: seq<Exception>, e: Exception, x: Exception)
    ensures x in Insert(ex, e) <==> x in ex || x == e
  {
    hide Less;
    if ex != [] {
      InsertMembers(ex[..|ex|-1], e, x);
      assert ex == ex[..|ex|-1] + [ex[|ex|-1]];
    }
  }

  lemma {:induction false} InsertKeepsSorted(ex: seq<Exception>, e: Exception)
    requires Sorted(ex)
    ensures Sorted(Insert(ex, e))
  {
    hide KeyLess, KeyOf;
    if ex != [] {
      var front, last := ex[..|ex|-1], ex[|ex|-1];
      KeyLessIsTotal(KeyOf(e), KeyOf(last));
      if Less(e, last) {
        InsertKeepsSorted(front, e);
        forall x | x in Insert(front, e) ensures !Less(last, x) {
          InsertMembers(front, e, x);
        }
      } else {
        forall i | 0 <= i < |ex| ensures !Less(e, ex[i]) {
          KeyLessIsTotal(KeyOf(ex[i]), KeyOf(last));
          if Less(e, ex[i]) && i < |ex| - 1 && KeyOf(ex[i]) != KeyOf(last) {
            KeyLessIsTransitive(KeyOf(e), KeyOf(ex[i]), KeyOf(last));
          }
        }
      }
    }
  }

  lemma {:induction false} InsertKeepsKey(ex: seq<Exception>, e: Exception, k: SortKey)
    ensures OfKey(Insert(ex, e), k) == OfKey(ex + [e], k)
  {
    hide KeyLess, KeyOf;
    assert (ex + [e])[..|ex|] == ex;
    if ex != [] && Less(e, ex[|ex|-1]) {
      var front, last := ex[..|ex|-1], ex[|ex|-1];
      KeyLessIsTotal(KeyOf(e), KeyOf(last));
      InsertKeepsKey(front, e, k);
      assert (front + [e])[..|front|] == front;
      assert Insert(ex, e)[..|Insert(ex, e)|-1] == Insert(front, e);
    }
  }

  lemma {:induction false} InsertCounts(ex: seq<Exception>, e: Exception, c: Category)
    ensures Count(Insert(ex, e), c) == Count(ex, c) + (if e.category == c then 1 else 0)
  {
    hide Less;
    assert (ex + [e])[..|ex|] == ex;
    if ex != [] {
      InsertCounts(ex[..|ex|-1], e, c);
      assert (Insert(ex[..|ex|-1], e) + [ex[|ex|-1]])[..|Insert(ex[..|ex|-1], e)|] == Insert(ex[..|ex|-1], e);
    }
  }

  /** Orders the report; exceptions with equal keys keep their order. */
  method SortExceptions(ex: seq<Exception>) returns (sorted: seq<Exception>)
    ensures Sorted(sorted)
    ensures forall k :: OfKey(sorted, k) == OfKey(ex, k)
    ensures forall c :: Count(sorted, c) == Count(ex, c)
  {
    hide Less, Count;
    sorted := [];
    assert ex[..0] == [];
    for i := 0 to |ex|
      invariant Sorted(sorted)
      invariant forall k :: OfKey(sorted, k) == OfKey(ex[..i], k)
      invariant forall c :: Count(sorted, c) == Count(ex[..i], c)
    {
      InsertKeepsSorted(sorted, ex[i]);
      forall k ensures OfKey(Insert(sorted, ex[i]), k) == OfKey(ex[..i + 1], k) {
        InsertKeepsKey(sorted, ex[i], k);
        KeyAppend(sorted, ex[i], k);
        KeyAppend(ex[..i], ex[i], k);
        assert ex[..i + 1] == ex[..i] + [ex[i]];
      }
      forall c ensures Count(Insert(sorted, ex[i]), c) == Count(ex[..i + 1], c) {
        InsertCounts(sorted, ex[i], c);
        CountAppend(ex[..i], ex[i], c);
        assert ex[..i + 1] == ex[..i] + [ex[i]];
      }
      sorted := Insert(sorted, ex[i]);
    }
    assert ex[..|ex|] == ex;
  }

  lemma KeyAppend(ex: seq<Exception>, e: Exception, k: SortKey)
    ensures OfKey(ex + [e], k) == OfKey(ex, k) + (if KeyOf(e) == k then [e] else [])
  {
    assert (ex + [e])[..|ex|] == ex;
  }

  lemma CountAppend(ex: seq<Exception>, e: Exception, c: Category)
    ensures Count(ex + [e], c) == Count(ex, c) + (if e.category == c then 1 else 0)
  {
    assert (ex + [e])[..|ex|] == ex;
  }

  lemma ClassAppend(ex: seq<Exception>, e: Exception, c: Category, r: string)
    ensures OfClass(ex + [e], c, r) == OfClass(ex, c, r) + (if e.category == c && e.reference == r then [e] else [])
  {
    assert (ex + [e])[..|ex|] == ex;
  }

  // ---------------------------------------------------------------- from keys to classes

  lemma {:induction false} KeyMember(ex: seq<Exception>, e: Exception)
    ensures e in ex <==> e in OfKey(ex, KeyOf(e))
  {
    if ex != [] {
      KeyMember(ex[..|ex|-1], e);
      assert ex == ex[..|ex|-1] + [ex[|ex|-1]];
    }
  }

  lemma {:induction false} ClassMember(ex: seq<Exception>, e: Exception, c: Category, r: string)
    ensures e in OfClass(ex, c, r) <==> e in ex && e.category == c && e.reference == r
  {
    if ex != [] {
      ClassMember(ex[..|ex|-1], e, c, r);
      assert ex == ex[..|ex|-1] + [ex[|ex|-1]];
    }
  }

  lemma {:induction false} ClassIsKey(ex: seq<Exception>, k: SortKey)
    requires forall e :: e in ex && e.category == k.category && e.reference == k.reference ==> DeltaKey(e) == k.delta
    ensures OfClass(ex, k.category, k.reference) == OfKey(ex, k)
  {
    hide DeltaKey;
    if ex != [] {
      assert ex == ex[..|ex|-1] + [ex[|ex|-1]];
      ClassIsKey(ex[..|ex|-1], k);
    }
  }

  /** Where a class has a single delta, a stable sort keeps the class in order. */
  lemma SortKeepsClass(ex: seq<Exception>, sorted: seq<Exception>, k: SortKey)
    requires forall l :: OfKey(sorted, l) == OfKey(ex, l)
    requires forall e :: e in ex && e.category == k.category && e.reference == k.reference ==> DeltaKey(e) == k.delta
    ensures OfClass(sorted, k.category, k.reference) == OfClass(ex, k.category, k.reference)
  {
    hide OfKey, OfClass;
    ClassIsKey(ex, k);
    forall e | e in sorted && e.category == k.category && e.reference == k.reference ensures DeltaKey(e) == k.delta {
      KeyMember(sorted, e);
      KeyMember(ex, e);
    }
    ClassIsKey(sorted, k);
  }

  // ---------------------------------------------------------------- uniqueness

  lemma ClassNonEmpty(a: seq<Exception>, b: seq<Exception>)
    requires forall c, r :: OfClass(a, c, r) == OfClass(b, c, r)
    requires a != []
    ensures a[|a|-1] in b
  {
    hide OfClass;
    var e := a[|a|-1];
    ClassMember(a, e, e.category, e.reference);
    ClassMember(b, e, e.category, e.reference);
  }

  lemma SortedEnd(a: seq<Exception>, e: Exception)
    requires Sorted(a) && e in a
    ensures e == a[|a|-1] || !Less(a[|a|-1], e)
  {
  }

  /** Two sorted reports with the same exceptions in every class are the same report. */
  lemma {:induction false} SortedIsUnique(a: seq<Exception>, b: seq<Exception>)
    requires Sorted(a) && Sorted(b)
    requires forall c, r :: OfClass(a, c, r) == OfClass(b, c, r)
    ensures a == b
  {
    hide KeyLess;
    if a == [] || b == [] {
      if a != [] { ClassNonEmpty(a, b); }
      if b != [] { ClassNonEmpty(b, a); }
    } else {
      var x, y := a[|a|-1], b[|b|-1];
      ClassNonEmpty(a, b);
      ClassNonEmpty(b, a);
      SortedEnd(a, y);
      SortedEnd(b, x);
      KeyLessIsTotal(KeyOf(x), KeyOf(y));
      assert KeyOf(x) == KeyOf(y);
      LastOfClass(a, x.category, x.reference);
      LastOfClass(b, x.category, x.reference);
      assert x == y;
      var restA, restB := a[..|a|-1], b[..|b|-1];
      forall c, r ensures OfClass(restA, c, r) == OfClass(restB, c, r) {
        CutClass(a, b, c, r);
      }
      SortedIsUnique(restA, restB);
      assert a == a[..|a|-1] + [x] && b == b[..|b|-1] + [y];
    }
  }

  lemma LastOfClass(a: seq<Exception>, c: Category, r: string)
    requires a != [] && a[|a|-1].category == c && a[|a|-1].reference == r
    ensures OfClass(a, c, r) != [] && OfClass(a, c, r)[|OfClass(a, c, r)|-1] == a[|a|-1]
  {
  }

  lemma CutClass(a: seq<Exception>, b: seq<Exception>, c: Category, r: string)
    requires a != [] && b != [] && a[|a|-1] == b[|b|-1] && OfClass(a, c, r) == OfClass(b, c, r)
    ensures OfClass(a[..|a|-1], c, r) == OfClass(b[..|b|-1], c, r)
  {
    var p, q := OfClass(a[..|a|-1], c, r), OfClass(b[..|b|-1], c, r);
    var tail := if a[|a|-1].category == c && a[|a|-1].reference == r then [a[|a|-1]] else [];
    assert p + tail == q + tail;
    assert p == (p + tail)[..|p|] && q == (q + tail)[..|q|];
  }
}
