/** What the match result depends on, and how a settled reversal closes the loop. */
module MatchTheorems {
  import opened Prelude
  import opened Reconcile
  import opened ReportOrder
  import opened Matcher

  /** The inputs determine the report: no trace of map iteration or of how ties were sorted. */
  lemma ReportIsUnique(a: Result, b: Result, internals: seq<Record>, externals: seq<Record>, window: int64)
    requires Reports(a, internals, externals, window) && Reports(b, internals, externals, window)
    ensures a == b
  {
    hide Sorted, OfClass, Expected, ReconciledRefs;
    SortedIsUnique(a.exceptions, b.exceptions);
  }

  // ---------------------------------------------------------------- input order

  /** Every class of every reference deserves the same of either pair of inputs. */
  ghost predicate SameGaps(internals: seq<Record>, externals: seq<Record>, internals': seq<Record>,
        externals': seq<Record>, window: int64) {
    forall c, r :: Expected(internals, externals, window, c, r) == Expected(internals', externals', window, c, r)
  }

  /** Repeated external references repeat the whole record; repeated internal ones too, unless the
      external record agrees with each of them. */
  ghost predicate OrderFree(internals: seq<Record>, externals: seq<Record>, window: int64) {
    && (forall x, y :: x in externals && y in externals && x.reference == y.reference ==> x == y)
    && (forall x, y :: x in internals && y in internals && x.kind != Reversal && y.kind != Reversal
                       && x.reference == y.reference && x != y ==>
          exists e :: e in externals && e.reference == x.reference && Agree(x, e, window) && Agree(y, e, window))
  }

  /** In particular when internal references are distinct and external repetitions are copies. */
  lemma DistinctIsOrderFree(internals: seq<Record>, externals: seq<Record>, window: int64)
    requires forall i, j :: 0 <= i < j < |internals| && internals[i].kind != Reversal && internals[j].kind != Reversal
                            ==> internals[i].reference != internals[j].reference
    requires forall x, y :: x in externals && y in externals && x.reference == y.reference ==> x == y
    ensures OrderFree(internals, externals, window)
  {
    forall x, y | x in internals && y in internals && x.kind != Reversal && y.kind != Reversal && x.reference == y.reference
      ensures x == y
    {
      var i :| 0 <= i < |internals| && internals[i] == x;
      var j :| 0 <= j < |internals| && internals[j] == y;
      assert i == j;
    }
  }

  lemma {:induction false} AllOfMultiset(s: seq<Record>, r: string, x: Record)
    ensures multiset(AllOf(s, r))[x] == if x.reference == r then multiset(s)[x] else 0
  {
    if s != [] {
      AllOfMultiset(s[..|s|-1], r, x);
      assert s == s[..|s|-1] + [s[|s|-1]];
    }
  }

  lemma SameMultiset(s: seq<Record>, t: seq<Record>, r: string)
    requires multiset(s) == multiset(t)
    ensures multiset(AllOf(s, r)) == multiset(AllOf(t, r))
  {
    forall x: Record ensures multiset(AllOf(s, r))[x] == multiset(AllOf(t, r))[x] {
      AllOfMultiset(s, r, x);
      AllOfMultiset(t, r, x);
    }
  }

  lemma SameMembers(s: seq<Record>, t: seq<Record>)
    requires multiset(s) == multiset(t)
    ensures forall x :: x in s <==> x in t
  {
    forall x: Record ensures x in s <==> x in t {
      assert x in s <==> x in multiset(s);
      assert x in t <==> x in multiset(t);
    }
  }

  /** Rearranging copies of one value changes nothing. */
  lemma CopiesAreEqual(a: seq<Record>, b: seq<Record>)
    requires multiset(a) == multiset(b)
    requires forall x, y :: x in a && y in a ==> x == y
    ensures a == b
  {
    assert |a| == |multiset(a)| == |multiset(b)| == |b|;
    SameMembers(a, b);
    forall i | 0 <= i < |a| ensures a[i] == b[i] {
      assert a[i] in a && b[i] in b;
    }
  }

  lemma SameExternals(internals: seq<Record>, externals: seq<Record>, externals': seq<Record>, window: int64, r: string)
    requires OrderFree(internals, externals, window) && multiset(externals') == multiset(externals)
    ensures AllOf(externals', r) == AllOf(externals, r)
  {
    hide AllOf;
    SameMultiset(externals, externals', r);
    AllOfMembers(externals, r);
    CopiesAreEqual(AllOf(externals, r), AllOf(externals', r));
  }

  /** The internal record is the same one, or both agree with the external record. */
  lemma SameInternal(internals: seq<Record>, externals: seq<Record>, internals': seq<Record>, window: int64, r: string)
    requires OrderFree(internals, externals, window) && multiset(internals') == multiset(internals)
    ensures var x, y := LastOf(internals, r), LastOf(internals', r);
            x == y || (x.Some? && y.Some? && AllOf(externals, r) != []
                       && Agree(x.value, AllOf(externals, r)[0], window) && Agree(y.value, AllOf(externals, r)[0], window))
  {
    hide AllOf, LastOf, Agree;
    SameMembers(internals, internals');
    LastOfMembers(internals, r);
    LastOfMembers(internals', r);
    assert IndexedRefs(internals) == IndexedRefs(internals');
    var x, y := LastOf(internals, r), LastOf(internals', r);
    if x != y {
      var e :| e in externals && e.reference == x.value.reference && Agree(x.value, e, window) && Agree(y.value, e, window);
      AllOfMembers(externals, r);
      assert e in AllOf(externals, r) && AllOf(externals, r)[0] in AllOf(externals, r);
    }
  }

  lemma OrderFreeIsEnough(internals: seq<Record>, externals: seq<Record>, internals': seq<Record>, externals': seq<Record>,
                          window: int64, c: Category, r: string)
    requires OrderFree(internals, externals, window)
    requires multiset(internals') == multiset(internals) && multiset(externals') == multiset(externals)
    ensures Expected(internals, externals, window, c, r) == Expected(internals', externals', window, c, r)
    ensures Reconciled(internals, externals, window, r) <==> Reconciled(internals', externals', window, r)
  {
    hide AllOf, LastOf, Agree, OrderFree;
    SameExternals(internals, externals, externals', window, r);
    SameInternal(internals, externals, internals', window, r);
    SameMembers(internals, internals');
  }

  /** A permutation of both inputs leaves the whole report as it was. */
  lemma MatchIgnoresOrder(a: Result, b: Result, internals: seq<Record>, externals: seq<Record>,
                          internals': seq<Record>, externals': seq<Record>, window: int64)
    requires OrderFree(internals, externals, window)
    requires multiset(internals') == multiset(internals) && multiset(externals') == multiset(externals)
    requires Reports(a, internals, externals, window) && Reports(b, internals', externals', window)
    ensures a == b
  {
    hide OrderFree, Sorted, OfClass, Expected, Reconciled;
    forall c, r
      ensures Expected(internals, externals, window, c, r) == Expected(internals', externals', window, c, r)
    {
      OrderFreeIsEnough(internals, externals, internals', externals', window, c, r);
    }
    forall r ensures Reconciled(internals, externals, window, r) <==> Reconciled(internals', externals', window, r) {
      OrderFreeIsEnough(internals, externals, internals', externals', window, Duplicate, r);
    }
    SameMembers(externals, externals');
    assert References(externals) == References(externals');
    assert ReconciledRefs(internals, externals, window) == ReconciledRefs(internals', externals', window);
    SortedIsUnique(a.exceptions, b.exceptions);
  }

  // ---------------------------------------------------------------- and nothing less will do

  function ToFront(s: seq<Record>, i: nat): seq<Record>
    requires i < |s|
  {
    [s[i]] + s[..i] + s[i + 1..]
  }

  function ToEnd(s: seq<Record>, i: nat): seq<Record>
    requires i < |s|
  {
    s[..i] + s[i + 1..] + [s[i]]
  }

  lemma Rearranged(s: seq<Record>, i: nat)
    requires i < |s|
    ensures multiset(ToFront(s, i)) == multiset(s) == multiset(ToEnd(s, i))
  {
    assert s == s[..i] + [s[i]] + s[i + 1..];
  }

  lemma {:induction false} AllOfHead(s: seq<Record>, r: string)
    requires s != [] && s[0].reference == r
    ensures AllOf(s, r) != [] && AllOf(s, r)[0] == s[0]
  {
    if |s| > 1 { AllOfHead(s[..|s|-1], r); }
  }

  lemma {:induction false} DuplicatesInjective(a: seq<Record>, b: seq<Record>)
    requires Duplicates(a) == Duplicates(b)
    ensures a == b
  {
    if a != [] && b != [] {
      var x, y := Duplicates(a[..|a|-1]), Duplicates(b[..|b|-1]);
      assert Duplicates(a)[..|Duplicates(a)|-1] == x && Duplicates(b)[..|Duplicates(b)|-1] == y;
      DuplicatesInjective(a[..|a|-1], b[..|b|-1]);
      assert Duplicates(a)[|Duplicates(a)|-1] == Duplicates(b)[|Duplicates(b)|-1];
      assert a == a[..|a|-1] + [a[|a|-1]] && b == b[..|b|-1] + [b[|b|-1]];
    }
  }

  /** Whichever of two external records with one reference comes first, the other is the duplicate. */
  lemma ExternalsMustBeCopies(internals: seq<Record>, externals: seq<Record>, window: int64, i: nat, j: nat)
    requires i < |externals| && j < |externals| && externals[i].reference == externals[j].reference
    requires SameGaps(internals, externals, internals, ToFront(externals, i), window)
    requires SameGaps(internals, externals, internals, ToFront(externals, j), window)
    ensures externals[i] == externals[j]
  {
    hide LastOf, AllOf, Duplicates, Agree;
    var r := externals[i].reference;
    var p, q := ToFront(externals, i), ToFront(externals, j);
    Rearranged(externals, i);
    Rearranged(externals, j);
    SameMultiset(p, q, r);
    AllOfHead(p, r);
    AllOfHead(q, r);
    assert Expected(internals, p, window, Duplicate, r) == Expected(internals, externals, window, Duplicate, r)
           == Expected(internals, q, window, Duplicate, r);
    DuplicatesInjective(AllOf(p, r)[1..], AllOf(q, r)[1..]);
    SameTail(AllOf(p, r), AllOf(q, r));
  }

  lemma SameTail(p: seq<Record>, q: seq<Record>)
    requires p != [] && q != [] && p[1..] == q[1..] && multiset(p) == multiset(q)
    ensures p[0] == q[0]
  {
    assert p == [p[0]] + p[1..] && q == [q[0]] + q[1..];
    assert multiset(p) == multiset{p[0]} + multiset(p[1..]);
    assert multiset(q) == multiset{q[0]} + multiset(p[1..]);
    assert multiset(p)[p[0]] == multiset(q)[p[0]];
  }

  lemma LastOfEnd(internals: seq<Record>, i: nat)
    requires i < |internals| && internals[i].kind != Reversal
    ensures LastOf(ToEnd(internals, i), internals[i].reference) == Some(internals[i])
  {
  }

  /** Of two internal records with one reference, the last one is reported, unless both agree with the external record. */
  lemma InternalsMustAgree(internals: seq<Record>, externals: seq<Record>, window: int64, i: nat, j: nat)
    requires i < |internals| && j < |internals| && internals[i].reference == internals[j].reference
    requires internals[i].kind != Reversal && internals[j].kind != Reversal && internals[i] != internals[j]
    requires SameGaps(internals, externals, ToEnd(internals, i), externals, window)
    requires SameGaps(internals, externals, ToEnd(internals, j), externals, window)
    ensures var theirs := AllOf(externals, internals[i].reference);
            theirs != [] && Agree(internals[i], theirs[0], window) && Agree(internals[j], theirs[0], window)
  {
    hide LastOf, AllOf, Agree, OwedReversal, ToEnd;
    var r := internals[i].reference;
    var p, q := ToEnd(internals, i), ToEnd(internals, j);
    LastOfEnd(internals, i);
    LastOfEnd(internals, j);
    forall c ensures Expected(p, externals, window, c, r) == Expected(q, externals, window, c, r) {
      assert Expected(internals, externals, window, c, r) == Expected(p, externals, window, c, r);
    }
    var owed := if OwedReversal(p, internals[i]) then PendingReversal else UnmatchedInternal;
    assert Expected(p, externals, window, owed, r) == Expected(q, externals, window, owed, r);
    assert Expected(p, externals, window, AmountMismatch, r) == Expected(q, externals, window, AmountMismatch, r);
  }

  /** The report is independent of the order of both inputs if and only if repeated references are as
      OrderFree asks. */
  lemma OrderFreeExactly(internals: seq<Record>, externals: seq<Record>, window: int64)
    ensures OrderFree(internals, externals, window) <==>
            forall internals', externals' :: multiset(internals') == multiset(internals) && multiset(externals') == multiset(externals)
              ==> SameGaps(internals, externals, internals', externals', window)
  {
    hide Expected, Agree;
    if OrderFree(internals, externals, window) {
      hide OrderFree;
      forall internals', externals' | multiset(internals') == multiset(internals) && multiset(externals') == multiset(externals)
        ensures SameGaps(internals, externals, internals', externals', window)
      {
        forall c, r ensures Expected(internals, externals, window, c, r) == Expected(internals', externals', window, c, r) {
          OrderFreeIsEnough(internals, externals, internals', externals', window, c, r);
        }
      }
    } else if forall internals', externals' :: multiset(internals') == multiset(internals) && multiset(externals') == multiset(externals)
                ==> SameGaps(internals, externals, internals', externals', window) {
      AlwaysSameIsOrderFree(internals, externals, window);
    }
  }

  lemma AlwaysSameIsOrderFree(internals: seq<Record>, externals: seq<Record>, window: int64)
    requires forall internals', externals' :: multiset(internals') == multiset(internals) && multiset(externals') == multiset(externals)
               ==> SameGaps(internals, externals, internals', externals', window)
    ensures OrderFree(internals, externals, window)
  {
    hide SameGaps, ToFront, ToEnd, Agree;
    forall x, y | x in externals && y in externals && x.reference == y.reference ensures x == y {
      var i :| 0 <= i < |externals| && externals[i] == x;
      var j :| 0 <= j < |externals| && externals[j] == y;
      Rearranged(externals, i);
      Rearranged(externals, j);
      ExternalsMustBeCopies(internals, externals, window, i, j);
    }
    forall x, y | x in internals && y in internals && x.kind != Reversal && y.kind != Reversal && x.reference == y.reference && x != y
      ensures exists e :: e in externals && e.reference == x.reference && Agree(x, e, window) && Agree(y, e, window)
    {
      var i :| 0 <= i < |internals| && internals[i] == x;
      var j :| 0 <= j < |internals| && internals[j] == y;
      Rearranged(internals, i);
      Rearranged(internals, j);
      InternalsMustAgree(internals, externals, window, i, j);
      AllOfMembers(externals, x.reference);
      assert AllOf(externals, x.reference)[0] in externals;
    }
  }

  /** A reused internal reference hides its earlier record: a failed transfer followed by a settled one
      is owed a reversal that the report never mentions, and in the other order it does. */
  lemma EarlierRecordIsHidden(failed: Record, settled: Record, window: int64)
    requires failed.kind == settled.kind == Transfer && failed.reference == settled.reference
    requires failed.status == Failed && settled.status == Settled
    ensures Expected([failed, settled], [], window, PendingReversal, failed.reference) == []
    ensures Expected([settled, failed], [], window, PendingReversal, failed.reference)
            == [Exception(PendingReversal, failed.reference, Some(failed), None, None)]
    ensures !OrderFree([failed, settled], [], window)
  {
    assert [failed, settled][..1] == [failed] && [settled, failed][..1] == [settled];
    assert failed in [failed, settled] && settled in [failed, settled];
  }

  // ---------------------------------------------------------------- the corrective loop

  function Resolved(es: seq<Exception>): seq<Exception> {
    if es == [] then [] else Resolved(es[..|es|-1]) + [es[|es|-1].(category := UnmatchedInternal)]
  }

  lemma {:induction false} LastOfSkipsReversal(front: seq<Record>, rev: Record, back: seq<Record>, r: string)
    requires rev.kind == Reversal
    ensures LastOf(front + [rev] + back, r) == LastOf(front + back, r)
  {
    if back == [] {
      assert front + [rev] + [] == front + [rev] && front + [] == front;
      LastOfAppend(front, rev, r);
    } else {
      var init, last := back[..|back|-1], back[|back|-1];
      assert front + [rev] + back == (front + [rev] + init) + [last] && front + back == (front + init) + [last];
      LastOfSkipsReversal(front, rev, init, r);
      LastOfAppend(front + [rev] + init, last, r);
      LastOfAppend(front + init, last, r);
    }
  }

  /** A settled reversal added anywhere in the internal list turns its reference's pending reversal into
      an unmatched internal record, and changes nothing else in the report. */
  lemma SettledReversalCloses(front: seq<Record>, rev: Record, back: seq<Record>, externals: seq<Record>, window: int64,
                              c: Category, r: string)
    requires IsSettledReversal(rev)
    ensures var before, after := front + back, front + [rev] + back;
            && Expected(after, externals, window, c, r)
               == (if r != rev.reference then Expected(before, externals, window, c, r)
                   else if c == PendingReversal then []
                   else if c == UnmatchedInternal
                     then Expected(before, externals, window, c, r) + Resolved(Expected(before, externals, window, PendingReversal, r))
                   else Expected(before, externals, window, c, r))
            && (Reconciled(after, externals, window, r) <==> Reconciled(before, externals, window, r))
  {
    hide LastOf, AllOf, Agree, HasSettledReversal;
    LastOfSkipsReversal(front, rev, back, r);
    LastOfMembers(front + back, r);
    ReversalResolves(front, rev, back, r);
  }

  lemma ReversalResolves(front: seq<Record>, rev: Record, back: seq<Record>, r: string)
    requires IsSettledReversal(rev)
    ensures HasSettledReversal(front + [rev] + back, r) <==> HasSettledReversal(front + back, r) || rev.reference == r
  {
    assert forall rec :: rec in front + [rev] + back <==> rec in front + back || rec == rev;
  }
}
