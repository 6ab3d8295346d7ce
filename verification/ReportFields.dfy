/** What a report says, field by field and by position in the inputs. */
module ReportFields {
  import opened Prelude
  import opened Reconcile
  import opened ReportOrder

  // ---------------------------------------------------------------- the records that count

  /** The last record of its reference, reversals aside. */
  predicate IsOwn(internals: seq<Record>, i: nat) {
    && i < |internals| && internals[i].kind != Reversal
    && forall j :: i < j < |internals| ==> internals[j].kind == Reversal || internals[j].reference != internals[i].reference
  }

  /** The first record of its reference. */
  predicate IsFirst(externals: seq<Record>, k: nat) {
    k < |externals| && forall j :: 0 <= j < k ==> externals[j].reference != externals[k].reference
  }

  /** Off, without a time, close enough, or so far apart that the code's arithmetic gives out. */
  predicate Tolerated(a: Instant, b: Instant, window: int64) {
    || window <= 0 || a == 0 || b == 0
    || (if a < b then b - a else a - b) <= window
    || b - a >= TWO63
    || (a - b >= TWO63 && window == TWO63 - 1)
  }

  predicate SameMovement(own: Record, theirs: Record, window: int64) {
    && own.amountMinor == theirs.amountMinor
    && own.currency == theirs.currency
    && Tolerated(own.initiatedAt, theirs.initiatedAt, window)
  }

  /** The reversal of a transfer that failed or timed out has not settled anywhere in the list. */
  predicate AwaitsReversal(internals: seq<Record>, i: nat)
    requires i < |internals|
  {
    && internals[i].kind == Transfer && (internals[i].status == Failed || internals[i].status == TimedOut)
    && forall j :: 0 <= j < |internals| && internals[j].kind == Reversal && internals[j].reference == internals[i].reference
         ==> internals[j].status != Settled && internals[j].status != Reversed
  }

  // ---------------------------------------------------------------- the exceptions that are due

  ghost predicate MismatchOf(e: Exception, internals: seq<Record>, externals: seq<Record>, window: int64, i: nat, k: nat) {
    && IsOwn(internals, i) && IsFirst(externals, k) && internals[i].reference == externals[k].reference
    && !SameMovement(internals[i], externals[k], window)
    && e == Exception(AmountMismatch, externals[k].reference, Some(internals[i]), Some(externals[k]),
                      Some(Wrap(externals[k].amountMinor - internals[i].amountMinor)))
  }

  ghost predicate StrangerOf(e: Exception, internals: seq<Record>, externals: seq<Record>, k: nat) {
    && IsFirst(externals, k)
    && (forall i :: 0 <= i < |internals| && internals[i].reference == externals[k].reference ==> internals[i].kind == Reversal)
    && e == Exception(UnmatchedExternal, externals[k].reference, None, Some(externals[k]), None)
  }

  ghost predicate RepeatOf(e: Exception, externals: seq<Record>, k: nat) {
    k < |externals| && !IsFirst(externals, k)
    && e == Exception(Duplicate, externals[k].reference, None, Some(externals[k]), None)
  }

  ghost predicate UnansweredOf(e: Exception, internals: seq<Record>, externals: seq<Record>, i: nat) {
    && IsOwn(internals, i)
    && (forall k :: 0 <= k < |externals| ==> externals[k].reference != internals[i].reference)
    && e == Exception(if AwaitsReversal(internals, i) then PendingReversal else UnmatchedInternal,
                      internals[i].reference, Some(internals[i]), None, None)
  }

  ghost predicate IsDue(e: Exception, internals: seq<Record>, externals: seq<Record>, window: int64) {
    || (exists i: nat, k: nat :: MismatchOf(e, internals, externals, window, i, k))
    || (exists k: nat :: StrangerOf(e, internals, externals, k))
    || (exists k: nat :: RepeatOf(e, externals, k))
    || (exists i: nat :: UnansweredOf(e, internals, externals, i))
  }

  /** The reference's own record and its first external one tell the same. */
  ghost predicate PairOf(internals: seq<Record>, externals: seq<Record>, window: int64, r: string, i: nat, k: nat) {
    && IsOwn(internals, i) && IsFirst(externals, k)
    && internals[i].reference == r && externals[k].reference == r
    && SameMovement(internals[i], externals[k], window)
  }

  ghost predicate Paired(internals: seq<Record>, externals: seq<Record>, window: int64, r: string) {
    exists i: nat, k: nat :: PairOf(internals, externals, window, r, i, k)
  }

  ghost function PairedRefs(internals: seq<Record>, externals: seq<Record>, window: int64): set<string> {
    set r | r in References(externals) && Paired(internals, externals, window, r)
  }

  // ---------------------------------------------------------------- the order of the report

  function Rank(c: Category): nat {
    match c
    case AmountMismatch => 0
    case Duplicate => 1
    case PendingReversal => 2
    case UnmatchedExternal => 3
    case UnmatchedInternal => 4
  }

  /** a agrees with b up to k, and there it ends or has the smaller character. */
  predicate FirstDifference(a: string, b: string, k: nat) {
    k <= |a| && k < |b| && a[..k] == b[..k] && (k == |a| || a[k] < b[k])
  }

  ghost predicate Smaller(a: string, b: string) { exists k: nat :: FirstDifference(a, b, k) }

  /** Mismatches, duplicates, pending reversals, unmatched external, unmatched internal; then by
      reference; then by difference. */
  ghost predicate InOrder(e: Exception, f: Exception) {
    || Rank(e.category) < Rank(f.category)
    || (e.category == f.category && Smaller(e.reference, f.reference))
    || (e.category == f.category && e.reference == f.reference && DeltaKey(e) <= DeltaKey(f))
  }

  lemma SameStart(a: string, b: string, k: nat)
    requires FirstDifference(a, b, k)
    ensures k > 0 ==> a[0] == b[0]
  {
    if k > 0 { assert a[0] == a[..k][0] && b[0] == b[..k][0]; }
  }

  lemma {:induction false} BeforeExactly(a: string, b: string)
    ensures Before(a, b) <==> Smaller(a, b)
  {
    if a == [] || b == [] {
      if b != [] { assert FirstDifference(a, b, 0); }
    } else if a[0] != b[0] {
      if a[0] < b[0] { assert FirstDifference(a, b, 0); }
      if k: nat :| FirstDifference(a, b, k) {
        SameStart(a, b, k);
      }
    } else {
      BeforeExactly(a[1..], b[1..]);
      if k: nat :| FirstDifference(a[1..], b[1..], k) {
        assert a[..k + 1] == [a[0]] + a[1..][..k] && b[..k + 1] == [b[0]] + b[1..][..k];
        assert FirstDifference(a, b, k + 1);
      }
      if k: nat :| FirstDifference(a, b, k) {
        assert k > 0;
        assert a[1..][..k - 1] == a[..k][1..] && b[1..][..k - 1] == b[..k][1..];
        assert FirstDifference(a[1..], b[1..], k - 1);
      }
    }
  }

  /** The two names that differ only from the eleventh character on. */
  lemma ExternalBeforeInternal()
    ensures Before(Name(UnmatchedExternal), Name(UnmatchedInternal))
  {
    hide Before;
    var e, i := Name(UnmatchedExternal), Name(UnmatchedInternal);
    assert e == "unmatched_external" && i == "unmatched_internal";
    assert e[..10] == "unmatched_" == i[..10] && e[10] == 'e' && i[10] == 'i';
    assert FirstDifference(e, i, 10);
    BeforeExactly(e, i);
  }

  lemma Initials(c: Category)
    ensures Name(c) != []
    ensures Name(c)[0] == match c { case AmountMismatch => 'a' case Duplicate => 'd' case PendingReversal => 'p' case _ => 'u' }
  {
  }

  lemma NamesInOrder(c: Category, d: Category)
    ensures Before(Name(c), Name(d)) <==> Rank(c) < Rank(d)
  {
    hide Name, Before;
    Initials(c);
    Initials(d);
    BeforeIsTotal(Name(c), Name(d));
    ExternalBeforeInternal();
    if Name(c)[0] != Name(d)[0] { ByInitial(Name(c), Name(d)); }
  }

  lemma ByInitial(a: string, b: string)
    requires a != [] && b != [] && a[0] != b[0]
    ensures Before(a, b) <==> a[0] < b[0]
  {
  }

  lemma SortedInOrder(ex: seq<Exception>, i: nat, j: nat)
    requires Sorted(ex) && i < j < |ex|
    ensures InOrder(ex[i], ex[j])
  {
    hide Before, Name, Rank, Smaller;
    var e, f := ex[i], ex[j];
    assert !Less(f, e);
    NamesInOrder(f.category, e.category);
    NamesInOrder(e.category, f.category);
    NamesDiffer(e.category, f.category);
    BeforeIsTotal(Name(e.category), Name(f.category));
    BeforeIsTotal(e.reference, f.reference);
    BeforeExactly(e.reference, f.reference);
  }

  // ---------------------------------------------------------------- from the specification to the fields

  lemma ToleratedExactly(a: Instant, b: Instant, window: int64)
    ensures WithinWindow(a, b, window) <==> Tolerated(a, b, window)
  {
    assert Wrap(TWO63) == -TWO63;
  }

  lemma AgreeExactly(own: Record, theirs: Record, window: int64)
    ensures Agree(own, theirs, window) <==> SameMovement(own, theirs, window)
  {
    ToleratedExactly(own.initiatedAt, theirs.initiatedAt, window);
  }

  lemma {:induction false} LastOfIsOwn(internals: seq<Record>, r: string) returns (i: nat)
    ensures LastOf(internals, r).Some? ==>
              IsOwn(internals, i) && internals[i].reference == r && LastOf(internals, r) == Some(internals[i])
    ensures LastOf(internals, r).None? ==>
              forall j :: 0 <= j < |internals| && internals[j].reference == r ==> internals[j].kind == Reversal
  {
    i := 0;
    if internals != [] {
      var front, last := internals[..|internals|-1], internals[|internals|-1];
      if last.reference == r && last.kind != Reversal {
        i := |internals| - 1;
      } else {
        i := LastOfIsOwn(front, r);
        assert forall j :: 0 <= j < |front| ==> internals[j] == front[j];
      }
    }
  }

  /** There is only one own record of a reference. */
  lemma OwnIsUnique(internals: seq<Record>, i: nat, j: nat)
    requires IsOwn(internals, i) && IsOwn(internals, j) && internals[i].reference == internals[j].reference
    ensures i == j
  {
  }

  lemma {:induction false} AllOfIsFirst(externals: seq<Record>, r: string) returns (k: nat)
    ensures AllOf(externals, r) != [] ==>
              IsFirst(externals, k) && externals[k].reference == r && AllOf(externals, r)[0] == externals[k]
    ensures AllOf(externals, r) == [] ==> forall j :: 0 <= j < |externals| ==> externals[j].reference != r
  {
    k := 0;
    if externals != [] {
      var front := externals[..|externals|-1];
      assert forall j :: 0 <= j < |front| ==> externals[j] == front[j];
      var k' := AllOfIsFirst(front, r);
      k := if AllOf(front, r) != [] then k' else |externals| - 1;
    }
  }

  lemma FirstIsUnique(externals: seq<Record>, k: nat, l: nat)
    requires IsFirst(externals, k) && IsFirst(externals, l) && externals[k].reference == externals[l].reference
    ensures k == l
  {
  }

  /** What comes after the first is what is not the first. */
  lemma {:induction false} LaterOnes(externals: seq<Record>, r: string, x: Record)
    ensures AllOf(externals, r) != [] ==>
              (x in AllOf(externals, r)[1..]
               <==> exists k: nat :: k < |externals| && externals[k] == x && x.reference == r && !IsFirst(externals, k))
  {
    if externals != [] {
      var front, last, n := externals[..|externals|-1], externals[|externals|-1], |externals| - 1;
      assert forall j :: 0 <= j < n ==> externals[j] == front[j];
      assert forall k: nat :: k < n ==> (IsFirst(externals, k) <==> IsFirst(front, k));
      LaterOnes(front, r, x);
      var k0 := AllOfIsFirst(front, r);
      if AllOf(front, r) != [] {
        assert !IsFirst(externals, n) || last.reference != r;
        assert AllOf(externals, r)[1..] == AllOf(front, r)[1..] + (if last.reference == r then [last] else []);
        if k: nat :| k < |externals| && externals[k] == x && x.reference == r && !IsFirst(externals, k) {
          assert k == n || front[k] == x;
        }
      } else {
        assert AllOf(externals, r) == [] || AllOf(externals, r)[1..] == [];
        assert last.reference == r ==> IsFirst(externals, n);
      }
    }
  }

  lemma {:induction false} DuplicatesMembers(later: seq<Record>, e: Exception)
    ensures e in Duplicates(later) <==>
              e.externalRecord.Some? && e.externalRecord.value in later
              && e == Exception(Duplicate, e.externalRecord.value.reference, None, e.externalRecord, None)
  {
    if later != [] {
      DuplicatesMembers(later[..|later|-1], e);
      assert later == later[..|later|-1] + [later[|later|-1]];
    }
  }

  lemma OwedExactly(internals: seq<Record>, i: nat)
    requires i < |internals|
    ensures OwedReversal(internals, internals[i]) <==> AwaitsReversal(internals, i)
  {
    var r := internals[i].reference;
    if HasSettledReversal(internals, r) {
      var rec :| rec in internals && IsSettledReversal(rec) && rec.reference == r;
      var j :| 0 <= j < |internals| && internals[j] == rec;
    } else {
      forall j | 0 <= j < |internals| && internals[j].kind == Reversal && internals[j].reference == r
        ensures internals[j].status != Settled && internals[j].status != Reversed
      {
        assert internals[j] in internals;
      }
    }
  }

  lemma MismatchDue(e: Exception, internals: seq<Record>, externals: seq<Record>, window: int64)
    requires e.category == AmountMismatch
    ensures e in Expected(internals, externals, window, e.category, e.reference)
            <==> exists i: nat, k: nat :: MismatchOf(e, internals, externals, window, i, k)
  {
    hide LastOf, AllOf, Agree, SameMovement, IsOwn, IsFirst;
    var i := LastOfIsOwn(internals, e.reference);
    var k := AllOfIsFirst(externals, e.reference);
    if LastOf(internals, e.reference).Some? && AllOf(externals, e.reference) != [] {
      AgreeExactly(internals[i], externals[k], window);
      assert e in Expected(internals, externals, window, e.category, e.reference)
             ==> MismatchOf(e, internals, externals, window, i, k);
    }
    if i': nat, k': nat :| MismatchOf(e, internals, externals, window, i', k') {
      OwnFound(internals, i');
      FirstFound(externals, k');
      AgreeExactly(internals[i'], externals[k'], window);
    }
  }

  lemma OwnFound(internals: seq<Record>, i: nat)
    requires IsOwn(internals, i)
    ensures i < |internals| && LastOf(internals, internals[i].reference) == Some(internals[i])
  {
    hide LastOf;
    var j := LastOfIsOwn(internals, internals[i].reference);
    if LastOf(internals, internals[i].reference).Some? { OwnIsUnique(internals, i, j); }
  }

  lemma FirstFound(externals: seq<Record>, k: nat)
    requires IsFirst(externals, k)
    ensures k < |externals| && AllOf(externals, externals[k].reference) != []
            && AllOf(externals, externals[k].reference)[0] == externals[k]
  {
    hide AllOf;
    var l := AllOfIsFirst(externals, externals[k].reference);
    if AllOf(externals, externals[k].reference) != [] { FirstIsUnique(externals, k, l); }
  }

  lemma StrangerDue(e: Exception, internals: seq<Record>, externals: seq<Record>, window: int64)
    requires e.category == UnmatchedExternal
    ensures e in Expected(internals, externals, window, e.category, e.reference)
            <==> exists k: nat :: StrangerOf(e, internals, externals, k)
  {
    hide LastOf, AllOf, IsOwn, IsFirst;
    var i := LastOfIsOwn(internals, e.reference);
    var k := AllOfIsFirst(externals, e.reference);
    if LastOf(internals, e.reference).None? && AllOf(externals, e.reference) != [] {
      assert e in Expected(internals, externals, window, e.category, e.reference) ==> StrangerOf(e, internals, externals, k);
    }
    if k': nat :| StrangerOf(e, internals, externals, k') {
      FirstFound(externals, k');
      if LastOf(internals, e.reference).Some? { OwnIsThere(internals, i); }
    }
  }

  lemma OwnIsThere(internals: seq<Record>, i: nat)
    requires IsOwn(internals, i)
    ensures i < |internals| && internals[i].kind != Reversal
  {
  }

  lemma RepeatDue(e: Exception, internals: seq<Record>, externals: seq<Record>, window: int64)
    requires e.category == Duplicate
    ensures e in Expected(internals, externals, window, e.category, e.reference) <==> exists k: nat :: RepeatOf(e, externals, k)
  {
    hide LastOf, AllOf, Duplicates, IsFirst;
    var theirs := AllOf(externals, e.reference);
    var k := AllOfIsFirst(externals, e.reference);
    if theirs != [] { DuplicatesMembers(theirs[1..], e); }
    if e.externalRecord.Some? {
      var x := e.externalRecord.value;
      LaterOnes(externals, e.reference, x);
      if theirs != [] && x in theirs[1..] && e == Exception(Duplicate, x.reference, None, Some(x), None) {
        var k': nat :| k' < |externals| && externals[k'] == x && x.reference == e.reference && !IsFirst(externals, k');
        assert RepeatOf(e, externals, k');
      }
    }
  }

  lemma UnansweredDue(e: Exception, internals: seq<Record>, externals: seq<Record>, window: int64)
    requires e.category == PendingReversal || e.category == UnmatchedInternal
    ensures e in Expected(internals, externals, window, e.category, e.reference)
            <==> exists i: nat :: UnansweredOf(e, internals, externals, i)
  {
    hide LastOf, AllOf, OwedReversal, AwaitsReversal, IsOwn, IsFirst;
    var i := LastOfIsOwn(internals, e.reference);
    var k := AllOfIsFirst(externals, e.reference);
    if LastOf(internals, e.reference).Some? {
      OwnIsThere(internals, i);
      OwedExactly(internals, i);
      assert e in Expected(internals, externals, window, e.category, e.reference) ==> UnansweredOf(e, internals, externals, i);
    }
    if i': nat :| UnansweredOf(e, internals, externals, i') {
      OwnFound(internals, i');
      OwedExactly(internals, i');
      if AllOf(externals, e.reference) != [] { FirstIsThere(externals, k); }
    }
  }

  lemma FirstIsThere(externals: seq<Record>, k: nat)
    requires IsFirst(externals, k)
    ensures k < |externals|
  {
  }

  /** A report holds exactly the exceptions that are due. */
  lemma ReportedIsDue(res: Result, internals: seq<Record>, externals: seq<Record>, window: int64, e: Exception)
    requires Reports(res, internals, externals, window)
    ensures e in res.exceptions <==> IsDue(e, internals, externals, window)
  {
    hide Expected, OfClass, Sorted, MismatchOf, StrangerOf, RepeatOf, UnansweredOf, ReconciledRefs;
    ClassMember(res.exceptions, e, e.category, e.reference);
    assert OfClass(res.exceptions, e.category, e.reference) == Expected(internals, externals, window, e.category, e.reference);
    DueByCategory(e, internals, externals, window);
    match e.category {
      case AmountMismatch => MismatchDue(e, internals, externals, window);
      case UnmatchedExternal => StrangerDue(e, internals, externals, window);
      case Duplicate => RepeatDue(e, internals, externals, window);
      case _ => UnansweredDue(e, internals, externals, window);
    }
  }

  lemma DueByCategory(e: Exception, internals: seq<Record>, externals: seq<Record>, window: int64)
    ensures forall i: nat, k: nat :: MismatchOf(e, internals, externals, window, i, k) ==> e.category == AmountMismatch
    ensures forall k: nat :: StrangerOf(e, internals, externals, k) ==> e.category == UnmatchedExternal
    ensures forall k: nat :: RepeatOf(e, externals, k) ==> e.category == Duplicate
    ensures forall i: nat :: UnansweredOf(e, internals, externals, i)
              ==> e.category == PendingReversal || e.category == UnmatchedInternal
  {
  }

  /** The matched references are the paired ones. */
  lemma MatchedArePaired(internals: seq<Record>, externals: seq<Record>, window: int64)
    ensures ReconciledRefs(internals, externals, window) == PairedRefs(internals, externals, window)
  {
    forall r ensures Reconciled(internals, externals, window, r) <==> Paired(internals, externals, window, r) {
      ReconciledIsPaired(internals, externals, window, r);
    }
  }

  lemma ReconciledIsPaired(internals: seq<Record>, externals: seq<Record>, window: int64, r: string)
    ensures Reconciled(internals, externals, window, r) <==> Paired(internals, externals, window, r)
  {
    hide LastOf, AllOf, Agree, SameMovement, IsOwn, IsFirst;
    var i := LastOfIsOwn(internals, r);
    var k := AllOfIsFirst(externals, r);
    if LastOf(internals, r).Some? && AllOf(externals, r) != [] {
      AgreeExactly(internals[i], externals[k], window);
      assert Reconciled(internals, externals, window, r) ==> PairOf(internals, externals, window, r, i, k);
    }
    if i': nat, k': nat :| PairOf(internals, externals, window, r, i', k') {
      OwnFound(internals, i');
      FirstFound(externals, k');
      AgreeExactly(internals[i'], externals[k'], window);
    }
  }
}
