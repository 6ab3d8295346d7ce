/** Reconciliation vocabulary: records, exceptions, their order, and what should be reported. */
module Reconcile {
  import opened Prelude

  // ---------------------------------------------------------------- records

  datatype Kind = Transfer | Reversal | Fee | OtherKind(name: string)

  datatype RecordStatus = Pending | Debited | Settled | Failed | TimedOut | Reversed | OtherStatus(name: string)

  /** An instant, in nanoseconds after the zero time of the Go library (year 1). */
  type Instant = int

  datatype Record = Record(
    transactionId: string, reference: string, source: string, destination: string,
    amountMinor: int64, currency: string, kind: Kind, status: RecordStatus,
    initiatedAt: Instant, settledAt: Option<Instant>, metadata: map<string, string>)

  // ---------------------------------------------------------------- the time window

  /** Time.Sub: the difference, saturated to what a Duration can hold. */
  function Saturate(d: int): (r: int64)
    ensures -TWO63 <= d < TWO63 ==> r == d
  {
    if d < -TWO63 then -TWO63 else if d >= TWO63 then TWO63 - 1 else d
  }

  predicate IsZero(t: Instant) { t == 0 }

  function Abs(d: int): nat { if d < 0 then -d else d }

  /** What the tolerance check is for. */
  predicate Close(a: Instant, b: Instant, window: int64) {
    window <= 0 || IsZero(a) || IsZero(b) || Abs(a - b) <= window
  }

  /** The check as the code makes it: negating the smallest Duration leaves it negative. */
  predicate WithinWindow(a: Instant, b: Instant, window: int64) {
    window <= 0 || IsZero(a) || IsZero(b) ||
    var d: int := Saturate(a - b);
    (if d < 0 then Wrap(-d) else d) <= window
  }

  /** The code's check is the intended one for every pair of instants less than 2^63 nanoseconds apart,
      and beyond that exactly when the external instant is not the later one by so much, and the
      window is not the largest there is. */
  lemma WindowIsExact(a: Instant, b: Instant, window: int64)
    requires window > 0 && !IsZero(a) && !IsZero(b)
    ensures (WithinWindow(a, b, window) <==> Close(a, b, window))
            <==> a - b > -TWO63 && (a - b < TWO63 || window < TWO63 - 1)
  {
    assert Wrap(TWO63) == -TWO63;
  }

  /** An external record some 292 years and more after the internal one passes any window. */
  lemma FarFutureIsWithin(a: Instant, b: Instant, window: int64)
    requires window > 0 && a > 0 && b >= a + TWO63
    ensures WithinWindow(a, b, window) && !Close(a, b, window)
    ensures !WithinWindow(b, a, 1)
  {
    assert Wrap(TWO63) == -TWO63;
  }

  // ---------------------------------------------------------------- exceptions

  datatype Category = UnmatchedInternal | UnmatchedExternal | AmountMismatch | PendingReversal | Duplicate

  function Name(c: Category): string {
    match c
    case UnmatchedInternal => "unmatched_internal"
    case UnmatchedExternal => "unmatched_external"
    case AmountMismatch => "amount_mismatch"
    case PendingReversal => "pending_reversal"
    case Duplicate => "duplicate"
  }

  datatype Exception = Exception(
    category: Category, reference: string,
    internalRecord: Option<Record>, externalRecord: Option<Record>, deltaMinor: Option<int64>)

  datatype Result = Result(matchedCount: nat, exceptions: seq<Exception>)

  // ---------------------------------------------------------------- report order

  /** Strings by their first difference. */
  predicate Before(a: string, b: string) {
    b != [] && (a == [] || a[0] < b[0] || (a[0] == b[0] && Before(a[1..], b[1..])))
  }

  lemma {:induction false} BeforeIsTotal(a: string, b: string)
    ensures a == b || Before(a, b) || Before(b, a)
    ensures !(Before(a, b) && Before(b, a)) && !Before(a, a)
  {
    if a != [] && b != [] && a[0] == b[0] {
      BeforeIsTotal(a[1..], b[1..]);
      assert a == [a[0]] + a[1..] && b == [b[0]] + b[1..];
    }
    if a != [] { BeforeIsTotal(a[1..], a[1..]); }
  }

  lemma {:induction false} BeforeIsTransitive(a: string, b: string, c: string)
    requires Before(a, b) && Before(b, c)
    ensures Before(a, c)
  {
    if a != [] && a[0] == b[0] && b[0] == c[0] { BeforeIsTransitive(a[1..], b[1..], c[1..]); }
  }

  function DeltaKey(e: Exception): int64 {
    if e.deltaMinor.Some? then e.deltaMinor.value else 0
  }

  /** What the report is ordered by. */
  datatype SortKey = SortKey(category: Category, reference: string, delta: int64)

  function KeyOf(e: Exception): SortKey { SortKey(e.category, e.reference, DeltaKey(e)) }

  predicate KeyLess(k: SortKey, l: SortKey) {
    if k.category != l.category then Before(Name(k.category), Name(l.category))
    else if k.reference != l.reference then Before(k.reference, l.reference)
    else k.delta < l.delta
  }

  predicate Less(e: Exception, f: Exception) { KeyLess(KeyOf(e), KeyOf(f)) }

  lemma NamesDiffer(c: Category, d: Category)
    ensures Name(c) == Name(d) <==> c == d
  {
    assert forall x: Category :: |Name(x)| > 0;
    assert "unmatched_internal"[10] == 'i' && "unmatched_external"[10] == 'e';
  }

  lemma KeyLessIsTotal(k: SortKey, l: SortKey)
    ensures k == l || KeyLess(k, l) || KeyLess(l, k)
    ensures !(KeyLess(k, l) && KeyLess(l, k)) && !KeyLess(k, k)
  {
    hide Name, Before;
    NamesDiffer(k.category, l.category);
    BeforeIsTotal(Name(k.category), Name(l.category));
    BeforeIsTotal(k.reference, l.reference);
  }

  lemma KeyLessIsTransitive(k: SortKey, l: SortKey, m: SortKey)
    requires KeyLess(k, l) && KeyLess(l, m)
    ensures KeyLess(k, m)
  {
    hide Name, Before;
    KeyLessIsTotal(k, l);
    if k.category != l.category && l.category != m.category {
      BeforeIsTransitive(Name(k.category), Name(l.category), Name(m.category));
      BeforeIsTotal(Name(k.category), Name(m.category));
    } else if k.category == l.category == m.category && k.reference != l.reference && l.reference != m.reference {
      BeforeIsTransitive(k.reference, l.reference, m.reference);
      BeforeIsTotal(k.reference, m.reference);
    }
  }

  ghost predicate Sorted(ex: seq<Exception>) {
    forall i, j :: 0 <= i < j < |ex| ==> !Less(ex[j], ex[i])
  }

  // ---------------------------------------------------------------- what should be reported

  function ToSeq<T>(o: Option<T>): seq<T> { if o.Some? then [o.value] else [] }

  /** The internal record a reference stands for: the last one that is not a reversal. */
  function LastOf(internals: seq<Record>, r: string): Option<Record> {
    if internals == [] then None
    else
      var last := internals[|internals|-1];
      if last.reference == r && last.kind != Reversal then Some(last) else LastOf(internals[..|internals|-1], r)
  }

  /** The external records carrying a reference, in order of arrival. */
  function AllOf(externals: seq<Record>, r: string): seq<Record> {
    if externals == [] then []
    else
      var last := externals[|externals|-1];
      AllOf(externals[..|externals|-1], r) + (if last.reference == r then [last] else [])
  }

  predicate IsSettledReversal(rec: Record) {
    rec.kind == Reversal && (rec.status == Settled || rec.status == Reversed)
  }

  /** The reversal has posted, wherever in the internal list it stands. */
  predicate HasSettledReversal(internals: seq<Record>, r: string) {
    exists rec :: rec in internals && IsSettledReversal(rec) && rec.reference == r
  }

  predicate Agree(internalRecord: Record, externalRecord: Record, window: int64) {
    && externalRecord.amountMinor == internalRecord.amountMinor
    && externalRecord.currency == internalRecord.currency
    && WithinWindow(internalRecord.initiatedAt, externalRecord.initiatedAt, window)
  }

  /** External less internal, in wrapping int64. */
  function Delta(internalRecord: Record, externalRecord: Record): int64 {
    Wrap(externalRecord.amountMinor - internalRecord.amountMinor)
  }

  /** The reported difference is the true one exactly if it fits an int64. */
  lemma DeltaIsExact(internalRecord: Record, externalRecord: Record)
    ensures var d := externalRecord.amountMinor - internalRecord.amountMinor;
            Delta(internalRecord, externalRecord) == d <==> -TWO63 <= d < TWO63
  {
  }

  /** A transfer that failed or timed out is owed its reversal until one has settled. */
  predicate OwedReversal(internals: seq<Record>, rec: Record) {
    rec.kind == Transfer && (rec.status == Failed || rec.status == TimedOut) && !HasSettledReversal(internals, rec.reference)
  }

  function Duplicates(later: seq<Record>): seq<Exception> {
    if later == [] then []
    else
      var last := later[|later|-1];
      Duplicates(later[..|later|-1]) + [Exception(Duplicate, last.reference, None, Some(last), None)]
  }

  /** What a reference deserves in a category: nothing, one exception, or one per repetition. */
  function Expected(internals: seq<Record>, externals: seq<Record>, window: int64, c: Category, r: string): seq<Exception> {
    if c.PendingReversal? || c.UnmatchedInternal? then
      if AllOf(externals, r) == [] then Unanswered(internals, c, r) else []
    else
      ExternalSide(LastOf(internals, r), AllOf(externals, r), window, c, r)
  }

  /** For a reference no external record carries. */
  function Unanswered(internals: seq<Record>, c: Category, r: string): seq<Exception> {
    match LastOf(internals, r)
    case None => []
    case Some(rec) =>
      if c == (if OwedReversal(internals, rec) then PendingReversal else UnmatchedInternal)
      then [Exception(c, r, Some(rec), None, None)] else []
  }

  /** For the external records of one reference against the internal record, if any. */
  function ExternalSide(own: Option<Record>, theirs: seq<Record>, window: int64, c: Category, r: string): seq<Exception> {
    if theirs == [] then []
    else match c
      case Duplicate => Duplicates(theirs[1..])
      case UnmatchedExternal => if own.None? then [Exception(c, r, None, Some(theirs[0]), None)] else []
      case AmountMismatch =>
        if own.Some? && !Agree(own.value, theirs[0], window)
        then [Exception(c, r, own, Some(theirs[0]), Some(Delta(own.value, theirs[0])))] else []
      case _ => []
  }

  /** The reference is on both sides and its records agree. */
  predicate Reconciled(internals: seq<Record>, externals: seq<Record>, window: int64, r: string) {
    && LastOf(internals, r).Some? && AllOf(externals, r) != []
    && Agree(LastOf(internals, r).value, AllOf(externals, r)[0], window)
  }

  function References(recs: seq<Record>): set<string> { set rec | rec in recs :: rec.reference }

  function ReconciledRefs(internals: seq<Record>, externals: seq<Record>, window: int64): set<string> {
    set r | r in References(externals) && Reconciled(internals, externals, window, r)
  }

  /** The exceptions of one category and reference, in report order. */
  function OfClass(ex: seq<Exception>, c: Category, r: string): seq<Exception> {
    if ex == [] then []
    else
      var last := ex[|ex|-1];
      OfClass(ex[..|ex|-1], c, r) + (if last.category == c && last.reference == r then [last] else [])
  }

  function Count(ex: seq<Exception>, c: Category): nat {
    if ex == [] then 0 else Count(ex[..|ex|-1], c) + (if ex[|ex|-1].category == c then 1 else 0)
  }

  /** The report: exactly what each reference deserves in each category, in order. */
  ghost predicate Reports(res: Result, internals: seq<Record>, externals: seq<Record>, window: int64) {
    && Sorted(res.exceptions)
    && (forall c, r :: OfClass(res.exceptions, c, r) == Expected(internals, externals, window, c, r))
    && res.matchedCount == |ReconciledRefs(internals, externals, window)|
  }
}
