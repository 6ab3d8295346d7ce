/** The matcher: index the internal side, stream the external side past it, sort what is left over. */
module Matcher {
  import opened Prelude
  import opened Reconcile
  import opened ReportOrder
  import opened ReportFields

  /** An internal transfer awaiting its external counterpart. */
  datatype Entry = Entry(rec: Record, matched: bool)

  /** One read of the external stream; after the last read comes the end of the stream. */
  datatype Read = Item(rec: Record) | ReadError

  function Records(stream: seq<Read>): seq<Record> {
    if stream == [] then []
    else Records(stream[..|stream|-1]) + (if stream[|stream|-1].Item? then [stream[|stream|-1].rec] else [])
  }

  predicate Readable(stream: seq<Read>) { forall i :: 0 <= i < |stream| ==> stream[i].Item? }

  /** The references the index holds. */
  function IndexedRefs(internals: seq<Record>): set<string> {
    set rec | rec in internals && rec.kind != Reversal :: rec.reference
  }

  // ---------------------------------------------------------------- the external side, one record at a time

  /** What an external record not seen before adds to the report. */
  function FirstSight(own: Option<Record>, ext: Record, window: int64): Option<Exception> {
    match own
    case None => Some(Exception(UnmatchedExternal, ext.reference, None, Some(ext), None))
    case Some(rec) =>
      if Agree(rec, ext, window) then None
      else Some(Exception(AmountMismatch, ext.reference, Some(rec), Some(ext), Some(Delta(rec, ext))))
  }

  function Sight(own: Option<Record>, seen: bool, ext: Record, window: int64): Option<Exception> {
    if seen then Some(Exception(Duplicate, ext.reference, None, Some(ext), None)) else FirstSight(own, ext, window)
  }

  lemma AllOfAppend(externals: seq<Record>, ext: Record, r: string)
    ensures AllOf(externals + [ext], r) == AllOf(externals, r) + (if ext.reference == r then [ext] else [])
  {
    assert (externals + [ext])[..|externals|] == externals;
  }

  lemma {:induction false} AllOfMembers(externals: seq<Record>, r: string)
    ensures forall rec :: rec in AllOf(externals, r) <==> rec in externals && rec.reference == r
    ensures AllOf(externals, r) == [] <==> r !in References(externals)
  {
    if externals != [] {
      AllOfMembers(externals[..|externals|-1], r);
      assert externals == externals[..|externals|-1] + [externals[|externals|-1]];
    }
    if r in References(externals) {
      var rec :| rec in externals && rec.reference == r;
      assert rec in AllOf(externals, r);
    }
    if AllOf(externals, r) != [] { assert AllOf(externals, r)[0] in externals; }
  }

  /** The specification grows by just what the loop appends. */
  lemma ExternalSideGrows(own: Option<Record>, theirs: seq<Record>, ext: Record, window: int64, c: Category)
    ensures var e := Sight(own, theirs != [], ext, window);
            ExternalSide(own, theirs + [ext], window, c, ext.reference)
            == ExternalSide(own, theirs, window, c, ext.reference)
               + (if e.Some? && e.value.category == c then [e.value] else [])
  {
    if theirs != [] {
      var later := theirs[1..];
      assert (theirs + [ext])[1..] == later + [ext];
      assert (later + [ext])[..|later|] == later;
    } else {
      assert ([ext])[1..] == [];
    }
  }

  lemma {:induction false} LastOfMembers(internals: seq<Record>, r: string)
    ensures LastOf(internals, r).Some? <==> r in IndexedRefs(internals)
    ensures LastOf(internals, r).Some? ==>
              LastOf(internals, r).value in internals && LastOf(internals, r).value.reference == r
              && LastOf(internals, r).value.kind != Reversal
  {
    if internals != [] {
      var front, last := internals[..|internals|-1], internals[|internals|-1];
      assert internals == front + [last];
      LastOfMembers(front, r);
    }
  }

  /** The agreed references grow by the new one exactly when it is first seen and agrees. */
  lemma ReconciledGrow(internals: seq<Record>, externals: seq<Record>, ext: Record, window: int64)
    ensures var own, seen := LastOf(internals, ext.reference), ext.reference in References(externals);
            var was, now := ReconciledRefs(internals, externals, window), ReconciledRefs(internals, externals + [ext], window);
            if Sight(own, seen, ext, window).None? then ext.reference !in was && now == was + {ext.reference} else now == was
  {
    hide Agree, LastOf;
    var own, r0 := LastOf(internals, ext.reference), ext.reference;
    var all := externals + [ext];
    AllOfMembers(externals, r0);
    forall r ensures Reconciled(internals, all, window, r)
                     <==> Reconciled(internals, externals, window, r)
                          || (r == r0 && Sight(own, r0 in References(externals), ext, window).None?) {
      AllOfAppend(externals, ext, r);
    }
    assert References(all) == References(externals) + {r0} by {
      assert forall rec :: rec in all <==> rec in externals || rec == ext;
    }
    forall r ensures Reconciled(internals, externals, window, r) ==> r in References(externals) {
      AllOfMembers(externals, r);
    }
  }

  // ---------------------------------------------------------------- building the index

  lemma LastOfAppend(internals: seq<Record>, rec: Record, r: string)
    ensures LastOf(internals + [rec], r)
            == if rec.kind != Reversal && rec.reference == r then Some(rec) else LastOf(internals, r)
  {
    assert (internals + [rec])[..|internals|] == internals;
  }

  /** The index holds the last non-reversal record of each reference, and the marks of those seen. */
  ghost predicate Indexes(index: map<string, Entry>, internals: seq<Record>, seen: set<string>) {
    forall r ::
      && (r in index <==> LastOf(internals, r).Some?)
      && (r in index ==> index[r].rec == LastOf(internals, r).value && (index[r].matched <==> r in seen))
  }

  ghost predicate ResolvedAre(settled: set<string>, internals: seq<Record>) {
    forall r :: r in settled <==> HasSettledReversal(internals, r)
  }

  method BuildIndex(internals: seq<Record>) returns (index: map<string, Entry>, settled: set<string>)
    ensures Indexes(index, internals, {})
    ensures ResolvedAre(settled, internals)
  {
    hide LastOf, Indexes, ResolvedAre;
    index, settled := map[], {};
    assert internals[..0] == [];
    EmptyIndex();
    for i := 0 to |internals|
      invariant Indexes(index, internals[..i], {})
      invariant ResolvedAre(settled, internals[..i])
    {
      var rec := internals[i];
      assert internals[..i + 1] == internals[..i] + [rec];
      IndexGrows(index, internals[..i], rec);
      ResolvedGrow(settled, internals[..i], rec);
      if rec.kind == Reversal {
        if rec.status == Settled || rec.status == Reversed {
          settled := settled + {rec.reference};
        }
      } else {
        index := index[rec.reference := Entry(rec, false)];
      }
    }
    assert internals[..|internals|] == internals;
  }

  lemma EmptyIndex()
    ensures Indexes(map[], [], {}) && ResolvedAre({}, [])
  {
  }

  lemma IndexGrows(index: map<string, Entry>, internals: seq<Record>, rec: Record)
    requires Indexes(index, internals, {})
    ensures rec.kind != Reversal ==> Indexes(index[rec.reference := Entry(rec, false)], internals + [rec], {})
    ensures rec.kind == Reversal ==> Indexes(index, internals + [rec], {})
  {
    hide LastOf;
    forall r ensures LastOf(internals + [rec], r)
                     == if rec.kind != Reversal && rec.reference == r then Some(rec) else LastOf(internals, r) {
      LastOfAppend(internals, rec, r);
    }
  }

  lemma ResolvedGrow(settled: set<string>, internals: seq<Record>, rec: Record)
    requires ResolvedAre(settled, internals)
    ensures ResolvedAre(if IsSettledReversal(rec) then settled + {rec.reference} else settled, internals + [rec])
  {
    forall r ensures HasSettledReversal(internals + [rec], r)
                     <==> HasSettledReversal(internals, r) || (IsSettledReversal(rec) && rec.reference == r) {
      if HasSettledReversal(internals, r) {
        var x :| x in internals && IsSettledReversal(x) && x.reference == r;
        assert x in internals + [rec];
      }
      if IsSettledReversal(rec) && rec.reference == r {
        assert rec in internals + [rec];
      }
    }
  }

  // ---------------------------------------------------------------- the pass

  /** Everything the external side has contributed so far, class by class. */
  ghost predicate ExternalDone(ex: seq<Exception>, internals: seq<Record>, externals: seq<Record>, window: int64) {
    forall c, r :: OfClass(ex, c, r) == ExternalSide(LastOf(internals, r), AllOf(externals, r), window, c, r)
  }

  lemma ClassGrows(ex: seq<Exception>, internals: seq<Record>, externals: seq<Record>, ext: Record, window: int64,
                   c: Category, r: string)
    requires ExternalDone(ex, internals, externals, window)
    ensures var e := Sight(LastOf(internals, ext.reference), ext.reference in References(externals), ext, window);
            OfClass(if e.Some? then ex + [e.value] else ex, c, r)
            == ExternalSide(LastOf(internals, r), AllOf(externals + [ext], r), window, c, r)
  {
    hide ExternalSide, LastOf, AllOf, OfClass, Agree;
    var own := LastOf(internals, ext.reference);
    AllOfMembers(externals, ext.reference);
    var e := Sight(own, AllOf(externals, ext.reference) != [], ext, window);
    AllOfAppend(externals, ext, r);
    if e.Some? { ClassAppend(ex, e.value, c, r); }
    if r == ext.reference {
      ExternalSideGrows(own, AllOf(externals, r), ext, window, c);
    } else {
      assert AllOf(externals + [ext], r) == AllOf(externals, r);
    }
  }

  lemma ExternalDoneGrows(ex: seq<Exception>, internals: seq<Record>, externals: seq<Record>, ext: Record, window: int64)
    requires ExternalDone(ex, internals, externals, window)
    ensures var e := Sight(LastOf(internals, ext.reference), ext.reference in References(externals), ext, window);
            ExternalDone(if e.Some? then ex + [e.value] else ex, internals, externals + [ext], window)
  {
    hide ExternalSide, LastOf, AllOf, OfClass, Sight, References;
    var e := Sight(LastOf(internals, ext.reference), ext.reference in References(externals), ext, window);
    var ex' := if e.Some? then ex + [e.value] else ex;
    forall c, r
      ensures OfClass(ex', c, r) == ExternalSide(LastOf(internals, r), AllOf(externals + [ext], r), window, c, r)
    {
      ClassGrows(ex, internals, externals, ext, window, c, r);
    }
  }

  lemma RecordsOfReadable(stream: seq<Read>, i: nat)
    requires i < |stream|
    ensures Records(stream[..i + 1]) == Records(stream[..i]) + (if stream[i].Item? then [stream[i].rec] else [])
  {
    assert stream[..i + 1][..i] == stream[..i];
  }

  /** Every external record is agreed, mismatched, unmatched or a duplicate. */
  ghost predicate ExternalsAccounted(ex: seq<Exception>, matched: nat, externals: seq<Record>) {
    |externals| == matched + Count(ex, AmountMismatch) + Count(ex, UnmatchedExternal) + Count(ex, Duplicate)
  }

  /** Every index entry marked so far is agreed or mismatched; nothing internal is reported yet. */
  ghost predicate InternalsAccounted(ex: seq<Exception>, matched: nat, internals: seq<Record>, index: map<string, Entry>) {
    && (forall r :: r in index <==> r in IndexedRefs(internals))
    && |Marked(index)| == matched + Count(ex, AmountMismatch)
    && Count(ex, UnmatchedInternal) == 0 && Count(ex, PendingReversal) == 0
  }

  function Marked(index: map<string, Entry>): set<string> { set r | r in index && index[r].matched }

  lemma NothingYet(internals: seq<Record>, window: int64, index: map<string, Entry>)
    requires Indexes(index, internals, {})
    ensures ExternalDone([], internals, [], window)
    ensures ReconciledRefs(internals, [], window) == {} && References([]) == {}
    ensures ExternalsAccounted([], 0, []) && InternalsAccounted([], 0, internals, index)
  {
    hide LastOf;
    forall r ensures r in index <==> r in IndexedRefs(internals) {
      LastOfMembers(internals, r);
    }
    assert Marked(index) == {};
  }

  lemma ReferencesAppend(externals: seq<Record>, ext: Record)
    ensures References(externals + [ext]) == References(externals) + {ext.reference}
  {
    assert forall rec :: rec in externals + [ext] <==> rec in externals || rec == ext;
  }

  lemma LookUp(index: map<string, Entry>, internals: seq<Record>, seen: set<string>, r: string)
    requires Indexes(index, internals, seen)
    ensures r in index <==> LastOf(internals, r).Some?
    ensures r in index ==> LastOf(internals, r) == Some(index[r].rec) && (index[r].matched <==> r in seen)
    ensures r in index ==> Indexes(index[r := index[r].(matched := true)], internals, seen + {r})
    ensures r !in index ==> Indexes(index, internals, seen + {r})
  {
    hide LastOf;
  }

  lemma SeenAgain(index: map<string, Entry>, internals: seq<Record>, seen: set<string>, r: string)
    requires r in seen
    ensures seen + {r} == seen
  {
  }

  /** One more external record, in whichever branch, keeps the accounts. */
  lemma Accounts(ex: seq<Exception>, matched: nat, internals: seq<Record>, externals: seq<Record>,
                 index: map<string, Entry>, ext: Record, window: int64)
    requires ExternalsAccounted(ex, matched, externals) && InternalsAccounted(ex, matched, internals, index)
    requires ext.reference in index ==> (index[ext.reference].matched <==> ext.reference in References(externals))
    ensures var r := ext.reference;
            var seen := r in References(externals);
            var e := Sight(if r in index then Some(index[r].rec) else None, seen, ext, window);
            var ex' := if e.Some? then ex + [e.value] else ex;
            var matched' := if e.Some? then matched else matched + 1;
            var index' := if !seen && r in index then index[r := index[r].(matched := true)] else index;
            ExternalsAccounted(ex', matched', externals + [ext]) && InternalsAccounted(ex', matched', internals, index')
  {
    hide Count, Agree;
    var r, seen := ext.reference, ext.reference in References(externals);
    var e := Sight(if r in index then Some(index[r].rec) else None, seen, ext, window);
    if e.Some? {
      forall c ensures Count(ex + [e.value], c) == Count(ex, c) + (if e.value.category == c then 1 else 0) {
        CountAppend(ex, e.value, c);
      }
    }
    if !seen && r in index {
      assert Marked(index[r := index[r].(matched := true)]) == Marked(index) + {r};
      assert r !in Marked(index);
    }
  }

  /** What has been established once the given external records have gone past. */
  ghost predicate Pass(index: map<string, Entry>, ex: seq<Exception>, matched: nat,
                       internals: seq<Record>, externals: seq<Record>, window: int64) {
    && Indexes(index, internals, References(externals))
    && ExternalDone(ex, internals, externals, window)
    && matched == |ReconciledRefs(internals, externals, window)|
    && ExternalsAccounted(ex, matched, externals)
    && InternalsAccounted(ex, matched, internals, index)
  }

  lemma PassGrows(index: map<string, Entry>, ex: seq<Exception>, matched: nat,
                  internals: seq<Record>, externals: seq<Record>, window: int64, ext: Record)
    requires Pass(index, ex, matched, internals, externals, window)
    ensures var r := ext.reference;
            var seen := r in References(externals);
            var e := Sight(if r in index then Some(index[r].rec) else None, seen, ext, window);
            && Pass(if !seen && r in index then index[r := index[r].(matched := true)] else index,
                    if e.Some? then ex + [e.value] else ex, if e.Some? then matched else matched + 1,
                    internals, externals + [ext], window)
            && References(externals + [ext]) == References(externals) + {r}
  {
    hide Indexes, ExternalDone, ReconciledRefs, ExternalsAccounted, InternalsAccounted, References, Sight, LastOf;
    var r, seen := ext.reference, ext.reference in References(externals);
    ReferencesAppend(externals, ext);
    LookUp(index, internals, References(externals), r);
    ExternalDoneGrows(ex, internals, externals, ext, window);
    ReconciledGrow(internals, externals, ext, window);
    Accounts(ex, matched, internals, externals, index, ext, window);
    if seen { SeenAgain(index, internals, References(externals), r); }
  }

  lemma PassStarts(index: map<string, Entry>, internals: seq<Record>, window: int64)
    requires Indexes(index, internals, {})
    ensures Pass(index, [], 0, internals, [], window) && References([]) == {}
  {
    hide Indexes, ExternalDone, ExternalsAccounted, InternalsAccounted;
    NothingYet(internals, window, index);
  }

  /** Streams the external side past the index. Fails exactly if some read fails. */
  method StreamExternal(index0: map<string, Entry>, stream: seq<Read>, window: int64, ghost internals: seq<Record>)
      returns (ok: bool, index: map<string, Entry>, exceptions: seq<Exception>, matched: nat)
    requires Indexes(index0, internals, {})
    ensures ok <==> Readable(stream)
    ensures ok ==> Pass(index, exceptions, matched, internals, Records(stream), window)
  {
    hide Pass, Indexes, References;
    index, exceptions, matched := index0, [], 0;
    var seen: set<string> := {};
    PassStarts(index, internals, window);
    assert stream[..0] == [];
    for i := 0 to |stream|
      invariant Readable(stream[..i])
      invariant seen == References(Records(stream[..i]))
      invariant Pass(index, exceptions, matched, internals, Records(stream[..i]), window)
    {
      if stream[i].ReadError? { return false, index, exceptions, matched; }
      var ext := stream[i].rec;
      RecordsOfReadable(stream, i);
      PassGrows(index, exceptions, matched, internals, Records(stream[..i]), window, ext);
      if ext.reference in seen {
        assert seen + {ext.reference} == seen;
        exceptions := exceptions + [Exception(Duplicate, ext.reference, None, Some(ext), None)];
        continue;
      }
      seen := seen + {ext.reference};
      if ext.reference !in index {
        exceptions := exceptions + [Exception(UnmatchedExternal, ext.reference, None, Some(ext), None)];
        continue;
      }
      var entry := index[ext.reference];
      index := index[ext.reference := entry.(matched := true)];
      if ext.amountMinor != entry.rec.amountMinor || ext.currency != entry.rec.currency
         || !WithinWindow(entry.rec.initiatedAt, ext.initiatedAt, window) {
        var delta := Wrap(ext.amountMinor - entry.rec.amountMinor);
        exceptions := exceptions + [Exception(AmountMismatch, ext.reference, Some(entry.rec), Some(ext), Some(delta))];
        continue;
      }
      matched := matched + 1;
    }
    ok := true;
    assert stream[..|stream|] == stream;
  }

  // ---------------------------------------------------------------- what the stream left over

  function Unmarked(index: map<string, Entry>): set<string> { set r | r in index && !index[r].matched }

  predicate Leftover(index: map<string, Entry>, done: set<string>, r: string) {
    r in done && r in index && !index[r].matched
  }

  /** The entries in done have added their exceptions to ex0, class by class. */
  ghost predicate Swept(ex: seq<Exception>, ex0: seq<Exception>, index: map<string, Entry>, internals: seq<Record>,
        done: set<string>) {
    && (forall c, r :: OfClass(ex, c, r) == OfClass(ex0, c, r) + (if Leftover(index, done, r) then Unanswered(internals, c, r) else []))
    && (forall c :: c != UnmatchedInternal && c != PendingReversal ==> Count(ex, c) == Count(ex0, c))
    && Count(ex, UnmatchedInternal) + Count(ex, PendingReversal)
       == Count(ex0, UnmatchedInternal) + Count(ex0, PendingReversal) + |Unmarked(index) * done|
  }

  lemma SweepClass(ex: seq<Exception>, ex0: seq<Exception>, index: map<string, Entry>, internals: seq<Record>,
                   done: set<string>, r0: string, settled: set<string>, c: Category, r: string)
    requires Swept(ex, ex0, index, internals, done) && r0 in index && r0 !in done && !index[r0].matched
    requires LastOf(internals, r0) == Some(index[r0].rec) && ResolvedAre(settled, internals)
    ensures var e := LeftoverException(index[r0].rec, settled);
            OfClass(ex + [e], c, r)
            == OfClass(ex0, c, r) + (if Leftover(index, done + {r0}, r) then Unanswered(internals, c, r) else [])
  {
    hide OfClass, LastOf, HasSettledReversal;
    LastOfMembers(internals, r0);
    ClassAppend(ex, LeftoverException(index[r0].rec, settled), c, r);
  }

  lemma SweepGrows(ex: seq<Exception>, ex0: seq<Exception>, index: map<string, Entry>, internals: seq<Record>,
                   done: set<string>, r0: string, settled: set<string>)
    requires Swept(ex, ex0, index, internals, done) && r0 in index && r0 !in done
    requires LastOf(internals, r0) == Some(index[r0].rec) && ResolvedAre(settled, internals)
    ensures Swept(if index[r0].matched then ex else ex + [LeftoverException(index[r0].rec, settled)],
                  ex0, index, internals, done + {r0})
  {
    hide OfClass, LastOf, ResolvedAre, Unanswered, Count;
    if index[r0].matched {
      assert Unmarked(index) * (done + {r0}) == Unmarked(index) * done;
    } else {
      var e := LeftoverException(index[r0].rec, settled);
      assert Unmarked(index) * (done + {r0}) == Unmarked(index) * done + {r0};
      var ex' := ex + [e];
      forall c, r ensures OfClass(ex', c, r)
                          == OfClass(ex0, c, r) + (if Leftover(index, done + {r0}, r) then Unanswered(internals, c, r) else []) {
        SweepClass(ex, ex0, index, internals, done, r0, settled, c, r);
      }
      forall c ensures Count(ex', c) == Count(ex, c) + (if e.category == c then 1 else 0) { CountAppend(ex, e, c); }
    }
  }

  /** classifyUnmatchedInternal, on the set of resolved references. */
  function Classify(rec: Record, settled: set<string>): Category {
    if rec.kind == Transfer && (rec.status == Failed || rec.status == TimedOut) && rec.reference !in settled
    then PendingReversal else UnmatchedInternal
  }

  function LeftoverException(rec: Record, settled: set<string>): Exception {
    Exception(Classify(rec, settled), rec.reference, Some(rec), None, None)
  }

  /** Visits the entries of the index in an order nobody controls. */
  method SweepIndex(index: map<string, Entry>, settled: set<string>, ex0: seq<Exception>,
                    ghost internals: seq<Record>, ghost seen: set<string>)
      returns (ex: seq<Exception>)
    requires Indexes(index, internals, seen) && ResolvedAre(settled, internals)
    ensures Swept(ex, ex0, index, internals, index.Keys)
  {
    hide Swept, Indexes, ResolvedAre;
    ex := ex0;
    var left := index.Keys;
    SweepStarts(ex0, index, internals);
    while left != {}
      invariant left <= index.Keys
      invariant Swept(ex, ex0, index, internals, index.Keys - left)
      decreases |left|
    {
      var r :| r in left;
      LookUp(index, internals, seen, r);
      SweepGrows(ex, ex0, index, internals, index.Keys - left, r, settled);
      assert index.Keys - (left - {r}) == index.Keys - left + {r};
      var entry := index[r];
      left := left - {r};
      if entry.matched { continue; }
      ex := ex + [LeftoverException(entry.rec, settled)];
    }
    assert index.Keys - {} == index.Keys;
  }

  lemma SweepStarts(ex: seq<Exception>, index: map<string, Entry>, internals: seq<Record>)
    ensures Swept(ex, ex, index, internals, index.Keys - index.Keys)
  {
    assert Unmarked(index) * (index.Keys - index.Keys) == {};
  }

  // ---------------------------------------------------------------- the whole match

  /** Before sorting, every class already holds what it should. */
  lemma ClassesComplete(ex: seq<Exception>, ex0: seq<Exception>, index: map<string, Entry>,
                        internals: seq<Record>, externals: seq<Record>, window: int64, c: Category, r: string)
    requires Indexes(index, internals, References(externals)) && ExternalDone(ex0, internals, externals, window)
    requires Swept(ex, ex0, index, internals, index.Keys)
    ensures OfClass(ex, c, r) == Expected(internals, externals, window, c, r)
  {
    hide OfClass, LastOf, AllOf, Agree, OwedReversal, References, Duplicates, Count, Unmarked;
    AllOfMembers(externals, r);
    assert OfClass(ex0, c, r) == ExternalSide(LastOf(internals, r), AllOf(externals, r), window, c, r);
  }

  lemma {:induction false} DuplicatesHaveNoDelta(later: seq<Record>)
    ensures forall e :: e in Duplicates(later) ==> DeltaKey(e) == 0
  {
    if later != [] { DuplicatesHaveNoDelta(later[..|later|-1]); }
  }

  function ClassDelta(es: seq<Exception>): int64 { if es == [] then 0 else DeltaKey(es[0]) }

  lemma OneDelta(internals: seq<Record>, externals: seq<Record>, window: int64, c: Category, r: string)
    ensures var es := Expected(internals, externals, window, c, r);
            forall e :: e in es ==> DeltaKey(e) == ClassDelta(es)
  {
    hide Agree, AllOf, LastOf, OwedReversal;
    var theirs := AllOf(externals, r);
    if c.Duplicate? && theirs != [] { DuplicatesHaveNoDelta(theirs[1..]); }
  }

  lemma SortedClass(ex: seq<Exception>, sorted: seq<Exception>, internals: seq<Record>, externals: seq<Record>,
        window: int64,
                    c: Category, r: string)
    requires OfClass(ex, c, r) == Expected(internals, externals, window, c, r)
    requires forall k :: OfKey(sorted, k) == OfKey(ex, k)
    ensures OfClass(sorted, c, r) == Expected(internals, externals, window, c, r)
  {
    hide Expected, OfKey, OfClass, DeltaKey;
    var es := Expected(internals, externals, window, c, r);
    OneDelta(internals, externals, window, c, r);
    forall e | e in ex && e.category == c && e.reference == r ensures DeltaKey(e) == ClassDelta(es) {
      ClassMember(ex, e, c, r);
    }
    SortKeepsClass(ex, sorted, SortKey(c, r, ClassDelta(es)));
  }

  /** The entries split into those marked and those left over. */
  lemma IndexSplits(index: map<string, Entry>, refs: set<string>)
    requires forall r :: r in index <==> r in refs
    ensures |refs| == |Marked(index)| + |Unmarked(index) * index.Keys|
  {
    assert refs == Marked(index) + Unmarked(index) * index.Keys;
  }

  /** The report of both sides' gaps, or the failure to read the external side.
      External records split exactly into agreed, mismatched, unmatched and duplicate ones, and distinct
      internal references into agreed, mismatched, unmatched and owed a reversal. */
  method Match(internals: seq<Record>, stream: seq<Read>, window: int64) returns (res: Option<Result>)
    ensures res.Some? <==> Readable(stream)
    ensures res.Some? ==> |Records(stream)| == |stream| && forall i :: 0 <= i < |stream| ==> stream[i] == Item(Records(stream)[i])
    ensures res.Some? ==> Reports(res.value, internals, Records(stream), window)
    ensures res.Some? ==> forall e :: e in res.value.exceptions <==> IsDue(e, internals, Records(stream), window)
    ensures res.Some? ==> res.value.matchedCount == |PairedRefs(internals, Records(stream), window)|
    ensures res.Some? ==> var ex := res.value.exceptions; forall i: nat, j: nat :: i < j < |ex| ==> InOrder(ex[i], ex[j])
    ensures res.Some? ==>
              var (m, ex) := (res.value.matchedCount, res.value.exceptions);
              && |Records(stream)| == m + Count(ex, AmountMismatch) + Count(ex, UnmatchedExternal) + Count(ex, Duplicate)
              && |IndexedRefs(internals)|
                 == m + Count(ex, AmountMismatch) + Count(ex, UnmatchedInternal) + Count(ex, PendingReversal)
  {
    hide Indexes, ResolvedAre, ExternalDone, Swept, Expected, OfClass, OfKey, Count, Sorted, ReconciledRefs,
        References, IndexedRefs, IsDue, PairedRefs, InOrder;
    var index0, settled := BuildIndex(internals);
    var ok, index, ex0, matched := StreamExternal(index0, stream, window, internals);
    if !ok { return None; }
    ghost var externals := Records(stream);
    var ex := SweepIndex(index, settled, ex0, internals, References(externals));
    var sorted := SortExceptions(ex);
    forall c, r ensures OfClass(sorted, c, r) == Expected(internals, externals, window, c, r) {
      ClassesComplete(ex, ex0, index, internals, externals, window, c, r);
      SortedClass(ex, sorted, internals, externals, window, c, r);
    }
    Totals(ex, ex0, matched, index, internals, externals);
    res := Some(Result(matched, sorted));
    ByFields(res.value, internals, externals, window);
    RecordsAreTheStream(stream);
  }

  lemma {:induction false} RecordsAreTheStream(stream: seq<Read>)
    requires Readable(stream)
    ensures |Records(stream)| == |stream| && forall i :: 0 <= i < |stream| ==> stream[i] == Item(Records(stream)[i])
  {
    if stream != [] { RecordsAreTheStream(stream[..|stream|-1]); }
  }

  lemma ByFields(res: Result, internals: seq<Record>, externals: seq<Record>, window: int64)
    requires Reports(res, internals, externals, window)
    ensures forall e :: e in res.exceptions <==> IsDue(e, internals, externals, window)
    ensures res.matchedCount == |PairedRefs(internals, externals, window)|
    ensures forall i: nat, j: nat :: i < j < |res.exceptions| ==> InOrder(res.exceptions[i], res.exceptions[j])
  {
    hide Expected, OfClass, Sorted, ReconciledRefs, PairedRefs, IsDue, InOrder;
    forall e ensures e in res.exceptions <==> IsDue(e, internals, externals, window) {
      ReportedIsDue(res, internals, externals, window, e);
    }
    forall i: nat, j: nat | i < j < |res.exceptions| ensures InOrder(res.exceptions[i], res.exceptions[j]) {
      SortedInOrder(res.exceptions, i, j);
    }
    MatchedArePaired(internals, externals, window);
  }

  lemma Totals(ex: seq<Exception>, ex0: seq<Exception>, matched: nat, index: map<string, Entry>,
               internals: seq<Record>, externals: seq<Record>)
    requires ExternalsAccounted(ex0, matched, externals) && InternalsAccounted(ex0, matched, internals, index)
    requires Swept(ex, ex0, index, internals, index.Keys)
    ensures |externals| == matched + Count(ex, AmountMismatch) + Count(ex, UnmatchedExternal) + Count(ex, Duplicate)
    ensures |IndexedRefs(internals)|
            == matched + Count(ex, AmountMismatch) + Count(ex, UnmatchedInternal) + Count(ex, PendingReversal)
  {
    hide OfClass, Count, Unanswered;
    IndexSplits(index, IndexedRefs(internals));
  }
}
