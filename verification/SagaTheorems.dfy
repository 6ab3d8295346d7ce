/** What holds of every run of the saga: the headline claims of the switch. */
module SagaTheorems {
  import opened Prelude
  import opened Ledger
  import opened LedgerProofs
  import opened StateMachine
  import opened Saga
  import opened SagaLocal
  import opened SagaLegs
  import opened SagaInvariant
  import opened SagaSteps
  import opened SagaMoney

  // ---------------------------------------------------------------- zero stranded debits

  /** The legs a transfer may have, given its status. */
  predicate LegsFit(st: Status, legs: set<Leg>) {
    match st
    case Pending => legs == {} || legs == {DebitLeg}
    case Failed => legs == {}
    case Debited => legs == {DebitLeg} || legs == {DebitLeg, SettleLeg}
    case InDoubt => legs == {DebitLeg} || legs == {DebitLeg, SettleLeg}
    case ManualReview => legs == {DebitLeg} || legs == {DebitLeg, SettleLeg}
    case ReversalPending => legs == {DebitLeg} || legs == {DebitLeg, ReversalLeg}
    case Settled => legs == {DebitLeg, SettleLeg}
    case Reversed => legs == {DebitLeg, ReversalLeg}
  }

  lemma ViewLegsFit(cfg: Config, w: World, s: Sys, id: nat)
    requires !w.Arbitrary? && Views(cfg, w, s) && id < |s.transfers|
    ensures LegsFit(s.transfers[id].status, LegSet(s.book.journal, id))
  {
    assert ViewOk(cfg, w, s.transfers[id].reference, ViewOf(s, id));
  }

  lemma {:induction false} RunKeepsJournaled(cfg: Config, w: World, s: Sys, ls: seq<Label>)
    requires Inv(cfg, w, s) && Run(cfg, w, s, ls) && Journaled(s)
    ensures Journaled(Exec(cfg, s, ls))
  {
    if ls != [] {
      var before := ls[..|ls|-1];
      RunKeepsJournaled(cfg, w, s, before);
      RunKeepsInv(cfg, w, s, before);
      ApplyKeepsJournaled(cfg, Exec(cfg, s, before), ls[|ls|-1]);
    }
  }

  lemma ReachableIsGood(cfg: Config, w: World, s: Sys)
    requires Reachable(cfg, w, s)
    ensures Inv(cfg, w, s) && Journaled(s)
    ensures !w.Arbitrary? ==> Money(s)
  {
    hide Inv, Journaled, Money, Run, Exec;
    var chart, ls :| EndsIn(cfg, w, chart, ls, s);
    StartHasInv(cfg, w, chart);
    StartIsAccounted(chart);
    RunKeepsInv(cfg, w, Start(chart), ls);
    RunKeepsJournaled(cfg, w, Start(chart), ls);
    if !w.Arbitrary? { RunKeepsMoney(cfg, w, Start(chart), ls); }
  }

  lemma StartIsAccounted(chart: map<string, AccountType>)
    ensures Journaled(Start(chart)) && Money(Start(chart))
  {
  }

  /** Whatever the interleaving of deliveries, duplicates, callbacks, crashes and lost replies:
      a settled transfer has exactly its debit and settle legs, a reversed one exactly its debit and
      reversal legs, a failed one none, and no other combination ever exists. */
  lemma ZeroStrandedDebits(cfg: Config, rail: Rail, s: Sys, id: nat)
    requires Reachable(cfg, Honest(rail), s) && id < |s.transfers|
    ensures LegsFit(s.transfers[id].status, LegSet(s.book.journal, id))
  {
    hide Journaled, Money, Reachable;
    ReachableIsGood(cfg, Honest(rail), s);
    ViewLegsFit(cfg, Honest(rail), s, id);
  }

  /** A debit and a credit of the amount between two accounts. */
  predicate Moves(p: Posting, debit: string, credit: string, t: TransferRow) {
    && |p.entries| == 2
    && p.entries[0] == Entry(debit, Debit, t.amount, t.currency)
    && p.entries[1] == Entry(credit, Credit, t.amount, t.currency)
  }

  /** Whatever the rail does, the journal holds legs of transfers and nothing else: settled postings that
      move the amount from the source to settlement, on to the destination, or, as a reversal, back... */
  lemma JournalHoldsLegs(cfg: Config, w: World, s: Sys, i: nat)
    requires Reachable(cfg, w, s) && i < |s.book.journal|
    ensures IsLegOf(s, s.book.journal[i])
    ensures var p := s.book.journal[i];
            var t := s.transfers[p.key.value.transfer];
            && p.reference == t.reference && p.status == "settled" && (p.parent.Some? <==> p.key.value.leg == ReversalLeg)
            && (p.key.value.leg == DebitLeg ==> p.kind == Transfer && Moves(p, t.source, "SETTLEMENT", t))
            && (p.key.value.leg == SettleLeg ==> p.kind == Transfer && Moves(p, "SETTLEMENT", t.destination, t))
            && (p.key.value.leg == ReversalLeg ==> p.kind == Reversal && Moves(p, "SETTLEMENT", t.source, t))
  {
    hide Inv, Money, Reachable;
    ReachableIsGood(cfg, w, s);
  }

  /** ...and each leg at most once. */
  lemma EachLegOnce(cfg: Config, w: World, s: Sys, i: nat, j: nat)
    requires Reachable(cfg, w, s) && i < j < |s.book.journal|
    ensures s.book.journal[i].key.Some? && s.book.journal[i].key != s.book.journal[j].key
  {
    hide Money, Reachable;
    ReachableIsGood(cfg, w, s);
    assert IsLegOf(s, s.book.journal[i]);
  }

  // ---------------------------------------------------------------- the reversal path, with any rail

  /** With no assumption on the rail, on references or on callbacks: a reversal exists only for a
      transfer on the reversal path, never under manual review, and compensates exactly the transfer's
      own debit leg. */
  lemma ReversalPathIsSafe(cfg: Config, s: Sys, id: nat)
    requires Reachable(cfg, Arbitrary, s) && id < |s.transfers| && Has(s.book.journal, id, ReversalLeg)
    ensures s.transfers[id].status == ReversalPending || s.transfers[id].status == Reversed
    ensures Has(s.book.journal, id, DebitLeg)
    ensures ParentOf(s.book.journal, Find(s.book.journal, LegKey(id, ReversalLeg))) == Find(s.book.journal, LegKey(id, DebitLeg))
  {
    hide Journaled, Reachable;
    ReachableIsGood(cfg, Arbitrary, s);
    assert ViewOk(cfg, Arbitrary, s.transfers[id].reference, ViewOf(s, id));
  }

  /** No handler ever misses the recorded debit leg. */
  lemma DebitLegIsNeverMissing(cfg: Config, s: Sys, a: nat)
    requires Reachable(cfg, Arbitrary, s) && a in s.acts
    ensures s.acts[a].pc != MissingDebitLeg
  {
    hide Inv, Journaled, Reachable;
    ReachableIsGood(cfg, Arbitrary, s);
    ActShapes(cfg, Arbitrary, s, a);
  }

  /** No transaction is ever reversed twice, by whatever keys. */
  lemma OneReversalPerParent(cfg: Config, s: Sys, i: nat, j: nat)
    requires Reachable(cfg, Arbitrary, s) && i < j < |s.book.journal|
    requires s.book.journal[i].kind == Reversal == s.book.journal[j].kind && s.book.journal[i].parent.Some?
    ensures s.book.journal[i].parent != s.book.journal[j].parent
  {
    hide Journaled, Reachable;
    ReachableIsGood(cfg, Arbitrary, s);
  }

  lemma {:induction false} ArbitraryRun(cfg: Config, s: Sys, ls: seq<Label>)
    ensures Run(cfg, Arbitrary, s, ls)
  {
    if ls != [] { ArbitraryRun(cfg, s, ls[..|ls|-1]); }
  }

  // ---------------------------------------------------------------- outbox coverage

  predicate Covers(s: Sys, id: nat, e: nat)
    requires id < |s.transfers|
  {
    e in s.outbox && s.outbox[e].transfer == id && EventForStatus(s.transfers[id].status) == Some(s.outbox[e].kind)
  }

  /** Every resumable transfer has an event of the kind that drives its status. */
  ghost predicate Covered(s: Sys) {
    forall id :: 0 <= id < |s.transfers| && EventForStatus(s.transfers[id].status).Some? ==> exists e :: Covers(s, id, e)
  }

  /** The transfer is new or its status moved, to one that still has work ahead. */
  predicate ChangedStatus(s: Sys, s': Sys, id: nat)
    requires id < |s'.transfers|
  {
    && (id < |s.transfers| ==> s'.transfers[id].status != s.transfers[id].status)
    && EventForStatus(s'.transfers[id].status).Some?
  }

  /** Events are never retyped or readdressed, and a status that changes comes with its own event. */
  ghost predicate KeepsEvents(s: Sys, s': Sys) {
    && (forall e :: e in s.outbox ==>
          e in s'.outbox && s'.outbox[e].transfer == s.outbox[e].transfer && s'.outbox[e].kind == s.outbox[e].kind)
    && |s.transfers| <= |s'.transfers|
    && (forall id :: 0 <= id < |s'.transfers| && ChangedStatus(s, s', id) ==> exists e :: Covers(s', id, e))
  }

  lemma KeepsCovered(s: Sys, s': Sys)
    requires Covered(s) && KeepsEvents(s, s')
    ensures Covered(s')
  {
    forall id | 0 <= id < |s'.transfers| && EventForStatus(s'.transfers[id].status).Some? ensures exists e :: Covers(s', id, e) {
      if id < |s.transfers| && s'.transfers[id].status == s.transfers[id].status {
        var e :| Covers(s, id, e);
        assert Covers(s', id, e);
      } else {
        assert ChangedStatus(s, s', id);
      }
    }
  }

  lemma AdvanceKeepsEventRows(s: Sys, id: nat, to: Status, tx: Option<nat>)
    requires Shape(s) && id < |s.transfers|
    ensures KeepsEvents(s, Advance(s, id, to, tx))
  {
    var s' := Advance(s, id, to, tx);
    if CanTransition(s.transfers[id].status, to) && EventForStatus(to).Some? { assert Covers(s', id, s.nextEvent); }
  }

  lemma StepKeepsEventRows(cfg: Config, s: Sys, a: nat, o: Outcome)
    requires Shape(s) && a in s.acts && s.acts[a].transfer < |s.transfers|
    ensures KeepsEvents(s, StepAct(cfg, s, a, o))
  {
    hide PostLeg, AfterLoad, AfterQuery, AfterPost, AfterVerdict;
    StepActByTarget(cfg, s, a, o);
    if MarkTarget(s.acts[a].pc).Some? {
      var (to, tx) := MarkTarget(s.acts[a].pc).value;
      MarkKeepsEventRows(s, a, to, tx, o);
    }
  }

  lemma MarkKeepsEventRows(s: Sys, a: nat, to: Status, tx: Option<nat>, o: Outcome)
    requires Shape(s) && a in s.acts && s.acts[a].transfer < |s.transfers|
    ensures KeepsEvents(s, StepMark(s, a, to, tx, o))
  {
    hide Advance;
    var s1 := Advance(s, s.acts[a].transfer, to, tx);
    AdvanceKeepsEventRows(s, s.acts[a].transfer, to, tx);
    var s' := StepMark(s, a, to, tx, o);
    if Applied(o) {
      forall id | 0 <= id < |s'.transfers| && ChangedStatus(s, s', id) ensures exists e :: Covers(s', id, e) {
        assert ChangedStatus(s, s1, id);
        var e :| Covers(s1, id, e);
        assert Covers(s', id, e);
      }
    }
  }

  lemma ApplyKeepsEventRows(cfg: Config, s: Sys, l: Label)
    requires Shape(s) && !l.Lose?
    ensures KeepsEvents(s, Apply(cfg, s, l))
  {
    hide StepAct, Failing;
    match l {
      case Create(_, _, _, _, _) =>
        if ValidRequest(l) { assert Covers(Apply(cfg, s, l), |s.transfers|, s.nextEvent); }
      case Step(a, o) => if a in s.acts && s.acts[a].transfer < |s.transfers| { StepKeepsEventRows(cfg, s, a, o); }
      case Finish(a, recorded) => if a in s.acts && s.acts[a].pc.Done? { FinishKeepsEventRows(cfg, s, a, recorded); }
      case _ =>
    }
  }

  lemma FinishKeepsEventRows(cfg: Config, s: Sys, a: nat, recorded: bool)
    requires a in s.acts && s.acts[a].pc.Done?
    ensures KeepsEvents(s, FinishAct(cfg, s, a, recorded))
  {
  }

  ghost predicate NothingLost(ls: seq<Label>) { forall i :: 0 <= i < |ls| ==> !ls[i].Lose? }

  lemma {:induction false} RunKeepsCovered(cfg: Config, s: Sys, ls: seq<Label>)
    requires Inv(cfg, Arbitrary, s) && Covered(s) && NothingLost(ls)
    ensures Covered(Exec(cfg, s, ls))
  {
    if ls != [] {
      var before := ls[..|ls|-1];
      var mid := Exec(cfg, s, before);
      ArbitraryRun(cfg, s, before);
      RunKeepsInv(cfg, Arbitrary, s, before);
      RunKeepsCovered(cfg, s, before);
      ApplyKeepsEventRows(cfg, mid, ls[|ls|-1]);
      KeepsCovered(mid, Apply(cfg, mid, ls[|ls|-1]));
    }
  }

  /** While no row is deleted, every non-terminal transfer has an unpublished event (perhaps
      dead-lettered) of exactly the kind its status calls for. No assumption on the rail. */
  lemma OutboxCoverage(cfg: Config, chart: map<string, AccountType>, ls: seq<Label>, id: nat)
    requires NothingLost(ls) && id < |Exec(cfg, Start(chart), ls).transfers|
    requires !IsTerminal(Exec(cfg, Start(chart), ls).transfers[id].status)
    ensures var s := Exec(cfg, Start(chart), ls);
            exists e :: Covers(s, id, e) && !s.outbox[e].published
  {
    ArbitraryRun(cfg, Start(chart), ls);
    StartHasInv(cfg, Arbitrary, chart);
    RunKeepsInv(cfg, Arbitrary, Start(chart), ls);
    RunKeepsCovered(cfg, Start(chart), ls);
    var s := Exec(cfg, Start(chart), ls);
    TerminalTable(s.transfers[id].status);
    var e :| Covers(s, id, e);
    DrivingInverts(s.outbox[e].kind, s.transfers[id].status);
    assert EventOk(s, s.outbox[e]);
  }

  // ---------------------------------------------------------------- suspense conservation

  lemma {:induction false} RunKeepsMoney(cfg: Config, w: World, s: Sys, ls: seq<Label>)
    requires !w.Arbitrary? && Inv(cfg, w, s) && Money(s) && Run(cfg, w, s, ls)
    ensures Money(Exec(cfg, s, ls))
  {
    if ls != [] {
      var before := ls[..|ls|-1];
      RunKeepsInv(cfg, w, s, before);
      RunKeepsMoney(cfg, w, s, before);
      ApplyKeepsMoney(cfg, w, Exec(cfg, s, before), ls[|ls|-1]);
    }
  }

  /** After every step the suspense account holds exactly the amounts of the transfers that have a
      debit leg and no other. */
  lemma SuspenseConservation(cfg: Config, rail: Rail, s: Sys)
    requires Reachable(cfg, Honest(rail), s)
    ensures SuspenseBalance(s.book.journal) == Total(InSuspense, s.book.journal, s.transfers)
  {
    hide Inv, Journaled, Reachable;
    ReachableIsGood(cfg, Honest(rail), s);
  }

  function HeldForReview(ts: seq<TransferRow>): int {
    if ts == [] then 0
    else HeldForReview(ts[..|ts|-1]) + (if ts[|ts|-1].status == ManualReview then ts[|ts|-1].amount else 0)
  }

  lemma {:induction false} TotalIsHeld(js: seq<Posting>, ts: seq<TransferRow>)
    requires forall i :: 0 <= i < |ts| ==> (LegSet(js, i) == {DebitLeg} <==> ts[i].status == ManualReview)
    ensures Total(InSuspense, js, ts) == HeldForReview(ts)
  {
    if ts != [] {
      var n := |ts| - 1;
      assert forall i :: 0 <= i < n ==> ts[..n][i] == ts[i];
      TotalIsHeld(js, ts[..n]);
    }
  }

  /** With a rail that repeats itself, once every transfer is terminal the suspense account holds
      exactly the transfers under manual review. */
  lemma SuspenseIsManualReview(cfg: Config, rail: Rail, s: Sys)
    requires Reachable(cfg, Constant(rail), s)
    requires forall i :: 0 <= i < |s.transfers| ==> IsTerminal(s.transfers[i].status)
    ensures SuspenseBalance(s.book.journal) == HeldForReview(s.transfers)
  {
    hide Journaled, Reachable;
    var w := Constant(rail);
    ReachableIsGood(cfg, w, s);
    forall i | 0 <= i < |s.transfers| ensures LegSet(s.book.journal, i) == {DebitLeg} <==> s.transfers[i].status == ManualReview {
      TerminalTable(s.transfers[i].status);
      SettledUnderReview(cfg, w, s, i);
    }
    TotalIsHeld(s.book.journal, s.transfers);
  }

  lemma SettledUnderReview(cfg: Config, w: World, s: Sys, id: nat)
    requires w.Constant? && Views(cfg, w, s) && id < |s.transfers|
    ensures s.transfers[id].status == ManualReview ==> LegSet(s.book.journal, id) == {DebitLeg}
    ensures s.transfers[id].status in {Settled, Reversed, Failed} ==> LegSet(s.book.journal, id) != {DebitLeg}
  {
    assert ViewOk(cfg, w, s.transfers[id].reference, ViewOf(s, id));
    assert SettleLeg in LegSet(s.book.journal, id) <==> Has(s.book.journal, id, SettleLeg);
    assert ReversalLeg in LegSet(s.book.journal, id) <==> Has(s.book.journal, id, ReversalLeg);
    assert DebitLeg in LegSet(s.book.journal, id) <==> Has(s.book.journal, id, DebitLeg);
  }
}
