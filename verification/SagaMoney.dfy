/** Where the money is: the suspense account holds exactly the transfers debited but neither settled
    nor reversed, and the journal's volume is the volume of the posted legs. */
module SagaMoney {
  import opened Prelude
  import opened Ledger
  import opened LedgerProofs
  import opened StateMachine
  import opened Saga
  import opened SagaLocal
  import opened SagaLegs
  import opened SagaInvariant
  import opened SagaSteps

  predicate Has(js: seq<Posting>, id: nat, leg: Leg) { Find(js, LegKey(id, leg)).Some? }

  /** The legs of a transfer found in the journal. */
  function LegSet(js: seq<Posting>, id: nat): set<Leg> {
    (if Has(js, id, DebitLeg) then {DebitLeg} else {})
    + (if Has(js, id, SettleLeg) then {SettleLeg} else {})
    + (if Has(js, id, ReversalLeg) then {ReversalLeg} else {})
  }

  /** Two amounts told by a transfer's legs: what it leaves in suspense, and what it moved in all. */
  datatype Tally = InSuspense | Volume

  function Weight(m: Tally, js: seq<Posting>, id: nat, amount: int): int {
    match m
    case InSuspense => if LegSet(js, id) == {DebitLeg} then amount else 0
    case Volume =>
      (if Has(js, id, DebitLeg) then amount else 0)
      + (if Has(js, id, SettleLeg) then amount else 0)
      + (if Has(js, id, ReversalLeg) then amount else 0)
  }

  function Total(m: Tally, js: seq<Posting>, ts: seq<TransferRow>): int {
    if ts == [] then 0
    else Total(m, js, ts[..|ts|-1]) + Weight(m, js, |ts|-1, ts[|ts|-1].amount)
  }

  /** Balance of the suspense account on its normal (credit) side, from the journal. */
  function SuspenseBalance(js: seq<Posting>): int {
    AccountSide(js, SETTLEMENT, Credit) - AccountSide(js, SETTLEMENT, Debit)
  }

  ghost predicate Money(s: Sys) {
    && SuspenseBalance(s.book.journal) == Total(InSuspense, s.book.journal, s.transfers)
    && JournalSide(s.book.journal, Debit) == Total(Volume, s.book.journal, s.transfers)
    && JournalSide(s.book.journal, Credit) == Total(Volume, s.book.journal, s.transfers)
  }

  /** Every journal transaction is a leg of a known transfer, for its accounts and its amount. */
  ghost predicate Journaled(s: Sys) {
    forall i :: 0 <= i < |s.book.journal| ==> IsLegOf(s, s.book.journal[i])
  }

  predicate IsLegOf(s: Sys, p: Posting) {
    && p.key.Some? && p.key.value.LegKey? && p.key.value.transfer < |s.transfers|
    && p == Record(LegRequest(s.transfers[p.key.value.transfer], p.key.value.transfer, p.key.value.leg, p.parent))
    && (p.parent.Some? <==> p.key.value.leg == ReversalLeg)
  }

  // ---------------------------------------------------------------- sums over transfers

  lemma {:induction false} TotalFrame(m: Tally, js: seq<Posting>, js': seq<Posting>, ts: seq<TransferRow>,
        ts': seq<TransferRow>)
    requires |ts'| == |ts|
    requires forall i :: 0 <= i < |ts| ==> Weight(m, js', i, ts'[i].amount) == Weight(m, js, i, ts[i].amount)
    ensures Total(m, js', ts') == Total(m, js, ts)
  {
    if ts != [] {
      var n := |ts| - 1;
      assert forall i :: 0 <= i < n ==> ts'[..n][i] == ts'[i] && ts[..n][i] == ts[i];
      TotalFrame(m, js, js', ts[..n], ts'[..n]);
    }
  }

  lemma {:induction false} TotalChange(m: Tally, js: seq<Posting>, js': seq<Posting>, ts: seq<TransferRow>, id: nat)
    requires id < |ts|
    requires forall i :: 0 <= i < |ts| && i != id ==> Weight(m, js', i, ts[i].amount) == Weight(m, js, i, ts[i].amount)
    ensures Total(m, js', ts) - Total(m, js, ts) == Weight(m, js', id, ts[id].amount) - Weight(m, js, id, ts[id].amount)
  {
    var n := |ts| - 1;
    assert forall i :: 0 <= i < n ==> ts[..n][i] == ts[i];
    if id == n {
      TotalFrame(m, js, js', ts[..n], ts[..n]);
    } else {
      TotalChange(m, js, js', ts[..n], id);
    }
  }

  /** The transfer is not both settled and reversed. */
  predicate OneWayOut(js: seq<Posting>, id: nat) { !(Has(js, id, SettleLeg) && Has(js, id, ReversalLeg)) }

  /** Each transfer moves its amount at most twice. */
  lemma {:induction false} VolumeBound(js: seq<Posting>, ts: seq<TransferRow>)
    requires forall i :: 0 <= i < |ts| ==> ts[i].amount > 0 && OneWayOut(js, i)
    ensures 0 <= Total(Volume, js, ts) <= 2 * Amounts(ts)
  {
    if ts != [] {
      var n := |ts| - 1;
      assert forall i :: 0 <= i < n ==> ts[..n][i] == ts[i];
      VolumeBound(js, ts[..n]);
    }
  }

  /** Everything ever asked to be moved. */
  function Amounts(ts: seq<TransferRow>): int {
    if ts == [] then 0 else Amounts(ts[..|ts|-1]) + ts[|ts|-1].amount
  }

  lemma {:induction false} AmountsFrame(ts: seq<TransferRow>, ts': seq<TransferRow>)
    requires |ts'| == |ts| && forall i :: 0 <= i < |ts| ==> ts'[i].amount == ts[i].amount
    ensures Amounts(ts') == Amounts(ts)
  {
    if ts != [] {
      var n := |ts| - 1;
      assert forall i :: 0 <= i < n ==> ts'[..n][i] == ts'[i] && ts[..n][i] == ts[i];
      AmountsFrame(ts[..n], ts'[..n]);
    }
  }

  // ---------------------------------------------------------------- one more leg

  lemma HasAfterPost(js: seq<Posting>, p: Posting, id: nat, leg: Leg, i: nat, l: Leg)
    requires p.key == Some(LegKey(id, leg))
    ensures Has(js + [p], i, l) <==> Has(js, i, l) || (i == id && l == leg)
  {
    FindAppend(js, p, LegKey(i, l));
  }

  lemma WeightAfterPost(m: Tally, js: seq<Posting>, p: Posting, id: nat, leg: Leg, i: nat, amount: int)
    requires p.key == Some(LegKey(id, leg)) && i != id
    ensures Weight(m, js + [p], i, amount) == Weight(m, js, i, amount)
  {
    HasAfterPost(js, p, id, leg, i, DebitLeg);
    HasAfterPost(js, p, id, leg, i, SettleLeg);
    HasAfterPost(js, p, id, leg, i, ReversalLeg);
  }

  /** A leg moves its amount into suspense, or out of it. */
  lemma BalanceAfterPost(js: seq<Posting>, t: TransferRow, id: nat, leg: Leg, parent: Option<nat>)
    requires t.source != SETTLEMENT && t.destination != SETTLEMENT
    ensures var js' := js + [Record(LegRequest(t, id, leg, parent))];
            && SuspenseBalance(js') - SuspenseBalance(js) == (if leg == DebitLeg then t.amount as int else -(t.amount as int))
            && JournalSide(js', Debit) - JournalSide(js, Debit) == t.amount
            && JournalSide(js', Credit) - JournalSide(js, Credit) == t.amount
  {
    var p := Record(LegRequest(t, id, leg, parent));
    LegSides(t, leg);
    AccountSideAppend(js, p, SETTLEMENT, Debit);
    AccountSideAppend(js, p, SETTLEMENT, Credit);
    assert (js + [p])[..|js|] == js;
  }

  /** The honest invariant says which legs can still be missing when one is posted. */
  lemma LegOrder(cfg: Config, w: World, s: Sys, act: Act)
    requires !w.Arbitrary? && Views(cfg, w, s) && GoodAct(cfg, w, s, act) && PostTarget(act.pc).Some?
    ensures var (leg, _) := PostTarget(act.pc).value;
            var js := s.book.journal;
            !Has(js, act.transfer, leg) ==> LegSet(js, act.transfer) == if leg == DebitLeg then {} else {DebitLeg}
  {
    assert ViewOk(cfg, w, s.transfers[act.transfer].reference, ViewOf(s, act.transfer));
  }

  lemma WeightOfPosted(js: seq<Posting>, p: Posting, id: nat, leg: Leg, amount: int)
    requires p.key == Some(LegKey(id, leg)) && !Has(js, id, leg)
    requires LegSet(js, id) == if leg == DebitLeg then {} else {DebitLeg}
    ensures Weight(InSuspense, js + [p], id, amount) - Weight(InSuspense, js, id, amount)
         == (if leg == DebitLeg then amount else -amount)
    ensures Weight(Volume, js + [p], id, amount) - Weight(Volume, js, id, amount) == amount
  {
    HasAfterPost(js, p, id, leg, id, DebitLeg);
    HasAfterPost(js, p, id, leg, id, SettleLeg);
    HasAfterPost(js, p, id, leg, id, ReversalLeg);
    assert DebitLeg in LegSet(js, id) <==> Has(js, id, DebitLeg);
    assert SettleLeg in LegSet(js, id) <==> Has(js, id, SettleLeg);
    assert ReversalLeg in LegSet(js, id) <==> Has(js, id, ReversalLeg);
    assert SettleLeg in LegSet(js + [p], id) <==> Has(js + [p], id, SettleLeg);
    assert ReversalLeg in LegSet(js + [p], id) <==> Has(js + [p], id, ReversalLeg);
  }

  lemma PostKeepsMoney(cfg: Config, w: World, s: Sys, act: Act, leg: Leg, parent: Option<nat>, b: Book, r: PostResult)
    requires !w.Arbitrary? && Views(cfg, w, s) && Refs(w, s) && GoodAct(cfg, w, s, act)
    requires act.transfer < |s.transfers| && PostTarget(act.pc) == Some((leg, parent))
    requires LegPosted(s.book, s.transfers[act.transfer], act.transfer, leg, parent, b, r)
    requires Money(s)
    ensures Money(s.(book := b))
  {
    hide Views, GoodAct, Total, Weight, LegSet, SuspenseBalance, JournalSide;
    var js, id := s.book.journal, act.transfer;
    var t := s.transfers[id];
    if b != s.book {
      var p := Record(LegRequest(t, id, leg, parent));
      LegOrder(cfg, w, s, act);
      BalanceAfterPost(js, t, id, leg, parent);
      WeightOfPosted(js, p, id, leg, t.amount);
      forall m: Tally, i | 0 <= i < |s.transfers| && i != id
        ensures Weight(m, js + [p], i, s.transfers[i].amount) == Weight(m, js, i, s.transfers[i].amount)
      {
        WeightAfterPost(m, js, p, id, leg, i, s.transfers[i].amount);
      }
      TotalChange(InSuspense, js, js + [p], s.transfers, id);
      TotalChange(Volume, js, js + [p], s.transfers, id);
    }
  }

  // ---------------------------------------------------------------- every label

  lemma MarkShape(s: Sys, a: nat, to: Status, tx: Option<nat>, o: Outcome)
    requires a in s.acts && s.acts[a].transfer < |s.transfers|
    ensures var s' := StepMark(s, a, to, tx, o);
            && |s'.transfers| == |s.transfers| && s'.book == s.book
            && (forall i :: 0 <= i < |s.transfers| ==> SameRow(s.transfers[i], s'.transfers[i]))
  {
    hide CanTransition, EventForStatus, Append;
    var id := s.acts[a].transfer;
    if CanTransition(s.transfers[id].status, to) && EventForStatus(to).Some? {
      AppendShape(SetStatus(s, id, to, tx), id, EventForStatus(to).value);
    }
  }

  lemma AppendShape(s: Sys, id: nat, kind: EventKind)
    ensures Append(s, id, kind).transfers == s.transfers && Append(s, id, kind).book == s.book && Append(s, id, kind).acts == s.acts
  {
  }

  lemma StepActShape(cfg: Config, s: Sys, a: nat, o: Outcome)
    requires a in s.acts && s.acts[a].transfer < |s.transfers|
    ensures var s', id := StepAct(cfg, s, a, o), s.acts[a].transfer;
            && |s'.transfers| == |s.transfers|
            && (forall i :: 0 <= i < |s.transfers| ==> SameRow(s.transfers[i], s'.transfers[i]))
            && (s'.book == s.book
                || (PostTarget(s.acts[a].pc).Some? && s'.transfers == s.transfers
                    && var (leg, parent) := PostTarget(s.acts[a].pc).value;
                       s'.book == PostLeg(s.book, s.transfers[id], id, leg, parent).0))
  {
    hide PostLeg, AfterPost, StepAct, StepMark, MarkTarget, PostTarget;
    var pc := s.acts[a].pc;
    StepActByTarget(cfg, s, a, o);
    if MarkTarget(pc).Some? {
      MarkShape(s, a, MarkTarget(pc).value.0, MarkTarget(pc).value.1, o);
    } else if PostTarget(pc).None? && !pc.AppendEvent? {
      StepMovesOn(cfg, s, a, o);
    }
  }

  /** Only posting steps touch the book, and rows only gain company. */
  lemma ApplyShape(cfg: Config, s: Sys, l: Label)
    ensures var s' := Apply(cfg, s, l);
            && |s.transfers| <= |s'.transfers| <= |s.transfers| + 1
            && (forall i :: 0 <= i < |s.transfers| ==> SameRow(s.transfers[i], s'.transfers[i]))
            && (|s'.transfers| != |s.transfers| ==> l.Create? && s'.book == s.book)
            && (s'.book != s.book ==> l.Step? && s'.transfers == s.transfers)
  {
    hide StepAct, FinishAct;
    match l {
      case Step(a, o) => if a in s.acts && s.acts[a].transfer < |s.transfers| { StepActShape(cfg, s, a, o); }
      case Finish(a, recorded) => if a in s.acts && s.acts[a].pc.Done? { FinishShape(cfg, s, a, recorded); }
      case _ =>
    }
  }

  lemma FinishShape(cfg: Config, s: Sys, a: nat, recorded: bool)
    requires a in s.acts && s.acts[a].pc.Done?
    ensures FinishAct(cfg, s, a, recorded).transfers == s.transfers && FinishAct(cfg, s, a, recorded).book == s.book
  {
  }

  lemma IsLegFrame(s: Sys, s': Sys, p: Posting)
    requires IsLegOf(s, p) && |s.transfers| <= |s'.transfers|
    requires forall i :: 0 <= i < |s.transfers| ==> SameRow(s.transfers[i], s'.transfers[i])
    ensures IsLegOf(s', p)
  {
    assert SameRow(s.transfers[p.key.value.transfer], s'.transfers[p.key.value.transfer]);
  }

  lemma ApplyKeepsJournaled(cfg: Config, s: Sys, l: Label)
    requires Shape(s) && Journaled(s)
    ensures Journaled(Apply(cfg, s, l))
  {
    hide Apply, PostLeg, IsLegOf, AfterLoad, AfterQuery, AfterPost, AfterVerdict, StepPost;
    var s' := Apply(cfg, s, l);
    ApplyShape(cfg, s, l);
    if s'.book != s.book { NewPosting(cfg, s, l); }
    forall i | 0 <= i < |s'.book.journal| ensures IsLegOf(s', s'.book.journal[i]) {
      if i < |s.book.journal| { IsLegFrame(s, s', s.book.journal[i]); }
    }
  }

  /** A step that changes the book appends the leg its activation stands at. */
  lemma NewPosting(cfg: Config, s: Sys, l: Label)
    requires Shape(s) && Apply(cfg, s, l).book != s.book
    ensures var s' := Apply(cfg, s, l);
            && |s'.book.journal| == |s.book.journal| + 1
            && s.book.journal <= s'.book.journal
            && IsLegOf(s', s'.book.journal[|s.book.journal|])
  {
    hide PostLeg, AfterLoad, AfterQuery, AfterPost, AfterVerdict, StepPost, StepMark, StepSend, StepAppend, Goto, StepAct;
    ApplyShape(cfg, s, l);
    StepActShape(cfg, s, l.act, l.outcome);
    var id := s.acts[l.act].transfer;
    var (leg, parent) := PostTarget(s.acts[l.act].pc).value;
    PostLegEffect(s.book, s.transfers[id], id, leg, parent);
  }

  lemma ApplyKeepsMoney(cfg: Config, w: World, s: Sys, l: Label)
    requires !w.Arbitrary? && Inv(cfg, w, s) && Money(s)
    ensures Money(Apply(cfg, s, l))
  {
    hide PostLeg, AfterLoad, AfterQuery, AfterPost, AfterVerdict, StepAct, Apply, Total, SuspenseBalance, JournalSide, Inv;
    var s' := Apply(cfg, s, l);
    ApplyShape(cfg, s, l);
    if s'.book != s.book {
      StepKeepsMoney(cfg, w, s, l);
    } else if |s'.transfers| == |s.transfers| {
      RowsKeepTotals(s, s');
    } else {
      NewRowKeepsMoney(cfg, w, s, l);
    }
  }

  lemma StepKeepsMoney(cfg: Config, w: World, s: Sys, l: Label)
    requires !w.Arbitrary? && Inv(cfg, w, s) && Money(s) && Apply(cfg, s, l).book != s.book
    ensures Money(Apply(cfg, s, l))
  {
    hide PostLeg, StepAct, Total, SuspenseBalance, JournalSide, Weight, LegPosted;
    ApplyShape(cfg, s, l);
    StepActShape(cfg, s, l.act, l.outcome);
    var act := s.acts[l.act];
    var (leg, parent) := PostTarget(act.pc).value;
    var (b, r) := PostLeg(s.book, s.transfers[act.transfer], act.transfer, leg, parent);
    PostLegEffect(s.book, s.transfers[act.transfer], act.transfer, leg, parent);
    assert GoodAct(cfg, w, s, act);
    PostKeepsMoney(cfg, w, s, act, leg, parent, b, r);
  }

  lemma RowsKeepTotals(s: Sys, s': Sys)
    requires s'.book == s.book && |s'.transfers| == |s.transfers|
    requires forall i :: 0 <= i < |s.transfers| ==> SameRow(s.transfers[i], s'.transfers[i])
    ensures Money(s) ==> Money(s')
  {
    var js := s.book.journal;
    forall i | 0 <= i < |s.transfers| ensures s'.transfers[i].amount == s.transfers[i].amount {
      assert SameRow(s.transfers[i], s'.transfers[i]);
    }
    TotalFrame(InSuspense, js, js, s.transfers, s'.transfers);
    TotalFrame(Volume, js, js, s.transfers, s'.transfers);
  }

  lemma NewRowKeepsMoney(cfg: Config, w: World, s: Sys, l: Label)
    requires Inv(cfg, w, s) && Money(s) && |Apply(cfg, s, l).transfers| != |s.transfers|
    ensures Money(Apply(cfg, s, l))
  {
    ApplyShape(cfg, s, l);
    var s', n, js := Apply(cfg, s, l), |s.transfers|, s.book.journal;
    assert s'.transfers[..n] == s.transfers;
    assert !Has(js, n, DebitLeg) && !Has(js, n, SettleLeg) && !Has(js, n, ReversalLeg);
  }
}
