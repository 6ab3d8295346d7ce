/** What a transfer did to the accounts, told by its legs. */
module TransferEffect {
  import opened Prelude
  import opened Ledger
  import opened LedgerProofs
  import opened StateMachine
  import opened Saga
  import opened SagaLocal
  import opened SagaLegs
  import opened SagaInvariant
  import opened SagaSteps
  import opened SagaMoney
  import opened SagaTheorems

  // ---------------------------------------------------------------- net effect on accounts

  /** Credits less debits that the transfer's postings put on an account. */
  function Net(js: seq<Posting>, id: nat, code: string): int {
    if js == [] then 0 else
    var p := js[|js|-1];
    Net(js[..|js|-1], id, code)
    + (if p.key.Some? && p.key.value.LegKey? && p.key.value.transfer == id
       then SideAt(p.entries, code, Credit) - SideAt(p.entries, code, Debit) else 0)
  }

  /** The same for one leg posted once. */
  function LegNet(t: TransferRow, leg: Leg, code: string): int {
    (if code == CreditSideOf(t, leg) then t.amount else 0) - (if code == DebitSideOf(t, leg) then t.amount else 0)
  }

  /** The amount leaves the source for the destination. */
  function Moved(t: TransferRow, code: string): int {
    (if code == t.destination then t.amount else 0) - (if code == t.source then t.amount else 0)
  }

  function LegNetIf(js: seq<Posting>, t: TransferRow, id: nat, leg: Leg, code: string): int {
    if Has(js, id, leg) then LegNet(t, leg, code) else 0
  }

  function LegNets(js: seq<Posting>, t: TransferRow, id: nat, code: string): int {
    LegNetIf(js, t, id, DebitLeg, code) + LegNetIf(js, t, id, SettleLeg, code) + LegNetIf(js, t, id, ReversalLeg, code)
  }

  lemma LegNetsAppend(js: seq<Posting>, p: Posting, t: TransferRow, other: nat, leg: Leg, id: nat, code: string)
    requires p.key == Some(LegKey(other, leg)) && !Has(js, other, leg)
    ensures LegNets(js + [p], t, id, code) == LegNets(js, t, id, code) + (if other == id then LegNet(t, leg, code) else 0)
  {
    HasAfterPost(js, p, other, leg, id, DebitLeg);
    HasAfterPost(js, p, other, leg, id, SettleLeg);
    HasAfterPost(js, p, other, leg, id, ReversalLeg);
  }

  lemma {:induction false} NetByLegs(s: Sys, n: nat, id: nat, code: string)
    requires Journaled(s) && UniqueKeys(s.book.journal) && id < |s.transfers| && n <= |s.book.journal|
    ensures Net(s.book.journal[..n], id, code) == LegNets(s.book.journal[..n], s.transfers[id], id, code)
  {
    hide LegNets, SideAt, Has;
    if n == 0 {
      NoLegs(s.transfers[id], id, code);
    } else {
      var js, p := s.book.journal[..n - 1], s.book.journal[n - 1];
      assert s.book.journal[..n][..n - 1] == js && s.book.journal[..n] == js + [p];
      NetByLegs(s, n - 1, id, code);
      assert IsLegOf(s, p);
      var other, leg := p.key.value.transfer, p.key.value.leg;
      NotYet(s.book.journal, n, other, leg);
      LegNetsAppend(js, p, s.transfers[id], other, leg, id, code);
      LegSides(s.transfers[other], leg);
    }
  }

  lemma NoLegs(t: TransferRow, id: nat, code: string)
    ensures LegNets([], t, id, code) == 0
  {
  }

  lemma NotYet(js: seq<Posting>, n: nat, id: nat, leg: Leg)
    requires UniqueKeys(js) && 0 < n <= |js| && js[n - 1].key == Some(LegKey(id, leg))
    ensures !Has(js[..n - 1], id, leg)
  {
    FindSpec(js[..n - 1], LegKey(id, leg));
  }

  lemma TerminalEffectOf(cfg: Config, w: World, s: Sys, id: nat, code: string)
    requires !w.Arbitrary? && Inv(cfg, w, s) && Journaled(s) && id < |s.transfers|
    ensures var t := s.transfers[id];
            && (t.status == Settled ==> Net(s.book.journal, id, code) == Moved(t, code))
            && (t.status == Reversed || t.status == Failed ==> Net(s.book.journal, id, code) == 0)
  {
    hide Views, Acts, Events, Refs, Shape, NoStrayLegs;
    ViewLegsFit(cfg, w, s, id);
    assert s.book.journal[..|s.book.journal|] == s.book.journal;
    NetByLegs(s, |s.book.journal|, id, code);
    LegSetIsHas(s.book.journal, id);
  }

  /** A settled transfer moved its amount from source to destination, a reversed or failed one moved
      nothing, and neither leaves anything in suspense. */
  lemma TerminalEffect(cfg: Config, rail: Rail, s: Sys, id: nat, code: string)
    requires Reachable(cfg, Honest(rail), s) && id < |s.transfers|
    ensures s.transfers[id].status == Settled ==> Net(s.book.journal, id, code) == Moved(s.transfers[id], code)
    ensures s.transfers[id].status == Reversed || s.transfers[id].status == Failed ==> Net(s.book.journal, id, code) == 0
  {
    hide Inv, Journaled, Money, Reachable;
    ReachableIsGood(cfg, Honest(rail), s);
    TerminalEffectOf(cfg, Honest(rail), s, id, code);
  }

  lemma LegSetIsHas(js: seq<Posting>, id: nat)
    ensures forall leg :: leg in LegSet(js, id) <==> Has(js, id, leg)
  {
    forall leg ensures leg in LegSet(js, id) <==> Has(js, id, leg) {
      match leg { case DebitLeg => case SettleLeg => case ReversalLeg => }
    }
  }

  // ---------------------------------------------------------------- statuses only move forward

  lemma ApplyReaches(cfg: Config, s: Sys, l: Label, id: nat)
    requires id < |s.transfers|
    ensures id < |Apply(cfg, s, l).transfers| && Reaches(s.transfers[id].status, Apply(cfg, s, l).transfers[id].status)
  {
    hide StepAct, FinishAct;
    match l {
      case Step(a, o) => if a in s.acts && s.acts[a].transfer < |s.transfers| { StepReachesAll(cfg, s, a, o, id); }
      case Finish(a, recorded) => if a in s.acts && s.acts[a].pc.Done? { FinishShape(cfg, s, a, recorded); }
      case _ =>
    }
  }

  lemma StepReachesAll(cfg: Config, s: Sys, a: nat, o: Outcome, id: nat)
    requires a in s.acts && s.acts[a].transfer < |s.transfers| && id < |s.transfers|
    ensures id < |StepAct(cfg, s, a, o).transfers|
    ensures Reaches(s.transfers[id].status, StepAct(cfg, s, a, o).transfers[id].status)
  {
    hide PostLeg, AfterPost, StepAct, CanTransition, MarkTarget, PostTarget;
    var pc := s.acts[a].pc;
    StepActByTarget(cfg, s, a, o);
    ReachesIsClosure(s.transfers[id].status, s.transfers[id].status, s.transfers[id].status);
    if MarkTarget(pc).Some? {
      ReachesIsClosure(s.transfers[id].status, MarkTarget(pc).value.0, Pending);
    } else if PostTarget(pc).None? && !pc.AppendEvent? {
      StepMovesOn(cfg, s, a, o);
    }
  }

  /** In every run, under any rail: no transfer ever leaves a terminal status or goes back along an edge. */
  lemma {:induction false} StatusesOnlyAdvance(cfg: Config, s: Sys, ls: seq<Label>, id: nat)
    requires id < |s.transfers|
    ensures var s' := Exec(cfg, s, ls);
            && id < |s'.transfers| && Reaches(s.transfers[id].status, s'.transfers[id].status)
            && (IsTerminal(s.transfers[id].status) ==> s'.transfers[id].status == s.transfers[id].status)
  {
    hide Apply;
    TerminalTable(s.transfers[id].status);
    if ls != [] {
      var mid := Exec(cfg, s, ls[..|ls|-1]);
      StatusesOnlyAdvance(cfg, s, ls[..|ls|-1], id);
      ApplyReaches(cfg, mid, ls[|ls|-1], id);
      ReachesIsClosure(s.transfers[id].status, mid.transfers[id].status, Apply(cfg, mid, ls[|ls|-1]).transfers[id].status);
    }
  }
}
