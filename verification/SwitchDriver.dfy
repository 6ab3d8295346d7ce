/** The driver: one handler per event, each loading the row, calling out, and marking, in sequence. */
module SwitchDriver {
  import opened Prelude
  import opened Ledger
  import opened StateMachine
  import SagaLocal
  import opened Saga
  import opened SagaInvariant
  import opened SagaSteps
  import opened SagaMoney
  import opened SagaLegs
  import opened LedgerHealth
  import opened SwitchStore

  class Driver {
    const sw: Switch

    constructor (sw: Switch)
      ensures this.sw == sw
    {
      this.sw := sw;
    }

    /** The rail has settled, and the chart has no account to credit. */
    ghost predicate CannotSettle(id: nat)
      reads sw
    {
      id < |sw.transfers| && sw.transfers[id].destination !in sw.ledger.chart && sw.rail.settles(sw.transfers[id].reference)
    }

    ghost predicate IsBlocked(id: nat)
      reads sw
    {
      CannotSettle(id) && (sw.transfers[id].status == Debited || sw.transfers[id].status == InDoubt)
    }

    lemma BlockedHere(id: nat)
      requires id < |sw.transfers|
      ensures IsBlocked(id) <==> Blocked(sw.rail, sw.State(), id)
    {
    }

    /** With a healthy ledger, the post this activation stands at is taken; or it is a debit on a missing
        account, refused for good; or there is no account to settle to. */
    lemma TakenHere(a: nat, id: nat, leg: Leg, parent: Option<nat>)
      requires sw.Valid() && Healthy(sw.State())
      requires a in sw.acts && sw.acts[a].transfer == id < |sw.transfers|
      requires SagaLocal.PostTarget(sw.acts[a].pc) == Some((leg, parent))
      ensures var r := PostLeg(sw.ledger.Contents(), sw.transfers[id], id, leg, parent).1;
              || r.Posted?
              || (leg == DebitLeg && IsTerminalError(r.error))
              || (leg == SettleLeg && CannotSettle(id))
    {
      hide PostLeg, Healthy, Exec, Run;
      sw.ValidIsGood();
      var s := sw.State();
      assert GoodAct(sw.cfg, Honest(sw.rail), s, s.acts[a]);
      LegIsTaken(sw.cfg, Honest(sw.rail), s, s.acts[a]);
    }

    method HandleDebitRequested(ghost a: nat, id: nat) returns (ok: bool, ghost ls: seq<Label>)
      requires sw.Valid() && sw.At(a, id, Load(DebitRequested))
      modifies sw, sw.ledger
      ensures sw.Valid() && sw.trail == old(sw.trail) + ls && AllSteps(ls, a) && sw.origin == old(sw.origin)
      ensures sw.At(a, id, Done(ok))
      ensures ok && old(sw.transfers)[id].status == Pending ==> sw.transfers[id].status == if old(CanDebit(id)) then Debited else Failed
      ensures ok && old(sw.transfers)[id].status != Pending ==> sw.transfers == old(sw.transfers)
      ensures ok ==> sw.transfers[id].status != Pending
      ensures Faultless(sw.env) && Healthy(old(sw.State())) ==> ok
    {
      hide Exec, Run, Apply, PostLeg, Healthy, Good, IsTerminalError, CanTransition, Switch.Valid, Switch.Happened,
          Switch.State;
      var row, o1 := sw.LoadRow(a, id, DebitRequested);
      ls := [Step(a, o1)];
      if row.None? { return false, ls; }
      if row.value.status != Pending { return true, ls; }
      var done, more := PostDebitLeg(a, id);
      ok, ls := done, ls + more;
    }

    lemma ForwardEdges()
      ensures CanTransition(Pending, Debited) && CanTransition(Pending, Failed)
      ensures CanTransition(Debited, Settled) && CanTransition(Debited, InDoubt) && CanTransition(Debited, ReversalPending)
      ensures CanTransition(InDoubt, Settled) && CanTransition(InDoubt, ManualReview) && CanTransition(InDoubt, ReversalPending)
      ensures CanTransition(ReversalPending, Reversed)
    {
      EdgeTable(Pending, Debited); EdgeTable(Pending, Failed);
      EdgeTable(Debited, Settled); EdgeTable(Debited, InDoubt); EdgeTable(Debited, ReversalPending);
      EdgeTable(InDoubt, Settled); EdgeTable(InDoubt, ManualReview); EdgeTable(InDoubt, ReversalPending);
      EdgeTable(ReversalPending, Reversed);
    }

    /** Both accounts of the debit leg are on the chart. */
    ghost predicate CanDebit(id: nat)
      reads sw
    {
      id < |sw.transfers| && sw.transfers[id].source in sw.ledger.chart && SETTLEMENT in sw.ledger.chart
    }

    /** The ledger takes a debit only with both accounts there, and refuses it for good only without. */
    lemma DebitAnswers(id: nat)
      requires sw.Valid() && id < |sw.transfers|
      ensures var r := PostLeg(sw.ledger.Contents(), sw.transfers[id], id, DebitLeg, None).1;
              && (r.Posted? ==> CanDebit(id))
              && (r.Rejected? && IsTerminalError(r.error) ==> !CanDebit(id))
    {
      hide PostLeg, Exec, Run;
      sw.ValidIsGood();
      PostLegEffect(sw.ledger.Contents(), sw.transfers[id], id, DebitLeg, None);
    }

    /** The first definitive answer to the status query, from the n-th call on. */
    ghost predicate Learns(n: nat, reference: string, v: Verdict) {
      v != Unknown && QueryVerdict(sw.env, n, sw.cfg.tsqAttempts, reference, v)
    }

    lemma LearntExactly(n: nat, reference: string, v: Verdict)
      requires QueryVerdict(sw.env, n, sw.cfg.tsqAttempts, reference, v)
      ensures Learns(n, reference, Success) <==> v == Success
      ensures Learns(n, reference, Declined) <==> v == Declined
    {
      hide QueryVerdict;
      if Learns(n, reference, Success) { LearnsOne(n, reference, v, Success); }
      if Learns(n, reference, Declined) { LearnsOne(n, reference, v, Declined); }
    }

    /** At most one verdict is learnt. */
    lemma LearnsOne(n: nat, reference: string, v: Verdict, v': Verdict)
      requires QueryVerdict(sw.env, n, sw.cfg.tsqAttempts, reference, v) && QueryVerdict(sw.env, n, sw.cfg.tsqAttempts, reference, v')
      ensures v == v'
    {
    }

    /** Posts the debit leg, then marks debited, or fails the transfer if the ledger refuses for good. */
    method PostDebitLeg(ghost a: nat, id: nat) returns (ok: bool, ghost ls: seq<Label>)
      requires sw.Valid() && sw.At(a, id, PostDebit)
      modifies sw, sw.ledger
      ensures sw.Valid() && sw.trail == old(sw.trail) + ls && AllSteps(ls, a) && sw.origin == old(sw.origin)
      ensures sw.At(a, id, Done(ok))
      ensures ok && old(sw.transfers)[id].status == Pending ==> sw.transfers[id].status == if old(CanDebit(id)) then Debited else Failed
      ensures ok ==> sw.transfers[id].status != Pending
      ensures Faultless(sw.env) && Healthy(old(sw.State())) ==> ok
    {
      hide Exec, Run, Apply, PostLeg, Healthy, Good, IsTerminalError, CanTransition, Switch.Valid, Switch.Happened,
          Switch.State, Switch.TookEdge, Met, CanDebit;
      DebitAnswers(id);
      if Healthy(sw.State()) { TakenHere(a, id, DebitLeg, None); }
      ForwardEdges();
      var posted, o1 := sw.CallLedger(a, id, DebitLeg, None);
      ls := [Step(a, o1)];
      if posted.None? { return false, ls; }
      match posted.value {
        case Rejected(e) =>
          if IsTerminalError(e) {
            var marked, o2 := sw.Mark(a, id, Failed, None);
            return marked, ls + [Step(a, o2)];
          }
          ok := false;
        case Posted(tx) =>
          var marked, o2 := sw.Mark(a, id, Debited, Some(tx));
          ok, ls := marked, ls + [Step(a, o2)];
      }
    }

    /** Posts the settle leg, then marks settled. */
    method Settle(ghost a: nat, id: nat) returns (ok: bool, ghost ls: seq<Label>)
      requires sw.Valid() && sw.At(a, id, PostSettle)
      modifies sw, sw.ledger
      ensures sw.Valid() && sw.trail == old(sw.trail) + ls && AllSteps(ls, a) && sw.origin == old(sw.origin)
      ensures sw.At(a, id, Done(ok))
      ensures ok && old(sw.transfers)[id].status in {Debited, InDoubt} ==> sw.transfers[id].status == Settled
      ensures Faultless(sw.env) && Healthy(old(sw.State())) ==>
                ok || (sw.transfers == old(sw.transfers) && CannotSettle(id))
    {
      hide Exec, Run, Apply, PostLeg, Healthy, Good, IsTerminalError, CanTransition, Switch.Valid, Switch.Happened,
          Switch.State, Switch.TookEdge, Met;
      ForwardEdges();
      if Healthy(sw.State()) { TakenHere(a, id, SettleLeg, None); }
      var posted, o1 := sw.CallLedger(a, id, SettleLeg, None);
      ls := [Step(a, o1)];
      if posted.None? || posted.value.Rejected? { return false, ls; }
      var marked, o2 := sw.Mark(a, id, Settled, None);
      ok, ls := marked, ls + [Step(a, o2)];
    }

    method HandleDebited(ghost a: nat, id: nat) returns (ok: bool, ghost ls: seq<Label>)
      requires sw.Valid() && sw.At(a, id, Load(DebitedEvent))
      modifies sw, sw.ledger
      ensures sw.Valid() && sw.trail == old(sw.trail) + ls && AllSteps(ls, a) && sw.origin == old(sw.origin)
      ensures sw.At(a, id, Done(ok))
      ensures ok && old(sw.transfers)[id].status == Debited ==>
                sw.transfers[id].status == match sw.env.verdict(old(sw.clock) + 1, old(sw.transfers)[id].reference)
                                           case Success => Settled
                                           case Declined => ReversalPending
                                           case Unknown => InDoubt
      ensures ok && old(sw.transfers)[id].status != Debited ==> sw.transfers == old(sw.transfers)
      ensures Faultless(sw.env) && Healthy(old(sw.State())) ==> ok || IsBlocked(id)
    {
      hide Exec, Run, Apply, PostLeg, Healthy, Good, IsTerminalError, CanTransition, Switch.Valid, Switch.Happened,
          Switch.State;
      var row, o1 := sw.LoadRow(a, id, DebitedEvent);
      ls := [Step(a, o1)];
      if row.None? { return false, ls; }
      if row.value.status != Debited { return true, ls; }
      var verdict, o2 := sw.CallSend(a, id);
      ls := ls + [Step(a, o2)];
      if verdict.None? { return false, ls; }
      var done, more := Route(a, id, verdict.value, InDoubt);
      ok, ls := done, ls + more;
    }

    function Routed(verdict: Verdict, hold: Status): Status {
      match verdict
      case Success => Settled
      case Declined => ReversalPending
      case Unknown => hold
    }

    /** Success settles, a decline reverses, and an unknown outcome is held in the given status. */
    method Route(ghost a: nat, id: nat, verdict: Verdict, hold: Status) returns (ok: bool, ghost ls: seq<Label>)
      requires hold == InDoubt || hold == ManualReview
      requires sw.Valid() && sw.At(a, id, AfterVerdict(verdict, if hold == InDoubt then MarkInDoubt else MarkManual))
      modifies sw, sw.ledger
      ensures sw.Valid() && sw.trail == old(sw.trail) + ls && AllSteps(ls, a) && sw.origin == old(sw.origin)
      ensures sw.At(a, id, Done(ok))
      ensures ok && old(sw.transfers)[id].status == (if hold == InDoubt then Debited else InDoubt) ==>
                sw.transfers[id].status == Routed(verdict, hold)
      ensures Faultless(sw.env) && Healthy(old(sw.State())) ==>
                ok || (sw.transfers == old(sw.transfers) && CannotSettle(id))
    {
      hide Exec, Run, Apply, PostLeg, Healthy, Good, IsTerminalError, CanTransition, Switch.Valid, Switch.Happened,
          Switch.State;
      ForwardEdges();
      match verdict {
        case Success =>
          ok, ls := Settle(a, id);
        case Declined =>
          var marked, o := sw.Mark(a, id, ReversalPending, None);
          ok, ls := marked, [Step(a, o)];
        case Unknown =>
          var marked, o := sw.Mark(a, id, hold, None);
          ok, ls := marked, [Step(a, o)];
      }
    }

    method HandleInDoubt(ghost a: nat, id: nat) returns (ok: bool, ghost ls: seq<Label>)
      requires sw.Valid() && sw.At(a, id, Load(InDoubtEvent))
      modifies sw, sw.ledger
      ensures sw.Valid() && sw.trail == old(sw.trail) + ls && AllSteps(ls, a) && sw.origin == old(sw.origin)
      ensures sw.At(a, id, Done(ok))
      ensures ok && old(sw.transfers)[id].status == InDoubt ==>
                && (sw.transfers[id].status == Settled <==> Learns(old(sw.clock) + 1, old(sw.transfers)[id].reference, Success))
                && (sw.transfers[id].status == ReversalPending <==> Learns(old(sw.clock) + 1, old(sw.transfers)[id].reference, Declined))
                && sw.transfers[id].status in {Settled, ReversalPending, ManualReview}
      ensures ok && old(sw.transfers)[id].status != InDoubt ==> sw.transfers == old(sw.transfers)
      ensures Faultless(sw.env) && Healthy(old(sw.State())) ==> ok || IsBlocked(id)
    {
      hide Exec, Run, Apply, PostLeg, Healthy, Good, IsTerminalError, CanTransition, Switch.Valid, Switch.Happened,
          Switch.State;
      var row, o1 := sw.LoadRow(a, id, InDoubtEvent);
      ls := [Step(a, o1)];
      if row.None? { return false, ls; }
      if row.value.status != InDoubt { return true, ls; }
      var verdict, query := sw.QueryStatusWithRetry(a, id);
      LearntExactly(old(sw.clock) + 1, row.value.reference, verdict);
      ls := ls + query;
      var done, more := Route(a, id, verdict, ManualReview);
      ok, ls := done, ls + more;
    }

    method HandleReversal(ghost a: nat, id: nat) returns (ok: bool, ghost ls: seq<Label>)
      requires sw.Valid() && sw.At(a, id, Load(ReversalRequested))
      modifies sw, sw.ledger
      ensures sw.Valid() && sw.trail == old(sw.trail) + ls && AllSteps(ls, a) && sw.origin == old(sw.origin)
      ensures sw.At(a, id, Done(ok))
      ensures ok && old(sw.transfers)[id].status == ReversalPending ==> sw.transfers[id].status == Reversed
      ensures ok && old(sw.transfers)[id].status != ReversalPending ==> sw.transfers == old(sw.transfers)
      ensures Faultless(sw.env) && Healthy(old(sw.State())) ==> ok
    {
      hide Exec, Run, Apply, PostLeg, Healthy, Good, IsTerminalError, CanTransition, Switch.Valid, Switch.Happened,
          Switch.State;
      var row, o1 := sw.LoadRow(a, id, ReversalRequested);
      ls := [Step(a, o1)];
      if row.None? { return false, ls; }
      if row.value.status != ReversalPending { return true, ls; }
      DebitLegIsRecorded(a);
      var done, more := Reverse(a, id, row.value.debitLegTx.value);
      ok, ls := done, ls + more;
    }

    /** Posts the compensating leg against the recorded debit leg, then marks reversed. */
    method Reverse(ghost a: nat, id: nat, parent: nat) returns (ok: bool, ghost ls: seq<Label>)
      requires sw.Valid() && sw.At(a, id, PostReversal(parent))
      modifies sw, sw.ledger
      ensures sw.Valid() && sw.trail == old(sw.trail) + ls && AllSteps(ls, a) && sw.origin == old(sw.origin)
      ensures sw.At(a, id, Done(ok))
      ensures ok && old(sw.transfers)[id].status == ReversalPending ==> sw.transfers[id].status == Reversed
      ensures Faultless(sw.env) && Healthy(old(sw.State())) ==> ok
    {
      hide Exec, Run, Apply, PostLeg, Healthy, Good, IsTerminalError, CanTransition, Switch.Valid, Switch.Happened,
          Switch.State;
      ForwardEdges();
      if Healthy(sw.State()) { TakenHere(a, id, ReversalLeg, Some(parent)); }
      var posted, o1 := sw.CallLedger(a, id, ReversalLeg, Some(parent));
      ls := [Step(a, o1)];
      if posted.None? || posted.value.Rejected? { return false, ls; }
      var marked, o2 := sw.Mark(a, id, Reversed, None);
      ok, ls := marked, ls + [Step(a, o2)];
    }

    /** The "no debit leg recorded" error cannot occur. */
    lemma DebitLegIsRecorded(a: nat)
      requires sw.Valid() && a in sw.acts
      ensures sw.acts[a].pc != MissingDebitLeg
    {
      sw.ValidIsGood();
      ActShapes(sw.cfg, Honest(sw.rail), sw.State(), a);
    }

    /** Dispatches an event to its handler. */
    method Handle(ghost a: nat, id: nat, kind: EventKind) returns (ok: bool, ghost ls: seq<Label>)
      requires sw.Valid() && sw.At(a, id, Load(kind))
      modifies sw, sw.ledger
      ensures sw.Valid() && sw.trail == old(sw.trail) + ls && AllSteps(ls, a) && sw.origin == old(sw.origin)
      ensures sw.At(a, id, Done(ok))
      ensures Faultless(sw.env) && Healthy(old(sw.State())) ==> ok || IsBlocked(id)
    {
      hide Healthy;
      match kind {
        case DebitRequested => ok, ls := HandleDebitRequested(a, id);
        case DebitedEvent => ok, ls := HandleDebited(a, id);
        case InDoubtEvent => ok, ls := HandleInDoubt(a, id);
        case ReversalRequested => ok, ls := HandleReversal(a, id);
      }
    }
  }
}
