/** Entry points outside the poller: a new transfer, the rail's callback, and the corrective requeue. */
module Intake {
  import opened Prelude
  import opened Ledger
  import opened LedgerProofs
  import opened StateMachine
  import opened Saga
  import SagaLocal
  import opened SagaInvariant
  import opened SagaSteps
  import opened SagaMoney
  import opened TransferEffect
  import opened LedgerHealth
  import opened SwitchStore
  import opened SwitchDriver
  import opened DrainProgress
  import opened DeliveryEffect
  import opened OutboxPoller

  lemma HereIsExec(sw: Switch)
    requires sw.Valid()
    ensures sw.State() == Exec(sw.cfg, sw.origin, sw.trail)
    ensures Run(sw.cfg, Honest(sw.rail), sw.origin, sw.trail)
  {
  }

  /** Persists the intent, then tries the debit inline; a failure is left to the poller. What happened is
      the creation and steps of that one handler; no other transfer is touched, and without faults the
      answer reflects a debit taken or refused. */
  method CreateAndDebit(driver: Driver, reference: string, source: string, destination: string, amount: int64,
        currency: string)
      returns (id: Option<nat>, ghost ls: seq<Label>)
    requires driver.sw.Valid() && driver.sw.cfg.maxAttempts >= 1
    requires Admissible(Honest(driver.sw.rail), driver.sw.State(), Create(reference, source, destination, amount, currency))
    modifies driver.sw, driver.sw.ledger
    ensures driver.sw.Valid()
    ensures id.Some? <==> source != "" && destination != "" && reference != "" && currency == "NGN" && amount > 0
    ensures id.None? ==> driver.sw.State() == old(driver.sw.State())
    ensures driver.sw.trail == old(driver.sw.trail) + [Create(reference, source, destination, amount, currency)] + ls
    ensures AllSteps(ls, old(driver.sw.nextAct))
    ensures id.Some? ==>
              && id.value == |old(driver.sw.transfers)| == |driver.sw.transfers| - 1
              && driver.sw.transfers[..id.value] == old(driver.sw.transfers)
              && (Faultless(driver.sw.env)
                  && Healthy(Apply(driver.sw.cfg, old(driver.sw.State()), Create(reference, source, destination, amount, currency)))
                  ==> driver.sw.transfers[id.value].status
                      == if source in driver.sw.ledger.chart && SETTLEMENT in driver.sw.ledger.chart then Debited else Failed)
  {
    hide Exec, Run, Good, Switch.Valid, Healthy, Apply;
    var sw := driver.sw;
    var made, a := sw.CreatePending(reference, source, destination, amount, currency);
    ls := [];
    if made.None? { return None, []; }
    ghost var before, s := sw.trail, sw.State();
    sw.ValidIsGood();
    HereIsExec(sw);
    var ok, steps := driver.HandleDebitRequested(a, made.value);
    HereIsExec(sw);
    HandlerTail(sw.cfg, sw.rail, sw.origin, before, steps, s, a);
    assert sw.transfers[..made.value] == s.transfers[..made.value];
    id, ls := made, steps;
  }

  lemma HandlerTail(cfg: Config, rail: Rail, origin: Sys, before: seq<Label>, ls: seq<Label>, s: Sys, a: nat)
    requires s == Exec(cfg, origin, before) && Good(cfg, rail, s) && Run(cfg, Honest(rail), origin, before + ls)
    requires AllSteps(ls, a) && a in s.acts && IsHandler(s.acts[a].pc) && cfg.maxAttempts >= 1
    ensures var s' := Exec(cfg, origin, before + ls);
            && |s'.transfers| == |s.transfers|
            && (forall i :: 0 <= i < |s.transfers| && i != s.acts[a].transfer ==> s'.transfers[i] == s.transfers[i])
  {
    hide Run, Exec, WorkLeft;
    ExecSplit(cfg, Honest(rail), origin, before, ls);
    HandlerRun(cfg, Honest(rail), s, ls, a);
  }

  lemma SoleReference(w: World, s: Sys, reference: string, id: nat)
    requires Refs(w, s) && !w.Arbitrary? && Newest(s.transfers, reference) == Some(id) && WasSent(s, reference)
    ensures id in s.sent && id < |s.transfers| && s.transfers[id].reference == reference
  {
    NewestSpec(s.transfers, reference);
    var j :| j in s.sent && j < |s.transfers| && s.transfers[j].reference == reference;
  }

  lemma HonestView(cfg: Config, w: World, s: Sys, id: nat)
    requires Views(cfg, w, s) && !w.Arbitrary? && id < |s.transfers|
    ensures SagaLocal.HonestOk(ViewOf(s, id), w.rail.settles(s.transfers[id].reference))
    ensures ViewOf(s, id).status == s.transfers[id].status && ViewOf(s, id).sent == (id in s.sent)
    ensures SagaLocal.RawOk(ViewOf(s, id))
  {
    assert SagaLocal.ViewOk(cfg, w, s.transfers[id].reference, ViewOf(s, id));
  }

  /** What a truthful success callback finds: a transfer that can settle, or one already settled or held. */
  lemma SentAndTrue(cfg: Config, rail: Rail, s: Sys, reference: string, id: nat)
    requires Good(cfg, rail, s) && Newest(s.transfers, reference) == Some(id)
    requires Admissible(Honest(rail), s, Callback(reference, Success))
    ensures id < |s.transfers| && s.transfers[id].status in {Debited, InDoubt, Settled, ManualReview}
  {
    hide Views, ViewOf, Refs, Acts, Events, NoStrayLegs, Sound, Money, Journaled, Newest, WasSent;
    SoleReference(Honest(rail), s, reference, id);
    HonestView(cfg, Honest(rail), s, id);
  }

  /** A callback, even a duplicate racing the poller, changes nothing about a terminal transfer, and a
      processed success callback leaves the transfer settled unless it is held for review. */
  method HandleRailCallback(driver: Driver, reference: string, verdict: Verdict) returns (status: Option<Status>)
    requires driver.sw.Valid()
    requires Admissible(Honest(driver.sw.rail), driver.sw.State(), Callback(reference, verdict))
    modifies driver.sw, driver.sw.ledger
    ensures driver.sw.Valid() && |driver.sw.transfers| == |old(driver.sw.transfers)|
    ensures Newest(old(driver.sw.transfers), reference).None? ==> status.None?
    ensures Newest(old(driver.sw.transfers), reference).Some? ==>
              var id := Newest(old(driver.sw.transfers), reference).value;
              && id < |driver.sw.transfers|
              && (status.Some? ==> status.value == driver.sw.transfers[id].status)
              && (IsTerminal(old(driver.sw.transfers)[id].status) ==>
                    driver.sw.transfers == old(driver.sw.transfers) && driver.sw.outbox == old(driver.sw.outbox)
                    && driver.sw.ledger.Contents() == old(driver.sw.ledger.Contents()))
              && (status.Some? && verdict == Success ==>
                    && status.value == (if old(driver.sw.transfers)[id].status == ManualReview then ManualReview else Settled)
                    && driver.sw.transfers == old(driver.sw.transfers)[id := old(driver.sw.transfers)[id].(status := status.value)]
                    && driver.sw.outbox == old(driver.sw.outbox)
                    && (status.value == Settled ==> Has(driver.sw.ledger.journal, id, SettleLeg)))
              && (status.Some? && verdict == Declined && old(driver.sw.transfers)[id].status in {Debited, InDoubt} ==>
                    && status.value == ReversalPending
                    && driver.sw.transfers == old(driver.sw.transfers)[id := old(driver.sw.transfers)[id].(status := ReversalPending)]
                    && driver.sw.outbox
                       == old(driver.sw.outbox)[old(driver.sw.nextEvent) := Event(id, ReversalRequested, 0, false, false)])
              && (verdict == Declined && old(driver.sw.transfers)[id].status !in {Debited, InDoubt} ==>
                    driver.sw.transfers == old(driver.sw.transfers) && driver.sw.outbox == old(driver.sw.outbox))
              && (verdict != Success ==> driver.sw.ledger.Contents() == old(driver.sw.ledger.Contents()))
              && (verdict == Unknown ==> driver.sw.State() == old(driver.sw.State()))
              && (Faultless(driver.sw.env) && Healthy(old(driver.sw.State())) ==> status.Some? || driver.CannotSettle(id))
  {
    hide Exec, Run, Good, Switch.Happened, Switch.Valid, Healthy, Apply, Admissible, Has;
    var sw := driver.sw;
    NewestSpec(sw.transfers, reference);
    var found := sw.LoadByReference(reference);
    if found.None? { return None; }
    var id := found.value;
    match verdict {
      case Unknown => status := Ignore(driver, id);
      case Declined => status := Decline(driver, reference, id);
      case Success =>
        status := Confirm(driver, reference, id);
        if status == Some(Settled) { SettledHasLeg(sw, id); }
    }
  }

  lemma SettledHasLeg(sw: Switch, id: nat)
    requires sw.Valid() && id < |sw.transfers| && sw.transfers[id].status == Settled
    ensures Has(sw.ledger.journal, id, SettleLeg)
  {
    hide Exec, Run, Views;
    sw.ValidIsGood();
    HonestView(sw.cfg, Honest(sw.rail), sw.State(), id);
  }

  lemma CallbackSpawns(cfg: Config, s: Sys, reference: string, v: Verdict, id: nat)
    requires Newest(s.transfers, reference) == Some(id) && id < |s.transfers|
    ensures Apply(cfg, s, Callback(reference, v)) == Spawn(s, Act(Direct, id, CallbackPc(s.transfers[id].status, v)))
  {
  }

  /** An unspecified verdict decides nothing. */
  method Ignore(driver: Driver, id: nat) returns (status: Option<Status>)
    requires driver.sw.Valid() && id < |driver.sw.transfers|
    modifies driver.sw
    ensures driver.sw.Valid() && driver.sw.State() == old(driver.sw.State())
    ensures status.Some? ==> status.value == driver.sw.transfers[id].status
    ensures Faultless(driver.sw.env) ==> status.Some?
  {
    status := driver.sw.ReadStatus(id);
  }

  /** Takes the edge to the given status if the transfer has one, and reads the status back. */
  method MarkAndRead(sw: Switch, ghost a: nat, id: nat, to: Status) returns (status: Option<Status>)
    requires sw.Valid() && id < |sw.transfers| && a in sw.acts && sw.acts[a].transfer == id
    requires SagaLocal.MarkTarget(sw.acts[a].pc) == Some((to, None))
    modifies sw
    ensures sw.Valid() && |sw.transfers| == |old(sw.transfers)|
    ensures status.Some? ==> status.value == sw.transfers[id].status
    ensures status.Some? && CanTransition(old(sw.transfers)[id].status, to) ==> status.value == to && sw.TookEdge(id, to, None)
    ensures sw.ledger.Contents() == old(sw.ledger.Contents())
    ensures !CanTransition(old(sw.transfers)[id].status, to) ==> sw.transfers == old(sw.transfers) && sw.outbox == old(sw.outbox)
    ensures Faultless(sw.env) ==> status.Some?
  {
    hide Exec, Run, Good, Switch.Valid, Healthy, Apply, CanTransition, SagaLocal.MarkTarget;
    var ok, o := sw.Mark(a, id, to, None);
    if !ok { return None; }
    status := sw.ReadStatus(id);
  }

  method Decline(driver: Driver, reference: string, id: nat) returns (status: Option<Status>)
    requires driver.sw.Valid() && id < |driver.sw.transfers| && Newest(driver.sw.transfers, reference) == Some(id)
    requires Admissible(Honest(driver.sw.rail), driver.sw.State(), Callback(reference, Declined))
    modifies driver.sw
    ensures driver.sw.Valid() && |driver.sw.transfers| == |old(driver.sw.transfers)|
    ensures status.Some? ==> status.value == driver.sw.transfers[id].status
    ensures status.Some? && old(driver.sw.transfers)[id].status in {Debited, InDoubt} ==>
              && status.value == ReversalPending
              && driver.sw.transfers == old(driver.sw.transfers)[id := old(driver.sw.transfers)[id].(status := ReversalPending)]
              && driver.sw.outbox == old(driver.sw.outbox)[old(driver.sw.nextEvent) := Event(id, ReversalRequested, 0, false, false)]
    ensures old(driver.sw.transfers)[id].status !in {Debited, InDoubt} ==>
              driver.sw.transfers == old(driver.sw.transfers) && driver.sw.outbox == old(driver.sw.outbox)
    ensures driver.sw.ledger.Contents() == old(driver.sw.ledger.Contents())
    ensures Faultless(driver.sw.env) ==> status.Some?
  {
    hide Exec, Run, Good, Switch.Valid, Healthy, Admissible, Apply, CanTransition, IsTerminal;
    EdgeTable(driver.sw.transfers[id].status, ReversalPending);
    var sw := driver.sw;
    ghost var s, a := sw.State(), sw.nextAct;
    CallbackSpawns(sw.cfg, s, reference, Declined, id);
    sw.Arrive(Callback(reference, Declined), id);
    status := MarkAndRead(sw, a, id, ReversalPending);
  }

  /** A success posts the settle leg unless the transfer was terminal, then marks it settled. */
  method Confirm(driver: Driver, reference: string, id: nat) returns (status: Option<Status>)
    requires driver.sw.Valid() && id < |driver.sw.transfers| && Newest(driver.sw.transfers, reference) == Some(id)
    requires Admissible(Honest(driver.sw.rail), driver.sw.State(), Callback(reference, Success))
    modifies driver.sw, driver.sw.ledger
    ensures driver.sw.Valid() && |driver.sw.transfers| == |old(driver.sw.transfers)|
    ensures status.Some? ==> status.value == driver.sw.transfers[id].status
    ensures IsTerminal(old(driver.sw.transfers)[id].status) ==>
              driver.sw.transfers == old(driver.sw.transfers) && driver.sw.outbox == old(driver.sw.outbox)
              && driver.sw.ledger.Contents() == old(driver.sw.ledger.Contents())
    ensures status.Some? ==> status.value == if old(driver.sw.transfers)[id].status == ManualReview then ManualReview else Settled
    ensures status.Some? && status.value != old(driver.sw.transfers)[id].status ==>
              && driver.sw.transfers == old(driver.sw.transfers)[id := old(driver.sw.transfers)[id].(status := Settled)]
              && driver.sw.outbox == old(driver.sw.outbox)
    ensures Faultless(driver.sw.env) && Healthy(old(driver.sw.State())) ==> status.Some? || driver.CannotSettle(id)
  {
    hide Exec, Run, Good, Switch.Valid, Healthy, Admissible, Apply, PostLeg, CanTransition, Switch.State;
    var sw := driver.sw;
    ghost var a := Welcome(driver, reference, id);
    SettleEdges(sw.transfers[id].status);
    if IsTerminal(sw.transfers[id].status) {
      status := MarkAndRead(sw, a, id, Settled);
    } else {
      status := SettleNow(driver, a, id);
    }
  }

  /** The callback looks up its transfer, which an honest rail lets be one it can settle, or one that is done. */
  ghost method Welcome(driver: Driver, reference: string, id: nat) returns (a: nat)
    requires driver.sw.Valid() && id < |driver.sw.transfers| && Newest(driver.sw.transfers, reference) == Some(id)
    requires Admissible(Honest(driver.sw.rail), driver.sw.State(), Callback(reference, Success))
    modifies driver.sw`acts, driver.sw`nextAct, driver.sw`trail
    ensures driver.sw.Valid()
    ensures driver.sw.transfers[id].status in {Debited, InDoubt, Settled, ManualReview}
    ensures driver.sw.At(a, id, if IsTerminal(driver.sw.transfers[id].status) then MarkSettled else PostSettle)
    ensures Healthy(old(driver.sw.State())) ==> Healthy(driver.sw.State())
  {
    hide Exec, Run, Good, Switch.Valid, Healthy, Admissible, Apply, PostLeg, IsTerminal;
    var sw := driver.sw;
    var s := sw.State();
    a := sw.nextAct;
    sw.ValidIsGood();
    SentAndTrue(sw.cfg, sw.rail, s, reference, id);
    CallbackSpawns(sw.cfg, s, reference, Success, id);
    sw.Arrive(Callback(reference, Success), id);
    SpawnKeepsHealth(s, sw.State());
  }

  /** Posts the settle leg and marks the transfer settled. */
  method SettleNow(driver: Driver, ghost a: nat, id: nat) returns (status: Option<Status>)
    requires driver.sw.Valid() && driver.sw.At(a, id, PostSettle) && driver.sw.transfers[id].status in {Debited, InDoubt}
    modifies driver.sw, driver.sw.ledger
    ensures driver.sw.Valid() && |driver.sw.transfers| == |old(driver.sw.transfers)|
    ensures status.Some? ==>
              && status.value == Settled
              && driver.sw.transfers == old(driver.sw.transfers)[id := old(driver.sw.transfers)[id].(status := Settled)]
              && driver.sw.outbox == old(driver.sw.outbox)
    ensures Faultless(driver.sw.env) && Healthy(old(driver.sw.State())) ==> status.Some? || driver.CannotSettle(id)
  {
    hide Exec, Run, Good, Switch.Valid, Healthy, Apply, PostLeg, CanTransition, Switch.State;
    SettleEdges(driver.sw.transfers[id].status);
    var posted := PostSettleFor(driver, a, id);
    if !posted { return None; }
    status := MarkAndRead(driver.sw, a, id, Settled);
  }

  lemma SettleEdges(st: Status)
    requires st in {Debited, InDoubt, Settled, ManualReview}
    ensures CanTransition(st, Settled) <==> st == Debited || st == InDoubt
    ensures IsTerminal(st) <==> st == Settled || st == ManualReview
  {
    EdgeTable(st, Settled);
    TerminalTable(st);
  }

  lemma SpawnKeepsHealth(s: Sys, s': Sys)
    requires s'.transfers == s.transfers && s'.book == s.book
    ensures Healthy(s) ==> Healthy(s')
  {
  }

  method PostSettleFor(driver: Driver, ghost a: nat, id: nat) returns (posted: bool)
    requires driver.sw.Valid() && driver.sw.At(a, id, PostSettle)
    modifies driver.sw, driver.sw.ledger
    ensures driver.sw.Valid() && driver.sw.transfers == old(driver.sw.transfers) && driver.sw.outbox == old(driver.sw.outbox)
    ensures posted ==> driver.sw.At(a, id, MarkSettled)
    ensures Faultless(driver.sw.env) && Healthy(old(driver.sw.State())) ==> posted || driver.CannotSettle(id)
  {
    hide Exec, Run, Good, Switch.Valid, Healthy, PostLeg, Apply;
    var sw := driver.sw;
    ghost var s := sw.State();
    if Healthy(s) { driver.TakenHere(a, id, SettleLeg, None); }
    var r, o := sw.CallLedger(a, id, SettleLeg, None);
    posted := r.Some? && r.value.Posted?;
  }

  // ---------------------------------------------------------------- the corrective requeue

  /** Re-appends the reversal event of a transfer awaiting reversal; changes no status and no balance. */
  method RequeueReversal(sw: Switch, reference: string) returns (requeued: Option<bool>)
    requires sw.Valid()
    modifies sw
    ensures sw.Valid() && sw.transfers == old(sw.transfers) && sw.ledger.Contents() == old(sw.ledger.Contents())
    ensures requeued == Some(true) ==>
              && Newest(sw.transfers, reference).Some? && Newest(sw.transfers, reference).value < |sw.transfers|
              && sw.transfers[Newest(sw.transfers, reference).value].status == ReversalPending
              && sw.outbox
                 == old(sw.outbox)[old(sw.nextEvent) := Event(Newest(sw.transfers, reference).value, ReversalRequested, 0, false, false)]
              && sw.nextEvent == old(sw.nextEvent) + 1
    ensures requeued == Some(false) ==> sw.outbox == old(sw.outbox)
    ensures Faultless(sw.env) && Newest(sw.transfers, reference).Some? ==>
              Newest(sw.transfers, reference).value < |sw.transfers|
              && requeued == Some(sw.transfers[Newest(sw.transfers, reference).value].status == ReversalPending)
  {
    hide Exec, Run, Good, Switch.Valid, Healthy, Admissible, Apply, Newest;
    var found := sw.LoadByReference(reference);
    if found.None? { return None; }
    var id := found.value;
    if sw.transfers[id].status != ReversalPending { return Some(false); }
    ghost var s, a := sw.State(), sw.nextAct;
    RequeueSpawns(sw.cfg, sw.rail, s, reference, id);
    sw.Arrive(Requeue(reference), id);
    ghost var s1 := sw.State();
    var ok, o := sw.Reenqueue(a, id, ReversalRequested);
    RequeueTail(sw.cfg, sw.rail, s, s1, a, id, o);
    sw.Leave(a);
    requeued := if ok then Some(true) else None;
  }

  lemma RequeueSpawns(cfg: Config, rail: Rail, s: Sys, reference: string, id: nat)
    requires Newest(s.transfers, reference) == Some(id) && id < |s.transfers| && s.transfers[id].status == ReversalPending
    ensures Admissible(Honest(rail), s, Requeue(reference))
    ensures Apply(cfg, s, Requeue(reference)) == Spawn(s, Act(Direct, id, AppendEvent(ReversalRequested)))
  {
  }

  /** The append, and the activation's leaving, seen from where the requeue began. */
  lemma RequeueTail(cfg: Config, rail: Rail, s: Sys, s1: Sys, a: nat, id: nat, o: Outcome)
    requires id < |s.transfers| && a == s.nextAct && s1 == Spawn(s, Act(Direct, id, AppendEvent(ReversalRequested)))
    ensures var s2 := Apply(cfg, s1, Step(a, o));
            && a in s2.acts && s2.acts[a] == Act(Direct, id, Done(o.Answer?))
            && s2.transfers == s.transfers && s2.book == s.book
            && (o.Answer? ==> s2.outbox == Append(s, id, ReversalRequested).outbox && s2.nextEvent == s.nextEvent + 1)
            && Apply(cfg, s2, Finish(a, true)) == Retire(s2, a)
  {
    hide StepAct;
    AppendLabel(cfg, Honest(rail), s1, a, ReversalRequested, o);
  }

  /** One requeue of a stranded reversal, then a drain: the transfer is reversed, and its postings
      leave every account, the source first of all, where it was. */
  method CloseTheLoop(poller: Poller, reference: string, code: string)
    requires poller.Configured() && poller.sw.Valid()
    requires Faultless(poller.sw.env) && AlwaysDue(poller.sw.env) && Healthy(poller.sw.State())
    modifies poller.sw, poller.sw.ledger
    ensures poller.sw.Valid() && |poller.sw.transfers| == |old(poller.sw.transfers)|
    ensures Newest(old(poller.sw.transfers), reference).Some? ==>
              var id := Newest(old(poller.sw.transfers), reference).value;
              && id < |poller.sw.transfers|
              && (old(poller.sw.transfers)[id].status == ReversalPending ==>
                    poller.sw.transfers[id].status == Reversed && Net(poller.sw.ledger.journal, id, code) == 0)
  {
    hide Switch.Valid, Healthy, OnTrack, Blocked, Net, Good, Exec, Run;
    var sw := poller.sw;
    ghost var s0 := sw.State();
    var found := sw.LoadByReference(reference);
    var requeued := RequeueReversal(sw, reference);
    SpawnKeepsHealth(s0, sw.State());
    ghost var s1, before := sw.State(), sw.trail;
    HereIsExec(sw);
    var _ := poller.Drain();
    if found.Some? && s0.transfers[found.value].status == ReversalPending {
      RequeuedIsOnTrack(sw.rail, s0, s1, found.value);
      EndsReversed(poller, s1, before, found.value, code);
    }
  }

  lemma RequeuedIsOnTrack(rail: Rail, s0: Sys, s1: Sys, id: nat)
    requires id < |s0.transfers| && s1.transfers == s0.transfers && s0.transfers[id].status == ReversalPending
    requires s1.outbox == Append(s0, id, ReversalRequested).outbox
    ensures OnTrack(rail, s1, id)
  {
    assert Drives(s1, id, s0.nextEvent);
  }

  lemma EndsReversed(poller: Poller, s1: Sys, before: seq<Label>, id: nat, code: string)
    requires poller.sw.Valid() && before <= poller.sw.trail && s1 == Exec(poller.sw.cfg, poller.sw.origin, before)
    requires id < |s1.transfers| && s1.transfers[id].status == ReversalPending
    requires id < |poller.sw.transfers|
    requires IsTerminal(poller.sw.transfers[id].status) || Blocked(poller.sw.rail, poller.sw.State(), id)
    ensures poller.sw.transfers[id].status == Reversed && Net(poller.sw.ledger.journal, id, code) == 0
  {
    hide Net, Inv, Journaled, Money, Run;
    var sw := poller.sw;
    var more := sw.trail[|before|..];
    assert sw.trail == before + more;
    ExecSplit(sw.cfg, Honest(sw.rail), sw.origin, before, more);
    StatusesOnlyAdvance(sw.cfg, s1, more, id);
    TerminalTable(sw.transfers[id].status);
    sw.ValidIsGood();
    TerminalEffectOf(sw.cfg, Honest(sw.rail), sw.State(), id, code);
  }
}
