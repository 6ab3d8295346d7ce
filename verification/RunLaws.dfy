/** Laws of single activations and single events over whole runs, whatever else happens in between. */
module RunLaws {
  import opened Prelude
  import opened Ledger
  import opened StateMachine
  import opened Saga
  import opened SagaLocal
  import opened SagaInvariant
  import opened SagaSteps
  import opened SagaMoney

  // ---------------------------------------------------------------- the status query gives up

  /** What the activation's own steps met, in order. */
  function Outcomes(ls: seq<Label>, a: nat): seq<Outcome> {
    if ls == [] then []
    else
      var last := ls[|ls|-1];
      Outcomes(ls[..|ls|-1], a) + (if last.Step? && last.act == a then [last.outcome] else [])
  }

  predicate AllInconclusive(os: seq<Outcome>) { forall j :: 0 <= j < |os| ==> Inconclusive(os[j]) }

  /** All the attempts there were met nothing conclusive; or all before a wait that was cancelled. */
  predicate GaveUp(attempts: nat, os: seq<Outcome>) {
    || (|os| == attempts + 1 && AllInconclusive(os[..attempts]))
    || (0 < |os| <= attempts && os[|os|-1] == Fault(true) && AllInconclusive(os[..|os|-1]))
  }

  /** Where a query that began with so many attempts can stand after meeting os. */
  predicate Asking(attempts: nat, os: seq<Outcome>, pc: Pc) {
    match pc
    case Query(left) => |os| + left == attempts && AllInconclusive(os)
    case MarkManual => GaveUp(attempts, os)
    case PostSettle | MarkSettled | MarkReversing | Done(_) => true
    case _ => false
  }

  ghost predicate AskingIn(s: Sys, a: nat, attempts: nat, os: seq<Outcome>) {
    a < s.nextAct && (a in s.acts ==> Asking(attempts, os, s.acts[a].pc))
  }

  lemma QueryStep(cfg: Config, s: Sys, a: nat, o: Outcome, attempts: nat, os: seq<Outcome>)
    requires a in s.acts && s.acts[a].transfer < |s.transfers| && Asking(attempts, os, s.acts[a].pc)
    ensures a in StepAct(cfg, s, a, o).acts && Asking(attempts, os + [o], StepAct(cfg, s, a, o).acts[a].pc)
            && StepAct(cfg, s, a, o).nextAct == s.nextAct
  {
    hide StepAct, PostLeg, Advance, MarkTarget, PostTarget;
    StepActByTarget(cfg, s, a, o);
    var pc := s.acts[a].pc;
    if pc.Query? {
      QueryStepIs(cfg, s, a, o);
      assert (os + [o])[..|os|] == os;
    } else {
      OtherStepIs(cfg, s, a, o);
    }
  }

  lemma QueryStepIs(cfg: Config, s: Sys, a: nat, o: Outcome)
    requires a in s.acts && s.acts[a].transfer < |s.transfers| && s.acts[a].pc.Query?
    ensures StepAct(cfg, s, a, o) == Goto(s, a, AfterQuery(s.acts[a].pc.left, o))
  {
    hide AfterQuery, Goto;
  }

  lemma OtherStepIs(cfg: Config, s: Sys, a: nat, o: Outcome)
    requires a in s.acts && s.acts[a].transfer < |s.transfers|
    requires var pc := s.acts[a].pc; pc.MarkManual? || pc.PostSettle? || pc.MarkSettled? || pc.MarkReversing? || pc.Done?
    ensures var s' := StepAct(cfg, s, a, o);
            a in s'.acts && (s'.acts[a].pc.MarkSettled? || s'.acts[a].pc.Done?) && s'.nextAct == s.nextAct
  {
    hide PostLeg, CanTransition, EventForStatus;
  }

  /** An activation that is not stepping keeps its place, or leaves for good. */
  lemma Elsewhere(cfg: Config, s: Sys, l: Label, a: nat)
    requires a < s.nextAct && !(l.Step? && l.act == a)
    ensures var s' := Apply(cfg, s, l);
            a < s'.nextAct && (a in s'.acts ==> a in s.acts && s'.acts[a] == s.acts[a])
  {
    hide StepAct, FinishAct;
    match l {
      case Step(b, o) => if b in s.acts && s.acts[b].transfer < |s.transfers| { StepKeepsOthers(cfg, s, b, o); }
      case Finish(b, recorded) => if b in s.acts && s.acts[b].pc.Done? { FinishKeepsOthers(cfg, s, b, recorded); }
      case _ =>
    }
  }

  lemma FinishKeepsOthers(cfg: Config, s: Sys, b: nat, recorded: bool)
    requires b in s.acts && s.acts[b].pc.Done?
    ensures FinishAct(cfg, s, b, recorded).acts == s.acts - {b} && FinishAct(cfg, s, b, recorded).nextAct == s.nextAct
  {
    hide Failing;
  }

  lemma StepKeepsOthers(cfg: Config, s: Sys, b: nat, o: Outcome)
    requires b in s.acts && s.acts[b].transfer < |s.transfers|
    ensures var s' := StepAct(cfg, s, b, o);
            && s'.acts.Keys == s.acts.Keys && s'.nextAct == s.nextAct
            && (forall x :: x in s.acts && x != b ==> s'.acts[x] == s.acts[x])
            && s'.acts[b].origin == s.acts[b].origin
  {
    hide StepAct, PostLeg, AfterPost, CanTransition, EventForStatus;
    StepActByTarget(cfg, s, b, o);
    var pc := s.acts[b].pc;
    if MarkTarget(pc).None? && PostTarget(pc).None? && !pc.AppendEvent? { StepMovesOn(cfg, s, b, o); }
  }

  lemma {:induction false} AskingRun(cfg: Config, s: Sys, ls: seq<Label>, a: nat, attempts: nat)
    requires Shape(s) && a in s.acts && s.acts[a].pc == Query(attempts)
    requires forall i :: 0 <= i <= |ls| ==> Shape(Exec(cfg, s, ls[..i]))
    ensures AskingIn(Exec(cfg, s, ls), a, attempts, Outcomes(ls, a))
  {
    hide Apply, Asking;
    if ls == [] {
      assert AskingIn(s, a, attempts, []) by { AskingStarts(attempts); }
    } else {
      var before, l := ls[..|ls|-1], ls[|ls|-1];
      var mid := Exec(cfg, s, before);
      forall i | 0 <= i <= |before| ensures Shape(Exec(cfg, s, before[..i])) {
        assert before[..i] == ls[..i];
      }
      AskingRun(cfg, s, before, a, attempts);
      assert before == ls[..|before|];
      AskingLabel(cfg, mid, l, a, attempts, Outcomes(before, a));
    }
  }

  lemma AskingStarts(attempts: nat)
    ensures Asking(attempts, [], Query(attempts))
  {
  }

  lemma AskingLabel(cfg: Config, s: Sys, l: Label, a: nat, attempts: nat, os: seq<Outcome>)
    requires Shape(s) && AskingIn(s, a, attempts, os)
    ensures AskingIn(Apply(cfg, s, l), a, attempts, os + (if l.Step? && l.act == a then [l.outcome] else []))
  {
    hide Asking, StepAct;
    if l.Step? && l.act == a {
      if a in s.acts { QueryStep(cfg, s, a, l.outcome, attempts, os); }
    } else {
      Elsewhere(cfg, s, l, a);
      assert os + [] == os;
    }
  }

  /** In any run, whatever others do in between: a handler that began to ask with so many attempts stands
      at the mark for manual review only if each of them met nothing conclusive, or if none of those before
      a cancelled wait did. */
  lemma ManualOnlyAfterSilence(cfg: Config, w: World, s: Sys, ls: seq<Label>, a: nat, attempts: nat)
    requires Reachable(cfg, w, s) && a in s.acts && s.acts[a].pc == Query(attempts)
    requires a in Exec(cfg, s, ls).acts && Exec(cfg, s, ls).acts[a].pc == MarkManual
    ensures GaveUp(attempts, Outcomes(ls, a))
  {
    hide Reachable, Exec;
    ArbitraryInv(cfg, w, s);
    forall i | 0 <= i <= |ls| ensures Shape(Exec(cfg, s, ls[..i])) {
      ArbitraryExec(cfg, s, ls[..i]);
    }
    AskingRun(cfg, s, ls, a, attempts);
  }

  lemma ArbitraryInv(cfg: Config, w: World, s: Sys)
    requires Reachable(cfg, w, s)
    ensures Inv(cfg, Arbitrary, s)
  {
    hide Inv, Run, Exec;
    var chart, ls :| EndsIn(cfg, w, chart, ls, s);
    StartHasInv(cfg, Arbitrary, chart);
    ArbitraryExec(cfg, Start(chart), ls);
  }

  lemma {:induction false} ArbitraryExec(cfg: Config, s: Sys, ls: seq<Label>)
    requires Inv(cfg, Arbitrary, s)
    ensures Inv(cfg, Arbitrary, Exec(cfg, s, ls)) && Shape(Exec(cfg, s, ls))
  {
    hide Apply, Views, Acts, Events, NoStrayLegs, Refs, Shape;
    if ls != [] {
      ArbitraryExec(cfg, s, ls[..|ls|-1]);
      ApplyKeepsInv(cfg, Arbitrary, Exec(cfg, s, ls[..|ls|-1]), ls[|ls|-1]);
    }
  }

  // ---------------------------------------------------------------- dead letters

  /** Dead letters have used up their attempts, and a delivery claimed no more than are on record. */
  ghost predicate Spent(cfg: Config, s: Sys) {
    && (forall e :: e in s.outbox ==> e < s.nextEvent && (s.outbox[e].dead ==> s.outbox[e].attempts >= cfg.maxAttempts))
    && (forall a :: a in s.acts ==> ClaimOk(s, s.acts[a].origin))
  }

  predicate ClaimOk(s: Sys, origin: Origin) {
    origin.Delivery? ==>
      origin.event < s.nextEvent && (origin.event in s.outbox ==> origin.attempts <= s.outbox[origin.event].attempts)
  }

  /** Rows on record keep their count; what is new has none and is not dead. */
  ghost predicate OnlyNewRows(s: Sys, s': Sys) {
    && s.nextEvent <= s'.nextEvent
    && (forall e :: e in s'.outbox && e < s.nextEvent ==> e in s.outbox && s'.outbox[e] == s.outbox[e])
    && (forall e :: e in s'.outbox && e >= s.nextEvent ==> e < s'.nextEvent && !s'.outbox[e].dead)
  }

  lemma OnlyNewKeepsSpent(cfg: Config, s: Sys, s': Sys)
    requires Spent(cfg, s) && OnlyNewRows(s, s')
    requires forall a :: a in s'.acts ==> ClaimOk(s, s'.acts[a].origin)
    ensures Spent(cfg, s')
  {
  }

  lemma AdvanceOnlyNew(s: Sys, id: nat, to: Status, tx: Option<nat>)
    requires id < |s.transfers| && forall e :: e in s.outbox ==> e < s.nextEvent
    ensures OnlyNewRows(s, Advance(s, id, to, tx)) && Advance(s, id, to, tx).acts == s.acts
  {
    hide CanTransition, EventForStatus;
  }

  lemma StepOnlyNew(cfg: Config, s: Sys, a: nat, o: Outcome)
    requires a in s.acts && s.acts[a].transfer < |s.transfers| && forall e :: e in s.outbox ==> e < s.nextEvent
    ensures OnlyNewRows(s, StepAct(cfg, s, a, o))
  {
    hide StepAct, PostLeg, AfterPost, Advance, MarkTarget, PostTarget;
    StepActByTarget(cfg, s, a, o);
    var pc := s.acts[a].pc;
    if MarkTarget(pc).Some? {
      AdvanceOnlyNew(s, s.acts[a].transfer, MarkTarget(pc).value.0, MarkTarget(pc).value.1);
    } else if PostTarget(pc).None? && !pc.AppendEvent? {
      StepMovesOn(cfg, s, a, o);
    }
  }

  lemma StepKeepsSpent(cfg: Config, s: Sys, a: nat, o: Outcome)
    requires Spent(cfg, s) && a in s.acts && s.acts[a].transfer < |s.transfers|
    ensures Spent(cfg, StepAct(cfg, s, a, o))
  {
    hide StepAct, OnlyNewRows, ClaimOk;
    StepOnlyNew(cfg, s, a, o);
    StepKeepsOthers(cfg, s, a, o);
    OnlyNewKeepsSpent(cfg, s, StepAct(cfg, s, a, o));
  }

  lemma FinishKeepsSpent(cfg: Config, s: Sys, a: nat, recorded: bool)
    requires Spent(cfg, s) && a in s.acts && s.acts[a].pc.Done?
    ensures Spent(cfg, FinishAct(cfg, s, a, recorded))
  {
    assert ClaimOk(s, s.acts[a].origin);
  }

  lemma LabelKeepsSpent(cfg: Config, s: Sys, l: Label)
    requires Spent(cfg, s)
    ensures Spent(cfg, Apply(cfg, s, l))
  {
    hide StepAct, FinishAct, IsStuck, Newest;
    match l {
      case Step(a, o) => if a in s.acts && s.acts[a].transfer < |s.transfers| { StepKeepsSpent(cfg, s, a, o); }
      case Finish(a, recorded) => if a in s.acts && s.acts[a].pc.Done? { FinishKeepsSpent(cfg, s, a, recorded); }
      case _ => OnlyNewKeepsSpent(cfg, s, Apply(cfg, s, l));
    }
  }

  lemma {:induction false} RunKeepsSpent(cfg: Config, s: Sys, ls: seq<Label>)
    requires Spent(cfg, s)
    ensures Spent(cfg, Exec(cfg, s, ls))
  {
    hide Apply, Spent;
    if ls != [] {
      RunKeepsSpent(cfg, s, ls[..|ls|-1]);
      LabelKeepsSpent(cfg, Exec(cfg, s, ls[..|ls|-1]), ls[|ls|-1]);
    }
  }

  /** In every run, whatever the rail does: an event is dead-lettered only with its attempts used up. */
  lemma DeadLettersAreSpent(cfg: Config, w: World, s: Sys, e: nat)
    requires Reachable(cfg, w, s) && e in s.outbox && s.outbox[e].dead
    ensures s.outbox[e].attempts >= cfg.maxAttempts
  {
    hide Run, Exec;
    var chart, ls :| EndsIn(cfg, w, chart, ls, s);
    RunKeepsSpent(cfg, Start(chart), ls);
  }
}
