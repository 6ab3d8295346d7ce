/** One delivery from claim to bookkeeping, as a run of labels of one activation. */
module DeliveryEffect {
  import opened Prelude
  import opened Ledger
  import opened StateMachine
  import opened Saga
  import opened SagaLocal
  import opened SagaInvariant
  import opened SagaSteps
  import opened SagaMoney
  import opened LedgerHealth
  import opened SwitchStore
  import opened DrainProgress

  lemma StepReaches(cfg: Config, s: Sys, a: nat, o: Outcome)
    requires a in s.acts && s.acts[a].transfer < |s.transfers|
    ensures var s' := StepAct(cfg, s, a, o);
            |s'.transfers| == |s.transfers| && Reaches(s.transfers[s.acts[a].transfer].status, s'.transfers[s.acts[a].transfer].status)
  {
    hide PostLeg, AfterLoad, AfterQuery, AfterPost, AfterVerdict;
    StepActByTarget(cfg, s, a, o);
    if MarkTarget(s.acts[a].pc).Some? {
      ReachesIsClosure(s.transfers[s.acts[a].transfer].status, MarkTarget(s.acts[a].pc).value.0, Pending);
    }
  }

  /** All the steps of one handler together. */
  lemma {:induction false} HandlerRun(cfg: Config, w: World, s: Sys, ls: seq<Label>, a: nat)
    requires Inv(cfg, w, s) && Run(cfg, w, s, ls) && AllSteps(ls, a) && cfg.maxAttempts >= 1
    requires a in s.acts && IsHandler(s.acts[a].pc)
    ensures var s', id := Exec(cfg, s, ls), s.acts[a].transfer;
            && HandlerFrame(cfg, s, s', a) && HandlerTrack(s, s', id)
            && Reaches(s.transfers[id].status, s'.transfers[id].status)
  {
    hide HandlerFrame, HandlerTrack, Inv, Apply, Admissible, StepAct;
    StartOfHandler(cfg, w, s, a);
    if ls != [] {
      var before, l := ls[..|ls|-1], ls[|ls|-1];
      HandlerRun(cfg, w, s, before, a);
      RunKeepsInv(cfg, w, s, before);
      HandlerLabel(cfg, w, s, Exec(cfg, s, before), l, a);
    }
  }

  lemma StartOfHandler(cfg: Config, w: World, s: Sys, a: nat)
    requires Inv(cfg, w, s) && a in s.acts && IsHandler(s.acts[a].pc)
    ensures s.acts[a].transfer < |s.transfers| && HandlerFrame(cfg, s, s, a) && HandlerTrack(s, s, s.acts[a].transfer)
  {
  }

  lemma HandlerLabel(cfg: Config, w: World, s: Sys, mid: Sys, l: Label, a: nat)
    requires Inv(cfg, w, mid) && l.Step? && l.act == a && cfg.maxAttempts >= 1
    requires a in s.acts && s.acts[a].transfer < |s.transfers|
    requires HandlerFrame(cfg, s, mid, a) && HandlerTrack(s, mid, s.acts[a].transfer)
    requires Reaches(s.transfers[s.acts[a].transfer].status, mid.transfers[s.acts[a].transfer].status)
    ensures var s', id := Apply(cfg, mid, l), s.acts[a].transfer;
            && HandlerFrame(cfg, s, s', a) && HandlerTrack(s, s', id)
            && Reaches(s.transfers[id].status, s'.transfers[id].status)
  {
    hide StepAct, WorkLeft, Driven, Views, Acts, Events, NoStrayLegs, Refs;
    var id, s' := s.acts[a].transfer, Apply(cfg, mid, l);
    StepFrame(cfg, mid, a, l.outcome);
    StepReaches(cfg, mid, a, l.outcome);
    HandlerFrameTrans(cfg, s, mid, s', a);
    HandlerTrackTrans(cfg, s, mid, s', a, id);
    ReachesIsClosure(s.transfers[id].status, mid.transfers[id].status, s'.transfers[id].status);
  }

  /** An activation with nothing to do: it has finished, or is about to find its status left behind. */
  predicate Idle(s: Sys, a: nat) {
    && a in s.acts && s.acts[a].transfer < |s.transfers|
    && (s.acts[a].pc.Done? || (s.acts[a].pc.Load? && s.transfers[s.acts[a].transfer].status != Driving(s.acts[a].pc.kind)))
  }

  lemma {:induction false} StaleRun(cfg: Config, s: Sys, ls: seq<Label>, a: nat)
    requires AllSteps(ls, a) && Idle(s, a)
    ensures var s' := Exec(cfg, s, ls); Idle(s', a) && s'.transfers == s.transfers && s'.outbox == s.outbox
  {
    if ls != [] { StaleRun(cfg, s, ls[..|ls|-1], a); }
  }

  /** The delivery of event r by activation a, before its first step. */
  predicate Delivering(s: Sys, a: nat, r: nat) {
    && a in s.acts && r in s.outbox && IsLive(s.outbox[r])
    && s.acts[a] == Act(Delivery(r, s.outbox[r].kind, s.outbox[r].attempts), s.outbox[r].transfer, Load(s.outbox[r].kind))
  }

  // ---------------------------------------------------------------- bookkeeping

  lemma FinishLowersMeasure(cfg: Config, s: Sys, a: nat, r: nat)
    requires a in s.acts && s.acts[a].pc.Done? && r in s.outbox && IsLive(s.outbox[r]) && r < s.nextEvent
    requires s.acts[a].origin.Delivery? && s.acts[a].origin.event == r && s.acts[a].origin.attempts == s.outbox[r].attempts
    ensures WorkLeft(cfg, FinishAct(cfg, s, a, true)) < WorkLeft(cfg, s)
  {
    var e := s.outbox[r];
    FailingLowersRemaining(cfg, e);
    var e' := if s.acts[a].pc.ok then e.(published := true) else Failing(cfg, e, e.attempts);
    RemainingUpdate(cfg, s.outbox, s.nextEvent, r, e');
  }

  /** Publishing an event whose status is behind takes nobody off track. */
  lemma FinishKeepsDriven(cfg: Config, w: World, s: Sys, a: nat, id: nat)
    requires Inv(cfg, w, s) && a in s.acts && s.acts[a].pc == Done(true) && id < |s.transfers|
    ensures var s' := FinishAct(cfg, s, a, true);
            s'.transfers == s.transfers && (Driven(s', id) <==> Driven(s, id))
  {
    hide Views, Shape, Refs, NoStrayLegs, Sound, ActOk, EventOk, Failing, IsTerminal;
    var s' := FinishAct(cfg, s, a, true);
    assert GoodAct(cfg, w, s, s.acts[a]) && DeliveryOk(s, s.acts[a]);
    if Aligned(s, id) {
      var e :| e in s.outbox && Drives(s, id, e);
      PublishedDoesNotDrive(cfg, w, s, a, id, e);
      assert Drives(s', id, e);
    }
    if Aligned(s', id) {
      var e :| e in s'.outbox && Drives(s', id, e);
      assert Drives(s, id, e);
    }
  }

  lemma PublishedDoesNotDrive(cfg: Config, w: World, s: Sys, a: nat, id: nat, e: nat)
    requires a in s.acts && s.acts[a].pc == Done(true) && id < |s.transfers|
    requires GoodAct(cfg, w, s, s.acts[a]) && DeliveryOk(s, s.acts[a])
    requires e in s.outbox && Drives(s, id, e)
    ensures s.acts[a].origin.Delivery? ==> s.acts[a].origin.event != e
  {
    DrivingInverts(s.outbox[e].kind, s.transfers[id].status);
  }

  /** Rescheduling or parking an event concerns its own transfer only. */
  lemma FailureKeepsOthersDriven(cfg: Config, s: Sys, a: nat, id: nat)
    requires a in s.acts && s.acts[a].pc == Done(false) && id < |s.transfers| && id != s.acts[a].transfer
    requires DeliveryOk(s, s.acts[a])
    ensures var s' := FinishAct(cfg, s, a, true);
            s'.transfers == s.transfers && (Driven(s', id) <==> Driven(s, id))
  {
    var s' := FinishAct(cfg, s, a, true);
    if Aligned(s, id) {
      var e :| e in s.outbox && Drives(s, id, e);
      assert Drives(s', id, e);
    }
    if Aligned(s', id) {
      var e :| e in s'.outbox && Drives(s', id, e);
      assert Drives(s, id, e);
    }
  }

  /** The bookkeeping of a delivery takes nobody off track, if a failed one was for a blocked transfer. */
  lemma FinishKeepsTrack(cfg: Config, rail: Rail, s: Sys, a: nat, ok: bool, id: nat)
    requires Inv(cfg, Honest(rail), s) && a in s.acts && s.acts[a].pc == Done(ok) && id < |s.transfers|
    requires s.acts[a].transfer < |s.transfers| && (ok || Blocked(rail, s, s.acts[a].transfer))
    ensures var s' := FinishAct(cfg, s, a, true);
            s'.transfers == s.transfers && (OnTrack(rail, s', id) <==> OnTrack(rail, s, id))
  {
    hide Driven, FinishAct, Views, Shape, Refs, NoStrayLegs, Acts;
    FinishShape(cfg, s, a, true);
    if ok {
      FinishKeepsDriven(cfg, Honest(rail), s, a, id);
    } else if id != s.acts[a].transfer {
      FailureKeepsOthersDriven(cfg, s, a, id);
    }
  }

  // ---------------------------------------------------------------- the whole delivery

  lemma HandlerKeepsOthers(cfg: Config, rail: Rail, s: Sys, s1: Sys, a: nat, id: nat)
    requires HandlerFrame(cfg, s, s1, a) && id < |s.transfers| && id != s.acts[a].transfer
    requires EventsBelow(s) && SameFixed(s, s1)
    ensures OnTrack(rail, s1, id) <==> OnTrack(rail, s, id)
    ensures s1.transfers[id].status == s.transfers[id].status
  {
    hide WorkLeft;
    if Aligned(s, id) {
      var e :| e in s.outbox && Drives(s, id, e);
      assert Drives(s1, id, e);
    }
    if Aligned(s1, id) {
      var e :| e in s1.outbox && Drives(s1, id, e);
      assert Drives(s, id, e);
    }
  }

  /** The delivered transfer: on track before the handler exactly if on track after it, and untouched otherwise. */
  lemma HandlerKeepsOwn(cfg: Config, rail: Rail, s: Sys, ls: seq<Label>, a: nat, r: nat)
    requires Inv(cfg, Honest(rail), s) && Run(cfg, Honest(rail), s, ls) && AllSteps(ls, a) && cfg.maxAttempts >= 1
    requires Delivering(s, a, r)
    ensures var s1, id := Exec(cfg, s, ls), s.acts[a].transfer;
            && id < |s.transfers| == |s1.transfers|
            && (OnTrack(rail, s1, id) <==> OnTrack(rail, s, id))
            && (!OnTrack(rail, s, id) ==> s1.transfers[id].status == s.transfers[id].status)
  {
    hide HandlerFrame, Inv, Run, Exec, WorkLeft, OnTrack, SameFixed, Driven;
    var s1, id := Exec(cfg, s, ls), s.acts[a].transfer;
    HandlerRun(cfg, Honest(rail), s, ls, a);
    StepsKeepFixed(cfg, s, ls);
    if OnTrack(rail, s, id) {
      KeptWhenUnchanged(rail, s, s1, id);
    } else {
      StaysOffTrack(rail, s, a, r);
      StaleRun(cfg, s, ls, a);
      if OnTrack(rail, s1, id) {
        FixedBackwards(s, s1);
        KeptWhenUnchanged(rail, s1, s, id);
      }
    }
  }

  lemma FixedBackwards(s: Sys, s': Sys)
    requires SameFixed(s, s')
    ensures SameFixed(s', s)
  {
    forall i | 0 <= i < |s.transfers| ensures SameRow(s'.transfers[i], s.transfers[i]) {
      assert SameRow(s.transfers[i], s'.transfers[i]);
    }
  }

  lemma StaysOffTrack(rail: Rail, s: Sys, a: nat, r: nat)
    requires Delivering(s, a, r) && s.acts[a].transfer < |s.transfers| && !OnTrack(rail, s, s.acts[a].transfer)
    ensures Idle(s, a)
  {
    var id := s.acts[a].transfer;
    DrivingInverts(s.outbox[r].kind, s.transfers[id].status);
    assert !Drives(s, id, r);
  }

  lemma KeptWhenUnchanged(rail: Rail, s: Sys, s1: Sys, id: nat)
    requires id < |s.transfers| && SameFixed(s, s1) && OnTrack(rail, s, id)
    requires s1.transfers[id].status == s.transfers[id].status ==> s1.outbox == s.outbox
    requires s1.transfers[id].status != s.transfers[id].status ==> Driven(s1, id)
    ensures OnTrack(rail, s1, id)
  {
    FixedKeepsNowhere(rail, s, s1, id);
    if s1.transfers[id].status == s.transfers[id].status && Aligned(s, id) {
      var e :| e in s.outbox && Drives(s, id, e);
      assert Drives(s1, id, e);
    }
  }

  /** A delivery, up to and including its bookkeeping, that succeeds or finds its transfer blocked. */
  lemma DeliveryKeepsTracks(cfg: Config, rail: Rail, s: Sys, ls: seq<Label>, a: nat, r: nat, ok: bool)
    requires Inv(cfg, Honest(rail), s) && Run(cfg, Honest(rail), s, ls) && AllSteps(ls, a) && cfg.maxAttempts >= 1
    requires Delivering(s, a, r)
    requires var s1 := Exec(cfg, s, ls);
             a in s1.acts && s1.acts[a].pc == Done(ok)
             && s1.acts[a].transfer < |s1.transfers| && (ok || Blocked(rail, s1, s1.acts[a].transfer))
    ensures TracksKept(rail, s, FinishAct(cfg, Exec(cfg, s, ls), a, true))
  {
    hide HandlerFrame, HandlerTrack, Run, Exec, Inv, FinishAct, OnTrack, Blocked, SameFixed;
    var s1 := Exec(cfg, s, ls);
    RunKeepsInv(cfg, Honest(rail), s, ls);
    StepsKeepFixed(cfg, s, ls);
    HandlerRun(cfg, Honest(rail), s, ls, a);
    HandlerKeepsOwn(cfg, rail, s, ls, a, r);
    var s2 := FinishAct(cfg, s1, a, true);
    EventsAreBelow(cfg, Honest(rail), s);
    FinishShape(cfg, s1, a, true);
    SameCount(s, s1);
    forall id | 0 <= id < |s.transfers|
      ensures id < |s2.transfers| == |s.transfers| && (OnTrack(rail, s2, id) <==> OnTrack(rail, s, id))
      ensures !OnTrack(rail, s, id) ==> s2.transfers[id].status == s.transfers[id].status
    {
      if id != s.acts[a].transfer { HandlerKeepsOthers(cfg, rail, s, s1, a, id); }
      FinishKeepsTrack(cfg, rail, s1, a, ok, id);
    }
  }

  lemma SameCount(s: Sys, s1: Sys)
    requires SameFixed(s, s1)
    ensures |s1.transfers| == |s.transfers|
  {
  }

  lemma EventsAreBelow(cfg: Config, w: World, s: Sys)
    requires Inv(cfg, w, s)
    ensures EventsBelow(s)
  {
  }
}
