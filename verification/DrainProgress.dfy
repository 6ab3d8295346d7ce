/** What one delivery does to the work that remains: a measure that every delivery lowers, and
    which transfers a fault-free drain can and cannot finish. */
module DrainProgress {
  import opened Prelude
  import opened Ledger
  import opened StateMachine
  import opened Saga
  import opened SagaLocal
  import opened SagaInvariant
  import opened SagaSteps
  import opened SagaMoney
  import opened LedgerHealth

  // ---------------------------------------------------------------- the measure

  /** MaxAttempts times the rank of the status. */
  function Potential(cfg: Config, st: Status): nat {
    match st
    case Pending => 4 * cfg.maxAttempts
    case Debited => 3 * cfg.maxAttempts
    case InDoubt => 2 * cfg.maxAttempts
    case ReversalPending => cfg.maxAttempts
    case _ => 0
  }

  function Potentials(cfg: Config, ts: seq<TransferRow>): nat {
    if ts == [] then 0 else Potentials(cfg, ts[..|ts|-1]) + Potential(cfg, ts[|ts|-1].status)
  }

  /** Deliveries a live event may still fail before it is dead-lettered, at least one. */
  function Remaining(cfg: Config, e: Event): nat {
    if !IsLive(e) then 0 else if e.attempts + 1 >= cfg.maxAttempts then 1 else cfg.maxAttempts - e.attempts
  }

  function RemainingBelow(cfg: Config, outbox: map<nat, Event>, n: nat): nat {
    if n == 0 then 0
    else RemainingBelow(cfg, outbox, n - 1) + (if n - 1 in outbox then Remaining(cfg, outbox[n - 1]) else 0)
  }

  function WorkLeft(cfg: Config, s: Sys): nat {
    Potentials(cfg, s.transfers) + RemainingBelow(cfg, s.outbox, s.nextEvent)
  }

  lemma {:induction false} RemainingFrame(cfg: Config, o: map<nat, Event>, o': map<nat, Event>, n: nat)
    requires forall e: nat :: e < n ==> (e in o <==> e in o') && (e in o ==> o'[e] == o[e])
    ensures RemainingBelow(cfg, o', n) == RemainingBelow(cfg, o, n)
  {
    if n > 0 { RemainingFrame(cfg, o, o', n - 1); }
  }

  lemma {:induction false} RemainingUpdate(cfg: Config, o: map<nat, Event>, n: nat, k: nat, e: Event)
    requires k < n && k in o
    ensures RemainingBelow(cfg, o[k := e], n) - RemainingBelow(cfg, o, n) == Remaining(cfg, e) - Remaining(cfg, o[k])
  {
    if k == n - 1 {
      RemainingFrame(cfg, o, o[k := e], n - 1);
    } else {
      RemainingUpdate(cfg, o, n - 1, k, e);
    }
  }

  lemma {:induction false} PotentialsUpdate(cfg: Config, ts: seq<TransferRow>, id: nat, t: TransferRow)
    requires id < |ts|
    ensures Potentials(cfg, ts[id := t]) - Potentials(cfg, ts) == Potential(cfg, t.status) - Potential(cfg, ts[id].status)
  {
    var n := |ts| - 1;
    if id == n {
      assert ts[id := t][..n] == ts[..n];
    } else {
      assert ts[id := t][..n] == ts[..n][id := t];
      PotentialsUpdate(cfg, ts[..n], id, t);
    }
  }

  lemma EdgeLowersPotential(cfg: Config, a: Status, b: Status)
    requires CanTransition(a, b)
    ensures Potential(cfg, b) + cfg.maxAttempts <= Potential(cfg, a)
  {
    EdgeTable(a, b);
  }

  lemma AppendMeasure(cfg: Config, s: Sys, id: nat, kind: EventKind)
    requires cfg.maxAttempts >= 1
    ensures WorkLeft(cfg, Append(s, id, kind)) == WorkLeft(cfg, s) + cfg.maxAttempts
  {
    RemainingFrame(cfg, s.outbox, Append(s, id, kind).outbox, s.nextEvent);
  }

  /** A follow-up event never weighs more than the rank the status change gave up. */
  lemma AdvanceLowersMeasure(cfg: Config, s: Sys, id: nat, to: Status, tx: Option<nat>)
    requires id < |s.transfers| && cfg.maxAttempts >= 1
    ensures WorkLeft(cfg, Advance(s, id, to, tx)) <= WorkLeft(cfg, s)
  {
    hide Potential, RemainingBelow, Potentials, CanTransition, Append;
    var st := s.transfers[id].status;
    if CanTransition(st, to) {
      EdgeLowersPotential(cfg, st, to);
      var s1 := SetStatus(s, id, to, tx);
      PotentialsUpdate(cfg, s.transfers, id, s1.transfers[id]);
      if EventForStatus(to).Some? { AppendMeasure(cfg, s1, id, EventForStatus(to).value); }
    }
  }

  /** A failed delivery uses up an attempt or parks the event. */
  lemma FailingLowersRemaining(cfg: Config, e: Event)
    requires IsLive(e)
    ensures Remaining(cfg, Failing(cfg, e, e.attempts)) < Remaining(cfg, e)
    ensures Remaining(cfg, e.(published := true)) < Remaining(cfg, e)
  {
  }

  // ---------------------------------------------------------------- what a handler leaves alone

  predicate IsHandler(pc: Pc) { !pc.AppendEvent? }

  /** The effect of handler a between s and s': its own transfer at most, events only appended. */
  ghost predicate HandlerFrame(cfg: Config, s: Sys, s': Sys, a: nat) {
    && a in s.acts && a in s'.acts && s'.acts.Keys == s.acts.Keys && s'.nextAct == s.nextAct
    && (forall x :: x in s.acts && x != a ==> s'.acts[x] == s.acts[x])
    && s'.acts[a].origin == s.acts[a].origin && s'.acts[a].transfer == s.acts[a].transfer
    && IsHandler(s'.acts[a].pc)
    && |s'.transfers| == |s.transfers|
    && (forall i :: 0 <= i < |s.transfers| && i != s.acts[a].transfer ==> s'.transfers[i] == s.transfers[i])
    && s.nextEvent <= s'.nextEvent
    && (forall e :: e in s'.outbox ==> e < s'.nextEvent)
    && (forall e :: e < s.nextEvent ==> (e in s'.outbox <==> e in s.outbox) && (e in s.outbox ==> s'.outbox[e] == s.outbox[e]))
    && (forall e :: e in s'.outbox && e >= s.nextEvent ==> s'.outbox[e].transfer == s.acts[a].transfer && IsLive(s'.outbox[e]))
    && WorkLeft(cfg, s') <= WorkLeft(cfg, s)
  }

  ghost predicate EventsBelow(s: Sys) { forall e :: e in s.outbox ==> e < s.nextEvent }

  lemma AdvanceFrame(cfg: Config, s: Sys, id: nat, to: Status, tx: Option<nat>)
    requires id < |s.transfers| && cfg.maxAttempts >= 1 && EventsBelow(s)
    ensures var s' := Advance(s, id, to, tx);
            && s'.acts == s.acts && s'.nextAct == s.nextAct && |s'.transfers| == |s.transfers|
            && (forall i :: 0 <= i < |s.transfers| && i != id ==> s'.transfers[i] == s.transfers[i])
            && s.nextEvent <= s'.nextEvent && EventsBelow(s')
            && (forall e :: e < s.nextEvent ==> (e in s'.outbox <==> e in s.outbox) && (e in s.outbox ==> s'.outbox[e] == s.outbox[e]))
            && (forall e :: e in s'.outbox && e >= s.nextEvent ==> s'.outbox[e].transfer == id && IsLive(s'.outbox[e]))
            && WorkLeft(cfg, s') <= WorkLeft(cfg, s)
            && (s'.transfers[id].status == s.transfers[id].status ==> s'.outbox == s.outbox)
            && (s'.transfers[id].status != s.transfers[id].status ==> Aligned(s', id) || IsTerminal(s'.transfers[id].status))
  {
    hide WorkLeft;
    AdvanceLowersMeasure(cfg, s, id, to, tx);
    ReachesIsClosure(s.transfers[id].status, to, to);
    TerminalTable(to);
    var s' := Advance(s, id, to, tx);
    if CanTransition(s.transfers[id].status, to) && EventForStatus(to).Some? {
      assert Drives(s', id, s.nextEvent);
    }
  }

  // ---------------------------------------------------------------- who a drain can finish

  predicate Drives(s: Sys, id: nat, e: nat)
    requires id < |s.transfers|
  {
    && e in s.outbox && IsLive(s.outbox[e]) && s.outbox[e].transfer == id
    && EventForStatus(s.transfers[id].status) == Some(s.outbox[e].kind)
  }

  /** Some live event drives the transfer's present status. */
  predicate Aligned(s: Sys, id: nat)
    requires id < |s.transfers|
  {
    exists e :: e in s.outbox && Drives(s, id, e)
  }

  /** Finished, or driven. */
  predicate Driven(s: Sys, id: nat)
    requires id < |s.transfers|
  {
    IsTerminal(s.transfers[id].status) || Aligned(s, id)
  }

  /** Finished, driven, or as far as the ledger lets it come. */
  ghost predicate OnTrack(rail: Rail, s: Sys, id: nat)
    requires id < |s.transfers|
  {
    Driven(s, id) || Blocked(rail, s, id)
  }

  /** Transfers on track stay so, the others keep their status and stay off track. */
  ghost predicate TracksKept(rail: Rail, s: Sys, s': Sys) {
    && |s'.transfers| == |s.transfers|
    && (forall id :: 0 <= id < |s.transfers| ==> (OnTrack(rail, s', id) <==> OnTrack(rail, s, id)))
    && (forall id :: 0 <= id < |s.transfers| && !OnTrack(rail, s, id) ==> s'.transfers[id].status == s.transfers[id].status)
  }

  /** The handler's status change, if any, came with the event that drives the new status. */
  ghost predicate HandlerTrack(s: Sys, s': Sys, id: nat) {
    && id < |s.transfers| == |s'.transfers|
    && (s'.transfers[id].status == s.transfers[id].status ==> s'.outbox == s.outbox)
    && (s'.transfers[id].status != s.transfers[id].status ==> Driven(s', id))
  }

  lemma GotoFrame(cfg: Config, s: Sys, s1: Sys, a: nat, pc: Pc)
    requires a in s.acts && s.acts[a].transfer < |s.transfers| && IsHandler(pc)
    requires s1.acts == s.acts && HandlerFrame(cfg, s, s1, a)
    ensures HandlerFrame(cfg, s, Goto(s1, a, pc), a)
  {
    hide Remaining, Potential;
    assert WorkLeft(cfg, Goto(s1, a, pc)) == WorkLeft(cfg, s1);
  }

  lemma GotoTrack(s: Sys, s1: Sys, a: nat, pc: Pc, id: nat)
    requires a in s1.acts && HandlerTrack(s, s1, id)
    ensures HandlerTrack(s, Goto(s1, a, pc), id)
  {
    hide IsTerminal;
    if Aligned(s1, id) {
      var e :| e in s1.outbox && Drives(s1, id, e);
      assert Drives(Goto(s1, a, pc), id, e);
    }
  }

  lemma StepMarkFrame(cfg: Config, s: Sys, a: nat, to: Status, tx: Option<nat>, o: Outcome)
    requires a in s.acts && s.acts[a].transfer < |s.transfers| && EventsBelow(s) && cfg.maxAttempts >= 1
    requires IsHandler(s.acts[a].pc)
    ensures HandlerFrame(cfg, s, StepMark(s, a, to, tx, o), a)
    ensures HandlerTrack(s, StepMark(s, a, to, tx, o), s.acts[a].transfer)
  {
    hide Advance, WorkLeft, IsTerminal, Aligned;
    var id := s.acts[a].transfer;
    AdvanceFrame(cfg, s, id, to, tx);
    var s1 := if Applied(o) then Advance(s, id, to, tx) else s;
    GotoFrame(cfg, s, s1, a, Done(o.Answer?));
    GotoTrack(s, s1, a, Done(o.Answer?), id);
  }

  /** A step that marks nothing touches neither rows nor events. */
  lemma QuietStep(cfg: Config, s: Sys, a: nat, o: Outcome)
    requires a in s.acts && s.acts[a].transfer < |s.transfers| && IsHandler(s.acts[a].pc) && MarkTarget(s.acts[a].pc).None?
    ensures var s' := StepAct(cfg, s, a, o);
            && s'.transfers == s.transfers && s'.outbox == s.outbox && s'.nextEvent == s.nextEvent && s'.nextAct == s.nextAct
            && a in s'.acts && IsHandler(s'.acts[a].pc) && s'.acts == s.acts[a := s.acts[a].(pc := s'.acts[a].pc)]
  {
    hide PostLeg;
    if PostTarget(s.acts[a].pc).Some? {
      hide StepAct;
      StepActByTarget(cfg, s, a, o);
    } else {
      hide StepPost, StepMark, StepAppend;
      StepMovesOn(cfg, s, a, o);
    }
  }

  lemma QuietFrame(cfg: Config, s: Sys, s': Sys, a: nat)
    requires a in s.acts && s.acts[a].transfer < |s.transfers| && EventsBelow(s)
    requires s'.transfers == s.transfers && s'.outbox == s.outbox && s'.nextEvent == s.nextEvent && s'.nextAct == s.nextAct
    requires a in s'.acts && IsHandler(s'.acts[a].pc) && s'.acts == s.acts[a := s.acts[a].(pc := s'.acts[a].pc)]
    ensures HandlerFrame(cfg, s, s', a) && HandlerTrack(s, s', s.acts[a].transfer)
  {
  }

  lemma StepFrame(cfg: Config, s: Sys, a: nat, o: Outcome)
    requires a in s.acts && s.acts[a].transfer < |s.transfers| && EventsBelow(s) && cfg.maxAttempts >= 1
    requires IsHandler(s.acts[a].pc)
    ensures HandlerFrame(cfg, s, StepAct(cfg, s, a, o), a)
    ensures HandlerTrack(s, StepAct(cfg, s, a, o), s.acts[a].transfer)
  {
    hide PostLeg, StepMark, StepAct, HandlerFrame, HandlerTrack, EventsBelow;
    StepActByTarget(cfg, s, a, o);
    var pc := s.acts[a].pc;
    if MarkTarget(pc).Some? {
      StepMarkFrame(cfg, s, a, MarkTarget(pc).value.0, MarkTarget(pc).value.1, o);
    } else {
      QuietStep(cfg, s, a, o);
      QuietFrame(cfg, s, StepAct(cfg, s, a, o), a);
    }
  }

  lemma HandlerFrameTrans(cfg: Config, s: Sys, s1: Sys, s2: Sys, a: nat)
    requires HandlerFrame(cfg, s, s1, a) && HandlerFrame(cfg, s1, s2, a)
    ensures HandlerFrame(cfg, s, s2, a)
  {
    hide WorkLeft;
  }

  lemma HandlerTrackTrans(cfg: Config, s: Sys, s1: Sys, s2: Sys, a: nat, id: nat)
    requires HandlerTrack(s, s1, id) && HandlerTrack(s1, s2, id) && HandlerFrame(cfg, s1, s2, a)
    requires Reaches(s.transfers[id].status, s1.transfers[id].status)
    requires Reaches(s1.transfers[id].status, s2.transfers[id].status)
    ensures HandlerTrack(s, s2, id)
  {
    hide WorkLeft;
    ReachesIsClosure(s.transfers[id].status, s1.transfers[id].status, s2.transfers[id].status);
    if s1.transfers[id].status == s2.transfers[id].status && s.transfers[id].status != s1.transfers[id].status && Aligned(s1, id) {
      var e :| e in s1.outbox && Drives(s1, id, e);
      assert Drives(s2, id, e);
    }
  }
}
