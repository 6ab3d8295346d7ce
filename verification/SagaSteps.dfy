/** Every label keeps the invariant; so every state of every run has it. */
module SagaSteps {
  import opened Prelude
  import opened Ledger
  import opened LedgerProofs
  import opened StateMachine
  import opened Saga
  import opened SagaLocal
  import opened SagaLegs
  import opened SagaInvariant

  /** What holds of s' once the changed transfer, activation and event are accounted for. */
  lemma Assemble(cfg: Config, w: World, s: Sys, s': Sys, id: nat, a: nat, k: nat)
    requires Inv(cfg, w, s) && OnlyTransfer(s, s', id)
    requires Shape(s') && NoStrayLegs(s') && Refs(w, s') && Sound(s'.book)
    requires id < |s.transfers| ==> ViewOk(cfg, w, s.transfers[id].reference, ViewOf(s', id))
    requires forall x :: x in s'.acts && x != a ==> x in s.acts && s'.acts[x] == s.acts[x]
    requires a in s'.acts ==> GoodAct(cfg, w, s', s'.acts[a])
    requires a in s'.acts ==> (a in s.acts && s'.acts[a].origin == s.acts[a].origin && s'.acts[a].transfer == s.acts[a].transfer)
                              || DeliveryOk(s', s'.acts[a])
    requires s.nextEvent <= s'.nextEvent
    requires forall e :: e in s'.outbox && e != k ==> e in s.outbox && s'.outbox[e] == s.outbox[e]
    requires k in s'.outbox ==> EventOk(s', s'.outbox[k])
    requires k in s'.outbox && k in s.outbox ==> s'.outbox[k].kind == s.outbox[k].kind && s'.outbox[k].transfer == s.outbox[k].transfer
    requires k in s'.outbox && k !in s.outbox ==> k >= s.nextEvent
    ensures Inv(cfg, w, s')
  {
    hide ViewOk, ActOk, ViewOf, Sound, NoStrayLegs, Refs;
    LiftViews(cfg, w, s, s', id);
    LiftActs(cfg, w, s, s', id, a);
    LiftEvents(s, s', id, k);
  }

  /** The same for a change that touches neither transfers nor legs. */
  lemma AssembleSame(cfg: Config, w: World, s: Sys, s': Sys, a: nat, k: nat)
    requires Inv(cfg, w, s)
    requires s'.transfers == s.transfers && s'.book == s.book && s'.sent == s.sent
    requires s.nextEvent <= s'.nextEvent && s.nextAct <= s'.nextAct
    requires forall x :: x in s'.acts && x != a ==> x in s.acts && s'.acts[x] == s.acts[x]
    requires a in s'.acts ==> GoodAct(cfg, w, s, s'.acts[a]) && a < s'.nextAct
    requires a in s'.acts ==> (a in s.acts && s'.acts[a].origin == s.acts[a].origin && s'.acts[a].transfer == s.acts[a].transfer)
                              || DeliveryOk(s, s'.acts[a])
    requires forall e :: e in s'.outbox && e != k ==> e in s.outbox && s'.outbox[e] == s.outbox[e]
    requires k in s'.outbox ==> EventOk(s, s'.outbox[k]) && k < s'.nextEvent
    requires k in s'.outbox && k in s.outbox ==> s'.outbox[k].kind == s.outbox[k].kind && s'.outbox[k].transfer == s.outbox[k].transfer
    requires k in s'.outbox && k !in s.outbox ==> k >= s.nextEvent
    requires a in s'.acts && a !in s.acts ==> k !in s'.outbox
    ensures Inv(cfg, w, s')
  {
    hide ViewOk, ActOk, GoodAct, Views, Acts, Sound, Later, OnlyTransfer, Events, ViewOf, Shape, Refs, NoStrayLegs;
    SameEverything(s, s', |s.transfers|);
    SameShape(cfg, w, s, s', a, k);
    if a in s'.acts { SameAct(cfg, w, s, s', s'.acts[a]); }
    Assemble(cfg, w, s, s', |s.transfers|, a, k);
  }

  lemma SameShape(cfg: Config, w: World, s: Sys, s': Sys, a: nat, k: nat)
    requires Shape(s) && NoStrayLegs(s) && Refs(w, s)
    requires s'.transfers == s.transfers && s'.book == s.book && s'.sent == s.sent
    requires s.nextEvent <= s'.nextEvent && s.nextAct <= s'.nextAct
    requires forall x :: x in s'.acts && x != a ==> x in s.acts && s'.acts[x] == s.acts[x]
    requires a in s'.acts ==> GoodAct(cfg, w, s, s'.acts[a]) && a < s'.nextAct
    requires forall e :: e in s'.outbox && e != k ==> e in s.outbox && s'.outbox[e] == s.outbox[e]
    requires k in s'.outbox ==> EventOk(s, s'.outbox[k]) && k < s'.nextEvent
    ensures Shape(s') && NoStrayLegs(s') && Refs(w, s')
  {
    hide ActOk, Due, Past;
  }

  /** Moving one activation on, with no change to its transfer. */
  lemma GotoKeepsInv(cfg: Config, w: World, s: Sys, a: nat, pc: Pc)
    requires Inv(cfg, w, s) && a in s.acts
    requires GoodAct(cfg, w, s, s.acts[a].(pc := pc))
    ensures Inv(cfg, w, Goto(s, a, pc))
  {
    AssembleSame(cfg, w, s, Goto(s, a, pc), a, s.nextEvent);
  }

  lemma SameAct(cfg: Config, w: World, s: Sys, s': Sys, act: Act)
    requires s'.transfers == s.transfers && s'.book == s.book && s'.sent == s.sent
    ensures GoodAct(cfg, w, s', act) <==> GoodAct(cfg, w, s, act)
  {
  }

  // ---------------------------------------------------------------- marks

  lemma AdvanceKeepsEvents(s: Sys, id: nat, to: Status, tx: Option<nat>)
    requires Shape(s) && Events(s) && id < |s.transfers|
    requires OnlyTransfer(s, Advance(s, id, to, tx), id)
    ensures Events(Advance(s, id, to, tx))
  {
    var s' := Advance(s, id, to, tx);
    if EventForStatus(to).Some? { DrivingInverts(EventForStatus(to).value, to); }
    LiftEvents(s, s', id, s.nextEvent);
  }

  lemma AdvanceIsLater(s: Sys, id: nat, to: Status, tx: Option<nat>)
    requires id < |s.transfers| && Later(ViewOf(s, id), ViewAdvance(ViewOf(s, id), to, tx))
    ensures OnlyTransfer(s, Advance(s, id, to, tx), id)
  {
    AdvanceViews(s, id, to, tx);
  }

  lemma AdvancedView(cfg: Config, w: World, s: Sys, act: Act, to: Status, tx: Option<nat>)
    requires Views(cfg, w, s) && GoodAct(cfg, w, s, act) && MarkTarget(act.pc) == Some((to, tx))
    ensures var s1 := Advance(s, act.transfer, to, tx);
            && OnlyTransfer(s, s1, act.transfer)
            && ViewOk(cfg, w, s.transfers[act.transfer].reference, ViewOf(s1, act.transfer))
            && OriginOk(ViewOf(s1, act.transfer), act.(pc := Done(true)))
  {
    var id := act.transfer;
    MarkKeepsView(cfg, w, s.transfers[id].reference, ViewOf(s, id), act);
    MarkLeavesDriving(ViewOf(s, id), act);
    AdvanceViews(s, id, to, tx);
    AdvanceIsLater(s, id, to, tx);
  }

  lemma AdvanceKeepsInv(cfg: Config, w: World, s: Sys, act: Act, to: Status, tx: Option<nat>)
    requires Inv(cfg, w, s) && GoodAct(cfg, w, s, act) && MarkTarget(act.pc) == Some((to, tx))
    ensures var s1 := Advance(s, act.transfer, to, tx);
            Inv(cfg, w, s1) && s1.acts == s.acts && GoodAct(cfg, w, s1, act.(pc := Done(true)))
  {
    var s1 := Advance(s, act.transfer, to, tx);
    AdvancedView(cfg, w, s, act, to, tx);
    AdvanceKeepsRest(w, s, act.transfer, to, tx);
    AdvanceViews(s, act.transfer, to, tx);
    AdvanceKeepsEvents(s, act.transfer, to, tx);
    LiftViews(cfg, w, s, s1, act.transfer);
    LiftActs(cfg, w, s, s1, act.transfer, s.nextAct);
    DoneIsGood(cfg, w, s1, act);
  }

  /** Success may be reported as soon as the driving status is behind. */
  lemma DoneIsGood(cfg: Config, w: World, s: Sys, act: Act)
    requires act.transfer < |s.transfers| && OriginOk(ViewOf(s, act.transfer), act.(pc := Done(true)))
    ensures GoodAct(cfg, w, s, act.(pc := Done(true)))
  {
  }

  lemma AdvanceKeepsRest(w: World, s: Sys, id: nat, to: Status, tx: Option<nat>)
    requires id < |s.transfers| && Shape(s) && NoStrayLegs(s) && Refs(w, s)
    ensures var s1 := Advance(s, id, to, tx); Shape(s1) && NoStrayLegs(s1) && Refs(w, s1)
  {
  }

  lemma StepMarkKeepsInv(cfg: Config, w: World, s: Sys, a: nat, to: Status, tx: Option<nat>, o: Outcome)
    requires Inv(cfg, w, s) && a in s.acts && MarkTarget(s.acts[a].pc) == Some((to, tx))
    ensures s.acts[a].transfer < |s.transfers| && Inv(cfg, w, StepMark(s, a, to, tx, o))
  {
    hide ViewOk, ActOk, Advance, Sound, NoStrayLegs, Refs, Views;
    assert GoodAct(cfg, w, s, s.acts[a]);
    AdvanceKeepsInv(cfg, w, s, s.acts[a], to, tx);
    var s1 := if Applied(o) then Advance(s, s.acts[a].transfer, to, tx) else s;
    FailedActIsGood(cfg, w, s1, s.acts[a]) by { assert GoodAct(cfg, w, s1, s1.acts[a]); }
    GotoKeepsInv(cfg, w, s1, a, Done(o.Answer?));
  }

  /** A handler may always give up with an error. */
  lemma FailedActIsGood(cfg: Config, w: World, s: Sys, act: Act)
    requires GoodAct(cfg, w, s, act)
    ensures GoodAct(cfg, w, s, act.(pc := Done(false)))
  {
  }

  // ---------------------------------------------------------------- posts

  /** The transfer's view after its leg was posted, and what the handler now knows. */
  lemma PostedTransfer(cfg: Config, w: World, s: Sys, act: Act, leg: Leg, parent: Option<nat>)
    requires Shape(s) && Sound(s.book) && Views(cfg, w, s) && GoodAct(cfg, w, s, act)
    requires PostTarget(act.pc) == Some((leg, parent))
    ensures var id := act.transfer;
            var (b, r) := PostLeg(s.book, s.transfers[id], id, leg, parent);
            var s1 := s.(book := b);
            && OnlyTransfer(s, s1, id) && ViewOk(cfg, w, s.transfers[id].reference, ViewOf(s1, id))
            && GoodAct(cfg, w, s1, act.(pc := AfterPost(leg, r)))
  {
    hide PostLeg, Find, AfterPost, RawOk, RawPc, HonestOk, HonestPc, ConstantOk, ConstantPc, OriginOk, Sound;
    var id := act.transfer;
    var t := s.transfers[id];
    var (b, res) := PostLeg(s.book, t, id, leg, parent);
    var s1, v := s.(book := b), ViewOf(s, id);
    PostLegEffect(s.book, t, id, leg, parent);
    PostViews(s, id, leg, parent, b, res);
    PostedViewIsOk(cfg, w, t.reference, v, act, res, ViewOf(s1, id));
    LiftAct(cfg, w, s, s1, id, act);
    AfterPostIsOk(cfg, w, t.reference, ViewOf(s1, id), act, res);
  }

  lemma BookKeepsInv(cfg: Config, w: World, s: Sys, a: nat, leg: Leg, parent: Option<nat>)
    requires Inv(cfg, w, s) && a in s.acts && PostTarget(s.acts[a].pc) == Some((leg, parent))
    requires s.acts[a].transfer < |s.transfers|
    ensures var id := s.acts[a].transfer;
            var (b, r) := PostLeg(s.book, s.transfers[id], id, leg, parent);
            && Inv(cfg, w, s.(book := b))
            && GoodAct(cfg, w, s.(book := b), s.acts[a].(pc := AfterPost(leg, r)))
  {
    hide PostLeg, AfterPost, Views, Acts, Events, OnlyTransfer, GoodAct, ViewOk, NoStrayLegs, Sound;
    var act := s.acts[a];
    var id := act.transfer;
    var (b, res) := PostLeg(s.book, s.transfers[id], id, leg, parent);
    ActIsGood(cfg, w, s, a);
    PostedTransfer(cfg, w, s, act, leg, parent);
    PostLegEffect(s.book, s.transfers[id], id, leg, parent);
    PostLegKeepsSound(s.book, s.transfers[id], id, leg, parent);
    PostKeepsStrays(s, id, leg, parent, b, res);
    LiftViews(cfg, w, s, s.(book := b), id);
    LiftAct(cfg, w, s, s.(book := b), id, act);
    LiftActs(cfg, w, s, s.(book := b), id, a);
    LiftEvents(s, s.(book := b), id, s.nextEvent);
  }

  lemma ActIsGood(cfg: Config, w: World, s: Sys, a: nat)
    requires Acts(cfg, w, s) && a in s.acts
    ensures GoodAct(cfg, w, s, s.acts[a])
  {
  }

  lemma PostedViewIsOk(cfg: Config, w: World, r: string, v: View, act: Act, res: PostResult, v': View)
    requires ViewOk(cfg, w, r, v) && ActOk(cfg, w, r, v, act) && PostTarget(act.pc).Some?
    requires act.pc == PostDebit && res.Posted? ==> v.accepts
    requires var (leg, parent) := PostTarget(act.pc).value;
             v' == if res.Posted? then ViewPost(v, leg, res.id, parent) else v
    ensures ViewOk(cfg, w, r, v') && Later(v, v')
  {
    if res.Posted? { PostKeepsView(cfg, w, r, v, act, res.id); } else { LaterIsReflexive(v); }
  }

  lemma StepPostKeepsInv(cfg: Config, w: World, s: Sys, a: nat, leg: Leg, parent: Option<nat>, o: Outcome)
    requires Inv(cfg, w, s) && a in s.acts && PostTarget(s.acts[a].pc) == Some((leg, parent))
    requires s.acts[a].transfer < |s.transfers|
    ensures Inv(cfg, w, StepPost(s, a, leg, parent, o))
  {
    var id := s.acts[a].transfer;
    var (b, r) := PostLeg(s.book, s.transfers[id], id, leg, parent);
    BookKeepsInv(cfg, w, s, a, leg, parent);
    var s1 := if Applied(o) then s.(book := b) else s;
    FailedActIsGood(cfg, w, s1, s.acts[a]) by { assert GoodAct(cfg, w, s1, s1.acts[a]); }
    GotoKeepsInv(cfg, w, s1, a, if o.Fault? then Done(false) else AfterPost(leg, r));
  }

  // ---------------------------------------------------------------- send, query, load, append

  lemma SentKeepsInv(cfg: Config, w: World, s: Sys, act: Act)
    requires Inv(cfg, w, s) && GoodAct(cfg, w, s, act) && act.pc == Send
    ensures Inv(cfg, w, s.(sent := s.sent + {act.transfer})) && GoodAct(cfg, w, s.(sent := s.sent + {act.transfer}), act)
  {
    hide Sound, NoStrayLegs, Refs, ViewOk, ActOk, Find, LegAccepted;
    var id := act.transfer;
    var s1 := s.(sent := s.sent + {id});
    SendKeepsView(cfg, w, s.transfers[id].reference, ViewOf(s, id), act);
    assert ViewOf(s1, id) == ViewOf(s, id).(sent := true);
    SentFrame(w, s, id);
    Assemble(cfg, w, s, s1, id, s.nextAct, s.nextEvent);
    LiftAct(cfg, w, s, s1, id, act);
  }

  lemma SentFrame(w: World, s: Sys, id: nat)
    requires NoStrayLegs(s) && Refs(w, s)
    ensures NoStrayLegs(s.(sent := s.sent + {id})) && Refs(w, s.(sent := s.sent + {id}))
  {
  }

  lemma AnsweredIsGood(cfg: Config, w: World, s: Sys, act: Act, o: Outcome)
    requires Views(cfg, w, s) && GoodAct(cfg, w, s, act) && act.pc == Send && act.transfer in s.sent
    requires var r := s.transfers[act.transfer].reference;
             !w.Arbitrary? && o.Answer? ==> Truthful(w.rail, r, o.verdict) && (w.Constant? ==> o.verdict == w.rail.send(r))
    ensures GoodAct(cfg, w, s, act.(pc := if o.Fault? then Done(false) else AfterVerdict(o.verdict, MarkInDoubt)))
  {
    if o.Answer? {
      AfterSendIsOk(cfg, w, s.transfers[act.transfer].reference, ViewOf(s, act.transfer), act, o.verdict);
    }
  }

  lemma StepSendKeepsInv(cfg: Config, w: World, s: Sys, a: nat, o: Outcome)
    requires Inv(cfg, w, s) && a in s.acts && s.acts[a].transfer < |s.transfers|
    requires s.acts[a].pc == Send && AdmissibleStep(w, s, a, o)
    ensures Inv(cfg, w, StepSend(s, a, o))
  {
    var act := s.acts[a];
    var s1 := s.(sent := s.sent + {act.transfer});
    assert GoodAct(cfg, w, s, act);
    SentKeepsInv(cfg, w, s, act);
    AnsweredIsGood(cfg, w, s1, act, o);
    GotoKeepsInv(cfg, w, s1, a, if o.Fault? then Done(false) else AfterVerdict(o.verdict, MarkInDoubt));
  }

  lemma AppendKeepsInv(cfg: Config, w: World, s: Sys, id: nat, kind: EventKind)
    requires Inv(cfg, w, s) && id < |s.transfers| && Due(kind, s.transfers[id].status)
    ensures Inv(cfg, w, Append(s, id, kind))
  {
    AssembleSame(cfg, w, s, Append(s, id, kind), s.nextAct, s.nextEvent);
  }

  lemma AppendIsDue(cfg: Config, w: World, s: Sys, act: Act)
    requires GoodAct(cfg, w, s, act) && act.pc.AppendEvent? && act.origin.Direct?
    ensures Due(act.pc.kind, s.transfers[act.transfer].status)
    ensures forall ok :: GoodAct(cfg, w, s, act.(pc := Done(ok)))
  {
  }

  lemma StepAppendKeepsInv(cfg: Config, w: World, s: Sys, a: nat, o: Outcome)
    requires Inv(cfg, w, s) && a in s.acts && s.acts[a].transfer < |s.transfers|
    requires s.acts[a].pc.AppendEvent? && s.acts[a].origin.Direct?
    ensures Inv(cfg, w, StepAppend(s, a, s.acts[a].pc.kind, o))
  {
    var act := s.acts[a];
    var kind, done := act.pc.kind, act.(pc := Done(o.Answer?));
    assert GoodAct(cfg, w, s, act);
    AppendIsDue(cfg, w, s, act);
    assert GoodAct(cfg, w, s, done);
    AppendKeepsInv(cfg, w, s, act.transfer, kind);
    SameAct(cfg, w, s, Append(s, act.transfer, kind), done);
    GotoKeepsInv(cfg, w, if Applied(o) then Append(s, act.transfer, kind) else s, a, Done(o.Answer?));
  }

  /** Only requeue and recovery append outside a mark, a delivery loads for the kind it claimed, and no
      handler stands at the missing-debit-leg error. */
  lemma ActShapes(cfg: Config, w: World, s: Sys, a: nat)
    requires Inv(cfg, w, s) && a in s.acts
    ensures s.acts[a].transfer < |s.transfers|
    ensures s.acts[a].pc.AppendEvent? ==> s.acts[a].origin.Direct?
    ensures s.acts[a].pc.Load? ==> s.acts[a].origin.Direct? || s.acts[a].origin.kind == s.acts[a].pc.kind
    ensures s.acts[a].pc != MissingDebitLeg
  {
    hide Views, Events, Shape, Refs, NoStrayLegs, Sound, ViewOf, HonestPc, ConstantPc;
    assert GoodAct(cfg, w, s, s.acts[a]);
  }

  lemma StepLoadKeepsInv(cfg: Config, w: World, s: Sys, a: nat, o: Outcome)
    requires Inv(cfg, w, s) && a in s.acts && (s.acts[a].pc.Load? || s.acts[a].pc.Query?) && AdmissibleStep(w, s, a, o)
    ensures s.acts[a].transfer < |s.transfers| && Inv(cfg, w, StepAct(cfg, s, a, o))
  {
    var act := s.acts[a];
    var id := act.transfer;
    ActShapes(cfg, w, s, a);
    assert GoodAct(cfg, w, s, act);
    var t := s.transfers[id];
    if act.pc.Load? {
      AfterLoadIsOk(cfg, w, t.reference, ViewOf(s, id), act, t);
      FailedActIsGood(cfg, w, s, act);
      GotoKeepsInv(cfg, w, s, a, if o.Fault? then Done(false) else AfterLoad(cfg, act.pc.kind, t));
    } else {
      AfterQueryIsOk(cfg, w, t.reference, ViewOf(s, id), act, o);
      GotoKeepsInv(cfg, w, s, a, AfterQuery(act.pc.left, o));
    }
  }

  lemma StepActByTarget(cfg: Config, s: Sys, a: nat, o: Outcome)
    requires a in s.acts && s.acts[a].transfer < |s.transfers|
    ensures var pc := s.acts[a].pc;
            && (MarkTarget(pc).Some? ==> StepAct(cfg, s, a, o) == StepMark(s, a, MarkTarget(pc).value.0, MarkTarget(pc).value.1, o))
            && (PostTarget(pc).Some? ==> StepAct(cfg, s, a, o) == StepPost(s, a, PostTarget(pc).value.0, PostTarget(pc).value.1, o))
            && (pc.Send? ==> StepAct(cfg, s, a, o) == StepSend(s, a, o))
            && (pc.AppendEvent? ==> StepAct(cfg, s, a, o) == StepAppend(s, a, pc.kind, o))
            && (pc.Done? ==> StepAct(cfg, s, a, o) == s)
            && (pc.MissingDebitLeg? || pc.Load? || pc.Query? || pc.Send? || pc.AppendEvent? || pc.Done?
                || MarkTarget(pc).Some? || PostTarget(pc).Some?)
  {
    hide Goto, AfterLoad, AfterQuery, StepPost, StepMark, StepSend, StepAppend;
  }

  /** A step that neither marks, posts nor appends only moves its activation on. */
  lemma StepMovesOn(cfg: Config, s: Sys, a: nat, o: Outcome)
    requires a in s.acts && s.acts[a].transfer < |s.transfers|
    requires MarkTarget(s.acts[a].pc).None? && PostTarget(s.acts[a].pc).None? && !s.acts[a].pc.AppendEvent?
    ensures var s' := StepAct(cfg, s, a, o);
            && s'.transfers == s.transfers && s'.outbox == s.outbox && s'.nextEvent == s.nextEvent
            && s'.nextAct == s.nextAct && s'.book == s.book
            && a in s'.acts && s'.acts == s.acts[a := s.acts[a].(pc := s'.acts[a].pc)]
  {
    hide AfterLoad, AfterQuery, AfterVerdict, StepPost, StepMark, StepAppend;
  }

  /** One atomic effect of any activation, however stale, keeps the invariant. */
  lemma StepActKeepsInv(cfg: Config, w: World, s: Sys, a: nat, o: Outcome)
    requires Inv(cfg, w, s) && a in s.acts && s.acts[a].transfer < |s.transfers| && AdmissibleStep(w, s, a, o)
    ensures Inv(cfg, w, StepAct(cfg, s, a, o))
  {
    hide *;
    ActShapes(cfg, w, s, a);
    StepActByTarget(cfg, s, a, o);
    var pc := s.acts[a].pc;
    if MarkTarget(pc).Some? {
      StepMarkKeepsInv(cfg, w, s, a, MarkTarget(pc).value.0, MarkTarget(pc).value.1, o);
    } else if PostTarget(pc).Some? {
      StepPostKeepsInv(cfg, w, s, a, PostTarget(pc).value.0, PostTarget(pc).value.1, o);
    } else if pc.Load? || pc.Query? {
      StepLoadKeepsInv(cfg, w, s, a, o);
    } else if pc.Send? {
      StepSendKeepsInv(cfg, w, s, a, o);
    } else if pc.AppendEvent? {
      StepAppendKeepsInv(cfg, w, s, a, o);
    }
  }

  // ---------------------------------------------------------------- arrivals and bookkeeping

  lemma SpawnKeepsInv(cfg: Config, w: World, s: Sys, act: Act)
    requires Inv(cfg, w, s) && GoodAct(cfg, w, s, act) && DeliveryOk(s, act)
    ensures Inv(cfg, w, Spawn(s, act))
  {
    AssembleSame(cfg, w, s, Spawn(s, act), s.nextAct, s.nextEvent);
  }

  lemma RetireKeepsInv(cfg: Config, w: World, s: Sys, a: nat)
    requires Inv(cfg, w, s)
    ensures Inv(cfg, w, Retire(s, a))
  {
    AssembleSame(cfg, w, s, Retire(s, a), a, s.nextEvent);
  }

  lemma OutboxKeepsInv(cfg: Config, w: World, s: Sys, e: nat, row: Event)
    requires Inv(cfg, w, s) && e in s.outbox && EventOk(s, row)
    requires row.kind == s.outbox[e].kind && row.transfer == s.outbox[e].transfer
    ensures Inv(cfg, w, s.(outbox := s.outbox[e := row]))
  {
    AssembleSame(cfg, w, s, s.(outbox := s.outbox[e := row]), s.nextAct, e);
  }

  /** Publishing is sound: the handler that succeeded left its driving status behind. */
  lemma FinishedEventIsOk(cfg: Config, w: World, s: Sys, act: Act, e: Event)
    requires GoodAct(cfg, w, s, act) && act.pc.Done? && act.origin.Delivery?
    requires EventOk(s, e) && e.kind == act.origin.kind && e.transfer == act.transfer
    ensures EventOk(s, if act.pc.ok then e.(published := true) else Failing(cfg, e, act.origin.attempts))
  {
  }

  lemma FinishKeepsInv(cfg: Config, w: World, s: Sys, a: nat, recorded: bool)
    requires Inv(cfg, w, s) && a in s.acts && s.acts[a].pc.Done?
    ensures Inv(cfg, w, FinishAct(cfg, s, a, recorded))
  {
    hide ActOk, EventOk;
    var act := s.acts[a];
    assert GoodAct(cfg, w, s, act) && DeliveryOk(s, act);
    if recorded && act.origin.Delivery? && act.origin.event in s.outbox {
      var e := s.outbox[act.origin.event];
      var e' := if act.pc.ok then e.(published := true) else Failing(cfg, e, act.origin.attempts);
      FinishedEventIsOk(cfg, w, s, act, e);
      OutboxKeepsInv(cfg, w, s, act.origin.event, e');
      RetireKeepsInv(cfg, w, s.(outbox := s.outbox[act.origin.event := e']), a);
    } else {
      RetireKeepsInv(cfg, w, s, a);
    }
  }

  lemma LoseKeepsInv(cfg: Config, w: World, s: Sys, e: nat)
    requires Inv(cfg, w, s)
    ensures Inv(cfg, w, s.(outbox := s.outbox - {e}))
  {
    AssembleSame(cfg, w, s, s.(outbox := s.outbox - {e}), s.nextAct, e);
  }

  lemma {:induction false} NewestSpec(ts: seq<TransferRow>, r: string)
    ensures match Newest(ts, r)
            case Some(i) => i < |ts| && ts[i].reference == r && forall j :: i < j < |ts| ==> ts[j].reference != r
            case None => forall j :: 0 <= j < |ts| ==> ts[j].reference != r
  {
    if ts != [] { NewestSpec(ts[..|ts|-1], r); }
  }

  lemma CallbackKeepsInv(cfg: Config, w: World, s: Sys, r: string, v: Verdict)
    requires Inv(cfg, w, s) && Admissible(w, s, Callback(r, v))
    ensures Inv(cfg, w, Apply(cfg, s, Callback(r, v)))
  {
    hide Sound, NoStrayLegs, Acts, Events, DeliveryOk, Newest, IsTerminal;
    NewestSpec(s.transfers, r);
    if Newest(s.transfers, r).Some? {
      var id := Newest(s.transfers, r).value;
      if !w.Arbitrary? {
        var j :| j in s.sent && j < |s.transfers| && s.transfers[j].reference == r;
        assert j == id;
      }
      CallbackIsOk(cfg, w, r, ViewOf(s, id), id, v);
      SpawnKeepsInv(cfg, w, s, Act(Direct, id, CallbackPc(s.transfers[id].status, v)));
    }
  }

  lemma AppenderIsGood(cfg: Config, w: World, s: Sys, id: nat, kind: EventKind)
    requires id < |s.transfers| && s.transfers[id].status == Driving(kind)
    ensures GoodAct(cfg, w, s, Act(Direct, id, AppendEvent(kind)))
  {
  }

  lemma RequeueKeepsInv(cfg: Config, w: World, s: Sys, r: string)
    requires Inv(cfg, w, s)
    ensures Inv(cfg, w, Apply(cfg, s, Requeue(r)))
  {
    hide Inv, GoodAct;
    NewestSpec(s.transfers, r);
    if Newest(s.transfers, r).Some? {
      var id := Newest(s.transfers, r).value;
      if s.transfers[id].status == ReversalPending {
        AppenderIsGood(cfg, w, s, id, ReversalRequested);
        SpawnKeepsInv(cfg, w, s, Act(Direct, id, AppendEvent(ReversalRequested)));
      }
    }
  }

  lemma SweepKeepsInv(cfg: Config, w: World, s: Sys, id: nat)
    requires Inv(cfg, w, s)
    ensures Inv(cfg, w, Apply(cfg, s, Sweep(id)))
  {
    if id < |s.transfers| && IsStuck(s, id) {
      var kind := EventForStatus(s.transfers[id].status).value;
      DrivingInverts(kind, s.transfers[id].status);
      AppenderIsGood(cfg, w, s, id, kind);
      SpawnKeepsInv(cfg, w, s, Act(Direct, id, AppendEvent(kind)));
    }
  }

  lemma ClaimKeepsInv(cfg: Config, w: World, s: Sys, e: nat)
    requires Inv(cfg, w, s)
    ensures Inv(cfg, w, Apply(cfg, s, Claim(e)))
  {
    if e in s.outbox && IsLive(s.outbox[e]) {
      var row := s.outbox[e];
      assert EventOk(s, row);
      SpawnKeepsInv(cfg, w, s, Act(Delivery(e, row.kind, row.attempts), row.transfer, Load(row.kind)));
    }
  }

  /** A new row has no legs and no activation. */
  lemma NewRowViews(cfg: Config, w: World, s: Sys, row: TransferRow)
    requires Shape(s) && NoStrayLegs(s) && Views(cfg, w, s) && row.status == Pending && row.debitLegTx.None?
    ensures var s' := s.(transfers := s.transfers + [row]);
            Views(cfg, w, s') && forall i :: 0 <= i < |s.transfers| ==> ViewOf(s', i) == ViewOf(s, i) && s'.transfers[i] == s.transfers[i]
  {
    hide Find, LegAccepted;
    var s', n := s.(transfers := s.transfers + [row]), |s.transfers|;
    assert ViewOf(s', n) == View(Pending, None, None, None, None, None, LegAccepted(s.book.chart, row, DebitLeg), false);
    forall i | 0 <= i < n ensures ViewOf(s', i) == ViewOf(s, i) && s'.transfers[i] == s.transfers[i] {}
  }

  lemma NewRowKeepsInv(cfg: Config, w: World, s: Sys, l: Label)
    requires Inv(cfg, w, s) && l.Create? && ValidRequest(l) && Admissible(w, s, l)
    ensures var row := TransferRow(l.reference, l.source, l.destination, l.amount, l.currency, Pending, None);
            Inv(cfg, w, s.(transfers := s.transfers + [row]))
  {
    hide Views, ViewOf, ActOk, Sound, Find;
    var row := TransferRow(l.reference, l.source, l.destination, l.amount, l.currency, Pending, None);
    var s' := s.(transfers := s.transfers + [row]);
    NewRowViews(cfg, w, s, row);
    forall a | a in s'.acts ensures GoodAct(cfg, w, s', s'.acts[a]) {
      assert GoodAct(cfg, w, s, s.acts[a]);
    }
    forall e | e in s'.outbox ensures EventOk(s', s'.outbox[e]) {
      assert EventOk(s, s.outbox[e]);
    }
    forall a | a in s'.acts ensures DeliveryOk(s', s'.acts[a]) {
      assert DeliveryOk(s, s.acts[a]);
    }
  }

  lemma CreateKeepsInv(cfg: Config, w: World, s: Sys, l: Label)
    requires Inv(cfg, w, s) && l.Create? && ValidRequest(l) && Admissible(w, s, l)
    ensures Inv(cfg, w, CreateTransfer(s, l))
  {
    NewRowKeepsInv(cfg, w, s, l);
    var row := TransferRow(l.reference, l.source, l.destination, l.amount, l.currency, Pending, None);
    var s1, id := s.(transfers := s.transfers + [row]), |s.transfers|;
    AppendKeepsInv(cfg, w, s1, id, DebitRequested);
    var s2 := Append(s1, id, DebitRequested);
    SpawnKeepsInv(cfg, w, s2, Act(Direct, id, Load(DebitRequested)));
  }

  /** Every label, in any order, with any activations in flight. */
  lemma ApplyKeepsInv(cfg: Config, w: World, s: Sys, l: Label)
    requires Inv(cfg, w, s) && Admissible(w, s, l)
    ensures Inv(cfg, w, Apply(cfg, s, l))
  {
    match l
    case Create(_, _, _, _, _) => if ValidRequest(l) { CreateKeepsInv(cfg, w, s, l); }
    case Claim(e) => ClaimKeepsInv(cfg, w, s, e);
    case Step(a, o) => if a in s.acts && s.acts[a].transfer < |s.transfers| { StepActKeepsInv(cfg, w, s, a, o); }
    case Finish(a, recorded) => if a in s.acts && s.acts[a].pc.Done? { FinishKeepsInv(cfg, w, s, a, recorded); }
    case Drop(a) => RetireKeepsInv(cfg, w, s, a);
    case Lose(e) => LoseKeepsInv(cfg, w, s, e);
    case Callback(r, v) => CallbackKeepsInv(cfg, w, s, r, v);
    case Requeue(r) => RequeueKeepsInv(cfg, w, s, r);
    case Sweep(id) => SweepKeepsInv(cfg, w, s, id);
  }

  lemma StartHasInv(cfg: Config, w: World, chart: map<string, AccountType>)
    ensures Inv(cfg, w, Start(chart))
  {
    OpeningIsSound(chart);
  }

  lemma {:induction false} RunKeepsInv(cfg: Config, w: World, s: Sys, ls: seq<Label>)
    requires Inv(cfg, w, s) && Run(cfg, w, s, ls)
    ensures Inv(cfg, w, Exec(cfg, s, ls))
  {
    if ls != [] {
      RunKeepsInv(cfg, w, s, ls[..|ls|-1]);
      ApplyKeepsInv(cfg, w, Exec(cfg, s, ls[..|ls|-1]), ls[|ls|-1]);
    }
  }

  lemma RunAppend(cfg: Config, w: World, s: Sys, ls: seq<Label>, l: Label)
    ensures Exec(cfg, s, ls + [l]) == Apply(cfg, Exec(cfg, s, ls), l)
    ensures Run(cfg, w, s, ls) && Admissible(w, Exec(cfg, s, ls), l) ==> Run(cfg, w, s, ls + [l])
  {
    hide Apply, Admissible;
    assert (ls + [l])[..|ls|] == ls;
  }

  /** What can be reached stays within reach. */
  lemma ReachableStep(cfg: Config, w: World, s: Sys, l: Label)
    requires Reachable(cfg, w, s) && Admissible(w, s, l)
    ensures Reachable(cfg, w, Apply(cfg, s, l))
  {
    hide Apply, Admissible, Exec, Run;
    var chart, ls :| EndsIn(cfg, w, chart, ls, s);
    RunAppend(cfg, w, Start(chart), ls, l);
    assert EndsIn(cfg, w, chart, ls + [l], Apply(cfg, s, l));
  }

  lemma StartIsReachable(cfg: Config, w: World, chart: map<string, AccountType>)
    ensures Reachable(cfg, w, Start(chart))
  {
    assert EndsIn(cfg, w, chart, [], Start(chart));
  }
}
