/** What a success callback outside the rail's contract can do: nothing, or break the legs. */
module CallbackContract {
  import opened Prelude
  import opened Ledger
  import opened LedgerProofs
  import opened StateMachine
  import opened Saga
  import opened SagaLocal
  import opened SagaLegs
  import opened SagaInvariant
  import opened SagaSteps
  import opened SagaMoney
  import opened SagaTheorems
  import opened LedgerHealth

  // ---------------------------------------------------------------- continuing a run

  ghost predicate RunsTo(cfg: Config, w: World, s: Sys, ls: seq<Label>, s': Sys) {
    Run(cfg, w, s, ls) && s' == Exec(cfg, s, ls)
  }

  /** Some run of the world leads from s to s'. */
  ghost predicate Continues(cfg: Config, w: World, s: Sys, s': Sys) {
    exists ls :: RunsTo(cfg, w, s, ls, s')
  }

  lemma ContinuesHere(cfg: Config, w: World, s: Sys)
    ensures Continues(cfg, w, s, s)
  {
    assert RunsTo(cfg, w, s, [], s);
  }

  lemma ContinuesStep(cfg: Config, w: World, s: Sys, s': Sys, l: Label)
    requires Continues(cfg, w, s, s') && Admissible(w, s', l)
    ensures Continues(cfg, w, s, Apply(cfg, s', l))
  {
    hide Apply, Admissible, Exec, Run;
    var ls :| RunsTo(cfg, w, s, ls, s');
    RunAppend(cfg, w, s, ls, l);
    assert RunsTo(cfg, w, s, ls + [l], Apply(cfg, s', l));
  }

  /** Without assumptions every continuation is within reach. */
  lemma {:induction false} ReachableContinues(cfg: Config, s: Sys, ls: seq<Label>)
    requires Reachable(cfg, Arbitrary, s)
    ensures Reachable(cfg, Arbitrary, Exec(cfg, s, ls))
  {
    hide Apply, Reachable;
    if ls != [] {
      ReachableContinues(cfg, s, ls[..|ls|-1]);
      ReachableStep(cfg, Arbitrary, Exec(cfg, s, ls[..|ls|-1]), ls[|ls|-1]);
    }
  }

  // ---------------------------------------------------------------- the settle leg, taken or refused for good

  /** The ledger would take the transfer's settle leg now. */
  predicate SettleIsTaken(s: Sys, id: nat)
    requires id < |s.transfers|
  {
    PostLeg(s.book, s.transfers[id], id, SettleLeg, None).1.Posted?
  }

  lemma TakenExactly(b: Book, t: TransferRow, id: nat)
    requires t.amount > 0
    ensures var p := Record(LegRequest(t, id, SettleLeg, None));
            PostLeg(b, t, id, SettleLeg, None).1.Posted?
            <==> LegAccepted(b.chart, t, SettleLeg)
                 && (Find(b.journal, LegKey(id, SettleLeg)).Some?
                     || forall c :: c in Touched(LegEntries(t, SettleLeg)) ==> SumsFit(b.journal + [p], c))
  {
    LegIsValid(t, SettleLeg);
    KnownAccounts(b.chart, LegEntries(t, SettleLeg));
  }

  /** Another posting does not make room. */
  lemma StillTooMuch(js: seq<Posting>, q: Posting, p: Posting, c: string)
    requires forall i, e :: 0 <= i < |js| && e in js[i].entries ==> e.amount > 0
    requires forall e :: e in q.entries ==> e.amount > 0
    requires forall e :: e in p.entries ==> e.amount > 0
    requires !SumsFit(js + [p], c)
    ensures !SumsFit(js + [q] + [p], c)
  {
    forall d ensures AccountSide(js + [q] + [p], c, d) >= AccountSide(js + [p], c, d) >= 0 {
      AccountSideAppend(js, p, c, d);
      AccountSideAppend(js, q, c, d);
      AccountSideAppend(js + [q], p, c, d);
      SideNonNegative(q.entries, c, d);
      SideNonNegative(p.entries, c, d);
      AccountSideNonNegative(js, c, d);
    }
  }

  /** A refused settle leg stays refused when any leg is posted. */
  lemma StillRefused(b: Book, t: TransferRow, id: nat, t2: TransferRow, id2: nat, leg: Leg, parent: Option<nat>)
    requires Sound(b) && t.amount > 0 && t2.amount > 0
    requires PostLeg(b, t, id, SettleLeg, None).1.Rejected?
    requires id2 == id && leg == SettleLeg ==> LegRequest(t2, id2, leg, parent) == LegRequest(t, id, SettleLeg, None)
    ensures PostLeg(PostLeg(b, t2, id2, leg, parent).0, t, id, SettleLeg, None).1.Rejected?
  {
    hide PostLeg, AllSumsFit, UniqueKeys, UniqueReversals, ParentsExist, SumsFit;
    var b' := PostLeg(b, t2, id2, leg, parent).0;
    PostLegEffect(b, t2, id2, leg, parent);
    SameRequest(b, t, id, t2, id2, leg, parent);
    if b' != b {
      var p, q := Record(LegRequest(t, id, SettleLeg, None)), Record(LegRequest(t2, id2, leg, parent));
      TakenExactly(b, t, id);
      TakenExactly(b', t, id);
      FindAppend(b.journal, q, LegKey(id, SettleLeg));
      if LegAccepted(b.chart, t, SettleLeg) {
        var c :| c in Touched(LegEntries(t, SettleLeg)) && !SumsFit(b.journal + [p], c);
        forall i, e | 0 <= i < |b.journal| && e in b.journal[i].entries ensures e.amount > 0 {
          assert SoundPosting(b.chart, b.journal[i]);
        }
        StillTooMuch(b.journal, q, p, c);
      }
    }
  }

  lemma SameRequest(b: Book, t: TransferRow, id: nat, t2: TransferRow, id2: nat, leg: Leg, parent: Option<nat>)
    requires id2 == id && leg == SettleLeg ==> LegRequest(t2, id2, leg, parent) == LegRequest(t, id, SettleLeg, None)
    ensures id2 == id && leg == SettleLeg ==> PostLeg(b, t2, id2, leg, parent) == PostLeg(b, t, id, SettleLeg, None)
  {
  }

  lemma AddedLeg(s: Sys, id: nat)
    requires id < |s.transfers| && s.transfers[id].amount > 0
    requires PostLeg(s.book, s.transfers[id], id, SettleLeg, None).1.Posted?
    ensures LegSet(PostLeg(s.book, s.transfers[id], id, SettleLeg, None).0.journal, id) == LegSet(s.book.journal, id) + {SettleLeg}
  {
    hide PostLeg;
    var t := s.transfers[id];
    var (b, r) := PostLeg(s.book, t, id, SettleLeg, None);
    PostLegEffect(s.book, t, id, SettleLeg, None);
    LegPostedFrames(s.book, t, id, SettleLeg, None, b, r, LegKey(id, DebitLeg));
    LegPostedFrames(s.book, t, id, SettleLeg, None, b, r, LegKey(id, SettleLeg));
    LegPostedFrames(s.book, t, id, SettleLeg, None, b, r, LegKey(id, ReversalLeg));
  }

  // ---------------------------------------------------------------- a refused callback is a bystander

  /** The state in which the stray handler had already given up. */
  function Quieted(t: Sys, a: nat): Sys { if a in t.acts then Goto(t, a, Done(false)) else t }

  /** The stray handler can do nothing but give up, and everything else is as in an honest run. */
  ghost predicate Bystander(cfg: Config, rail: Rail, t: Sys, a: nat, id: nat) {
    && Inv(cfg, Honest(rail), Quieted(t, a)) && a < t.nextAct && id < |t.transfers|
    && (a in t.acts ==> t.acts[a] == Act(Direct, id, PostSettle) || t.acts[a] == Act(Direct, id, Done(false)))
    && !SettleIsTaken(t, id)
  }

  lemma SpawnsCommute(t: Sys, a: nat, act: Act)
    requires a in t.acts && a < t.nextAct
    ensures var t' := Spawn(t, act);
            && a in t'.acts && t'.acts[a] == t.acts[a] && t.nextAct <= t'.nextAct
            && Quieted(t', a) == Spawn(Quieted(t, a), act)
  {
  }

  lemma QuietedLooksAlike(t: Sys, a: nat)
    requires a in t.acts
    ensures var q := Quieted(t, a);
            && q == t.(acts := q.acts) && q.acts.Keys == t.acts.Keys
            && (forall b :: b in t.acts && b != a ==> q.acts[b] == t.acts[b])
  {
  }

  /** What the other activations do does not depend on the stray one. */
  lemma OthersCommute(cfg: Config, t: Sys, a: nat, l: Label)
    requires a in t.acts && a < t.nextAct
    requires !(l.Step? && l.act == a) && !(l.Finish? && l.act == a) && !(l.Drop? && l.act == a)
    ensures a in Apply(cfg, t, l).acts && Apply(cfg, t, l).acts[a] == t.acts[a] && t.nextAct <= Apply(cfg, t, l).nextAct
    ensures Quieted(Apply(cfg, t, l), a) == Apply(cfg, Quieted(t, a), l)
  {
    QuietedLooksAlike(t, a);
    match l {
      case Step(b, o) =>
        hide StepAct, Quieted;
        if b in t.acts && t.acts[b].transfer < |t.transfers| { StepsCommute(cfg, t, a, b, o); }
      case Finish(b, recorded) =>
        hide FinishAct, Quieted;
        if b in t.acts && t.acts[b].pc.Done? { FinishesCommute(cfg, t, a, b, recorded); }
      case Drop(_) | Lose(_) =>
        hide StepAct, FinishAct;
      case _ =>
        ArrivalsCommute(cfg, t, a, l);
    }
  }

  lemma ArrivalsCommute(cfg: Config, t: Sys, a: nat, l: Label)
    requires a in t.acts && a < t.nextAct && (l.Create? || l.Claim? || l.Callback? || l.Requeue? || l.Sweep?)
    ensures a in Apply(cfg, t, l).acts && Apply(cfg, t, l).acts[a] == t.acts[a] && t.nextAct <= Apply(cfg, t, l).nextAct
    ensures Quieted(Apply(cfg, t, l), a) == Apply(cfg, Quieted(t, a), l)
  {
    hide StepAct, FinishAct, Quieted, Spawn, IsTerminal, EventForStatus;
    QuietedLooksAlike(t, a);
    var q := Quieted(t, a);
    match l {
      case Create(_, _, _, _, _) =>
        if ValidRequest(l) { CreationsCommute(t, a, l); }
      case Claim(e) =>
        if e in t.outbox {
          SpawnsCommute(t, a, Act(Delivery(e, t.outbox[e].kind, t.outbox[e].attempts), t.outbox[e].transfer, Load(t.outbox[e].kind)));
        }
      case Callback(r, v) =>
        var n := Newest(t.transfers, r);
        if n.Some? && n.value < |t.transfers| {
          SpawnsCommute(t, a, Act(Direct, n.value, CallbackPc(t.transfers[n.value].status, v)));
        }
      case Requeue(r) =>
        var n := Newest(t.transfers, r);
        if n.Some? { SpawnsCommute(t, a, Act(Direct, n.value, AppendEvent(ReversalRequested))); }
      case Sweep(id) =>
        if id < |t.transfers| && IsStuck(t, id) {
          SpawnsCommute(t, a, Act(Direct, id, AppendEvent(EventForStatus(t.transfers[id].status).value)));
        }
    }
  }

  lemma CreationsCommute(t: Sys, a: nat, l: Label)
    requires a in t.acts && a < t.nextAct && l.Create?
    ensures var t' := CreateTransfer(t, l);
            && a in t'.acts && t'.acts[a] == t.acts[a] && t.nextAct <= t'.nextAct
            && Quieted(t', a) == CreateTransfer(Quieted(t, a), l)
  {
  }

  lemma FinishesCommute(cfg: Config, t: Sys, a: nat, b: nat, recorded: bool)
    requires a in t.acts && b in t.acts && a != b && t.acts[b].pc.Done?
    ensures var t' := FinishAct(cfg, t, b, recorded);
            && a in t'.acts && t'.acts[a] == t.acts[a] && t'.nextAct == t.nextAct
            && Quieted(t', a) == FinishAct(cfg, Quieted(t, a), b, recorded)
  {
    hide Failing;
  }

  lemma AdvanceIgnoresActs(t: Sys, acts: map<nat, Act>, id: nat, to: Status, tx: Option<nat>)
    requires id < |t.transfers|
    ensures Advance(t.(acts := acts), id, to, tx) == Advance(t, id, to, tx).(acts := acts)
    ensures Advance(t, id, to, tx).acts == t.acts && Advance(t, id, to, tx).nextAct == t.nextAct
  {
    hide CanTransition, EventForStatus, Append;
    var s1 := SetStatus(t, id, to, tx);
    assert SetStatus(t.(acts := acts), id, to, tx) == s1.(acts := acts);
    if EventForStatus(to).Some? { AppendIgnoresActs(s1, acts, id, EventForStatus(to).value); }
  }

  lemma AppendIgnoresActs(t: Sys, acts: map<nat, Act>, id: nat, kind: EventKind)
    ensures Append(t.(acts := acts), id, kind) == Append(t, id, kind).(acts := acts)
    ensures Append(t, id, kind).acts == t.acts && Append(t, id, kind).nextAct == t.nextAct
  {
  }

  lemma GotosCommute(t: Sys, a: nat, b: nat, pc: Pc)
    requires a in t.acts && b in t.acts && a != b
    ensures var t' := Goto(t, b, pc);
            && a in t'.acts && t'.acts[a] == t.acts[a] && t'.nextAct == t.nextAct
            && Quieted(t', a) == Goto(Quieted(t, a), b, pc)
  {
  }

  lemma MarksCommute(t: Sys, a: nat, b: nat, to: Status, tx: Option<nat>, o: Outcome)
    requires a in t.acts && b in t.acts && a != b && t.acts[b].transfer < |t.transfers|
    ensures var t' := StepMark(t, b, to, tx, o);
            && a in t'.acts && t'.acts[a] == t.acts[a] && t'.nextAct == t.nextAct
            && Quieted(t', a) == StepMark(Quieted(t, a), b, to, tx, o)
  {
    hide Advance;
    var id := t.acts[b].transfer;
    AdvanceIgnoresActs(t, Quieted(t, a).acts, id, to, tx);
    GotosCommute(if Applied(o) then Advance(t, id, to, tx) else t, a, b, Done(o.Answer?));
  }

  lemma PostsCommute(t: Sys, a: nat, b: nat, leg: Leg, parent: Option<nat>, o: Outcome)
    requires a in t.acts && b in t.acts && a != b && t.acts[b].transfer < |t.transfers|
    ensures var t' := StepPost(t, b, leg, parent, o);
            && a in t'.acts && t'.acts[a] == t.acts[a] && t'.nextAct == t.nextAct
            && Quieted(t', a) == StepPost(Quieted(t, a), b, leg, parent, o)
  {
    hide PostLeg, AfterPost;
  }

  lemma StepsCommute(cfg: Config, t: Sys, a: nat, b: nat, o: Outcome)
    requires a in t.acts && b in t.acts && a != b && t.acts[b].transfer < |t.transfers|
    ensures var t' := StepAct(cfg, t, b, o);
            && a in t'.acts && t'.acts[a] == t.acts[a] && t'.nextAct == t.nextAct
            && Quieted(t', a) == StepAct(cfg, Quieted(t, a), b, o)
  {
    hide StepAct, StepMark, StepPost, StepAppend, MarkTarget, PostTarget;
    StepActByTarget(cfg, t, b, o);
    StepActByTarget(cfg, Quieted(t, a), b, o);
    var pc := t.acts[b].pc;
    if MarkTarget(pc).Some? {
      MarksCommute(t, a, b, MarkTarget(pc).value.0, MarkTarget(pc).value.1, o);
    } else if PostTarget(pc).Some? {
      PostsCommute(t, a, b, PostTarget(pc).value.0, PostTarget(pc).value.1, o);
    } else if pc.AppendEvent? {
      AppendsCommute(t, a, b, pc.kind, o);
    } else {
      OtherStepsCommute(cfg, t, a, b, o);
    }
  }

  lemma AppendsCommute(t: Sys, a: nat, b: nat, kind: EventKind, o: Outcome)
    requires a in t.acts && b in t.acts && a != b
    ensures var t' := StepAppend(t, b, kind, o);
            && a in t'.acts && t'.acts[a] == t.acts[a] && t'.nextAct == t.nextAct
            && Quieted(t', a) == StepAppend(Quieted(t, a), b, kind, o)
  {
  }

  /** Where a handler goes by looking alone. */
  function Looking(cfg: Config, t: TransferRow, pc: Pc, o: Outcome): Pc {
    match pc
    case Load(kind) => if o.Fault? then Done(false) else AfterLoad(cfg, kind, t)
    case Query(left) => AfterQuery(left, o)
    case _ => Done(false)
  }

  lemma LookingIsGoto(cfg: Config, t: Sys, b: nat, o: Outcome)
    requires b in t.acts && t.acts[b].transfer < |t.transfers|
    requires t.acts[b].pc.Load? || t.acts[b].pc.Query? || t.acts[b].pc.MissingDebitLeg?
    ensures StepAct(cfg, t, b, o) == Goto(t, b, Looking(cfg, t.transfers[t.acts[b].transfer], t.acts[b].pc, o))
  {
    hide AfterLoad, AfterQuery, Goto, StepPost, StepMark, StepSend, StepAppend;
  }

  lemma SendsCommute(t: Sys, a: nat, b: nat, o: Outcome)
    requires a in t.acts && b in t.acts && a != b
    ensures var t' := StepSend(t, b, o);
            && a in t'.acts && t'.acts[a] == t.acts[a] && t'.nextAct == t.nextAct
            && Quieted(t', a) == StepSend(Quieted(t, a), b, o)
  {
    hide AfterVerdict;
    GotosCommute(t.(sent := t.sent + {t.acts[b].transfer}), a, b,
                 if o.Fault? then Done(false) else AfterVerdict(o.verdict, MarkInDoubt));
  }

  lemma OtherStepsCommute(cfg: Config, t: Sys, a: nat, b: nat, o: Outcome)
    requires a in t.acts && b in t.acts && a != b && t.acts[b].transfer < |t.transfers|
    requires MarkTarget(t.acts[b].pc).None? && PostTarget(t.acts[b].pc).None? && !t.acts[b].pc.AppendEvent?
    ensures var t' := StepAct(cfg, t, b, o);
            && a in t'.acts && t'.acts[a] == t.acts[a] && t'.nextAct == t.nextAct
            && Quieted(t', a) == StepAct(cfg, Quieted(t, a), b, o)
  {
    var q, pc := Quieted(t, a), t.acts[b].pc;
    assert b in q.acts && q.acts[b] == t.acts[b] && q.transfers == t.transfers;
    hide StepAct, StepSend, Looking, Quieted;
    StepActByTarget(cfg, t, b, o);
    StepActByTarget(cfg, q, b, o);
    if pc.Send? {
      SendsCommute(t, a, b, o);
    } else if !pc.Done? {
      LookingIsGoto(cfg, t, b, o);
      LookingIsGoto(cfg, q, b, o);
      GotosCommute(t, a, b, Looking(cfg, t.transfers[t.acts[b].transfer], pc, o));
    }
  }

  lemma AdmissibleQuieted(rail: Rail, t: Sys, a: nat, l: Label)
    requires Admissible(Honest(rail), t, l) && a in t.acts
    ensures Admissible(Honest(rail), Quieted(t, a), l)
  {
    assert forall r :: WasSent(Quieted(t, a), r) <==> WasSent(t, r);
  }

  /** The refusal outlasts every label. */
  lemma RefusalStays(cfg: Config, t: Sys, l: Label, id: nat)
    requires Shape(t) && Sound(t.book) && id < |t.transfers| && !SettleIsTaken(t, id)
    ensures id < |Apply(cfg, t, l).transfers| && !SettleIsTaken(Apply(cfg, t, l), id)
  {
    hide PostLeg, StepAct, FinishAct, Sound;
    var t' := Apply(cfg, t, l);
    ApplyShape(cfg, t, l);
    RowFixesRequest(t.transfers[id], t'.transfers[id], t'.book, id);
    if t'.book != t.book {
      var a := l.act;
      StepActShape(cfg, t, a, l.outcome);
      var (leg, parent) := PostTarget(t.acts[a].pc).value;
      StillRefused(t.book, t.transfers[id], id, t.transfers[t.acts[a].transfer], t.acts[a].transfer, leg, parent);
    }
  }

  lemma RowFixesRequest(t: TransferRow, t': TransferRow, b: Book, id: nat)
    requires SameRow(t, t')
    ensures PostLeg(b, t', id, SettleLeg, None) == PostLeg(b, t, id, SettleLeg, None)
  {
    assert LegRequest(t', id, SettleLeg, None) == LegRequest(t, id, SettleLeg, None);
  }

  lemma BystanderStep(cfg: Config, rail: Rail, t: Sys, a: nat, id: nat, l: Label)
    requires Bystander(cfg, rail, t, a, id) && Admissible(Honest(rail), t, l)
    ensures Bystander(cfg, rail, Apply(cfg, t, l), a, id)
  {
    hide Inv, SettleIsTaken, Apply, Admissible, Quieted;
    QuietedParts(cfg, rail, t, a);
    RefusalStays(cfg, t, l, id);
    if a in t.acts && ((l.Step? && l.act == a) || (l.Finish? && l.act == a) || (l.Drop? && l.act == a)) {
      OwnLabel(cfg, rail, t, a, id, l);
    } else if a in t.acts {
      AdmissibleQuieted(rail, t, a, l);
      OthersCommute(cfg, t, a, l);
      ApplyKeepsInv(cfg, Honest(rail), Quieted(t, a), l);
    } else {
      StaysAway(cfg, t, a, l);
      ApplyKeepsInv(cfg, Honest(rail), Quieted(t, a), l);
    }
  }

  lemma QuietedParts(cfg: Config, rail: Rail, t: Sys, a: nat)
    requires Inv(cfg, Honest(rail), Quieted(t, a))
    ensures Shape(t) && Sound(t.book) && (a !in t.acts ==> Quieted(t, a) == t)
  {
    hide Views, Acts, Events, NoStrayLegs, Refs, Sound;
    var q := Quieted(t, a);
    assert q.transfers == t.transfers && q.outbox == t.outbox && q.sent == t.sent;
    forall x | x in t.acts ensures x < t.nextAct && t.acts[x].transfer < |t.transfers| {
      assert x in q.acts && q.acts[x].transfer == t.acts[x].transfer;
    }
  }

  lemma StaysAway(cfg: Config, t: Sys, a: nat, l: Label)
    requires a !in t.acts && a < t.nextAct
    ensures a !in Apply(cfg, t, l).acts && t.nextAct <= Apply(cfg, t, l).nextAct
    ensures Quieted(t, a) == t && Quieted(Apply(cfg, t, l), a) == Apply(cfg, t, l)
  {
    hide StepAct, FinishAct, PostLeg;
    match l {
      case Step(b, o) => if b in t.acts && t.acts[b].transfer < |t.transfers| { StepKeepsActs(cfg, t, b, o); }
      case Finish(b, recorded) => if b in t.acts && t.acts[b].pc.Done? { FinishDropsOne(cfg, t, b, recorded); }
      case _ =>
    }
  }

  lemma FinishDropsOne(cfg: Config, t: Sys, b: nat, recorded: bool)
    requires b in t.acts && t.acts[b].pc.Done?
    ensures FinishAct(cfg, t, b, recorded).acts == t.acts - {b} && FinishAct(cfg, t, b, recorded).nextAct == t.nextAct
  {
    hide Failing;
  }

  lemma StepKeepsActs(cfg: Config, t: Sys, b: nat, o: Outcome)
    requires b in t.acts && t.acts[b].transfer < |t.transfers|
    ensures StepAct(cfg, t, b, o).acts.Keys == t.acts.Keys && StepAct(cfg, t, b, o).nextAct == t.nextAct
  {
    hide StepAct, PostLeg, AfterPost, CanTransition;
    StepActByTarget(cfg, t, b, o);
    var pc := t.acts[b].pc;
    if MarkTarget(pc).None? && PostTarget(pc).None? && !pc.AppendEvent? { StepMovesOn(cfg, t, b, o); }
  }

  /** The stray handler's own labels: the refused post, and leaving. */
  lemma OwnLabel(cfg: Config, rail: Rail, t: Sys, a: nat, id: nat, l: Label)
    requires Bystander(cfg, rail, t, a, id) && a in t.acts
    requires (l.Step? && l.act == a) || (l.Finish? && l.act == a) || (l.Drop? && l.act == a)
    ensures var t' := Apply(cfg, t, l);
            && Inv(cfg, Honest(rail), Quieted(t', a)) && a < t'.nextAct && id < |t'.transfers|
            && (a in t'.acts ==> t'.acts[a] == Act(Direct, id, PostSettle) || t'.acts[a] == Act(Direct, id, Done(false)))
  {
    hide PostLeg, Inv;
    if l.Step? {
      PostLegEffect(t.book, t.transfers[id], id, SettleLeg, None) by { QuietedParts(cfg, rail, t, a); }
      assert Quieted(Apply(cfg, t, l), a) == Quieted(t, a);
    } else {
      assert Apply(cfg, t, l) == t || Apply(cfg, t, l) == Retire(t, a);
      assert Quieted(Retire(t, a), a) == Retire(Quieted(t, a), a);
      ApplyKeepsInv(cfg, Honest(rail), Quieted(t, a), Drop(a));
    }
  }

  lemma {:induction false} BystanderRun(cfg: Config, rail: Rail, t: Sys, a: nat, id: nat, ls: seq<Label>)
    requires Bystander(cfg, rail, t, a, id) && Run(cfg, Honest(rail), t, ls)
    ensures Bystander(cfg, rail, Exec(cfg, t, ls), a, id)
  {
    hide Bystander, Apply, Admissible;
    if ls != [] {
      BystanderRun(cfg, rail, t, a, id, ls[..|ls|-1]);
      BystanderStep(cfg, rail, Exec(cfg, t, ls[..|ls|-1]), a, id, ls[|ls|-1]);
    }
  }

  lemma BystanderFits(cfg: Config, rail: Rail, t: Sys, a: nat, id: nat)
    requires Bystander(cfg, rail, t, a, id)
    ensures LegsFit(t.transfers[id].status, LegSet(t.book.journal, id))
  {
    hide Views, Acts, Events, Refs, NoStrayLegs, Shape, Sound, SettleIsTaken, LegsFit, LegSet;
    ViewLegsFit(cfg, Honest(rail), Quieted(t, a), id);
  }

  // ---------------------------------------------------------------- the breaking runs

  /** The settle leg is posted on a transfer that can still turn to reversal. */
  ghost predicate Armed(s: Sys, id: nat) {
    id < |s.transfers| && (s.transfers[id].status == Debited || s.transfers[id].status == InDoubt) && Has(s.book.journal, id, SettleLeg)
  }

  /** Not the legs of the transfer's status. */
  ghost predicate Broken(s: Sys, id: nat) {
    id < |s.transfers| && !LegsFit(s.transfers[id].status, LegSet(s.book.journal, id))
  }

  lemma ReversingBreaks(cfg: Config, rail: Rail, s0: Sys, s: Sys, id: nat, a: nat) returns (s': Sys)
    requires Continues(cfg, Honest(rail), s0, s) && Armed(s, id)
    requires a in s.acts && s.acts[a].transfer == id && s.acts[a].pc == MarkReversing
    ensures Continues(cfg, Honest(rail), s0, s') && Broken(s', id)
  {
    hide Continues;
    EdgeTable(Debited, ReversalPending);
    EdgeTable(InDoubt, ReversalPending);
    ContinuesStep(cfg, Honest(rail), s0, s, Step(a, Answer(Unknown)));
    s' := Apply(cfg, s, Step(a, Answer(Unknown)));
    assert SettleLeg in LegSet(s'.book.journal, id);
  }

  /** In doubt: a truthful decline comes in. */
  lemma InDoubtBreaks(cfg: Config, rail: Rail, s0: Sys, s: Sys, reference: string, id: nat) returns (s': Sys)
    requires Continues(cfg, Honest(rail), s0, s) && Armed(s, id)
    requires id in s.sent && Newest(s.transfers, reference) == Some(id) && s.transfers[id].reference == reference
    requires !rail.settles(reference)
    ensures Continues(cfg, Honest(rail), s0, s') && Broken(s', id)
  {
    hide Continues;
    var l := Callback(reference, Declined);
    ContinuesStep(cfg, Honest(rail), s0, s, l);
    s' := ReversingBreaks(cfg, rail, s0, Apply(cfg, s, l), id, s.nextAct);
  }

  lemma LoseAll(cfg: Config, rail: Rail, s0: Sys, s: Sys)
    requires Continues(cfg, Honest(rail), s0, s)
    ensures Continues(cfg, Honest(rail), s0, s.(outbox := map[]))
    decreases |s.outbox.Keys|
  {
    hide Continues;
    if s.outbox.Keys == {} {
      assert s.outbox == map[] && s.(outbox := map[]) == s;
    } else {
      var e :| e in s.outbox.Keys;
      ContinuesStep(cfg, Honest(rail), s0, s, Lose(e));
      var s1 := Apply(cfg, s, Lose(e));
      assert s1.outbox.Keys == s.outbox.Keys - {e};
      LoseAll(cfg, rail, s0, s1);
    }
  }

  /** Debited: its event is delivered and the rail truthfully declines. */
  lemma DeliveredBreaks(cfg: Config, rail: Rail, s0: Sys, s: Sys, id: nat, a: nat) returns (s': Sys)
    requires Continues(cfg, Honest(rail), s0, s) && Armed(s, id) && s.transfers[id].status == Debited
    requires a in s.acts && s.acts[a].transfer == id && s.acts[a].pc == Load(DebitedEvent)
    requires !rail.settles(s.transfers[id].reference)
    ensures Continues(cfg, Honest(rail), s0, s') && Broken(s', id)
  {
    hide Continues;
    ContinuesStep(cfg, Honest(rail), s0, s, Step(a, Answer(Unknown)));
    var s1 := Apply(cfg, s, Step(a, Answer(Unknown)));
    assert s1 == Goto(s, a, Send);
    ContinuesStep(cfg, Honest(rail), s0, s1, Step(a, Answer(Declined)));
    var s2 := Apply(cfg, s1, Step(a, Answer(Declined)));
    assert s2 == Goto(s1.(sent := s1.sent + {id}), a, MarkReversing);
    s' := ReversingBreaks(cfg, rail, s0, s2, id, a);
  }

  /** Debited, with whatever events: they are lost, the sweep finds the transfer, and its event is delivered. */
  lemma DebitedBreaks(cfg: Config, rail: Rail, s0: Sys, s: Sys, id: nat) returns (s': Sys)
    requires Continues(cfg, Honest(rail), s0, s) && Armed(s, id) && s.transfers[id].status == Debited
    requires !rail.settles(s.transfers[id].reference)
    ensures Continues(cfg, Honest(rail), s0, s') && Broken(s', id)
  {
    hide Continues, Armed;
    LoseAll(cfg, rail, s0, s);
    var s1 := s.(outbox := map[]);
    ContinuesStep(cfg, Honest(rail), s0, s1, Sweep(id));
    var a, e := s1.nextAct, s1.nextEvent;
    var s2 := Spawn(s1, Act(Direct, id, AppendEvent(DebitedEvent)));
    assert id < |s1.transfers| by { ArmedRow(s, id); }
    assert Apply(cfg, s1, Sweep(id)) == s2;
    ContinuesStep(cfg, Honest(rail), s0, s2, Step(a, Answer(Unknown)));
    var s3 := Apply(cfg, s2, Step(a, Answer(Unknown)));
    assert s3 == Goto(Append(s2, id, DebitedEvent), a, Done(true));
    ContinuesStep(cfg, Honest(rail), s0, s3, Claim(e));
    var s4 := Apply(cfg, s3, Claim(e));
    assert s4 == Spawn(s3, Act(Delivery(e, DebitedEvent, 0), id, Load(DebitedEvent)));
    ArmedFrame(s, s4, id);
    s' := DeliveredBreaks(cfg, rail, s0, s4, id, s3.nextAct);
  }

  lemma ArmedRow(s: Sys, id: nat)
    requires Armed(s, id)
    ensures id < |s.transfers|
  {
  }

  lemma ArmedFrame(s: Sys, s': Sys, id: nat)
    requires Armed(s, id) && s'.transfers == s.transfers && s'.book == s.book
    ensures Armed(s', id)
  {
  }

  // ---------------------------------------------------------------- exactly when

  /** What keeps a success callback harmless without R1 and R2: the transfer is finished, or the rail has
      settled what was debited, or the ledger refuses the leg. */
  ghost predicate Harmless(rail: Rail, s: Sys, id: nat)
    requires id < |s.transfers|
  {
    || IsTerminal(s.transfers[id].status)
    || ((s.transfers[id].status == Debited || s.transfers[id].status == InDoubt) && rail.settles(s.transfers[id].reference))
    || !SettleIsTaken(s, id)
  }

  /** The handler of the callback, once it has looked the transfer up. */
  function Called(s: Sys, id: nat): Sys
    requires id < |s.transfers|
  {
    Spawn(s, Act(Direct, id, CallbackPc(s.transfers[id].status, Success)))
  }

  lemma HarmlessFits(cfg: Config, rail: Rail, s: Sys, id: nat, s': Sys)
    requires Inv(cfg, Honest(rail), s) && id < |s.transfers| && Harmless(rail, s, id)
    requires Continues(cfg, Honest(rail), Called(s, id), s')
    ensures !Broken(s', id)
  {
    hide Inv, LegsFit, LegSet, Exec, Run, SettleIsTaken, IsTerminal;
    var ls :| RunsTo(cfg, Honest(rail), Called(s, id), ls, s');
    var st := s.transfers[id].status;
    if IsTerminal(st) || ((st == Debited || st == InDoubt) && rail.settles(s.transfers[id].reference)) {
      WelcomeIsGood(cfg, rail, s, id);
      RunKeepsInv(cfg, Honest(rail), Called(s, id), ls);
      if id < |s'.transfers| { InvFits(cfg, rail, s', id); }
    } else {
      RefusedIsBystander(cfg, rail, s, id);
      BystanderRun(cfg, rail, Called(s, id), s.nextAct, id, ls);
      BystanderFits(cfg, rail, s', s.nextAct, id);
    }
  }

  lemma InvFits(cfg: Config, rail: Rail, s: Sys, id: nat)
    requires Inv(cfg, Honest(rail), s) && id < |s.transfers|
    ensures LegsFit(s.transfers[id].status, LegSet(s.book.journal, id))
  {
    hide Views, LegsFit, LegSet;
    ViewLegsFit(cfg, Honest(rail), s, id);
  }

  lemma WelcomeIsGood(cfg: Config, rail: Rail, s: Sys, id: nat)
    requires Inv(cfg, Honest(rail), s) && id < |s.transfers|
    requires var st := s.transfers[id].status;
             IsTerminal(st) || ((st == Debited || st == InDoubt) && rail.settles(s.transfers[id].reference))
    ensures Inv(cfg, Honest(rail), Called(s, id))
  {
    hide Inv, Shape, Refs, NoStrayLegs, Sound, Acts, Events;
    TerminalTable(s.transfers[id].status);
    InvHasView(cfg, rail, s, id);
    SpawnKeepsInv(cfg, Honest(rail), s, Act(Direct, id, CallbackPc(s.transfers[id].status, Success)));
  }

  lemma InvHasView(cfg: Config, rail: Rail, s: Sys, id: nat)
    requires Inv(cfg, Honest(rail), s) && id < |s.transfers|
    ensures ViewOk(cfg, Honest(rail), s.transfers[id].reference, ViewOf(s, id))
  {
    hide Shape, Refs, NoStrayLegs, Sound, Acts, Events, ViewOk;
  }

  lemma RefusedIsBystander(cfg: Config, rail: Rail, s: Sys, id: nat)
    requires Inv(cfg, Honest(rail), s) && id < |s.transfers| && !SettleIsTaken(s, id) && !IsTerminal(s.transfers[id].status)
    ensures Bystander(cfg, rail, Called(s, id), s.nextAct, id)
  {
    hide Inv, PostLeg;
    var quiet := Act(Direct, id, Done(false));
    assert GoodAct(cfg, Honest(rail), s, quiet);
    SpawnKeepsInv(cfg, Honest(rail), s, quiet);
    assert Quieted(Called(s, id), s.nextAct) == Spawn(s, quiet);
  }

  /** The leg goes through, and the status does not bear it, or will not. */
  lemma HarmfulBreaks(cfg: Config, rail: Rail, s: Sys, reference: string, id: nat) returns (s': Sys)
    requires Inv(cfg, Honest(rail), s) && Newest(s.transfers, reference) == Some(id) && id < |s.transfers|
    requires !Harmless(rail, s, id)
    ensures Continues(cfg, Honest(rail), Called(s, id), s') && Broken(s', id)
  {
    hide Inv, PostLeg, LegSet, IsTerminal, Continues;
    var s1, a := Called(s, id), s.nextAct;
    ContinuesHere(cfg, Honest(rail), s1);
    ContinuesStep(cfg, Honest(rail), s1, s1, Step(a, Answer(Unknown)));
    var (b, r) := PostLeg(s.book, s.transfers[id], id, SettleLeg, None);
    var s2 := Goto(s1.(book := b), a, MarkSettled);
    assert Apply(cfg, s1, Step(a, Answer(Unknown))) == s2;
    AmountIsPositive(cfg, rail, s, id);
    AddedLeg(s, id);
    LegIn(b.journal, id);
    NewestSpec(s.transfers, reference);
    TerminalTable(s.transfers[id].status);
    match s.transfers[id].status {
      case Debited => s' := DebitedBreaks(cfg, rail, s1, s2, id);
      case InDoubt =>
        InvHasView(cfg, rail, s, id);
        s' := InDoubtBreaks(cfg, rail, s1, s2, reference, id);
      case _ => s' := s2;
    }
  }

  lemma AmountIsPositive(cfg: Config, rail: Rail, s: Sys, id: nat)
    requires Inv(cfg, Honest(rail), s) && id < |s.transfers|
    ensures s.transfers[id].amount > 0
  {
  }

  lemma LegIn(js: seq<Posting>, id: nat)
    ensures SettleLeg in LegSet(js, id) <==> Has(js, id, SettleLeg)
  {
  }

  /** A success callback that arrives in a state of an honest run, true or not, sent for or not: every
      honest continuation keeps the transfer's legs fitting its status if and only if it is harmless. */
  lemma SuccessCallbackNeedsTheRail(cfg: Config, rail: Rail, s: Sys, reference: string, id: nat)
    requires Reachable(cfg, Honest(rail), s) && Newest(s.transfers, reference) == Some(id)
    ensures id < |s.transfers|
    ensures Harmless(rail, s, id) <==>
            forall s' :: Continues(cfg, Honest(rail), Apply(cfg, s, Callback(reference, Success)), s') ==> !Broken(s', id)
  {
    hide Reachable, Inv, Journaled, Money, Harmless, Broken, Continues;
    ReachableIsGood(cfg, Honest(rail), s);
    NewestSpec(s.transfers, reference);
    assert Apply(cfg, s, Callback(reference, Success)) == Called(s, id);
    if Harmless(rail, s, id) {
      forall s' | Continues(cfg, Honest(rail), Called(s, id), s') ensures !Broken(s', id) {
        HarmlessFits(cfg, rail, s, id, s');
      }
    } else {
      var s' := HarmfulBreaks(cfg, rail, s, reference, id);
    }
  }

  /** Whenever it is not harmless, a state with broken legs is within reach. */
  lemma BrokenLegsAreReachable(cfg: Config, rail: Rail, s: Sys, reference: string, id: nat) returns (s': Sys)
    requires Reachable(cfg, Honest(rail), s) && Newest(s.transfers, reference) == Some(id) && id < |s.transfers|
    requires !Harmless(rail, s, id)
    ensures Reachable(cfg, Arbitrary, s') && Broken(s', id)
  {
    hide Reachable, Inv, Journaled, Money, Harmless, Broken, Exec, Run;
    ReachableIsGood(cfg, Honest(rail), s);
    HonestIsArbitrary(cfg, rail, s);
    ReachableStep(cfg, Arbitrary, s, Callback(reference, Success));
    assert Apply(cfg, s, Callback(reference, Success)) == Called(s, id);
    s' := HarmfulBreaks(cfg, rail, s, reference, id);
    var ls :| RunsTo(cfg, Honest(rail), Called(s, id), ls, s');
    ReachableContinues(cfg, Called(s, id), ls);
  }

  lemma HonestIsArbitrary(cfg: Config, rail: Rail, s: Sys)
    requires Reachable(cfg, Honest(rail), s)
    ensures Reachable(cfg, Arbitrary, s)
  {
    hide Run, Exec;
    var chart, ls :| EndsIn(cfg, Honest(rail), chart, ls, s);
    ArbitraryRun(cfg, Start(chart), ls);
    assert EndsIn(cfg, Arbitrary, chart, ls, s);
  }

  /** Three labels from an empty database: a transfer is created, and before its debit a success callback comes in for it.
      The destination is credited, and nobody has been debited. */
  lemma CreditBeforeDebit(cfg: Config, chart: map<string, AccountType>, l: Label) returns (s': Sys)
    requires l.Create? && ValidRequest(l) && l.destination in chart && SETTLEMENT in chart
    ensures Reachable(cfg, Arbitrary, s') && Broken(s', 0)
    ensures s'.transfers[0].status == Pending && LegSet(s'.book.journal, 0) == {SettleLeg}
  {
    hide Reachable, PostLeg, LegSet;
    StartIsReachable(cfg, Arbitrary, chart);
    ReachableStep(cfg, Arbitrary, Start(chart), l);
    var s := Apply(cfg, Start(chart), l);
    ReachableStep(cfg, Arbitrary, s, Callback(l.reference, Success));
    var s1 := Called(s, 0);
    assert Apply(cfg, s, Callback(l.reference, Success)) == s1 by { PendingIsNotTerminal(); }
    ReachableStep(cfg, Arbitrary, s1, Step(1, Answer(Unknown)));
    var (b, r) := PostLeg(s.book, s.transfers[0], 0, SettleLeg, None);
    s' := Goto(s1.(book := b), 1, if r.Posted? then MarkSettled else Done(false));
    assert Apply(cfg, s1, Step(1, Answer(Unknown))) == s' by { PendingIsNotTerminal(); }
    FirstSettleIsTaken(chart, s.transfers[0]);
    AddedLeg(s, 0);
    NoLegsYet(0);
  }

  lemma PendingIsNotTerminal()
    ensures !IsTerminal(Pending)
  {
    TerminalTable(Pending);
  }

  lemma NoLegsYet(id: nat)
    ensures LegSet([], id) == {}
  {
  }

  lemma FirstSettleIsTaken(chart: map<string, AccountType>, row: TransferRow)
    requires row.amount > 0 && row.destination in chart && SETTLEMENT in chart
    ensures PostLeg(Start(chart).book, row, 0, SettleLeg, None).1.Posted?
  {
    hide PostLeg, SumsFit, Touched;
    var p := Record(LegRequest(row, 0, SettleLeg, None));
    assert [] + [p] == [p];
    forall c ensures SumsFit([] + [p], c) { LoneLegFits(row, SettleLeg, c); }
    LegIsPosted(Start(chart).book, row, 0, SettleLeg, None);
  }
}
