/** One transfer at a time: what its row and its legs say, how each atomic effect changes that, and
    the invariants that every effect keeps whatever the other activations are doing. */
module SagaLocal {
  import opened Prelude
  import opened Ledger
  import opened StateMachine
  import opened Saga

  /** A transfer as the proofs see it: status, recorded debit id, and the ledger transaction under
      each of its leg keys, with the parent of the reversal. */
  datatype View = View(
    status: Status, recorded: Option<nat>,
    debit: Option<nat>, settle: Option<nat>, reversal: Option<nat>, parent: Option<nat>,
    accepts: bool, sent: bool)

  predicate MoneyTaken(st: Status) { st != Pending && st != Failed }

  // ---------------------------------------------------------------- invariants of a view

  /** Holds in every run, whatever the rail says. */
  predicate RawOk(v: View) {
    && (v.recorded.Some? ==> v.recorded == v.debit)
    && (MoneyTaken(v.status) ==> v.recorded.Some?)
    && (v.debit.Some? ==> v.accepts)
    && (v.status == Failed ==> !v.accepts)
    && (v.reversal.Some? ==> (v.status == ReversalPending || v.status == Reversed) && v.parent == v.debit)
    && (v.status == Reversed ==> v.reversal.Some?)
    && (v.status == Settled ==> v.settle.Some?)
    && (v.status == InDoubt ==> v.sent)
  }

  /** Holds when the rail has one true outcome for the reference. */
  predicate HonestOk(v: View, settles: bool) {
    && (v.settle.Some? ==> v.debit.Some? && settles && MoneyTaken(v.status))
    && (v.status == ReversalPending || v.status == Reversed ==> !settles)
    && (v.sent ==> MoneyTaken(v.status))
  }

  /** Holds when, besides, the rail always repeats its answer. */
  predicate ConstantOk(cfg: Config, v: View, send: Verdict, query: Verdict) {
    && (v.settle.Some? ==> send == Success || (cfg.tsqAttempts > 0 && query == Success))
    && (v.status == InDoubt ==> send == Unknown)
    && (v.status == ManualReview ==> send == Unknown && (cfg.tsqAttempts == 0 || query == Unknown))
  }

  predicate ViewOk(cfg: Config, w: World, r: string, v: View) {
    && RawOk(v)
    && (!w.Arbitrary? ==> HonestOk(v, w.rail.settles(r)))
    && (w.Constant? ==> ConstantOk(cfg, v, w.rail.send(r), w.rail.query(r)))
  }

  // ---------------------------------------------------------------- invariants of an activation

  predicate RawPc(v: View, pc: Pc) {
    match pc
    case MarkDebited(tx) => v.debit == Some(tx)
    case MarkFailed => !v.accepts
    case Send | Query(_) | MarkManual => MoneyTaken(v.status)
    case MarkInDoubt => MoneyTaken(v.status) && v.sent
    case MarkSettled => v.settle.Some? || IsTerminal(v.status)
    case PostReversal(p) => (v.status == ReversalPending || v.status == Reversed) && v.debit == Some(p)
    case MarkReversed => v.reversal.Some?
    case MissingDebitLeg => false
    case AppendEvent(kind) => Due(kind, v.status)
    case _ => true
  }

  predicate HonestPc(v: View, pc: Pc, settles: bool) {
    match pc
    case PostSettle => settles && v.debit.Some? && MoneyTaken(v.status)
    case MarkReversing => !settles
    case _ => true
  }

  predicate ConstantPc(cfg: Config, pc: Pc, v: View, send: Verdict, query: Verdict) {
    match pc
    case MarkInDoubt => send == Unknown
    case Query(left) => send == Unknown && left <= cfg.tsqAttempts && (left < cfg.tsqAttempts ==> query == Unknown)
    case MarkManual => send == Unknown && (cfg.tsqAttempts == 0 || query == Unknown)
    case PostSettle => send == Success || (cfg.tsqAttempts > 0 && query == Success)
    case _ => true
  }

  /** The steps that belong to the handler of a kind of event. */
  predicate PcOf(kind: EventKind, pc: Pc) {
    match kind
    case DebitRequested => pc.PostDebit? || pc.MarkDebited? || pc.MarkFailed?
    case DebitedEvent => pc.Send? || pc.PostSettle? || pc.MarkSettled? || pc.MarkReversing? || pc.MarkInDoubt?
    case InDoubtEvent => pc.Query? || pc.PostSettle? || pc.MarkSettled? || pc.MarkReversing? || pc.MarkManual?
    case ReversalRequested => pc.PostReversal? || pc.MarkReversed?
  }

  predicate Past(kind: EventKind, st: Status) { Reaches(Driving(kind), st) && st != Driving(kind) }

  /** A transfer an event of this kind was ever appended for has reached the kind's status. */
  predicate Due(kind: EventKind, st: Status) { Reaches(Driving(kind), st) }

  /** A delivery runs its own kind's handler, and reports success only past the driving status. */
  predicate OriginOk(v: View, act: Act) {
    match act.origin
    case Direct => true
    case Delivery(_, kind, _) =>
      && Due(kind, v.status)
      && (act.pc == Load(kind) || act.pc == Done(false) || PcOf(kind, act.pc)
          || (act.pc == Done(true) && Past(kind, v.status)))
  }

  predicate ActOk(cfg: Config, w: World, r: string, v: View, act: Act) {
    && RawPc(v, act.pc)
    && (!w.Arbitrary? ==> HonestPc(v, act.pc, w.rail.settles(r)))
    && (w.Constant? ==> ConstantPc(cfg, act.pc, v, w.rail.send(r), w.rail.query(r)))
    && OriginOk(v, act)
  }

  // ---------------------------------------------------------------- how a view may change

  /** Nothing recorded is ever withdrawn, and the status only moves along the edges. */
  predicate Later(v: View, v': View) {
    && Reaches(v.status, v'.status)
    && (v.recorded.Some? ==> v'.recorded == v.recorded)
    && (v.debit.Some? ==> v'.debit == v.debit)
    && (v.settle.Some? ==> v'.settle == v.settle)
    && (v.reversal.Some? ==> v'.reversal == v.reversal && v'.parent == v.parent)
    && v'.accepts == v.accepts
    && (v.sent ==> v'.sent)
  }

  /** What one activation knows stays true while others work on the same transfer. */
  lemma ActOkIsStable(cfg: Config, w: World, r: string, v: View, v': View, act: Act)
    requires ActOk(cfg, w, r, v, act) && Later(v, v')
    ensures ActOk(cfg, w, r, v', act)
  {
    TerminalTable(v.status);
    TerminalTable(v'.status);
    if act.origin.Delivery? {
      ReachesIsClosure(Driving(act.origin.kind), v.status, v'.status);
    }
    if act.pc.AppendEvent? {
      ReachesIsClosure(Driving(act.pc.kind), v.status, v'.status);
    }
  }

  lemma LaterIsReflexive(v: View)
    ensures Later(v, v)
  {
  }

  // ---------------------------------------------------------------- effects on a view

  function ViewAdvance(v: View, to: Status, tx: Option<nat>): View {
    if !CanTransition(v.status, to) then v
    else v.(status := to, recorded := if tx.Some? then tx else v.recorded)
  }

  /** A post under the leg's key: a new transaction if there was none, the old one otherwise. */
  function ViewPost(v: View, leg: Leg, tx: nat, parent: Option<nat>): View {
    match leg
    case DebitLeg => if v.debit.None? then v.(debit := Some(tx)) else v
    case SettleLeg => if v.settle.None? then v.(settle := Some(tx)) else v
    case ReversalLeg => if v.reversal.None? then v.(reversal := Some(tx), parent := parent) else v
  }

  function LegOf(v: View, leg: Leg): Option<nat> {
    match leg case DebitLeg => v.debit case SettleLeg => v.settle case ReversalLeg => v.reversal
  }

  /** The target status and recorded id of a marking step. */
  function MarkTarget(pc: Pc): Option<(Status, Option<nat>)> {
    match pc
    case MarkDebited(tx) => Some((Debited, Some(tx)))
    case MarkFailed => Some((Failed, None))
    case MarkSettled => Some((Settled, None))
    case MarkReversing => Some((ReversalPending, None))
    case MarkInDoubt => Some((InDoubt, None))
    case MarkManual => Some((ManualReview, None))
    case MarkReversed => Some((Reversed, None))
    case _ => None
  }

  /** The leg and parent of a posting step. */
  function PostTarget(pc: Pc): Option<(Leg, Option<nat>)> {
    match pc
    case PostDebit => Some((DebitLeg, None))
    case PostSettle => Some((SettleLeg, None))
    case PostReversal(p) => Some((ReversalLeg, Some(p)))
    case _ => None
  }

  /** Marking keeps the view sound, whichever activation does it and however late. */
  lemma MarkKeepsView(cfg: Config, w: World, r: string, v: View, act: Act)
    requires ViewOk(cfg, w, r, v) && ActOk(cfg, w, r, v, act) && MarkTarget(act.pc).Some?
    ensures var (to, tx) := MarkTarget(act.pc).value;
            ViewOk(cfg, w, r, ViewAdvance(v, to, tx)) && Later(v, ViewAdvance(v, to, tx))
  {
    var (to, tx) := MarkTarget(act.pc).value;
    EdgeTable(v.status, to);
    TerminalTable(v.status);
  }

  /** After a mark the handler may report success: its driving status is behind the transfer. */
  lemma MarkLeavesDriving(v: View, act: Act)
    requires OriginOk(v, act) && MarkTarget(act.pc).Some?
    ensures var (to, tx) := MarkTarget(act.pc).value;
            OriginOk(ViewAdvance(v, to, tx), act.(pc := Done(true)))
  {
    var (to, tx) := MarkTarget(act.pc).value;
    EdgeTable(v.status, to);
    if act.origin.Delivery? {
      EdgeTable(Driving(act.origin.kind), to);
      ReachesIsClosure(Driving(act.origin.kind), v.status, to);
      ReachesIsClosure(v.status, to, to);
    }
  }

  /** Posting keeps the view sound: in particular a settle leg needs a debit leg and a true success,
      a reversal leg the debit leg as its parent. */
  lemma PostKeepsView(cfg: Config, w: World, r: string, v: View, act: Act, tx: nat)
    requires ViewOk(cfg, w, r, v) && ActOk(cfg, w, r, v, act) && PostTarget(act.pc).Some?
    requires act.pc == PostDebit ==> v.accepts
    ensures var (leg, parent) := PostTarget(act.pc).value;
            ViewOk(cfg, w, r, ViewPost(v, leg, tx, parent)) && Later(v, ViewPost(v, leg, tx, parent))
  {
  }

  lemma SendKeepsView(cfg: Config, w: World, r: string, v: View, act: Act)
    requires ViewOk(cfg, w, r, v) && ActOk(cfg, w, r, v, act) && act.pc == Send
    ensures ViewOk(cfg, w, r, v.(sent := true)) && Later(v, v.(sent := true))
  {
  }

  // ---------------------------------------------------------------- effects on an activation

  lemma AfterPostIsOk(cfg: Config, w: World, r: string, v: View, act: Act, res: PostResult)
    requires ActOk(cfg, w, r, v, act) && PostTarget(act.pc).Some?
    requires res.Posted? ==> LegOf(v, PostTarget(act.pc).value.0) == Some(res.id)
    requires act.pc == PostDebit && res.Rejected? && IsTerminalError(res.error) ==> !v.accepts
    ensures ActOk(cfg, w, r, v, act.(pc := AfterPost(PostTarget(act.pc).value.0, res)))
    ensures ActOk(cfg, w, r, v, act.(pc := Done(false)))
  {
  }

  lemma AfterLoadIsOk(cfg: Config, w: World, r: string, v: View, act: Act, t: TransferRow)
    requires ViewOk(cfg, w, r, v) && ActOk(cfg, w, r, v, act) && act.pc.Load?
    requires act.origin.Direct? || act.origin.kind == act.pc.kind
    requires t.status == v.status && t.debitLegTx == v.recorded
    ensures ActOk(cfg, w, r, v, act.(pc := AfterLoad(cfg, act.pc.kind, t)))
  {
  }

  lemma AfterSendIsOk(cfg: Config, w: World, r: string, v: View, act: Act, verdict: Verdict)
    requires ViewOk(cfg, w, r, v) && ActOk(cfg, w, r, v, act) && act.pc == Send && v.sent
    requires !w.Arbitrary? ==> Truthful(w.rail, r, verdict)
    requires w.Constant? ==> verdict == w.rail.send(r)
    ensures ActOk(cfg, w, r, v, act.(pc := AfterVerdict(verdict, MarkInDoubt)))
  {
  }

  lemma AfterQueryIsOk(cfg: Config, w: World, r: string, v: View, act: Act, o: Outcome)
    requires ViewOk(cfg, w, r, v) && ActOk(cfg, w, r, v, act) && act.pc.Query?
    requires !w.Arbitrary? && o.Answer? ==> Truthful(w.rail, r, o.verdict)
    requires w.Constant? ==> o == Answer(w.rail.query(r))
    ensures ActOk(cfg, w, r, v, act.(pc := AfterQuery(act.pc.left, o)))
  {
  }

  lemma CallbackIsOk(cfg: Config, w: World, r: string, v: View, id: nat, verdict: Verdict)
    requires ViewOk(cfg, w, r, v)
    requires !w.Arbitrary? ==> Truthful(w.rail, r, verdict) && v.sent
    requires w.Constant? ==> verdict == Success && w.rail.send(r) == Success
    ensures ActOk(cfg, w, r, v, Act(Direct, id, CallbackPc(v.status, verdict)))
  {
  }
}
