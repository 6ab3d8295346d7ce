/** The transfer saga as a labelled state machine. One label is one atomic effect: a committed
    database transaction, a ledger post, a rail answer. Handlers in flight are activations that
    remember what they loaded, so duplicate deliveries and callbacks interleave on stale reads.
    A label that does not apply leaves the state alone, so every sequence of labels is a run. */
module Saga {
  import opened Prelude
  import opened Ledger
  import opened StateMachine

  const SETTLEMENT: string := "SETTLEMENT"
  const NGN: string := "NGN"

  datatype Config = Config(maxAttempts: nat, tsqAttempts: nat)

  /** The lifecycle row of a transfer; its id is its position in the table. */
  datatype TransferRow = TransferRow(
    reference: string, source: string, destination: string, amount: int64, currency: string,
    status: Status, debitLegTx: Option<nat>)

  datatype Event = Event(transfer: nat, kind: EventKind, attempts: nat, published: bool, dead: bool)

  datatype Verdict = Unknown | Success | Declined

  /** Where a handler stands: what it does next, with what it has learnt so far. */
  datatype Pc =
    | Load(kind: EventKind)
    | PostDebit | MarkDebited(tx: nat) | MarkFailed
    | Send | Query(left: nat)
    | PostSettle | MarkSettled
    | MarkReversing | MarkInDoubt | MarkManual
    | MissingDebitLeg | PostReversal(parent: nat) | MarkReversed
    | AppendEvent(kind: EventKind)
    | Done(ok: bool)

  datatype Origin = Delivery(event: nat, kind: EventKind, attempts: nat) | Direct

  datatype Act = Act(origin: Origin, transfer: nat, pc: Pc)

  datatype Sys = Sys(
    transfers: seq<TransferRow>,
    outbox: map<nat, Event>, nextEvent: nat,
    book: Book,
    acts: map<nat, Act>, nextAct: nat,
    sent: set<nat>)

  /** The answer of the remote side to one call. A fault may hide an effect that was applied. */
  datatype Outcome = Answer(verdict: Verdict) | Fault(applied: bool)

  datatype Label =
    | Create(reference: string, source: string, destination: string, amount: int64, currency: string)
    | Claim(event: nat)
    | Step(act: nat, outcome: Outcome)
    | Finish(act: nat, recorded: bool)
    | Drop(act: nat)
    | Lose(event: nat)
    | Callback(reference: string, verdict: Verdict)
    | Requeue(reference: string)
    | Sweep(transfer: nat)

  // ---------------------------------------------------------------- ledger legs

  function DebitSideOf(t: TransferRow, leg: Leg): string {
    if leg == DebitLeg then t.source else SETTLEMENT
  }

  function CreditSideOf(t: TransferRow, leg: Leg): string {
    match leg
    case DebitLeg => SETTLEMENT
    case SettleLeg => t.destination
    case ReversalLeg => t.source
  }

  function LegEntries(t: TransferRow, leg: Leg): seq<Entry> {
    [Entry(DebitSideOf(t, leg), Debit, t.amount, t.currency),
     Entry(CreditSideOf(t, leg), Credit, t.amount, t.currency)]
  }

  function LegRequest(t: TransferRow, id: nat, leg: Leg, parent: Option<nat>): PostRequest {
    PostRequest(t.reference, if leg == ReversalLeg then Reversal else Transfer, "settled",
                LegEntries(t, leg), Some(LegKey(id, leg)), parent)
  }

  function PostLeg(b: Book, t: TransferRow, id: nat, leg: Leg, parent: Option<nat>): (Book, PostResult) {
    Post(b, LegRequest(t, id, leg, parent), 0)
  }

  // ---------------------------------------------------------------- the store

  function Append(s: Sys, id: nat, kind: EventKind): Sys {
    s.(outbox := s.outbox[s.nextEvent := Event(id, kind, 0, false, false)], nextEvent := s.nextEvent + 1)
  }

  function SetStatus(s: Sys, id: nat, to: Status, tx: Option<nat>): Sys
    requires id < |s.transfers|
  {
    var t := s.transfers[id];
    s.(transfers := s.transfers[id := t.(status := to, debitLegTx := if tx.Some? then tx else t.debitLegTx)])
  }

  /** Under the row lock: take the edge and append the event of the new status, or do nothing. */
  function Advance(s: Sys, id: nat, to: Status, tx: Option<nat>): Sys
    requires id < |s.transfers|
  {
    if !CanTransition(s.transfers[id].status, to) then s
    else
      var s1 := SetStatus(s, id, to, tx);
      if EventForStatus(to).Some? then Append(s1, id, EventForStatus(to).value) else s1
  }

  /** The newest transfer carrying the reference. */
  function Newest(ts: seq<TransferRow>, reference: string): Option<nat> {
    if ts == [] then None
    else if ts[|ts|-1].reference == reference then Some(|ts|-1)
    else Newest(ts[..|ts|-1], reference)
  }

  predicate IsLive(e: Event) { !e.published && !e.dead }

  /** The stuck query: resumable, and no live event of any kind. */
  predicate IsStuck(s: Sys, id: nat)
    requires id < |s.transfers|
  {
    && EventForStatus(s.transfers[id].status).Some?
    && forall e :: e in s.outbox && s.outbox[e].transfer == id ==> !IsLive(s.outbox[e])
  }

  // ---------------------------------------------------------------- handlers

  function AfterLoad(cfg: Config, kind: EventKind, t: TransferRow): Pc {
    if t.status != Driving(kind) then Done(true)
    else match kind
      case DebitRequested => PostDebit
      case DebitedEvent => Send
      case InDoubtEvent => Query(cfg.tsqAttempts)
      case ReversalRequested => if t.debitLegTx.None? then MissingDebitLeg else PostReversal(t.debitLegTx.value)
  }

  function AfterPost(leg: Leg, r: PostResult): Pc {
    match r
    case Posted(id) => (match leg case DebitLeg => MarkDebited(id) case SettleLeg => MarkSettled case ReversalLeg => MarkReversed)
    case Rejected(e) => if leg == DebitLeg && IsTerminalError(e) then MarkFailed else Done(false)
  }

  function AfterVerdict(v: Verdict, unknown: Pc): Pc {
    match v
    case Success => PostSettle
    case Declined => MarkReversing
    case Unknown => unknown
  }

  function Goto(s: Sys, a: nat, pc: Pc): Sys
    requires a in s.acts
  {
    s.(acts := s.acts[a := s.acts[a].(pc := pc)])
  }

  predicate Applied(o: Outcome) { o.Answer? || o.applied }

  function StepPost(s: Sys, a: nat, leg: Leg, parent: Option<nat>, o: Outcome): Sys
    requires a in s.acts && s.acts[a].transfer < |s.transfers|
  {
    var id := s.acts[a].transfer;
    var (b, r) := PostLeg(s.book, s.transfers[id], id, leg, parent);
    Goto(if Applied(o) then s.(book := b) else s, a, if o.Fault? then Done(false) else AfterPost(leg, r))
  }

  function StepMark(s: Sys, a: nat, to: Status, tx: Option<nat>, o: Outcome): Sys
    requires a in s.acts && s.acts[a].transfer < |s.transfers|
  {
    Goto(if Applied(o) then Advance(s, s.acts[a].transfer, to, tx) else s, a, Done(o.Answer?))
  }

  function StepSend(s: Sys, a: nat, o: Outcome): Sys
    requires a in s.acts
  {
    Goto(s.(sent := s.sent + {s.acts[a].transfer}), a,
         if o.Fault? then Done(false) else AfterVerdict(o.verdict, MarkInDoubt))
  }

  /** A status query that was not answered, or answered that nothing is known. */
  predicate Inconclusive(o: Outcome) { o == Fault(false) || o == Answer(Unknown) }

  /** One turn of the status-query loop. A fault is a transport error (next attempt) or, with
      `applied`, the cancelled wait that gives up at once. */
  function AfterQuery(left: nat, o: Outcome): Pc {
    if left == 0 then MarkManual
    else match o
      case Answer(v) => AfterVerdict(v, Query(left - 1))
      case Fault(cancelled) => if cancelled then MarkManual else Query(left - 1)
  }

  function StepAppend(s: Sys, a: nat, kind: EventKind, o: Outcome): Sys
    requires a in s.acts
  {
    Goto(if Applied(o) then Append(s, s.acts[a].transfer, kind) else s, a, Done(o.Answer?))
  }

  function StepAct(cfg: Config, s: Sys, a: nat, o: Outcome): Sys
    requires a in s.acts && s.acts[a].transfer < |s.transfers|
  {
    match s.acts[a].pc
    case Load(kind) => Goto(s, a, if o.Fault? then Done(false) else AfterLoad(cfg, kind, s.transfers[s.acts[a].transfer]))
    case PostDebit => StepPost(s, a, DebitLeg, None, o)
    case MarkDebited(tx) => StepMark(s, a, Debited, Some(tx), o)
    case MarkFailed => StepMark(s, a, Failed, None, o)
    case Send => StepSend(s, a, o)
    case Query(left) => Goto(s, a, AfterQuery(left, o))
    case PostSettle => StepPost(s, a, SettleLeg, None, o)
    case MarkSettled => StepMark(s, a, Settled, None, o)
    case MarkReversing => StepMark(s, a, ReversalPending, None, o)
    case MarkInDoubt => StepMark(s, a, InDoubt, None, o)
    case MarkManual => StepMark(s, a, ManualReview, None, o)
    case MissingDebitLeg => Goto(s, a, Done(false))
    case PostReversal(parent) => StepPost(s, a, ReversalLeg, Some(parent), o)
    case MarkReversed => StepMark(s, a, Reversed, None, o)
    case AppendEvent(kind) => StepAppend(s, a, kind, o)
    case Done(_) => s
  }

  // ---------------------------------------------------------------- poller bookkeeping

  /** What a failed delivery does to its row, given the attempts the poller read when it claimed it. */
  function Failing(cfg: Config, e: Event, attempts: nat): Event {
    e.(attempts := e.attempts + 1, dead := e.dead || attempts + 1 >= cfg.maxAttempts)
  }

  function Retire(s: Sys, a: nat): Sys { s.(acts := s.acts - {a}) }

  function FinishAct(cfg: Config, s: Sys, a: nat, recorded: bool): Sys
    requires a in s.acts && s.acts[a].pc.Done?
  {
    var act := s.acts[a];
    if !recorded || act.origin.Direct? || act.origin.event !in s.outbox then Retire(s, a)
    else
      var e := s.outbox[act.origin.event];
      var e' := if act.pc.ok then e.(published := true) else Failing(cfg, e, act.origin.attempts);
      Retire(s.(outbox := s.outbox[act.origin.event := e']), a)
  }

  // ---------------------------------------------------------------- arrivals

  function Spawn(s: Sys, act: Act): Sys {
    s.(acts := s.acts[s.nextAct := act], nextAct := s.nextAct + 1)
  }

  predicate ValidRequest(l: Label)
    requires l.Create?
  {
    l.source != "" && l.destination != "" && l.reference != "" && l.currency == NGN && l.amount > 0
  }

  /** The row and its first event in one transaction, then the inline debit. */
  function CreateTransfer(s: Sys, l: Label): Sys
    requires l.Create?
  {
    var row := TransferRow(l.reference, l.source, l.destination, l.amount, l.currency, Pending, None);
    var id := |s.transfers|;
    Spawn(Append(s.(transfers := s.transfers + [row]), id, DebitRequested), Act(Direct, id, Load(DebitRequested)))
  }

  /** The callback has loaded the newest row of the reference and decided on what it saw. */
  function CallbackPc(st: Status, v: Verdict): Pc {
    match v
    case Success => if IsTerminal(st) then MarkSettled else PostSettle
    case Declined => MarkReversing
    case Unknown => Done(true)
  }

  function Apply(cfg: Config, s: Sys, l: Label): Sys {
    match l
    case Create(_, _, _, _, _) => if ValidRequest(l) then CreateTransfer(s, l) else s
    case Claim(e) =>
      if e in s.outbox && IsLive(s.outbox[e])
      then Spawn(s, Act(Delivery(e, s.outbox[e].kind, s.outbox[e].attempts), s.outbox[e].transfer, Load(s.outbox[e].kind)))
      else s
    case Step(a, o) => if a in s.acts && s.acts[a].transfer < |s.transfers| then StepAct(cfg, s, a, o) else s
    case Finish(a, recorded) => if a in s.acts && s.acts[a].pc.Done? then FinishAct(cfg, s, a, recorded) else s
    case Drop(a) => Retire(s, a)
    case Lose(e) => s.(outbox := s.outbox - {e})
    case Callback(r, v) =>
      (match Newest(s.transfers, r)
       case Some(id) => if id < |s.transfers| then Spawn(s, Act(Direct, id, CallbackPc(s.transfers[id].status, v))) else s
       case None => s)
    case Requeue(r) =>
      (match Newest(s.transfers, r)
       case Some(id) => if id < |s.transfers| && s.transfers[id].status == ReversalPending
                        then Spawn(s, Act(Direct, id, AppendEvent(ReversalRequested))) else s
       case None => s)
    case Sweep(id) =>
      if id < |s.transfers| && IsStuck(s, id)
      then Spawn(s, Act(Direct, id, AppendEvent(EventForStatus(s.transfers[id].status).value)))
      else s
  }

  function Exec(cfg: Config, s: Sys, ls: seq<Label>): Sys {
    if ls == [] then s else Apply(cfg, Exec(cfg, s, ls[..|ls|-1]), ls[|ls|-1])
  }

  function Start(chart: map<string, AccountType>): Sys {
    Sys([], map[], 0, Book(chart, [], map[]), map[], 0, {})
  }

  // ---------------------------------------------------------------- what is assumed of the outside

  /** The rail's one true outcome per reference, and, for a rail that always gives the same answer,
      the answers themselves. */
  datatype Rail = Rail(settles: string -> bool, send: string -> Verdict, query: string -> Verdict)

  /** Arbitrary: nothing. Honest: definitive verdicts tell the truth, references are not reused,
      callbacks follow a send, customers do not name the suspense account. Constant: in addition
      the rail repeats itself, calling back only to confirm a successful send. */
  datatype World = Arbitrary | Honest(rail: Rail) | Constant(rail: Rail)

  predicate Truthful(rail: Rail, reference: string, v: Verdict) {
    v == Unknown || (v == Success <==> rail.settles(reference))
  }

  predicate WasSent(s: Sys, reference: string) {
    exists id :: id in s.sent && id < |s.transfers| && s.transfers[id].reference == reference
  }

  predicate AdmissibleStep(w: World, s: Sys, a: nat, o: Outcome) {
    w.Arbitrary? || a !in s.acts || s.acts[a].transfer >= |s.transfers| ||
    var r := s.transfers[s.acts[a].transfer].reference;
    match s.acts[a].pc
    case Send => o.Answer? ==> Truthful(w.rail, r, o.verdict) && (w.Constant? ==> o.verdict == w.rail.send(r))
    case Query(_) => (o.Answer? ==> Truthful(w.rail, r, o.verdict)) && (w.Constant? ==> o == Answer(w.rail.query(r)))
    case _ => true
  }

  predicate Admissible(w: World, s: Sys, l: Label) {
    w.Arbitrary? ||
    match l
    case Create(r, src, dst, _, _) =>
      (forall i :: 0 <= i < |s.transfers| ==> s.transfers[i].reference != r) && src != SETTLEMENT && dst != SETTLEMENT
    case Callback(r, v) =>
      WasSent(s, r) && Truthful(w.rail, r, v) && (w.Constant? ==> v == Success && w.rail.send(r) == Success)
    case Step(a, o) => AdmissibleStep(w, s, a, o)
    case _ => true
  }

  /** Every label of the run is admissible where it happens. */
  ghost predicate Run(cfg: Config, w: World, s: Sys, ls: seq<Label>) {
    ls == [] || (Run(cfg, w, s, ls[..|ls|-1]) && Admissible(w, Exec(cfg, s, ls[..|ls|-1]), ls[|ls|-1]))
  }

  ghost predicate EndsIn(cfg: Config, w: World, chart: map<string, AccountType>, ls: seq<Label>, s: Sys) {
    Run(cfg, w, Start(chart), ls) && s == Exec(cfg, Start(chart), ls)
  }

  /** Some run of the world, from an empty database over some chart of accounts, ends in s. */
  ghost predicate Reachable(cfg: Config, w: World, s: Sys) {
    exists chart, ls :: EndsIn(cfg, w, chart, ls, s)
  }
}
