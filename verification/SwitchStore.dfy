/** The switch in its own imperative form: rows and events updated in place, handlers that load,
    call out and mark in sequence. The machine of Saga is carried along as ghost state, and every
    statement with an effect is one of its labels. */
module SwitchStore {
  import opened Prelude
  import opened Ledger
  import LedgerService
  import opened StateMachine
  import opened Saga
  import opened SagaInvariant
  import opened SagaSteps
  import opened SagaMoney
  import opened LedgerHealth

  /** The outside world, as a function of how many calls were made before: which calls fault (and
      whether the effect was applied all the same), what the rail answers, which events are due. */
  datatype Environment = Environment(
    fault: nat -> Option<bool>, verdict: (nat, string) -> Verdict, due: (nat, nat) -> bool)

  /** What the n-th call meets. */
  function Met(env: Environment, n: nat, reference: string): Outcome {
    match env.fault(n)
    case None => Answer(env.verdict(n, reference))
    case Some(applied) => Fault(applied)
  }

  /** All the queries from the n-th call up to the m-th tell nothing. */
  ghost predicate NothingTold(env: Environment, n: nat, m: nat, reference: string) {
    forall k: nat :: n <= k < m ==> Inconclusive(Met(env, k, reference))
  }

  /** Of the queries from the n-th call on, the m-th is the first to meet something else: o. */
  ghost predicate FirstTelling(env: Environment, n: nat, m: nat, reference: string, o: Outcome) {
    Met(env, m, reference) == o && NothingTold(env, n, m, reference)
  }

  /** The verdict of up to so many queries: the first definitive answer, and nothing known only if
      none of them told, or a wait between them was cancelled (a fault that is applied). */
  ghost predicate QueryVerdict(env: Environment, n: nat, attempts: nat, reference: string, v: Verdict) {
    if v != Unknown then exists m: nat :: n <= m < n + attempts && FirstTelling(env, n, m, reference, Answer(v))
    else
      || NothingTold(env, n, n + attempts, reference)
      || (exists m: nat :: n <= m < n + attempts && FirstTelling(env, n, m, reference, Fault(true)))
  }

  ghost predicate TellsTruth(env: Environment, rail: Rail) {
    forall n: nat, r: string :: Truthful(rail, r, env.verdict(n, r))
  }

  ghost predicate Faultless(env: Environment) { forall n: nat :: env.fault(n) == None }

  ghost predicate AlwaysDue(env: Environment) { forall n: nat, e: nat :: env.due(n, e) }

  lemma {:induction false} ExecSplit(cfg: Config, w: World, s: Sys, ls: seq<Label>, more: seq<Label>)
    ensures Exec(cfg, s, ls + more) == Exec(cfg, Exec(cfg, s, ls), more)
    ensures Run(cfg, w, s, ls + more) ==> Run(cfg, w, Exec(cfg, s, ls), more)
  {
    if more == [] {
      assert ls + more == ls;
    } else {
      var n := |more| - 1;
      assert (ls + more)[..|ls| + n] == ls + more[..n];
      ExecSplit(cfg, w, s, ls, more[..n]);
    }
  }

  /** The invariants of the machine that the runtime relies on. */
  ghost predicate Good(cfg: Config, rail: Rail, s: Sys) {
    Inv(cfg, Honest(rail), s) && Money(s) && Journaled(s)
  }

  lemma {:induction false} RunKeepsGood(cfg: Config, rail: Rail, s: Sys, ls: seq<Label>)
    requires Good(cfg, rail, s) && Run(cfg, Honest(rail), s, ls)
    ensures Good(cfg, rail, Exec(cfg, s, ls))
  {
    hide Inv, Money, Journaled, Apply, Admissible;
    if ls != [] {
      var mid := Exec(cfg, s, ls[..|ls|-1]);
      RunKeepsGood(cfg, rail, s, ls[..|ls|-1]);
      OneLabelKeepsGood(cfg, rail, mid, ls[|ls|-1]);
    }
  }

  lemma OneLabelKeepsGood(cfg: Config, rail: Rail, s: Sys, l: Label)
    requires Good(cfg, rail, s) && Admissible(Honest(rail), s, l)
    ensures Good(cfg, rail, Apply(cfg, s, l))
  {
    hide Apply, Money, Journaled, Views, Acts, Events, NoStrayLegs, Refs;
    ApplyKeepsInv(cfg, Honest(rail), s, l);
    ApplyKeepsMoney(cfg, Honest(rail), s, l);
    ApplyKeepsJournaled(cfg, s, l);
  }

  class Switch {
    const cfg: Config
    const env: Environment
    const ledger: LedgerService.Service
    ghost const rail: Rail
    var transfers: seq<TransferRow>
    var outbox: map<nat, Event>
    var nextEvent: nat
    var clock: nat
    ghost var acts: map<nat, Act>
    ghost var nextAct: nat
    ghost var sent: set<nat>
    ghost var origin: Sys
    ghost var trail: seq<Label>

    ghost function State(): Sys
      reads this, ledger
    {
      Sys(transfers, outbox, nextEvent, ledger.Contents(), acts, nextAct, sent)
    }

    /** The present state is where an honest run from `origin` along `trail` ends. */
    ghost predicate Valid()
      reads this, ledger
    {
      && TellsTruth(env, rail)
      && Good(cfg, rail, origin)
      && Run(cfg, Honest(rail), origin, trail)
      && State() == Exec(cfg, origin, trail)
    }

    /** Starts on an empty database. */
    constructor (cfg: Config, env: Environment, chart: map<string, AccountType>, ghost rail: Rail)
      requires TellsTruth(env, rail)
      ensures Valid() && State() == Start(chart)
      ensures this.cfg == cfg && this.env == env && fresh(ledger)
    {
      this.cfg, this.env, this.rail := cfg, env, rail;
      ledger := new LedgerService.Service(chart);
      transfers, outbox, nextEvent, clock := [], map[], 0, 0;
      acts, nextAct, sent := map[], 0, {};
      origin, trail := Start(chart), [];
      new;
      StartHasInv(cfg, Honest(rail), chart);
    }

    /** Takes up the tables as a crash left them; no handler survives it. */
    constructor Resume(cfg: Config, env: Environment, ledger: LedgerService.Service, transfers: seq<TransferRow>,
                       outbox: map<nat, Event>, nextEvent: nat, ghost nextAct: nat, ghost sent: set<nat>, ghost rail: Rail)
      requires TellsTruth(env, rail)
      requires Good(cfg, rail, Sys(transfers, outbox, nextEvent, ledger.Contents(), map[], nextAct, sent))
      ensures Valid() && State() == Sys(transfers, outbox, nextEvent, ledger.Contents(), map[], nextAct, sent)
      ensures this.cfg == cfg && this.env == env && this.ledger == ledger && this.rail == rail
    {
      this.cfg, this.env, this.ledger, this.rail := cfg, env, ledger, rail;
      this.transfers, this.outbox, this.nextEvent, clock := transfers, outbox, nextEvent, 0;
      acts, this.nextAct, this.sent := map[], nextAct, sent;
      origin, trail := Sys(transfers, outbox, nextEvent, ledger.Contents(), map[], nextAct, sent), [];
    }

    lemma ValidIsGood()
      requires Valid()
      ensures Good(cfg, rail, State())
    {
      RunKeepsGood(cfg, rail, origin, trail);
    }

    /** The activation is a handler on the given transfer. */
    ghost predicate At(a: nat, id: nat, pc: Pc)
      reads this
    {
      a in acts && acts[a].transfer == id < |transfers| && acts[a].pc == pc
    }

    /** Exactly the label l has happened since. */
    twostate predicate Happened(l: Label)
      reads this, ledger
    {
      && State() == Apply(cfg, old(State()), l)
      && trail == old(trail) + [l]
      && origin == old(origin)
      && (l.Step? && Healthy(old(State())) ==> Healthy(State()))
    }

    ghost method Note(l: Label, s: Sys)
      requires s == Exec(cfg, origin, trail) && Run(cfg, Honest(rail), origin, trail)
      requires Admissible(Honest(rail), s, l) && State() == Apply(cfg, s, l)
      modifies this`trail
      ensures trail == old(trail) + [l]
      ensures State() == Exec(cfg, origin, trail) && Run(cfg, Honest(rail), origin, trail)
      ensures l.Step? && Healthy(s) ==> Healthy(State())
    {
      hide Apply, Healthy, Admissible;
      if l.Step? && Healthy(s) { StepKeepsHealth(cfg, s, l); }
      trail := trail + [l];
      assert trail[..|trail|-1] == old(trail);
    }

    /** The next call to the outside. */
    method Consult(reference: string) returns (o: Outcome)
      modifies this`clock
      ensures o == Met(env, old(clock), reference) && clock == old(clock) + 1
      ensures Faultless(env) ==> o.Answer?
    {
      o := match env.fault(clock)
           case None => Answer(env.verdict(clock, reference))
           case Some(applied) => Fault(applied);
      clock := clock + 1;
    }

    // -------------------------------------------------------------- store

    method Append(id: nat, kind: EventKind)
      modifies this`outbox, this`nextEvent
      ensures State() == Saga.Append(old(State()), id, kind)
    {
      outbox := outbox[nextEvent := Event(id, kind, 0, false, false)];
      nextEvent := nextEvent + 1;
    }

    /** The row has the new status, with its debit leg if that is given, and the event of that status, if
        it has one, is new in the outbox. */
    twostate predicate TookEdge(id: nat, to: Status, tx: Option<nat>)
      reads this
    {
      && id < |old(transfers)|
      && transfers == old(transfers)[id := old(transfers)[id].(
           status := to, debitLegTx := if tx.Some? then tx else old(transfers)[id].debitLegTx)]
      && (to == Debited ==> outbox == old(outbox)[old(nextEvent) := Event(id, DebitedEvent, 0, false, false)])
      && (to == InDoubt ==> outbox == old(outbox)[old(nextEvent) := Event(id, InDoubtEvent, 0, false, false)])
      && (to == ReversalPending ==> outbox == old(outbox)[old(nextEvent) := Event(id, ReversalRequested, 0, false, false)])
      && (to == Settled || to == Reversed || to == ManualReview || to == Failed ==> outbox == old(outbox))
    }

    /** Locks the row; takes the edge and appends its event together, or does nothing. */
    method Advance(id: nat, to: Status, tx: Option<nat>) returns (advanced: bool)
      requires id < |transfers|
      modifies this`transfers, this`outbox, this`nextEvent
      ensures State() == Saga.Advance(old(State()), id, to, tx)
      ensures advanced <==> CanTransition(old(transfers[id].status), to)
      ensures !advanced ==> transfers == old(transfers) && outbox == old(outbox)
      ensures advanced ==> TookEdge(id, to, tx)
    {
      if !CanTransition(transfers[id].status, to) { return false; }
      EdgeTable(transfers[id].status, to);
      var row := transfers[id];
      row := row.(status := to);
      if tx.Some? { row := row.(debitLegTx := tx); }
      transfers := transfers[id := row];
      if EventForStatus(to).Some? { Append(id, EventForStatus(to).value); }
      advanced := true;
    }

    // -------------------------------------------------------------- one statement of a handler

    /** store.load */
    method LoadRow(ghost a: nat, id: nat, kind: EventKind) returns (row: Option<TransferRow>, ghost o: Outcome)
      requires Valid() && At(a, id, Load(kind))
      modifies this
      ensures o == Met(env, old(clock), old(transfers[id].reference)) && clock == old(clock) + 1
      ensures Valid() && Happened(Step(a, o))
      ensures trail == old(trail) + [Step(a, o)] && origin == old(origin)
      ensures Healthy(old(State())) ==> Healthy(State())
      ensures Faultless(env) ==> o.Answer?
      ensures row == if o.Answer? then Some(old(transfers[id])) else None
      ensures At(a, id, if o.Answer? then AfterLoad(cfg, kind, old(transfers[id])) else Done(false))
      ensures transfers == old(transfers)
    {
      hide Healthy, Exec, Run, Good, PostLeg;
      ghost var s := State();
      var out := Consult(transfers[id].reference);
      o := out;
      acts := Apply(cfg, s, Step(a, o)).acts;
      Note(Step(a, o), s);
      row := if out.Answer? then Some(transfers[id]) else None;
    }

    /** A ledger call for one leg; a fault may leave the leg posted without an answer. */
    method CallLedger(ghost a: nat, id: nat, leg: Leg, parent: Option<nat>) returns (r: Option<PostResult>, ghost o: Outcome)
      requires Valid() && id < |transfers| && a in acts && acts[a].transfer == id
      requires SagaLocal.PostTarget(acts[a].pc) == Some((leg, parent))
      modifies this, ledger
      ensures o == Met(env, old(clock), old(transfers[id].reference)) && clock == old(clock) + 1
      ensures Valid() && Happened(Step(a, o))
      ensures trail == old(trail) + [Step(a, o)] && origin == old(origin)
      ensures Healthy(old(State())) ==> Healthy(State())
      ensures Faultless(env) ==> o.Answer?
      ensures r == if o.Answer? then Some(PostLeg(old(ledger.Contents()), old(transfers[id]), id, leg, parent).1) else None
      ensures At(a, id, if r.Some? then AfterPost(leg, r.value) else Done(false))
      ensures transfers == old(transfers) && outbox == old(outbox) && nextEvent == old(nextEvent)
    {
      hide Healthy, Good, Exec, Run, Post, Apply, Admissible, SagaLocal.PostTarget;
      ghost var s := State();
      ValidIsGood();
      LedgerIsSound(cfg, rail, s);
      var out := Consult(transfers[id].reference);
      o := out;
      PostLabel(cfg, Honest(rail), s, a, leg, parent, o);
      r := None;
      if Applied(out) {
        var res := ledger.PostTransaction(LegRequest(transfers[id], id, leg, parent), 0);
        if out.Answer? { r := Some(res); }
      }
      acts := acts[a := acts[a].(pc := if out.Fault? then Done(false) else AfterPost(leg, r.value))];
      Note(Step(a, o), s);
    }

    /** One of the mark* transitions; a fault may leave it applied without an answer. */
    method Mark(ghost a: nat, id: nat, to: Status, tx: Option<nat>) returns (ok: bool, ghost o: Outcome)
      requires Valid() && id < |transfers| && a in acts && acts[a].transfer == id
      requires SagaLocal.MarkTarget(acts[a].pc) == Some((to, tx))
      modifies this
      ensures o == Met(env, old(clock), old(transfers[id].reference)) && clock == old(clock) + 1
      ensures Valid() && Happened(Step(a, o))
      ensures trail == old(trail) + [Step(a, o)] && origin == old(origin)
      ensures Healthy(old(State())) ==> Healthy(State())
      ensures ok <==> o.Answer?
      ensures Faultless(env) ==> ok
      ensures At(a, id, Done(ok))
      ensures |transfers| == |old(transfers)|
      ensures ok && CanTransition(old(transfers[id].status), to) ==> transfers[id].status == to && TookEdge(id, to, tx)
      ensures ledger.Contents() == old(ledger.Contents())
      ensures !CanTransition(old(transfers[id].status), to) ==> transfers == old(transfers) && outbox == old(outbox)
    {
      hide Healthy, Good, Exec, Run, Apply, Admissible, SagaLocal.MarkTarget, Saga.Advance, Saga.Append, CanTransition;
      ghost var s := State();
      var out := Consult(transfers[id].reference);
      o := out;
      MarkLabel(cfg, Honest(rail), s, a, to, tx, o);
      if Applied(out) {
        var _ := Advance(id, to, tx);
      }
      AdvanceKeepsShape(s, id, to, tx);
      acts := acts[a := acts[a].(pc := Done(out.Answer?))];
      Note(Step(a, o), s);
      ok := out.Answer?;
    }

    /** rail.Send; None is a transport error. */
    method CallSend(ghost a: nat, id: nat) returns (v: Option<Verdict>, ghost o: Outcome)
      requires Valid() && At(a, id, Send)
      modifies this
      ensures o == Met(env, old(clock), old(transfers[id].reference)) && clock == old(clock) + 1
      ensures Valid() && Happened(Step(a, o))
      ensures trail == old(trail) + [Step(a, o)] && origin == old(origin)
      ensures Healthy(old(State())) ==> Healthy(State())
      ensures v == if o.Answer? then Some(o.verdict) else None
      ensures Faultless(env) ==> v.Some?
      ensures At(a, id, if v.Some? then AfterVerdict(v.value, MarkInDoubt) else Done(false))
      ensures transfers == old(transfers)
    {
      hide Healthy, Exec, Run, Good, PostLeg;
      ghost var s := State();
      var out := Consult(transfers[id].reference);
      o := out;
      acts, sent := Apply(cfg, s, Step(a, o)).acts, sent + {id};
      Note(Step(a, o), s);
      v := if out.Answer? then Some(out.verdict) else None;
    }

    /** The status query, tried tsqAttempts times until an answer is definitive. */
    method QueryStatusWithRetry(ghost a: nat, id: nat) returns (v: Verdict, ghost ls: seq<Label>)
      requires Valid() && At(a, id, Query(cfg.tsqAttempts))
      modifies this
      ensures Valid() && trail == old(trail) + ls && AllSteps(ls, a) && origin == old(origin)
      ensures At(a, id, AfterVerdict(v, MarkManual)) && |ls| <= cfg.tsqAttempts + 1
      ensures QueryVerdict(env, old(clock), cfg.tsqAttempts, old(transfers[id].reference), v)
      ensures transfers == old(transfers)
      ensures Healthy(old(State())) ==> Healthy(State())
    {
      hide Valid, Apply, Healthy, State, Happened, AfterLoad, Met;
      var left := cfg.tsqAttempts;
      ls := [];
      while left > 0
        invariant Valid() && trail == old(trail) + ls && AllSteps(ls, a) && origin == old(origin)
        invariant At(a, id, Query(left)) && transfers == old(transfers) && |ls| + left == cfg.tsqAttempts
        invariant Healthy(old(State())) ==> Healthy(State())
        invariant clock == old(clock) + |ls|
        invariant NothingTold(env, old(clock), clock, old(transfers[id].reference))
      {
        var out := TryQuery(a, id, left);
        assert FirstTelling(env, old(clock), clock - 1, old(transfers[id].reference), out);
        ls := ls + [Step(a, out)];
        if out == Fault(true) { return Unknown, ls; }
        if out.Answer? && out.verdict != Unknown { return out.verdict, ls; }
        left := left - 1;
      }
      GiveUp(a, id);
      ls := ls + [Step(a, Fault(false))];
      v := Unknown;
    }

    ghost method GiveUp(a: nat, id: nat)
      requires Valid() && At(a, id, Query(0))
      modifies this`acts, this`trail
      ensures Valid() && Happened(Step(a, Fault(false))) && At(a, id, MarkManual)
      ensures trail == old(trail) + [Step(a, Fault(false))]
      ensures Healthy(old(State())) ==> Healthy(State())
    {
      hide Healthy, Exec, Run, Good, PostLeg;
      var s := State();
      acts := acts[a := acts[a].(pc := MarkManual)];
      Note(Step(a, Fault(false)), s);
    }

    method TryQuery(ghost a: nat, id: nat, ghost left: nat) returns (out: Outcome)
      requires Valid() && At(a, id, Query(left))
      modifies this
      ensures out == Met(env, old(clock), old(transfers[id].reference)) && clock == old(clock) + 1
      ensures Valid() && Happened(Step(a, out))
      ensures trail == old(trail) + [Step(a, out)] && origin == old(origin)
      ensures Healthy(old(State())) ==> Healthy(State())
      ensures At(a, id, AfterQuery(left, out))
      ensures transfers == old(transfers)
    {
      hide Healthy, Exec, Run, Good, PostLeg;
      ghost var s := State();
      out := Consult(transfers[id].reference);
      acts := acts[a := acts[a].(pc := AfterQuery(left, out))];
      Note(Step(a, out), s);
    }

    // -------------------------------------------------------------- arrivals

    /** The row at pending and its debit_requested event, together; the caller then drives the debit. */
    method CreatePending(reference: string, source: string, destination: string, amount: int64, currency: string)
        returns (id: Option<nat>, ghost a: nat)
      requires Valid() && Admissible(Honest(rail), State(), Create(reference, source, destination, amount, currency))
      modifies this
      ensures Valid() && Happened(Create(reference, source, destination, amount, currency))
      ensures id == if ValidRequest(Create(reference, source, destination, amount, currency)) then Some(|old(transfers)|) else None
      ensures id.Some? ==> At(a, id.value, Load(DebitRequested))
      ensures id.None? ==> State() == old(State())
      ensures id.Some? ==>
                transfers == old(transfers) + [TransferRow(reference, source, destination, amount, currency, Pending, None)]
      ensures id.Some? <==> source != "" && destination != "" && reference != "" && currency == "NGN" && amount > 0
      ensures id.Some? ==> outbox == old(outbox)[old(nextEvent) := Event(id.value, DebitRequested, 0, false, false)]
      ensures a == old(nextAct) && trail == old(trail) + [Create(reference, source, destination, amount, currency)]
    {
      hide Exec, Run, Good;
      ghost var l := Create(reference, source, destination, amount, currency);
      ghost var s := State();
      a := nextAct;
      if source == "" || destination == "" || reference == "" || currency != NGN || amount <= 0 {
        Note(l, s);
        return None, a;
      }
      id := Some(|transfers|);
      transfers := transfers + [TransferRow(reference, source, destination, amount, currency, Pending, None)];
      Append(id.value, DebitRequested);
      acts := acts[nextAct := Act(Direct, id.value, Load(DebitRequested))];
      nextAct := nextAct + 1;
      Note(l, s);
    }

    /** The newest transfer carrying the reference; not found and not readable are both errors. */
    method LoadByReference(reference: string) returns (id: Option<nat>)
      requires Valid()
      modifies this`clock
      ensures Valid() && State() == old(State())
      ensures id.Some? ==> id == Newest(transfers, reference) && id.value < |transfers|
      ensures id.Some? ==> transfers[id.value].reference == reference
                           && forall j :: id.value < j < |transfers| ==> transfers[j].reference != reference
      ensures Faultless(env) ==> id == Newest(transfers, reference)
      ensures Faultless(env) && id.None? ==> forall j :: 0 <= j < |transfers| ==> transfers[j].reference != reference
    {
      NewestSpec(transfers, reference);
      var out := Consult(reference);
      id := if out.Answer? then Newest(transfers, reference) else None;
    }

    /** A query that only reads, and may fail. */
    method RunQuery() returns (ok: bool)
      requires Valid()
      modifies this`clock
      ensures Valid() && State() == old(State()) && trail == old(trail) && origin == old(origin)
      ensures (ok <==> env.fault(old(clock)).None?) && clock == old(clock) + 1
      ensures Faultless(env) ==> ok
    {
      var out := Consult("");
      ok := out.Answer?;
    }

    /** The status as it stands now. */
    method ReadStatus(id: nat) returns (status: Option<Status>)
      requires Valid() && id < |transfers|
      modifies this`clock
      ensures Valid() && State() == old(State())
      ensures status.Some? ==> status.value == transfers[id].status
      ensures Faultless(env) ==> status.Some?
    {
      var out := Consult(transfers[id].reference);
      status := if out.Answer? then Some(transfers[id].status) else None;
    }

    /** A callback has looked its transfer up and decided on the status it saw. */
    ghost method Arrive(l: Label, id: nat)
      requires Valid() && Admissible(Honest(rail), State(), l) && id < |transfers|
      requires (l.Callback? || l.Requeue?) && Newest(transfers, l.reference) == Some(id)
      modifies this`acts, this`nextAct, this`trail
      ensures Valid() && Happened(l)
    {
      var s := State();
      acts, nextAct := Apply(cfg, s, l).acts, Apply(cfg, s, l).nextAct;
      Note(l, s);
    }

    // -------------------------------------------------------------- outbox rows

    /** Hides one due event behind a lease and hands it to a handler. */
    method ClaimEvent(e: nat)
      requires Valid() && e in outbox && IsLive(outbox[e])
      modifies this`acts, this`nextAct, this`trail
      ensures Valid() && Happened(Claim(e))
    {
      hide Healthy, Exec, Run, Good, PostLeg;
      ghost var s := State();
      acts, nextAct := Apply(cfg, s, Claim(e)).acts, nextAct + 1;
      Note(Claim(e), s);
    }

    method MarkPublished(ghost a: nat, e: nat)
      requires Valid() && a in acts && acts[a].pc == Done(true) && e in outbox
      requires acts[a].origin.Delivery? && acts[a].origin.event == e
      modifies this
      ensures Valid() && Happened(Finish(a, true))
      ensures outbox == old(outbox)[e := old(outbox)[e].(published := true)]
      ensures transfers == old(transfers) && ledger.Contents() == old(ledger.Contents())
    {
      hide Healthy, Exec, Run, Good, PostLeg;
      ghost var s := State();
      outbox := outbox[e := outbox[e].(published := true)];
      acts := acts - {a};
      Note(Finish(a, true), s);
    }

    /** Reschedules a failed event, or dead-letters it once the attempt cap is reached. */
    method Fail(ghost a: nat, e: nat, attempts: nat)
      requires Valid() && a in acts && acts[a].pc == Done(false) && e in outbox
      requires acts[a].origin.Delivery? && acts[a].origin.event == e && acts[a].origin.attempts == attempts
      modifies this
      ensures Valid() && Happened(Finish(a, true))
      ensures outbox.Keys == old(outbox).Keys && forall x :: x in outbox && x != e ==> outbox[x] == old(outbox)[x]
      ensures outbox[e].attempts == old(outbox)[e].attempts + 1
      ensures outbox[e].dead <==> old(outbox)[e].dead || attempts + 1 >= cfg.maxAttempts
      ensures outbox[e].published == old(outbox)[e].published
      ensures outbox[e].transfer == old(outbox)[e].transfer && outbox[e].kind == old(outbox)[e].kind
      ensures transfers == old(transfers) && ledger.Contents() == old(ledger.Contents())
    {
      hide Healthy, Exec, Run, Good, PostLeg;
      ghost var s := State();
      var next := attempts + 1;
      var row := outbox[e].(attempts := outbox[e].attempts + 1);
      if next >= cfg.maxAttempts { row := row.(dead := true); }
      outbox := outbox[e := row];
      acts := acts - {a};
      Note(Finish(a, true), s);
    }

    /** One row of the stuck query's answer. */
    method SweepRow(id: nat)
      requires Valid() && id < |transfers| && IsStuck(State(), id)
      modifies this`acts, this`nextAct, this`trail
      ensures Valid() && Happened(Sweep(id))
    {
      hide Healthy, Exec, Run, Good, PostLeg;
      ghost var s := State();
      acts, nextAct := Apply(cfg, s, Sweep(id)).acts, nextAct + 1;
      Note(Sweep(id), s);
    }

    /** Recovery's append, outside any status change. */
    method Reenqueue(ghost a: nat, id: nat, kind: EventKind) returns (ok: bool, ghost o: Outcome)
      requires Valid() && At(a, id, AppendEvent(kind))
      modifies this
      ensures o == Met(env, old(clock), old(transfers[id].reference)) && clock == old(clock) + 1
      ensures Valid() && Happened(Step(a, o)) && At(a, id, Done(ok))
      ensures Faultless(env) ==> o.Answer? && ok
    {
      hide Healthy, Exec, Run, Good, Apply, Admissible;
      ghost var s := State();
      var out := Consult(transfers[id].reference);
      o := out;
      AppendLabel(cfg, Honest(rail), s, a, kind, o);
      if Applied(out) { Append(id, kind); }
      acts := acts[a := acts[a].(pc := Done(out.Answer?))];
      Note(Step(a, o), s);
      ok := out.Answer?;
    }

    ghost method Leave(a: nat)
      requires Valid() && a in acts && acts[a].pc.Done? && acts[a].origin.Direct?
      modifies this`acts, this`trail
      ensures Valid() && Happened(Finish(a, true))
    {
      var s := State();
      acts := acts - {a};
      Note(Finish(a, true), s);
    }
  }

  ghost predicate AllSteps(ls: seq<Label>, a: nat) {
    forall i :: 0 <= i < |ls| ==> ls[i].Step? && ls[i].act == a
  }

  lemma LedgerIsSound(cfg: Config, rail: Rail, s: Sys)
    requires Good(cfg, rail, s)
    ensures Sound(s.book)
  {
  }

  /** A mark, as a label: always admissible, and the advance if it was applied. */
  lemma MarkLabel(cfg: Config, w: World, s: Sys, a: nat, to: Status, tx: Option<nat>, o: Outcome)
    requires a in s.acts && s.acts[a].transfer < |s.transfers| && SagaLocal.MarkTarget(s.acts[a].pc) == Some((to, tx))
    ensures Admissible(w, s, Step(a, o))
    ensures Apply(cfg, s, Step(a, o))
            == Goto(if Applied(o) then Saga.Advance(s, s.acts[a].transfer, to, tx) else s, a, Done(o.Answer?))
  {
    hide StepAct, Saga.Advance, Goto;
    StepActByTarget(cfg, s, a, o);
  }

  lemma AppendLabel(cfg: Config, w: World, s: Sys, a: nat, kind: EventKind, o: Outcome)
    requires a in s.acts && s.acts[a].transfer < |s.transfers| && s.acts[a].pc == AppendEvent(kind)
    ensures Admissible(w, s, Step(a, o))
    ensures Apply(cfg, s, Step(a, o))
            == Goto(if Applied(o) then Saga.Append(s, s.acts[a].transfer, kind) else s, a, Done(o.Answer?))
  {
    hide StepAct, Saga.Append, Goto;
    StepActByTarget(cfg, s, a, o);
  }

  lemma PostLabel(cfg: Config, w: World, s: Sys, a: nat, leg: Leg, parent: Option<nat>, o: Outcome)
    requires a in s.acts && s.acts[a].transfer < |s.transfers| && SagaLocal.PostTarget(s.acts[a].pc) == Some((leg, parent))
    ensures Admissible(w, s, Step(a, o))
    ensures var id := s.acts[a].transfer;
            var (b, r) := PostLeg(s.book, s.transfers[id], id, leg, parent);
            Apply(cfg, s, Step(a, o))
            == Goto(if Applied(o) then s.(book := b) else s, a, if o.Fault? then Done(false) else AfterPost(leg, r))
  {
    hide StepAct, PostLeg, Goto;
    StepActByTarget(cfg, s, a, o);
  }

  lemma AdvanceKeepsShape(s: Sys, id: nat, to: Status, tx: Option<nat>)
    requires id < |s.transfers|
    ensures var s' := Saga.Advance(s, id, to, tx);
            && |s'.transfers| == |s.transfers| && s'.acts == s.acts && s'.nextAct == s.nextAct && s'.sent == s.sent && s'.book == s.book
            && if CanTransition(s.transfers[id].status, to) then s'.transfers[id].status == to else s' == s
  {
  }
}
