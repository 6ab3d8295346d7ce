/** The recovery sweep, and how many rounds of sweep and drain finish every transfer. */
module Recovery {
  import opened Prelude
  import opened Ledger
  import LedgerProofs
  import opened LedgerService
  import opened StateMachine
  import opened Saga
  import SagaLocal
  import opened SagaInvariant
  import opened SagaSteps
  import opened SagaMoney
  import opened SagaLegs
  import opened LedgerHealth
  import opened SagaTheorems
  import opened SwitchStore
  import opened SwitchDriver
  import opened DrainProgress
  import opened DeliveryEffect
  import opened OutboxPoller

  /** No live event of any kind is left for the transfer. */
  predicate Silent(s: Sys, id: nat) {
    forall e :: e in s.outbox && s.outbox[e].transfer == id ==> !IsLive(s.outbox[e])
  }

  /** Appending the driving event puts its transfer on track and no other. */
  lemma AppendTracks(rail: Rail, s: Sys, id: nat, kind: EventKind, s': Sys)
    requires id < |s.transfers| && EventForStatus(s.transfers[id].status) == Some(kind) && EventsBelow(s)
    requires s'.transfers == s.transfers && s'.book == s.book
    requires s'.outbox == s.outbox[s.nextEvent := Event(id, kind, 0, false, false)] && s'.nextEvent == s.nextEvent + 1
    ensures EventsBelow(s')
    ensures forall i :: 0 <= i < |s.transfers| ==> (OnTrack(rail, s', i) <==> OnTrack(rail, s, i) || i == id)
  {
    forall i | 0 <= i < |s.transfers| ensures OnTrack(rail, s', i) <==> OnTrack(rail, s, i) || i == id {
      if Aligned(s, i) {
        var e :| e in s.outbox && Drives(s, i, e);
        assert Drives(s', i, e);
      }
      if i == id { assert Drives(s', id, s.nextEvent); }
      if Aligned(s', i) && i != id {
        var e :| e in s'.outbox && Drives(s', i, e);
        assert Drives(s, i, e);
      }
    }
  }

  lemma SameTracks(rail: Rail, s: Sys, s': Sys)
    requires s'.transfers == s.transfers && s'.outbox == s.outbox && s'.book == s.book
    ensures forall i :: 0 <= i < |s.transfers| ==> (OnTrack(rail, s', i) <==> OnTrack(rail, s, i))
  {
    forall i | 0 <= i < |s.transfers| ensures OnTrack(rail, s', i) <==> OnTrack(rail, s, i) {
      assert forall e :: Drives(s', i, e) <==> Drives(s, i, e);
    }
  }

  /** The transfers among the first n that the stuck query returns. */
  function StuckBelow(s: Sys, n: nat): seq<nat>
    requires n <= |s.transfers|
  {
    if n == 0 then [] else
    StuckBelow(s, n - 1) + (if IsStuck(s, n - 1) then [n - 1] else [])
  }

  lemma {:induction false} StuckBelowSpec(s: Sys, n: nat)
    requires n <= |s.transfers|
    ensures forall i: nat :: i in StuckBelow(s, n) <==> i < n && IsStuck(s, i)
  {
    if n > 0 { StuckBelowSpec(s, n - 1); }
  }

  class Recoverer {
    const sw: Switch

    constructor (sw: Switch)
      ensures this.sw == sw
    {
      this.sw := sw;
    }

    /** The stuck query: one snapshot. */
    method ListStuck() returns (rows: seq<nat>, ghost base: nat)
      requires sw.Valid()
      modifies sw
      ensures sw.Valid() && base == old(sw.nextAct) && sw.ledger.Contents() == old(sw.ledger.Contents())
      ensures sw.transfers == old(sw.transfers) && sw.outbox == old(sw.outbox) && sw.nextEvent == old(sw.nextEvent)
      ensures rows == StuckBelow(old(sw.State()), |sw.transfers|)
      ensures forall id: nat :: id in rows <==>
                && id < |sw.transfers| && sw.transfers[id].status in {Pending, Debited, InDoubt, ReversalPending}
                && forall e :: e in sw.outbox && sw.outbox[e].transfer == id ==> sw.outbox[e].published || sw.outbox[e].dead
      ensures forall j :: 0 <= j < |rows| ==> Appending(base + j, rows[j])
    {
      hide Good, Exec, Run, IsStuck;
      rows, base := [], sw.nextAct;
      ghost var s0 := sw.State();
      for id := 0 to |sw.transfers|
        invariant sw.Valid() && sw.nextAct == base + |rows|
        invariant sw.transfers == s0.transfers && sw.outbox == s0.outbox && sw.nextEvent == s0.nextEvent
        invariant sw.ledger.Contents() == s0.book
        invariant rows == StuckBelow(s0, id)
        invariant forall j :: 0 <= j < |rows| ==> Appending(base + j, rows[j])
      {
        SameStuck(s0, sw.State(), id);
        if NoLiveEvent(sw.outbox, id) && EventForStatus(sw.transfers[id].status).Some? {
          StuckMeans(sw.State(), id);
          SweepSpawns(id);
          sw.SweepRow(id);
          rows := rows + [id];
        } else {
          StuckMeans(sw.State(), id);
        }
      }
      StuckBelowSpec(s0, |s0.transfers|);
      forall id: nat | id < |s0.transfers|
        ensures IsStuck(s0, id) <==>
                  && s0.transfers[id].status in {Pending, Debited, InDoubt, ReversalPending}
                  && forall e :: e in s0.outbox && s0.outbox[e].transfer == id ==> s0.outbox[e].published || s0.outbox[e].dead
      {
        StuckMeans(s0, id);
      }
    }

    /** The activation is about to append the driving event of a stuck row. */
    ghost predicate Appending(a: nat, id: nat)
      reads sw
    {
      && a in sw.acts && id < |sw.transfers| && EventForStatus(sw.transfers[id].status).Some?
      && sw.acts[a] == Act(Direct, id, AppendEvent(EventForStatus(sw.transfers[id].status).value))
    }

    lemma SweepSpawns(id: nat)
      requires id < |sw.transfers| && IsStuck(sw.State(), id)
      ensures Apply(sw.cfg, sw.State(), Sweep(id))
           == Spawn(sw.State(), Act(Direct, id, AppendEvent(EventForStatus(sw.transfers[id].status).value)))
    {
    }

    /** Re-enqueues one stuck row's driving event; a failed append is logged and skipped. */
    method RecoverOne(ghost a: nat, id: nat) returns (ok: bool)
      requires sw.Valid() && Appending(a, id)
      modifies sw
      ensures sw.Valid() && sw.transfers == old(sw.transfers) && sw.ledger.Contents() == old(sw.ledger.Contents())
      ensures forall b, i :: b != a && old(Appending(b, i)) ==> Appending(b, i)
      ensures Faultless(sw.env) ==> ok
      ensures Faultless(sw.env) ==>
                sw.nextEvent == old(sw.nextEvent) + 1
                && sw.outbox == old(sw.outbox)[old(sw.nextEvent) :=
                                                 Event(id, EventForStatus(sw.transfers[id].status).value, 0, false, false)]
    {
      hide Good, Exec, Run;
      var kind := EventForStatus(sw.transfers[id].status).value;
      var done, o := sw.Reenqueue(a, id, kind);
      sw.Leave(a);
      ok := done;
    }

    /** Re-enqueues the driving event of every stuck transfer. Without faults, exactly the transfers
        with no live event at all get on track. */
    method Recover() returns (n: nat)
      requires sw.Valid()
      modifies sw
      ensures sw.Valid() && sw.transfers == old(sw.transfers) && sw.ledger.Contents() == old(sw.ledger.Contents())
      ensures n <= |sw.transfers|
      ensures Faultless(sw.env) ==>
                && n == |StuckBelow(old(sw.State()), |sw.transfers|)|
                && forall id :: 0 <= id < |sw.transfers| ==>
                     (OnTrack(sw.rail, sw.State(), id) <==> OnTrack(sw.rail, old(sw.State()), id) || Silent(old(sw.State()), id))
    {
      hide OnTrack, IsStuck, Switch.Valid, Append;
      ghost var s0 := sw.State();
      OutboxIsBelow();
      n := 0;
      var rows, base := ListStuck();
      SameTracks(sw.rail, s0, sw.State());
      StuckBelowSpec(s0, |s0.transfers|);
      StuckBelowCount(s0, |s0.transfers|);
      for j := 0 to |rows|
        invariant sw.Valid() && sw.transfers == s0.transfers && sw.ledger.Contents() == s0.book
        invariant n <= j && (Faultless(sw.env) ==> n == j && EventsBelow(sw.State()))
        invariant forall k :: j <= k < |rows| ==> Appending(base + k, rows[k])
        invariant Faultless(sw.env) ==> forall id :: 0 <= id < |s0.transfers| ==>
                    (OnTrack(sw.rail, sw.State(), id) <==> OnTrack(sw.rail, s0, id) || id in rows[..j])
      {
        ghost var s := sw.State();
        var ok := RecoverOne(base + j, rows[j]);
        if ok { n := n + 1; }
        if Faultless(sw.env) {
          AppendTracks(sw.rail, s, rows[j], EventForStatus(s.transfers[rows[j]].status).value, sw.State());
          assert rows[..j + 1] == rows[..j] + [rows[j]];
        }
      }
      assert rows[..|rows|] == rows;
      StuckOrFinished(sw.rail, s0);
    }

    lemma OutboxIsBelow()
      requires sw.Valid()
      ensures EventsBelow(sw.State())
    {
      sw.ValidIsGood();
      GoodBounds(sw.cfg, sw.rail, sw.State());
    }
  }

  predicate NoLiveEvent(outbox: map<nat, Event>, id: nat) {
    forall e :: e in outbox && outbox[e].transfer == id ==> !IsLive(outbox[e])
  }

  lemma StuckMeans(s: Sys, id: nat)
    requires id < |s.transfers|
    ensures IsStuck(s, id) <==> NoLiveEvent(s.outbox, id) && EventForStatus(s.transfers[id].status).Some?
  {
  }

  lemma SameStuck(s: Sys, s': Sys, id: nat)
    requires id < |s.transfers| && s'.transfers == s.transfers && s'.outbox == s.outbox
    ensures IsStuck(s', id) <==> IsStuck(s, id)
  {
  }

  lemma {:induction false} StuckBelowCount(s: Sys, n: nat)
    requires n <= |s.transfers|
    ensures |StuckBelow(s, n)| <= n
  {
    if n > 0 { StuckBelowCount(s, n - 1); }
  }

  /** Silent and unfinished is what stuck means. */
  lemma StuckOrFinished(rail: Rail, s: Sys)
    ensures forall id :: 0 <= id < |s.transfers| ==>
              (Silent(s, id) <==> IsStuck(s, id) || (Silent(s, id) && IsTerminal(s.transfers[id].status)))
    ensures forall id :: 0 <= id < |s.transfers| && IsTerminal(s.transfers[id].status) ==> OnTrack(rail, s, id)
  {
    forall id | 0 <= id < |s.transfers| ensures Silent(s, id) ==> IsStuck(s, id) || IsTerminal(s.transfers[id].status) {
      TerminalTable(s.transfers[id].status);
    }
  }

  // ---------------------------------------------------------------- rounds

  /** One round of recovery and drain, faults absent and everything due: a transfer ends up terminal, or
      blocked at a settle leg the ledger has no account for, exactly if it already was, or a live event
      was driving it, or no live event was left for it. A live event of another kind hides it from the
      stuck query, and it keeps its status. */
  method Round(recoverer: Recoverer, poller: Poller)
    requires recoverer.sw == poller.sw && poller.Configured() && poller.sw.Valid()
    requires Faultless(poller.sw.env) && AlwaysDue(poller.sw.env) && Healthy(poller.sw.State())
    modifies poller.sw, poller.sw.ledger
    ensures poller.sw.Valid() && Healthy(poller.sw.State())
    ensures |poller.sw.transfers| == |old(poller.sw.transfers)|
    ensures forall e :: e in poller.sw.outbox ==> !IsLive(poller.sw.outbox[e])
    ensures forall id :: 0 <= id < |poller.sw.transfers| ==>
              (IsTerminal(poller.sw.transfers[id].status) || Blocked(poller.sw.rail, poller.sw.State(), id)
               <==> OnTrack(poller.sw.rail, old(poller.sw.State()), id) || Silent(old(poller.sw.State()), id))
    ensures forall id :: 0 <= id < |poller.sw.transfers| ==>
              OnTrack(poller.sw.rail, old(poller.sw.State()), id) || Silent(old(poller.sw.State()), id)
              || poller.sw.transfers[id].status == old(poller.sw.transfers)[id].status
  {
    hide Switch.Valid, OnTrack, Silent, Healthy, Blocked;
    var sw := poller.sw;
    ghost var s0 := sw.State();
    var _ := recoverer.Recover();
    SameHealth(s0, sw.State());
    var _ := poller.Drain();
  }

  /** The rail has settled it, and the ledger took the debit but has no account to credit. */
  ghost predicate Unpayable(rail: Rail, s: Sys, id: nat)
    requires id < |s.transfers|
  {
    NowhereToSettle(rail, s, id) && LegAccepted(s.book.chart, s.transfers[id], DebitLeg)
  }

  /** Two rounds bring every transfer as far as it can come, whatever rows were lost or dead-lettered
      before: it is terminal if and only if it is payable or held for review, and one that is not has
      its amount, and nothing else, in suspense. */
  method TwoRounds(recoverer: Recoverer, poller: Poller)
    requires recoverer.sw == poller.sw && poller.Configured() && poller.sw.Valid()
    requires Faultless(poller.sw.env) && AlwaysDue(poller.sw.env) && Healthy(poller.sw.State())
    modifies poller.sw, poller.sw.ledger
    ensures poller.sw.Valid()
    ensures |poller.sw.transfers| == |old(poller.sw.transfers)|
    ensures forall id :: 0 <= id < |poller.sw.transfers| ==>
              (IsTerminal(poller.sw.transfers[id].status)
               <==> !Unpayable(poller.sw.rail, poller.sw.State(), id) || poller.sw.transfers[id].status == ManualReview)
    ensures forall id :: 0 <= id < |poller.sw.transfers| && !IsTerminal(poller.sw.transfers[id].status) ==>
              LegSet(poller.sw.ledger.journal, id) == {DebitLeg}
  {
    hide Switch.Valid, OnTrack, Healthy, Unpayable, Blocked, LegSet;
    Round(recoverer, poller);
    Round(recoverer, poller);
    var sw := poller.sw;
    sw.ValidIsGood();
    forall id | 0 <= id < |sw.transfers|
      ensures IsTerminal(sw.transfers[id].status) <==> !Unpayable(sw.rail, sw.State(), id) || sw.transfers[id].status == ManualReview
      ensures !IsTerminal(sw.transfers[id].status) ==> LegSet(sw.ledger.journal, id) == {DebitLeg}
    {
      FinishedOrUnpayable(sw.cfg, sw.rail, sw.State(), id);
    }
  }

  lemma FinishedOrUnpayable(cfg: Config, rail: Rail, s: Sys, id: nat)
    requires Good(cfg, rail, s) && id < |s.transfers|
    requires IsTerminal(s.transfers[id].status) || Blocked(rail, s, id)
    ensures IsTerminal(s.transfers[id].status) <==> !Unpayable(rail, s, id) || s.transfers[id].status == ManualReview
    ensures !IsTerminal(s.transfers[id].status) ==> LegSet(s.book.journal, id) == {DebitLeg}
  {
    hide Inv, Journaled, Money, LegSet, LegAccepted;
    BlockedForGood(cfg, rail, s, id);
    TerminalTable(s.transfers[id].status);
  }

  // ---------------------------------------------------------------- restarting

  /** A process that starts on whatever a crash left behind, in any state an honest run can reach, and
      runs two rounds, brings every transfer as far as it can come. */
  method Restart(cfg: Config, env: Environment, ledger: Service, transfers: seq<TransferRow>, outbox: map<nat, Event>,
                 nextEvent: nat, batch: nat, ghost nextAct: nat, ghost sent: set<nat>, ghost rail: Rail)
      returns (sw: Switch)
    requires TellsTruth(env, rail) && Faultless(env) && AlwaysDue(env) && cfg.maxAttempts >= 1 && batch >= 1
    requires Reachable(cfg, Honest(rail), Sys(transfers, outbox, nextEvent, ledger.Contents(), map[], nextAct, sent))
    requires 2 * Amounts(transfers) < TWO63
    modifies ledger
    ensures sw.Valid() && sw.ledger == ledger && |sw.transfers| == |transfers|
    ensures forall id :: 0 <= id < |transfers| ==>
              (IsTerminal(sw.transfers[id].status)
               <==> !Unpayable(rail, sw.State(), id) || sw.transfers[id].status == ManualReview)
    ensures forall id :: 0 <= id < |transfers| && !IsTerminal(sw.transfers[id].status) ==>
              LegSet(ledger.journal, id) == {DebitLeg}
  {
    hide Reachable, Good, Unpayable, LegSet, Switch.Valid;
    ReachableIsGood(cfg, Honest(rail), Sys(transfers, outbox, nextEvent, ledger.Contents(), map[], nextAct, sent));
    GoodParts(cfg, rail, Sys(transfers, outbox, nextEvent, ledger.Contents(), map[], nextAct, sent));
    sw := new Switch.Resume(cfg, env, ledger, transfers, outbox, nextEvent, nextAct, sent, rail);
    var recoverer := new Recoverer(sw);
    var poller := new Poller(sw, batch);
    TwoRounds(recoverer, poller);
  }

  lemma GoodParts(cfg: Config, rail: Rail, s: Sys)
    requires Inv(cfg, Honest(rail), s) && Money(s) && Journaled(s)
    ensures Good(cfg, rail, s)
  {
  }

  // ---------------------------------------------------------------- why one round may not do

  /** What is left when a transfer was created and debited inline, and then the event of its new status
      was lost, and the process with its handlers: only the first, outdated event is live. */
  function Overtaken(s: Sys, l: Label): Sys
    requires l.Create?
  {
    var id := |s.transfers|;
    var row := TransferRow(l.reference, l.source, l.destination, l.amount, l.currency, Pending, None);
    var (b, r) := PostLeg(s.book, row, id, DebitLeg, None);
    s.(transfers := s.transfers + [row.(status := Debited, debitLegTx := if r.Posted? then Some(r.id) else None)],
       outbox := s.outbox[s.nextEvent := Event(id, DebitRequested, 0, false, false)],
       nextEvent := s.nextEvent + 2, book := b, acts := s.acts - {s.nextAct}, nextAct := s.nextAct + 1)
  }

  function DebitOf(s: Sys, l: Label): PostResult
    requires l.Create?
  {
    PostLeg(s.book, TransferRow(l.reference, l.source, l.destination, l.amount, l.currency, Pending, None),
            |s.transfers|, DebitLeg, None).1
  }

  lemma OvertakenIsReachable(cfg: Config, w: World, s: Sys, l: Label)
    requires Reachable(cfg, w, s) && l.Create? && ValidRequest(l) && Admissible(w, s, l) && DebitOf(s, l).Posted?
    ensures Reachable(cfg, w, Overtaken(s, l))
  {
    hide PostLeg, Reachable;
    assert s.nextEvent + 1 !in s.outbox by {
      ReachableIsGood(cfg, w, s);
      EventsAreBelow(cfg, w, s);
    }
    var id, a, step := |s.transfers|, s.nextAct, Step(s.nextAct, Answer(Unknown));
    ReachableStep(cfg, w, s, l);
    var s1 := Apply(cfg, s, l);
    ReachableStep(cfg, w, s1, step);
    var s2 := Goto(s1, a, PostDebit);
    assert Apply(cfg, s1, step) == s2;
    ReachableStep(cfg, w, s2, step);
    var (b, r) := PostLeg(s2.book, s2.transfers[id], id, DebitLeg, None);
    var s3 := Goto(s2.(book := b), a, MarkDebited(r.id));
    assert Apply(cfg, s2, step) == s3;
    ReachableStep(cfg, w, s3, step);
    LosesItsEvent(cfg, w, s, s3, l, a, r.id);
  }

  lemma LosesItsEvent(cfg: Config, w: World, s: Sys, s3: Sys, l: Label, a: nat, tx: nat)
    requires l.Create? && DebitOf(s, l) == Posted(tx) && a == s.nextAct
    requires var row := TransferRow(l.reference, l.source, l.destination, l.amount, l.currency, Pending, None);
             s3 == Sys(s.transfers + [row], s.outbox[s.nextEvent := Event(|s.transfers|, DebitRequested, 0, false, false)],
                       s.nextEvent + 1, PostLeg(s.book, row, |s.transfers|, DebitLeg, None).0,
                       s.acts[a := Act(Direct, |s.transfers|, MarkDebited(tx))], s.nextAct + 1, s.sent)
    requires Reachable(cfg, w, Apply(cfg, s3, Step(a, Answer(Unknown)))) && s.nextEvent + 1 !in s.outbox
    ensures Reachable(cfg, w, Overtaken(s, l))
  {
    hide PostLeg, Reachable;
    EdgeTable(Pending, Debited);
    var s4 := Apply(cfg, s3, Step(a, Answer(Unknown)));
    ReachableStep(cfg, w, s4, Lose(s.nextEvent + 1));
    var s5 := Apply(cfg, s4, Lose(s.nextEvent + 1));
    ReachableStep(cfg, w, s5, Drop(a));
    assert s5.outbox == Overtaken(s, l).outbox;
    assert s5.acts - {a} == Overtaken(s, l).acts;
    assert Apply(cfg, s5, Drop(a)) == Overtaken(s, l);
  }

  lemma FirstDebitIsTaken(chart: map<string, AccountType>, l: Label)
    requires l.Create? && ValidRequest(l) && l.source in chart && SETTLEMENT in chart
    ensures DebitOf(Start(chart), l).Posted?
  {
    hide PostLeg, SumsFit, Touched;
    var row := TransferRow(l.reference, l.source, l.destination, l.amount, l.currency, Pending, None);
    var p := Record(LegRequest(row, 0, DebitLeg, None));
    assert [] + [p] == [p];
    forall c ensures SumsFit([] + [p], c) { LoneLegFits(row, DebitLeg, c); }
    LegIsPosted(Start(chart).book, row, 0, DebitLeg, None);
  }

  /** Why one round may not do. From an empty database, with every account there and an honest rail, a
      state is reached in which a debited transfer is neither driven nor returned by the stuck query. */
  lemma OneRoundIsNotEnough(cfg: Config, rail: Rail, chart: map<string, AccountType>, l: Label)
    requires l.Create? && ValidRequest(l) && l.source != SETTLEMENT && l.destination != SETTLEMENT
    requires l.source in chart && l.destination in chart && SETTLEMENT in chart
    ensures var s := Overtaken(Start(chart), l);
            && Reachable(cfg, Honest(rail), s)
            && s.transfers[0].status == Debited && !OnTrack(rail, s, 0) && !Silent(s, 0)
  {
    hide PostLeg, Reachable;
    assert Reachable(cfg, Honest(rail), Start(chart)) by { StartIsReachable(cfg, Honest(rail), chart); }
    FirstDebitIsTaken(chart, l);
    OvertakenIsReachable(cfg, Honest(rail), Start(chart), l);
    var s := Overtaken(Start(chart), l);
    BookKeepsChart(Start(chart), l);
    assert 0 in s.outbox && IsLive(s.outbox[0]);
    forall e | e in s.outbox ensures !Drives(s, 0, e) {
    }
  }

  lemma BookKeepsChart(s: Sys, l: Label)
    requires l.Create?
    ensures Overtaken(s, l).book.chart == s.book.chart
  {
    hide PostLeg;
    LegKeepsChart(s.book, TransferRow(l.reference, l.source, l.destination, l.amount, l.currency, Pending, None),
                  |s.transfers|, DebitLeg, None);
  }

  /** The tables of that state, as a process would find them. */
  method TablesLeft(chart: map<string, AccountType>, reference: string, source: string, destination: string,
                    amount: int64)
      returns (ledger: Service, rows: seq<TransferRow>, outbox: map<nat, Event>)
    requires ValidRequest(Create(reference, source, destination, amount, NGN)) && source != SETTLEMENT && destination != SETTLEMENT
    requires source in chart && destination in chart && SETTLEMENT in chart
    ensures fresh(ledger)
    ensures Sys(rows, outbox, 2, ledger.Contents(), map[], 1, {}) == Overtaken(Start(chart), Create(reference, source, destination, amount, NGN))
    ensures |rows| == 1 && Amounts(rows) == amount
  {
    hide Reachable, PostLeg, Sound, OnTrack, Silent;
    ghost var l := Create(reference, source, destination, amount, NGN);
    FirstDebitIsTaken(chart, l);
    ledger := new Service(chart);
    var row := TransferRow(reference, source, destination, amount, NGN, Pending, None);
    var posted := ledger.PostTransaction(LegRequest(row, 0, DebitLeg, None), 0);
    FirstPost(chart, row, ledger.Contents(), posted);
    rows := [row.(status := Debited, debitLegTx := Some(posted.id))];
    outbox := map[0 := Event(0, DebitRequested, 0, false, false)];
    ghost var s := Overtaken(Start(chart), l);
    assert s.outbox == outbox && s.acts == map[] && s.transfers == rows;
    assert rows[..0] == [];
  }

  /** The same seen from the process: it restarts in that state, runs a round without a fault, and the
      transfer is still only debited. */
  method OneRoundFallsShort(cfg: Config, env: Environment, chart: map<string, AccountType>, reference: string, source: string,
                            destination: string, amount: int64, batch: nat, ghost rail: Rail)
      returns (sw: Switch)
    requires TellsTruth(env, rail) && Faultless(env) && AlwaysDue(env) && cfg.maxAttempts >= 1 && batch >= 1
    requires ValidRequest(Create(reference, source, destination, amount, NGN)) && source != SETTLEMENT && destination != SETTLEMENT
    requires source in chart && destination in chart && SETTLEMENT in chart && 2 * amount < TWO63
    ensures sw.Valid() && |sw.transfers| == 1 && sw.transfers[0].status == Debited
  {
    hide Reachable, Good, Switch.Valid, PostLeg, OnTrack, Silent, Inv, Journaled, Money, Overtaken;
    ghost var s := Overtaken(Start(chart), Create(reference, source, destination, amount, NGN));
    OneRoundIsNotEnough(cfg, rail, chart, Create(reference, source, destination, amount, NGN));
    ReachableIsGood(cfg, Honest(rail), s);
    GoodParts(cfg, rail, s);
    var ledger, rows, outbox := TablesLeft(chart, reference, source, destination, amount);
    sw := new Switch.Resume(cfg, env, ledger, rows, outbox, 2, 1, {}, rail);
    var recoverer := new Recoverer(sw);
    var poller := new Poller(sw, batch);
    Round(recoverer, poller);
  }

  lemma FirstPost(chart: map<string, AccountType>, row: TransferRow, b: Book, r: PostResult)
    requires (b, r) == Post(LedgerProofs.Opening(chart), LegRequest(row, 0, DebitLeg, None), 0)
    ensures (b, r) == PostLeg(Start(chart).book, row, 0, DebitLeg, None)
  {
  }
}
