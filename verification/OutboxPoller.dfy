/** The outbox poller: claim a batch, deliver each event, keep the books; drain until nothing is due. */
module OutboxPoller {
  import opened Prelude
  import opened Ledger
  import opened StateMachine
  import opened Saga
  import SagaLocal
  import opened SagaInvariant
  import opened SagaSteps
  import opened SagaMoney
  import opened LedgerHealth
  import opened SwitchStore
  import opened SwitchDriver
  import opened DrainProgress
  import opened DeliveryEffect

  // ---------------------------------------------------------------- lemmas about one delivery

  /** A claim starts one delivery and leaves those under way alone. */
  lemma ClaimDelivers(cfg: Config, s: Sys, e: nat)
    requires e in s.outbox && IsLive(s.outbox[e])
    ensures var s' := Apply(cfg, s, Claim(e));
            && s'.transfers == s.transfers && s'.outbox == s.outbox && s'.nextEvent == s.nextEvent && s'.book == s.book
            && s'.nextAct == s.nextAct + 1 && Delivering(s', s.nextAct, e)
            && (forall b: nat, q :: b < s.nextAct && Delivering(s, b, q) ==> Delivering(s', b, q))
  {
  }

  lemma TracksTrans(rail: Rail, s: Sys, s1: Sys, s2: Sys)
    requires TracksKept(rail, s, s1) && TracksKept(rail, s1, s2)
    ensures TracksKept(rail, s, s2)
  {
    hide OnTrack;
  }

  lemma SameHealth(s: Sys, s': Sys)
    requires Healthy(s) && s'.transfers == s.transfers && s'.book == s.book
    ensures Healthy(s')
  {
  }

  /** Another claimed event is still as it was claimed after this one has been delivered. */
  lemma StillDelivering(cfg: Config, s: Sys, s1: Sys, a: nat, r: nat, b: nat, q: nat)
    requires HandlerFrame(cfg, s, s1, a) && Delivering(s, a, r) && Delivering(s, b, q) && a != b && r != q
    requires s1.acts[a].pc.Done? && EventsBelow(s)
    ensures Delivering(FinishAct(cfg, s1, a, true), b, q)
  {
    hide WorkLeft;
  }

  /** What DeliverOne needs to know once its handler has returned. */
  lemma HandlerReturned(cfg: Config, rail: Rail, s: Sys, ls: seq<Label>, a: nat, r: nat)
    requires Good(cfg, rail, s) && Run(cfg, Honest(rail), s, ls) && AllSteps(ls, a) && cfg.maxAttempts >= 1
    requires Delivering(s, a, r)
    ensures var s1 := Exec(cfg, s, ls);
            && HandlerFrame(cfg, s, s1, a) && EventsBelow(s) && r < s.nextEvent
            && (forall e :: e in s.outbox ==> e in s1.outbox && s1.outbox[e] == s.outbox[e])
            && s1.acts[a].origin == s.acts[a].origin
            && s1.acts[a].transfer == s.acts[a].transfer == s.outbox[r].transfer < |s1.transfers|
  {
    hide Run, Exec, WorkLeft, Views, Acts, Events, NoStrayLegs, Refs, Money, Journaled;
    HandlerRun(cfg, Honest(rail), s, ls, a);
    EventsAreBelow(cfg, Honest(rail), s);
  }

  lemma DeliveredMeasure(cfg: Config, s: Sys, s1: Sys, a: nat, r: nat)
    requires HandlerFrame(cfg, s, s1, a) && Delivering(s, a, r) && EventsBelow(s) && s1.acts[a].pc.Done?
    ensures WorkLeft(cfg, FinishAct(cfg, s1, a, true)) < WorkLeft(cfg, s)
  {
    hide WorkLeft, FinishAct;
    FinishLowersMeasure(cfg, s1, a, r);
  }

  /** Neither published nor dead-lettered, and due at the given call. */
  ghost predicate Deliverable(outbox: map<nat, Event>, env: Environment, now: nat, e: nat) {
    e in outbox && !outbox[e].published && !outbox[e].dead && env.due(now, e)
  }

  /** The oldest of the deliverable events below a bound, as many as a batch holds. */
  ghost predicate OldestOf(outbox: map<nat, Event>, env: Environment, batch: nat, now: nat, bound: nat, rows: seq<nat>) {
    && |rows| <= batch
    && (forall i, j :: 0 <= i < j < |rows| ==> rows[i] < rows[j])
    && (forall j :: 0 <= j < |rows| ==> rows[j] < bound && Deliverable(outbox, env, now, rows[j]))
    && (forall x: nat :: x < bound && Deliverable(outbox, env, now, x) && x !in rows ==>
          |rows| == batch && forall j :: 0 <= j < |rows| ==> rows[j] < x)
  }

  lemma NothingYet(outbox: map<nat, Event>, env: Environment, batch: nat, now: nat)
    ensures OldestOf(outbox, env, batch, now, 0, [])
  {
  }

  lemma OldestGrows(outbox: map<nat, Event>, env: Environment, batch: nat, now: nat, e: nat, rows: seq<nat>)
    requires OldestOf(outbox, env, batch, now, e, rows)
    ensures OldestOf(outbox, env, batch, now, e + 1,
                     if |rows| < batch && Deliverable(outbox, env, now, e) then rows + [e] else rows)
  {
    hide Deliverable;
    assert forall x :: x in rows ==> x in rows + [e];
  }

  /** Published, or one attempt more. */
  predicate Recorded(was: Event, now: Event) {
    now == was.(published := true) || now == was.(attempts := was.attempts + 1, dead := now.dead)
  }

  /** Each of the rows has its delivery recorded, and no other event of before is changed. */
  ghost predicate Handled(before: map<nat, Event>, after: map<nat, Event>, rows: seq<nat>) {
    forall e :: e in before ==>
      e in after && if e in rows then Recorded(before[e], after[e]) else after[e] == before[e]
  }

  lemma OldestAscend(outbox: map<nat, Event>, env: Environment, batch: nat, now: nat, bound: nat, rows: seq<nat>)
    requires OldestOf(outbox, env, batch, now, bound, rows)
    ensures forall i, j :: 0 <= i < j < |rows| ==> rows[i] < rows[j]
  {
  }

  lemma HandledNone(outbox: map<nat, Event>, rows: seq<nat>)
    ensures Handled(outbox, outbox, rows[..0])
  {
  }

  lemma HandledGrows(env: Environment, batch: nat, now: nat, bound: nat, rows: seq<nat>, i: nat,
                     before: map<nat, Event>, was: map<nat, Event>, after: map<nat, Event>)
    requires OldestOf(before, env, batch, now, bound, rows) && i < |rows| && Handled(before, was, rows[..i])
    requires rows[i] in was && rows[i] in after && Recorded(was[rows[i]], after[rows[i]])
    requires forall e :: e in was && e != rows[i] ==> e in after && after[e] == was[e]
    ensures Handled(before, after, rows[..i + 1])
  {
    assert rows[..i + 1] == rows[..i] + [rows[i]];
    assert rows[i] !in rows[..i];
  }

  class Poller {
    const sw: Switch
    const driver: Driver
    const batch: nat

    constructor (sw: Switch, batch: nat)
      requires batch >= 1
      ensures Configured() == (sw.cfg.maxAttempts >= 1) && this.sw == sw && this.batch == batch
    {
      this.sw, this.batch := sw, batch;
      driver := new Driver(sw);
    }

    predicate Configured() { driver.sw == sw && batch >= 1 && sw.cfg.maxAttempts >= 1 }

    /** Claims up to a batch of the due events, oldest first; one is left out only for want of room. */
    method Claim() returns (rows: seq<nat>, ghost base: nat)
      requires Configured() && sw.Valid()
      modifies sw
      ensures sw.Valid() && base == old(sw.nextAct)
      ensures sw.origin == old(sw.origin) && old(sw.trail) <= sw.trail
      ensures sw.transfers == old(sw.transfers) && sw.outbox == old(sw.outbox) && sw.nextEvent == old(sw.nextEvent)
      ensures forall j :: 0 <= j < |rows| ==> Delivering(sw.State(), base + j, rows[j])
      ensures OldestOf(sw.outbox, sw.env, batch, old(sw.clock), sw.nextEvent, rows)
      ensures AlwaysDue(sw.env) && rows == [] ==> forall e :: e in sw.outbox ==> !IsLive(sw.outbox[e])
    {
      hide Good, Exec, Run, Apply, Delivering, Switch.Valid, OldestOf;
      rows, base := [], sw.nextAct;
      assert OldestOf(sw.outbox, sw.env, batch, sw.clock, 0, []) by { NothingYet(sw.outbox, sw.env, batch, sw.clock); }
      sw.ValidIsGood();
      GoodBounds(sw.cfg, sw.rail, sw.State());
      for e := 0 to sw.nextEvent
        invariant sw.Valid() && sw.nextAct == base + |rows|
        invariant sw.origin == old(sw.origin) && old(sw.trail) <= sw.trail
        invariant sw.transfers == old(sw.transfers) && sw.outbox == old(sw.outbox) && sw.nextEvent == old(sw.nextEvent)
        invariant sw.ledger.Contents() == old(sw.ledger.Contents()) && sw.clock == old(sw.clock)
        invariant OldestOf(sw.outbox, sw.env, batch, sw.clock, e, rows)
        invariant forall j :: 0 <= j < |rows| ==> Delivering(sw.State(), base + j, rows[j])
        invariant AlwaysDue(sw.env) && rows == [] ==> forall x: nat :: x < e && x in sw.outbox ==> !IsLive(sw.outbox[x])
      {
        OldestGrows(sw.outbox, sw.env, batch, sw.clock, e, rows);
        if |rows| < batch && e in sw.outbox && IsLive(sw.outbox[e]) && sw.env.due(sw.clock, e) {
          ClaimDelivers(sw.cfg, sw.State(), e);
          sw.ClaimEvent(e);
          rows := rows + [e];
        }
      }
    }

    /** Delivers one claimed event and records how it went: published, or one more attempt and perhaps the
        last. Without faults only a transfer with nowhere to settle fails. */
    method DeliverOne(ghost a: nat, r: nat) returns (ok: bool)
      requires Configured() && sw.Valid() && Delivering(sw.State(), a, r)
      modifies sw, sw.ledger
      ensures sw.Valid() && sw.origin == old(sw.origin) && old(sw.trail) <= sw.trail
      ensures r in old(sw.outbox) && r in sw.outbox
      ensures var e := old(sw.outbox)[r];
              sw.outbox[r] == if ok then e.(published := true)
                              else e.(attempts := e.attempts + 1, dead := e.dead || e.attempts + 1 >= sw.cfg.maxAttempts)
      ensures forall e :: e in old(sw.outbox) && e != r ==> e in sw.outbox && sw.outbox[e] == old(sw.outbox)[e]
      ensures Faultless(sw.env) && Healthy(old(sw.State())) ==> ok || driver.IsBlocked(sw.outbox[r].transfer)
      ensures WorkLeft(sw.cfg, sw.State()) < WorkLeft(sw.cfg, old(sw.State()))
      ensures forall b, q :: b != a && q != r && Delivering(old(sw.State()), b, q) ==> Delivering(sw.State(), b, q)
      ensures Faultless(sw.env) && Healthy(old(sw.State())) ==> Healthy(sw.State()) && TracksKept(sw.rail, old(sw.State()), sw.State())
    {
      hide Good, Exec, Run, Healthy, WorkLeft, TracksKept, HandlerFrame, FinishAct, Blocked;
      sw.ValidIsGood();
      ghost var s, before := sw.State(), sw.trail;
      var evt := sw.outbox[r];
      GoodBounds(sw.cfg, sw.rail, s);
      ghost var ls;
      ok, ls := driver.Handle(a, evt.transfer, evt.kind);
      ExecSplit(sw.cfg, Honest(sw.rail), sw.origin, before, ls);
      ghost var s1 := sw.State();
      HandlerReturned(sw.cfg, sw.rail, s, ls, a, r);
      Delivered(s, ls, a, r, ok);
      if !ok && driver.IsBlocked(evt.transfer) { driver.BlockedHere(evt.transfer); }
      if ok {
        sw.MarkPublished(a, r);
      } else {
        sw.Fail(a, r, evt.attempts);
      }
    }

    /** Everything DeliverOne promises, of the state its bookkeeping is about to produce. */
    lemma Delivered(s: Sys, ls: seq<Label>, a: nat, r: nat, ok: bool)
      requires Configured() && Good(sw.cfg, sw.rail, s) && Run(sw.cfg, Honest(sw.rail), s, ls) && AllSteps(ls, a)
      requires Delivering(s, a, r) && r in s.outbox
      requires var s1 := Exec(sw.cfg, s, ls); a in s1.acts && s1.acts[a].pc == Done(ok)
      ensures var s1, id := Exec(sw.cfg, s, ls), s.outbox[r].transfer;
              var s2 := FinishAct(sw.cfg, s1, a, true);
              && WorkLeft(sw.cfg, s2) < WorkLeft(sw.cfg, s)
              && (forall b, q :: b != a && q != r && Delivering(s, b, q) ==> Delivering(s2, b, q))
              && (ok || (id < |s1.transfers| && Blocked(sw.rail, s1, id)) ==> TracksKept(sw.rail, s, s2))
              && (Healthy(s) ==> Healthy(s2))
    {
      hide Inv, Money, Journaled, Exec, Run, Healthy, WorkLeft, TracksKept, HandlerFrame, FinishAct, Delivering, Blocked;
      var s1 := Exec(sw.cfg, s, ls);
      HandlerReturned(sw.cfg, sw.rail, s, ls, a, r);
      DeliveredMeasure(sw.cfg, s, s1, a, r);
      forall b, q | b != a && q != r && Delivering(s, b, q) ensures Delivering(FinishAct(sw.cfg, s1, a, true), b, q) {
        StillDelivering(sw.cfg, s, s1, a, r, b, q);
      }
      if ok || Blocked(sw.rail, s1, s.outbox[r].transfer) {
        DeliveryKeepsTracks(sw.cfg, sw.rail, s, ls, a, r, ok);
      }
      if Healthy(s) {
        StepsKeepFixed(sw.cfg, s, ls);
        FixedKeepsHealth(s, s1);
        FinishShape(sw.cfg, s1, a, true);
        SameHealth(s1, FinishAct(sw.cfg, s1, a, true));
      }
    }

    /** One batch, unless the claim fails: every event of it is delivered, and no other. Each delivery lowers
        the work left, whatever the handlers do. */
    method Tick() returns (n: nat, claimed: bool, ghost rows: seq<nat>)
      requires Configured() && sw.Valid()
      modifies sw, sw.ledger
      ensures sw.Valid() && sw.origin == old(sw.origin) && old(sw.trail) <= sw.trail
      ensures claimed ==>
                && n == |rows| && OldestOf(old(sw.outbox), sw.env, batch, old(sw.clock) + 1, old(sw.nextEvent), rows)
                && Handled(old(sw.outbox), sw.outbox, rows)
      ensures WorkLeft(sw.cfg, sw.State()) + n <= WorkLeft(sw.cfg, old(sw.State()))
      ensures Faultless(sw.env) && Healthy(old(sw.State())) ==> Healthy(sw.State()) && TracksKept(sw.rail, old(sw.State()), sw.State())
      ensures Faultless(sw.env) ==> claimed
      ensures !claimed ==> n == 0 && sw.State() == old(sw.State())
      ensures AlwaysDue(sw.env) && claimed && n == 0 ==> forall e :: e in sw.outbox ==> !IsLive(sw.outbox[e])
    {
      hide Healthy, TracksKept, Switch.Valid, Handled, WorkLeft, OldestOf, Delivering, Deliverable;
      ghost var s0 := sw.State();
      ClaimedAlike(s0, s0);
      claimed := sw.RunQuery();
      if !claimed { return 0, false, []; }
      var claims, base := Claim();
      rows := claims;
      HandledNone(s0.outbox, rows);
      OldestAscend(s0.outbox, sw.env, batch, old(sw.clock) + 1, s0.nextEvent, rows);
      ClaimedAlike(s0, sw.State());
      for i := 0 to |claims|
        invariant sw.Valid() && sw.origin == old(sw.origin) && old(sw.trail) <= sw.trail
        invariant Handled(s0.outbox, sw.outbox, rows[..i])
        invariant forall j :: i <= j < |rows| ==> Delivering(sw.State(), base + j, rows[j])
        invariant WorkLeft(sw.cfg, sw.State()) + i <= WorkLeft(sw.cfg, s0)
        invariant Faultless(sw.env) && Healthy(s0) ==> Healthy(sw.State()) && TracksKept(sw.rail, s0, sw.State())
        invariant i == 0 ==> sw.outbox == s0.outbox
      {
        ghost var s := sw.State();
        var _ := DeliverOne(base + i, claims[i]);
        HandledGrows(sw.env, batch, old(sw.clock) + 1, s0.nextEvent, rows, i, s0.outbox, s.outbox, sw.outbox);
        if Faultless(sw.env) && Healthy(s0) { TracksTrans(sw.rail, s0, s, sw.State()); }
      }
      assert rows[..|rows|] == rows;
      n := |claims|;
    }

    lemma ClaimedAlike(s: Sys, s': Sys)
      requires s'.transfers == s.transfers && s'.outbox == s.outbox && s'.nextEvent == s.nextEvent && s'.book == s.book
      ensures WorkLeft(sw.cfg, s') == WorkLeft(sw.cfg, s)
      ensures Healthy(s) ==> Healthy(s')
      ensures TracksKept(sw.rail, s, s')
    {
      forall id | 0 <= id < |s.transfers| ensures OnTrack(sw.rail, s', id) <==> OnTrack(sw.rail, s, id) {
        assert forall e :: Drives(s', id, e) <==> Drives(s, id, e);
      }
    }

    /** Terminates for every environment, and fails only if a claim does. Without faults it leaves no live
        event; finished, or blocked at a settle leg the ledger has no account for, are then exactly the
        transfers that were so or that a live event was driving, and every other transfer is where it was. */
    method Drain() returns (ok: bool)
      requires Configured() && sw.Valid()
      modifies sw, sw.ledger
      ensures sw.Valid() && sw.origin == old(sw.origin) && old(sw.trail) <= sw.trail
      ensures WorkLeft(sw.cfg, sw.State()) <= WorkLeft(sw.cfg, old(sw.State()))
      ensures Faultless(sw.env) ==> ok
      ensures AlwaysDue(sw.env) && ok ==> forall e :: e in sw.outbox ==> !IsLive(sw.outbox[e])
      ensures AlwaysDue(sw.env) && Faultless(sw.env) && Healthy(old(sw.State())) ==>
                && Healthy(sw.State())
                && |sw.transfers| == |old(sw.transfers)|
                && (forall id :: 0 <= id < |sw.transfers| ==>
                      (IsTerminal(sw.transfers[id].status) || Blocked(sw.rail, sw.State(), id)
                       <==> OnTrack(sw.rail, old(sw.State()), id)))
                && (forall id :: 0 <= id < |sw.transfers| && !OnTrack(sw.rail, old(sw.State()), id) ==>
                      sw.transfers[id].status == old(sw.transfers)[id].status)
    {
      hide Healthy, Switch.Valid, WorkLeft, OnTrack, Blocked;
      ghost var s0 := sw.State();
      ClaimedAlike(s0, s0);
      while true
        invariant sw.Valid() && sw.origin == old(sw.origin) && old(sw.trail) <= sw.trail
        invariant WorkLeft(sw.cfg, sw.State()) <= WorkLeft(sw.cfg, s0)
        invariant Faultless(sw.env) && Healthy(s0) ==> Healthy(sw.State()) && TracksKept(sw.rail, s0, sw.State())
        decreases WorkLeft(sw.cfg, sw.State())
      {
        ghost var s := sw.State();
        var n, claimed, _ := Tick();
        if Faultless(sw.env) && Healthy(s0) { TracksTrans(sw.rail, s0, s, sw.State()); }
        if !claimed { return false; }
        if n == 0 { break; }
      }
      NothingLiveMeansDone();
      ok := true;
    }

    lemma NothingLiveMeansDone()
      ensures (forall e :: e in sw.outbox ==> !IsLive(sw.outbox[e])) ==>
                forall id :: 0 <= id < |sw.transfers| ==>
                  (OnTrack(sw.rail, sw.State(), id) <==> IsTerminal(sw.transfers[id].status) || Blocked(sw.rail, sw.State(), id))
    {
    }
  }

  lemma GoodBounds(cfg: Config, rail: Rail, s: Sys)
    requires Good(cfg, rail, s)
    ensures forall e :: e in s.outbox ==> e < s.nextEvent && s.outbox[e].transfer < |s.transfers|
    ensures forall a :: a in s.acts ==> a < s.nextAct && s.acts[a].transfer < |s.transfers|
  {
  }
}
