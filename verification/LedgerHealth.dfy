/** When the ledger takes every leg the saga asks it to post. */
module LedgerHealth {
  import opened Prelude
  import opened Ledger
  import opened LedgerProofs
  import opened StateMachine
  import opened Saga
  import opened SagaLocal
  import opened SagaLegs
  import opened SagaInvariant
  import opened SagaSteps
  import opened SagaMoney

  /** The two legs each transfer may come to have fit a BIGINT sum, over all transfers. */
  predicate Healthy(s: Sys) { 2 * Amounts(s.transfers) < TWO63 }

  /** The rail settled what the ledger cannot: there is no account to credit. */
  ghost predicate NowhereToSettle(rail: Rail, s: Sys, id: nat)
    requires id < |s.transfers|
  {
    s.transfers[id].destination !in s.book.chart && rail.settles(s.transfers[id].reference)
  }

  /** The transfer waits for a settle leg that the ledger refuses for ever. */
  ghost predicate Blocked(rail: Rail, s: Sys, id: nat)
    requires id < |s.transfers|
  {
    NowhereToSettle(rail, s, id) && (s.transfers[id].status == Debited || s.transfers[id].status == InDoubt)
  }

  lemma {:induction false} AccountWithinSide(js: seq<Posting>, code: string, d: Direction)
    requires forall i, e :: 0 <= i < |js| && e in js[i].entries ==> e.amount > 0
    ensures 0 <= AccountSide(js, code, d) <= JournalSide(js, d)
  {
    if js != [] {
      AccountWithinSide(js[..|js|-1], code, d);
      PartWithinSide(js[|js|-1].entries, code, d);
    }
  }

  lemma {:induction false} PartWithinSide(es: seq<Entry>, code: string, d: Direction)
    requires forall e :: e in es ==> e.amount > 0
    ensures 0 <= SideAt(es, code, d) <= Side(es, d)
  {
    if es != [] { PartWithinSide(es[..|es|-1], code, d); }
  }

  /** One more leg still leaves the journal's volume within twice what was ever asked for. */
  lemma RoomForLeg(s: Sys, id: nat, leg: Leg, parent: Option<nat>, c: string)
    requires Shape(s) && Money(s) && Sound(s.book) && Healthy(s) && id < |s.transfers|
    requires !Has(s.book.journal, id, leg)
    requires forall i :: 0 <= i < |s.transfers| ==> OneWayOut(s.book.journal + [Record(LegRequest(s.transfers[id], id, leg, parent))], i)
    ensures SumsFit(s.book.journal + [Record(LegRequest(s.transfers[id], id, leg, parent))], c)
  {
    hide JournalSide, AccountSide, Total, Weight, Find, Amounts, Has, OneWayOut;
    var t, js := s.transfers[id], s.book.journal;
    var p := Record(LegRequest(t, id, leg, parent));
    var js' := js + [p];
    forall i, e | 0 <= i < |js'| && e in js'[i].entries ensures e.amount > 0 {
      if i < |js| { assert SoundPosting(s.book.chart, js[i]); }
    }
    VolumeAfterLeg(s, id, leg, parent);
    VolumeBound(js', s.transfers);
    AccountWithinSide(js', c, Debit);
    AccountWithinSide(js', c, Credit);
  }

  lemma VolumeAfterLeg(s: Sys, id: nat, leg: Leg, parent: Option<nat>)
    requires Shape(s) && Money(s) && id < |s.transfers| && !Has(s.book.journal, id, leg)
    ensures var js' := s.book.journal + [Record(LegRequest(s.transfers[id], id, leg, parent))];
            JournalSide(js', Debit) == Total(Volume, js', s.transfers) == JournalSide(js', Credit)
  {
    var t, js := s.transfers[id], s.book.journal;
    var p := Record(LegRequest(t, id, leg, parent));
    assert (js + [p])[..|js|] == js;
    LegSides(t, leg);
    HasAfterPost(js, p, id, leg, id, DebitLeg);
    HasAfterPost(js, p, id, leg, id, SettleLeg);
    HasAfterPost(js, p, id, leg, id, ReversalLeg);
    forall i | 0 <= i < |s.transfers| && i != id
      ensures Weight(Volume, js + [p], i, s.transfers[i].amount) == Weight(Volume, js, i, s.transfers[i].amount)
    {
      WeightAfterPost(Volume, js, p, id, leg, i, s.transfers[i].amount);
    }
    TotalChange(Volume, js, js + [p], s.transfers, id);
  }

  /** No other transfer's reversal has this transfer's debit leg as its parent. */
  lemma ReversalIsFree(cfg: Config, w: World, s: Sys, id: nat, parent: nat)
    requires Inv(cfg, w, s) && Journaled(s) && id < |s.transfers|
    requires Find(s.book.journal, LegKey(id, DebitLeg)) == Some(parent) && !Has(s.book.journal, id, ReversalLeg)
    ensures FindReversal(s.book.journal, parent).None?
  {
    var js := s.book.journal;
    FindReversalSpec(js, parent);
    if FindReversal(js, parent).Some? {
      var i := FindReversal(js, parent).value;
      assert IsLegOf(s, js[i]);
      var other := js[i].key.value.transfer;
      KeyedPosting(js, i, LegKey(other, ReversalLeg));
      assert ViewOk(cfg, w, s.transfers[other].reference, ViewOf(s, other));
      FindSpec(js, LegKey(other, DebitLeg));
      FindSpec(js, LegKey(id, DebitLeg));
    }
  }

  lemma KeyedPosting(js: seq<Posting>, i: nat, key: Key)
    requires i < |js| && js[i].key == Some(key) && UniqueKeys(js)
    ensures Find(js, key) == Some(i)
  {
    FindSpec(js, key);
  }

  /** A leg is only ever posted in one direction: out to the destination or back to the source. */
  lemma StaysOneWay(cfg: Config, w: World, s: Sys, act: Act, i: nat)
    requires Views(cfg, w, s) && !w.Arbitrary? && GoodAct(cfg, w, s, act) && PostTarget(act.pc).Some? && i < |s.transfers|
    ensures var (leg, parent) := PostTarget(act.pc).value;
            OneWayOut(s.book.journal + [Record(LegRequest(s.transfers[act.transfer], act.transfer, leg, parent))], i)
  {
    var (leg, parent) := PostTarget(act.pc).value;
    var p := Record(LegRequest(s.transfers[act.transfer], act.transfer, leg, parent));
    HasAfterPost(s.book.journal, p, act.transfer, leg, i, SettleLeg);
    HasAfterPost(s.book.journal, p, act.transfer, leg, i, ReversalLeg);
    assert ViewOk(cfg, w, s.transfers[i].reference, ViewOf(s, i));
    assert ViewOk(cfg, w, s.transfers[act.transfer].reference, ViewOf(s, act.transfer));
  }

  /** A handler standing at a post gets it, unless it is a debit on an account that does not exist, or
      there is no account to settle to. */
  lemma LegIsTaken(cfg: Config, w: World, s: Sys, act: Act)
    requires Inv(cfg, w, s) && Money(s) && Journaled(s) && Healthy(s)
    requires GoodAct(cfg, w, s, act) && act.transfer < |s.transfers| && PostTarget(act.pc).Some?
    requires !w.Arbitrary?
    ensures var (leg, parent) := PostTarget(act.pc).value;
            var r := PostLeg(s.book, s.transfers[act.transfer], act.transfer, leg, parent).1;
            || r.Posted?
            || (leg == DebitLeg && IsTerminalError(r.error))
            || (leg == SettleLeg && NowhereToSettle(w.rail, s, act.transfer))
  {
    hide PostLeg, OneWayOut, Money, Find, FindReversal, Amounts, IsLegOf, LegPosted;
    var id := act.transfer;
    var (leg, parent) := PostTarget(act.pc).value;
    var t, js := s.transfers[id], s.book.journal;
    AcceptedLeg(cfg, w, s, act);
    if LegAccepted(s.book.chart, t, leg) {
      if Has(js, id, leg) {
        RepostIsTaken(s.book, t, id, leg, parent);
      } else {
        forall i | 0 <= i < |s.transfers| ensures OneWayOut(js + [Record(LegRequest(t, id, leg, parent))], i) {
          StaysOneWay(cfg, w, s, act, i);
        }
        forall c ensures SumsFit(js + [Record(LegRequest(t, id, leg, parent))], c) {
          RoomForLeg(s, id, leg, parent, c);
        }
        ParentIsThere(cfg, w, s, act);
        LegIsPosted(s.book, t, id, leg, parent);
      }
    } else {
      RejectedForGood(s.book, t, id, leg, parent);
    }
  }

  lemma RejectedForGood(b: Book, t: TransferRow, id: nat, leg: Leg, parent: Option<nat>)
    requires t.amount > 0 && !LegAccepted(b.chart, t, leg)
    ensures var r := PostLeg(b, t, id, leg, parent).1; r.Rejected? && IsTerminalError(r.error)
  {
    PostLegEffect(b, t, id, leg, parent);
  }

  lemma AcceptedLeg(cfg: Config, w: World, s: Sys, act: Act)
    requires Inv(cfg, w, s) && !w.Arbitrary? && GoodAct(cfg, w, s, act) && PostTarget(act.pc).Some?
    ensures var leg := PostTarget(act.pc).value.0;
            || leg == DebitLeg || LegAccepted(s.book.chart, s.transfers[act.transfer], leg)
            || (leg == SettleLeg && NowhereToSettle(w.rail, s, act.transfer))
  {
    assert ViewOk(cfg, w, s.transfers[act.transfer].reference, ViewOf(s, act.transfer));
  }

  lemma ParentIsThere(cfg: Config, w: World, s: Sys, act: Act)
    requires Inv(cfg, w, s) && Journaled(s) && GoodAct(cfg, w, s, act) && PostTarget(act.pc).Some?
    requires !Has(s.book.journal, act.transfer, PostTarget(act.pc).value.0)
    ensures var (leg, parent) := PostTarget(act.pc).value;
            parent.Some? ==> parent.value < |s.book.journal| && FindReversal(s.book.journal, parent.value).None?
  {
    hide Journaled, Find;
    var (leg, parent) := PostTarget(act.pc).value;
    if parent.Some? {
      ReversalIsFree(cfg, w, s, act.transfer, parent.value);
      FindSpec(s.book.journal, LegKey(act.transfer, DebitLeg));
    }
  }

  /** A leg already posted is answered with its transaction. */
  lemma RepostIsTaken(b: Book, t: TransferRow, id: nat, leg: Leg, parent: Option<nat>)
    requires t.amount > 0 && LegAccepted(b.chart, t, leg) && Has(b.journal, id, leg)
    ensures PostLeg(b, t, id, leg, parent).1.Posted?
  {
    LegIsValid(t, leg);
    KnownAccounts(b.chart, LegEntries(t, leg));
  }

  /** The parts of rows and ledger that never change. */
  ghost predicate SameFixed(s: Sys, s': Sys) {
    && |s'.transfers| == |s.transfers| && s'.book.chart == s.book.chart
    && (forall i :: 0 <= i < |s.transfers| ==> SameRow(s.transfers[i], s'.transfers[i]))
  }

  lemma FixedKeepsHealth(s: Sys, s': Sys)
    requires SameFixed(s, s') && Healthy(s)
    ensures Healthy(s')
  {
    forall i | 0 <= i < |s.transfers| ensures s'.transfers[i].amount == s.transfers[i].amount {
      assert SameRow(s.transfers[i], s'.transfers[i]);
    }
    AmountsFrame(s.transfers, s'.transfers);
  }

  lemma FixedKeepsNowhere(rail: Rail, s: Sys, s': Sys, id: nat)
    requires SameFixed(s, s') && id < |s.transfers|
    ensures NowhereToSettle(rail, s', id) <==> NowhereToSettle(rail, s, id)
  {
    assert SameRow(s.transfers[id], s'.transfers[id]);
  }

  lemma StepKeepsFixed(cfg: Config, s: Sys, l: Label)
    requires l.Step?
    ensures SameFixed(s, Apply(cfg, s, l))
  {
    hide StepAct;
    ApplyShape(cfg, s, l);
    if l.act in s.acts && s.acts[l.act].transfer < |s.transfers| {
      StepKeepsChart(cfg, s, l.act, l.outcome);
    }
  }

  /** A handler's own labels leave every row's fixed part and the chart alone. */
  lemma StepKeepsHealth(cfg: Config, s: Sys, l: Label)
    requires l.Step? && Healthy(s)
    ensures Healthy(Apply(cfg, s, l))
  {
    hide Apply, Healthy, SameFixed;
    StepKeepsFixed(cfg, s, l);
    FixedKeepsHealth(s, Apply(cfg, s, l));
  }

  lemma StepKeepsChart(cfg: Config, s: Sys, a: nat, o: Outcome)
    requires a in s.acts && s.acts[a].transfer < |s.transfers|
    ensures StepAct(cfg, s, a, o).book.chart == s.book.chart
  {
    hide PostLeg;
    StepActShape(cfg, s, a, o);
    if PostTarget(s.acts[a].pc).Some? {
      var (leg, parent) := PostTarget(s.acts[a].pc).value;
      LegKeepsChart(s.book, s.transfers[s.acts[a].transfer], s.acts[a].transfer, leg, parent);
    }
  }

  lemma LegKeepsChart(b: Book, t: TransferRow, id: nat, leg: Leg, parent: Option<nat>)
    ensures PostLeg(b, t, id, leg, parent).0.chart == b.chart
  {
    PostEffect(b, LegRequest(t, id, leg, parent), 0);
  }

  lemma {:induction false} StepsKeepFixed(cfg: Config, s: Sys, ls: seq<Label>)
    requires forall i :: 0 <= i < |ls| ==> ls[i].Step?
    ensures SameFixed(s, Exec(cfg, s, ls))
  {
    hide Apply;
    if ls != [] {
      StepsKeepFixed(cfg, s, ls[..|ls|-1]);
      StepKeepsFixed(cfg, Exec(cfg, s, ls[..|ls|-1]), ls[|ls|-1]);
    }
  }

  // ---------------------------------------------------------------- who can never be finished

  /** A transfer with nowhere to settle is never settled, reversed or, once debitable, failed; and while
      it waits its amount is in suspense. */
  lemma BlockedForGood(cfg: Config, rail: Rail, s: Sys, id: nat)
    requires Inv(cfg, Honest(rail), s) && Journaled(s) && id < |s.transfers|
    ensures NowhereToSettle(rail, s, id) ==> s.transfers[id].status !in {Settled, Reversed, ReversalPending}
    ensures NowhereToSettle(rail, s, id) && LegAccepted(s.book.chart, s.transfers[id], DebitLeg) ==> s.transfers[id].status != Failed
    ensures Blocked(rail, s, id) ==>
              LegAccepted(s.book.chart, s.transfers[id], DebitLeg) && LegSet(s.book.journal, id) == {DebitLeg}
  {
    hide Journaled, Acts, Events, Refs, Shape, NoStrayLegs;
    var js := s.book.journal;
    assert ViewOk(cfg, Honest(rail), s.transfers[id].reference, ViewOf(s, id));
    if Has(js, id, SettleLeg) { SettledNeedsAccount(s, id); }
  }

  lemma SettledNeedsAccount(s: Sys, id: nat)
    requires Sound(s.book) && Journaled(s) && id < |s.transfers| && Has(s.book.journal, id, SettleLeg)
    ensures s.transfers[id].destination in s.book.chart
  {
    var js := s.book.journal;
    FindSpec(js, LegKey(id, SettleLeg));
    var i := Find(js, LegKey(id, SettleLeg)).value;
    assert IsLegOf(s, js[i]) && SoundPosting(s.book.chart, js[i]);
    assert LegEntries(s.transfers[id], SettleLeg)[1] in js[i].entries;
  }
}
