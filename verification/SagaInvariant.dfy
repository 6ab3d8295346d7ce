/** The invariant of the whole machine, kept by every label in every interleaving. */
module SagaInvariant {
  import opened Prelude
  import opened Ledger
  import opened LedgerProofs
  import opened StateMachine
  import opened Saga
  import opened SagaLocal
  import opened SagaLegs

  function ParentOf(js: seq<Posting>, tx: Option<nat>): Option<nat> {
    if tx.Some? && tx.value < |js| then js[tx.value].parent else None
  }

  function ViewOf(s: Sys, id: nat): View
    requires id < |s.transfers|
  {
    var t, js := s.transfers[id], s.book.journal;
    View(t.status, t.debitLegTx,
         Find(js, LegKey(id, DebitLeg)), Find(js, LegKey(id, SettleLeg)), Find(js, LegKey(id, ReversalLeg)),
         ParentOf(js, Find(js, LegKey(id, ReversalLeg))),
         LegAccepted(s.book.chart, t, DebitLeg), id in s.sent)
  }

  ghost predicate Shape(s: Sys) {
    && (forall a :: a in s.acts ==> a < s.nextAct && s.acts[a].transfer < |s.transfers|)
    && (forall e :: e in s.outbox ==> e < s.nextEvent && s.outbox[e].transfer < |s.transfers|)
    && (forall i :: 0 <= i < |s.transfers| ==> s.transfers[i].amount > 0 && s.transfers[i].currency == NGN)
    && (forall i :: i in s.sent ==> i < |s.transfers|)
  }

  /** The journal holds no leg of a transfer that does not exist yet. */
  ghost predicate NoStrayLegs(s: Sys) {
    forall i: nat, leg :: i >= |s.transfers| ==> Find(s.book.journal, LegKey(i, leg)).None?
  }

  ghost predicate Refs(w: World, s: Sys) {
    !w.Arbitrary? ==>
      && (forall i, j :: 0 <= i < j < |s.transfers| ==> s.transfers[i].reference != s.transfers[j].reference)
      && (forall i :: 0 <= i < |s.transfers| ==> s.transfers[i].source != SETTLEMENT && s.transfers[i].destination != SETTLEMENT)
  }

  ghost predicate Views(cfg: Config, w: World, s: Sys) {
    forall i :: 0 <= i < |s.transfers| ==> ViewOk(cfg, w, s.transfers[i].reference, ViewOf(s, i))
  }

  ghost predicate GoodAct(cfg: Config, w: World, s: Sys, act: Act) {
    && act.transfer < |s.transfers|
    && ActOk(cfg, w, s.transfers[act.transfer].reference, ViewOf(s, act.transfer), act)
  }

  ghost predicate Acts(cfg: Config, w: World, s: Sys) {
    forall a :: a in s.acts ==> GoodAct(cfg, w, s, s.acts[a])
  }

  predicate EventOk(s: Sys, e: Event) {
    && e.transfer < |s.transfers|
    && Due(e.kind, s.transfers[e.transfer].status)
    && (e.published ==> Past(e.kind, s.transfers[e.transfer].status))
  }

  /** A delivery still refers to the event it claimed. */
  predicate DeliveryOk(s: Sys, act: Act) {
    act.origin.Delivery? ==>
      && act.origin.event < s.nextEvent
      && (act.origin.event in s.outbox ==>
            s.outbox[act.origin.event].kind == act.origin.kind && s.outbox[act.origin.event].transfer == act.transfer)
  }

  ghost predicate Events(s: Sys) {
    && (forall e :: e in s.outbox ==> EventOk(s, s.outbox[e]))
    && (forall a :: a in s.acts ==> DeliveryOk(s, s.acts[a]))
  }

  ghost predicate Inv(cfg: Config, w: World, s: Sys) {
    Shape(s) && NoStrayLegs(s) && Refs(w, s) && Sound(s.book) && Views(cfg, w, s) && Acts(cfg, w, s) && Events(s)
  }

  // ---------------------------------------------------------------- lifting one transfer's change

  predicate SameRow(t: TransferRow, t': TransferRow) {
    t' == t.(status := t'.status, debitLegTx := t'.debitLegTx)
  }

  /** s' differs from s only in what transfer id looks like. */
  ghost predicate OnlyTransfer(s: Sys, s': Sys, id: nat) {
    && |s'.transfers| == |s.transfers|
    && (forall i :: 0 <= i < |s.transfers| ==> SameRow(s.transfers[i], s'.transfers[i]))
    && (forall i :: 0 <= i < |s.transfers| && i != id ==> ViewOf(s', i) == ViewOf(s, i))
    && (id < |s.transfers| ==> Later(ViewOf(s, id), ViewOf(s', id)))
  }

  lemma LiftViews(cfg: Config, w: World, s: Sys, s': Sys, id: nat)
    requires Views(cfg, w, s) && OnlyTransfer(s, s', id)
    requires id < |s.transfers| ==> ViewOk(cfg, w, s.transfers[id].reference, ViewOf(s', id))
    ensures Views(cfg, w, s')
  {
  }

  lemma LiftAct(cfg: Config, w: World, s: Sys, s': Sys, id: nat, act: Act)
    requires OnlyTransfer(s, s', id) && GoodAct(cfg, w, s, act)
    ensures GoodAct(cfg, w, s', act)
  {
    if act.transfer == id {
      ActOkIsStable(cfg, w, s.transfers[id].reference, ViewOf(s, id), ViewOf(s', id), act);
    }
  }

  lemma LiftActs(cfg: Config, w: World, s: Sys, s': Sys, id: nat, a: nat)
    requires Acts(cfg, w, s) && OnlyTransfer(s, s', id)
    requires forall x :: x in s'.acts && x != a ==> x in s.acts && s'.acts[x] == s.acts[x]
    requires a in s'.acts ==> GoodAct(cfg, w, s', s'.acts[a])
    ensures Acts(cfg, w, s')
  {
    forall x | x in s'.acts ensures GoodAct(cfg, w, s', s'.acts[x]) {
      if x != a { LiftAct(cfg, w, s, s', id, s.acts[x]); }
    }
  }

  lemma LiftEvent(s: Sys, s': Sys, id: nat, e: Event)
    requires OnlyTransfer(s, s', id) && EventOk(s, e)
    ensures EventOk(s', e)
  {
    if e.transfer == id {
      ReachesIsClosure(Driving(e.kind), s.transfers[id].status, s'.transfers[id].status);
    } else {
      assert ViewOf(s', e.transfer) == ViewOf(s, e.transfer);
    }
  }

  /** Events keep their meaning when at most one row `k` is new or changed. */
  lemma LiftEvents(s: Sys, s': Sys, id: nat, k: nat)
    requires Events(s) && OnlyTransfer(s, s', id) && s.nextEvent <= s'.nextEvent
    requires forall e :: e in s'.outbox && e != k ==> e in s.outbox && s'.outbox[e] == s.outbox[e]
    requires k in s'.outbox ==> EventOk(s', s'.outbox[k])
    requires k in s'.outbox && k in s.outbox ==> s'.outbox[k].kind == s.outbox[k].kind && s'.outbox[k].transfer == s.outbox[k].transfer
    requires k in s'.outbox && k !in s.outbox ==> k >= s.nextEvent
    requires forall x :: x in s'.acts ==> (x in s.acts && s'.acts[x].origin == s.acts[x].origin && s'.acts[x].transfer == s.acts[x].transfer)
                                          || DeliveryOk(s', s'.acts[x])
    ensures Events(s')
  {
    forall e | e in s'.outbox ensures EventOk(s', s'.outbox[e]) {
      if e != k { LiftEvent(s, s', id, s.outbox[e]); }
    }
    forall x | x in s'.acts ensures DeliveryOk(s', s'.acts[x]) {
      if x in s.acts { assert DeliveryOk(s, s.acts[x]); }
    }
  }

  // ---------------------------------------------------------------- the effects as view changes

  lemma SameEverything(s: Sys, s': Sys, id: nat)
    requires s'.transfers == s.transfers && s'.book == s.book && s'.sent == s.sent
    ensures OnlyTransfer(s, s', id)
    ensures forall i :: 0 <= i < |s.transfers| ==> ViewOf(s', i) == ViewOf(s, i)
  {
  }

  lemma AdvanceViews(s: Sys, id: nat, to: Status, tx: Option<nat>)
    requires id < |s.transfers|
    ensures var s' := Advance(s, id, to, tx);
            && |s'.transfers| == |s.transfers|
            && (forall i :: 0 <= i < |s.transfers| ==> SameRow(s.transfers[i], s'.transfers[i]))
            && (forall i :: 0 <= i < |s.transfers| && i != id ==> ViewOf(s', i) == ViewOf(s, i))
            && ViewOf(s', id) == ViewAdvance(ViewOf(s, id), to, tx)
            && s'.book == s.book && s'.sent == s.sent && s'.acts == s.acts && s'.nextAct == s.nextAct
  {
  }

  lemma PostViews(s: Sys, id: nat, leg: Leg, parent: Option<nat>, b: Book, r: PostResult)
    requires id < |s.transfers| && LegPosted(s.book, s.transfers[id], id, leg, parent, b, r)
    requires Sound(s.book)
    ensures var s' := s.(book := b);
            && (forall i :: 0 <= i < |s.transfers| && i != id ==> ViewOf(s', i) == ViewOf(s, i))
            && ViewOf(s', id) == (if r.Posted? then ViewPost(ViewOf(s, id), leg, r.id, parent) else ViewOf(s, id))
            && (r.Posted? ==> LegOf(ViewOf(s', id), leg) == Some(r.id))
  {
    var s' := s.(book := b);
    forall i | 0 <= i < |s.transfers| && i != id ensures ViewOf(s', i) == ViewOf(s, i) {
      PostFramesView(s, id, leg, parent, b, r, i);
    }
    PostUpdatesView(s, id, leg, parent, b, r);
  }

  lemma ParentIsStable(js: seq<Posting>, js': seq<Posting>, key: Key)
    requires js <= js' && Find(js', key) == Find(js, key)
    ensures ParentOf(js', Find(js', key)) == ParentOf(js, Find(js, key))
  {
    FindSpec(js, key);
  }

  lemma PostFramesView(s: Sys, id: nat, leg: Leg, parent: Option<nat>, b: Book, r: PostResult, i: nat)
    requires id < |s.transfers| && LegPosted(s.book, s.transfers[id], id, leg, parent, b, r)
    requires i < |s.transfers| && i != id
    ensures ViewOf(s.(book := b), i) == ViewOf(s, i)
  {
    var t := s.transfers[id];
    LegPostedFrames(s.book, t, id, leg, parent, b, r, LegKey(i, DebitLeg));
    LegPostedFrames(s.book, t, id, leg, parent, b, r, LegKey(i, SettleLeg));
    LegPostedFrames(s.book, t, id, leg, parent, b, r, LegKey(i, ReversalLeg));
    ParentIsStable(s.book.journal, b.journal, LegKey(i, ReversalLeg));
  }

  lemma PostUpdatesView(s: Sys, id: nat, leg: Leg, parent: Option<nat>, b: Book, r: PostResult)
    requires id < |s.transfers| && LegPosted(s.book, s.transfers[id], id, leg, parent, b, r)
    ensures var v' := ViewOf(s.(book := b), id);
            && v' == (if r.Posted? then ViewPost(ViewOf(s, id), leg, r.id, parent) else ViewOf(s, id))
            && (r.Posted? ==> LegOf(v', leg) == Some(r.id))
  {
    var t, js := s.transfers[id], s.book.journal;
    LegPostedFrames(s.book, t, id, leg, parent, b, r, LegKey(id, DebitLeg));
    LegPostedFrames(s.book, t, id, leg, parent, b, r, LegKey(id, SettleLeg));
    LegPostedFrames(s.book, t, id, leg, parent, b, r, LegKey(id, ReversalLeg));
    if Find(b.journal, LegKey(id, ReversalLeg)) == Find(js, LegKey(id, ReversalLeg)) {
      ParentIsStable(js, b.journal, LegKey(id, ReversalLeg));
    }
  }

  lemma PostKeepsStrays(s: Sys, id: nat, leg: Leg, parent: Option<nat>, b: Book, r: PostResult)
    requires NoStrayLegs(s) && id < |s.transfers| && LegPosted(s.book, s.transfers[id], id, leg, parent, b, r)
    ensures NoStrayLegs(s.(book := b))
  {
    forall i: nat, l: Leg | i >= |s.transfers| ensures Find(b.journal, LegKey(i, l)).None? {
      LegPostedFrames(s.book, s.transfers[id], id, leg, parent, b, r, LegKey(i, l));
    }
  }
}
