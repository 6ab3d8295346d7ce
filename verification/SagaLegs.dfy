/** Transfer legs against the ledger: each is a valid two-entry request, and posting one touches
    only its own key. */
module SagaLegs {
  import opened Prelude
  import opened Ledger
  import opened LedgerProofs
  import opened StateMachine
  import opened Saga

  /** Both accounts of the leg are on the chart. */
  predicate LegAccepted(chart: map<string, AccountType>, t: TransferRow, leg: Leg) {
    DebitSideOf(t, leg) in chart && CreditSideOf(t, leg) in chart
  }

  lemma LegSides(t: TransferRow, leg: Leg)
    ensures Side(LegEntries(t, leg), Debit) == t.amount == Side(LegEntries(t, leg), Credit)
    ensures SideIn(LegEntries(t, leg), t.currency, Debit) == t.amount == SideIn(LegEntries(t, leg), t.currency, Credit)
    ensures forall c :: SideAt(LegEntries(t, leg), c, Debit) == (if c == DebitSideOf(t, leg) then t.amount else 0)
    ensures forall c :: SideAt(LegEntries(t, leg), c, Credit) == (if c == CreditSideOf(t, leg) then t.amount else 0)
  {
    var es := LegEntries(t, leg);
    assert es[..1] == [es[0]] && es[..1][..0] == [];
    assert forall d :: Side(es[..1], d) == (if d == Debit then t.amount else 0);
    assert forall d :: Side(es, d) == Side(es[..1], d) + (if d == Credit then t.amount else 0);
    assert forall d :: SideIn(es[..1], t.currency, d) == (if d == Debit then t.amount else 0);
    assert forall d :: SideIn(es, t.currency, d) == SideIn(es[..1], t.currency, d) + (if d == Credit then t.amount else 0);
    assert forall c, d :: SideAt(es[..1], c, d) == (if d == Debit && c == es[0].account then t.amount else 0);
    assert forall c, d :: SideAt(es, c, d) == SideAt(es[..1], c, d) + (if d == Credit && c == es[1].account then t.amount else 0);
  }

  /** A leg of a positive amount always passes validation, so a missing account is its only terminal rejection. */
  lemma LegIsValid(t: TransferRow, leg: Leg)
    requires t.amount > 0
    ensures Validate(LegEntries(t, leg)).None?
    ensures GroupsBalance(LegEntries(t, leg)) && DirectionsOk(LegEntries(t, leg))
    ensures Touched(LegEntries(t, leg)) == {DebitSideOf(t, leg), CreditSideOf(t, leg)}
  {
    var es := LegEntries(t, leg);
    LegSides(t, leg);
    NoBadEntry(es, t.currency);
    assert es[0] in es && es[1] in es;
  }

  /** The result of posting a leg, and what it leaves alone. */
  ghost predicate LegPosted(b: Book, t: TransferRow, id: nat, leg: Leg, parent: Option<nat>, b': Book, r: PostResult) {
    var key := LegKey(id, leg);
    && b'.chart == b.chart
    && (b' == b || (b'.journal == b.journal + [Record(LegRequest(t, id, leg, parent))] && Find(b.journal, key).None?
                    && r == Posted(|b.journal|)))
    && (r.Posted? ==> Find(b'.journal, key) == Some(r.id) && LegAccepted(b.chart, t, leg))
    && (r.Rejected? ==> b' == b)
    && (r.Rejected? && IsTerminalError(r.error) <==> !LegAccepted(b.chart, t, leg))
  }

  lemma PostLegEffect(b: Book, t: TransferRow, id: nat, leg: Leg, parent: Option<nat>)
    requires t.amount > 0
    ensures LegPosted(b, t, id, leg, parent, PostLeg(b, t, id, leg, parent).0, PostLeg(b, t, id, leg, parent).1)
  {
    var req := LegRequest(t, id, leg, parent);
    LegIsValid(t, leg);
    KnownAccounts(b.chart, req.entries);
    PostEffect(b, req, 0);
  }

  /** Other keys keep their transactions. */
  lemma LegPostedFrames(b: Book, t: TransferRow, id: nat, leg: Leg, parent: Option<nat>, b': Book, r: PostResult, key: Key)
    requires LegPosted(b, t, id, leg, parent, b', r)
    ensures key != LegKey(id, leg) ==> Find(b'.journal, key) == Find(b.journal, key)
    ensures Find(b.journal, key).Some? ==> Find(b'.journal, key) == Find(b.journal, key)
    ensures key == LegKey(id, leg) && Find(b.journal, key).None? ==>
              Find(b'.journal, key) == if r.Posted? then Some(r.id) else None
    ensures b.journal <= b'.journal
  {
    FindAppend(b.journal, Record(LegRequest(t, id, leg, parent)), key);
  }

  lemma PostLegKeepsSound(b: Book, t: TransferRow, id: nat, leg: Leg, parent: Option<nat>)
    requires Sound(b)
    ensures Sound(PostLeg(b, t, id, leg, parent).0)
  {
    PostKeepsSound(b, LegRequest(t, id, leg, parent), 0);
  }

  /** With the debit leg as parent, both accounts on the chart and room in the sums, a leg is posted. */
  lemma LegIsPosted(b: Book, t: TransferRow, id: nat, leg: Leg, parent: Option<nat>)
    requires t.amount > 0 && LegAccepted(b.chart, t, leg)
    requires parent.Some? ==> parent.value < |b.journal|
    requires leg == ReversalLeg && parent.Some? && Find(b.journal, LegKey(id, leg)).None? ==> FindReversal(b.journal, parent.value).None?
    requires forall c :: c in Touched(LegEntries(t, leg)) ==> SumsFit(b.journal + [Record(LegRequest(t, id, leg, parent))], c)
    ensures PostLeg(b, t, id, leg, parent).1.Posted?
  {
    var req := LegRequest(t, id, leg, parent);
    LegIsValid(t, leg);
    KnownAccounts(b.chart, req.entries);
  }

  /** The first leg ever posted fits. */
  lemma LoneLegFits(row: TransferRow, leg: Leg, c: string)
    requires row.amount > 0
    ensures SumsFit([Record(LegRequest(row, 0, leg, None))], c)
  {
    hide Side, SideIn;
    var p := Record(LegRequest(row, 0, leg, None));
    LegSides(row, leg);
    assert [p][..0] == [];
    assert forall d :: AccountSide([p], c, d) == SideAt(p.entries, c, d);
  }
}
