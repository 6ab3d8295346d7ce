/** The double-entry ledger as values: the chart of accounts, the append-only journal, the
    cached balances, and one serializable post as a function from book to book. */
module Ledger {
  import opened Prelude

  datatype AccountType = Asset | Liability | Equity | Revenue | Expense

  datatype Direction = Debit | Credit | Unspecified

  datatype Leg = DebitLeg | SettleLeg | ReversalLeg

  /** An idempotency key: the text "<transfer id>:<leg>" of a transfer leg, or any other text. */
  datatype Key = LegKey(transfer: nat, leg: Leg) | Named(text: string)

  datatype Kind = Transfer | Reversal | Fee | UnlistedKind

  datatype Entry = Entry(account: string, direction: Direction, amount: int64, currency: string)

  datatype PostRequest = PostRequest(
    reference: string, kind: Kind, status: string, entries: seq<Entry>,
    key: Option<Key>, parent: Option<nat>)

  /** A committed journal transaction; its id is its position in the journal. */
  datatype Posting = Posting(
    reference: string, kind: Kind, status: string, entries: seq<Entry>,
    key: Option<Key>, parent: Option<nat>)

  datatype Book = Book(chart: map<string, AccountType>, journal: seq<Posting>, cache: map<string, int64>)

  datatype Error =
    | TooFewEntries | MixedCurrency | NonPositiveAmount | WrappedUnbalanced
    | UnknownAccount(code: string)
    | CheckViolation | UniqueViolation | ForeignKeyViolation | SumOutOfRange | TriggerUnbalanced
    | SerializationExhausted

  datatype PostResult = Posted(id: nat) | Rejected(error: Error)

  /** Rejections the gRPC surface reports as NotFound or InvalidArgument. */
  predicate IsTerminalError(e: Error) {
    e.TooFewEntries? || e.MixedCurrency? || e.NonPositiveAmount? || e.WrappedUnbalanced? || e.UnknownAccount?
  }

  const STATUSES: set<string> := {
    "pending", "debited", "settled", "failed", "timed_out", "reversed",
    "in_doubt", "reversal_pending", "manual_review"
  }

  const MAX_SERIALIZATION_RETRIES: nat := 5

  // ---------------------------------------------------------------- account arithmetic

  predicate IsDebitNormal(t: AccountType) { t.Asset? || t.Expense? }

  function DeriveBalance(t: AccountType, debits: int64, credits: int64): int64 {
    if IsDebitNormal(t) then Wrap(debits - credits) else Wrap(credits - debits)
  }

  /** Exact total of one side of a set of entries. */
  function Side(es: seq<Entry>, d: Direction): int {
    if es == [] then 0 else
    Side(es[..|es|-1], d) + (if es[|es|-1].direction == d then es[|es|-1].amount else 0)
  }

  /** The part of a side that falls on one account. */
  function SideAt(es: seq<Entry>, code: string, d: Direction): int {
    if es == [] then 0 else
    var e := es[|es|-1];
    SideAt(es[..|es|-1], code, d) + (if e.direction == d && e.account == code then e.amount else 0)
  }

  /** The part of a side in one currency. */
  function SideIn(es: seq<Entry>, currency: string, d: Direction): int {
    if es == [] then 0 else
    var e := es[|es|-1];
    SideIn(es[..|es|-1], currency, d) + (if e.direction == d && e.currency == currency then e.amount else 0)
  }

  function JournalSide(js: seq<Posting>, d: Direction): int {
    if js == [] then 0 else JournalSide(js[..|js|-1], d) + Side(js[|js|-1].entries, d)
  }

  function AccountSide(js: seq<Posting>, code: string, d: Direction): int {
    if js == [] then 0 else AccountSide(js[..|js|-1], code, d) + SideAt(js[|js|-1].entries, code, d)
  }

  function CurrencySide(js: seq<Posting>, currency: string, d: Direction): int {
    if js == [] then 0 else CurrencySide(js[..|js|-1], currency, d) + SideIn(js[|js|-1].entries, currency, d)
  }

  predicate InRange(x: int) { -TWO63 <= x < TWO63 }

  /** Both sums of the account survive the query's cast to BIGINT. */
  predicate SumsFit(js: seq<Posting>, code: string) {
    InRange(AccountSide(js, code, Debit)) && InRange(AccountSide(js, code, Credit))
  }

  /** The balance of an account derived from the journal alone. */
  function JournalBalance(t: AccountType, js: seq<Posting>, code: string): int64
    requires SumsFit(js, code)
  {
    DeriveBalance(t, AccountSide(js, code, Debit), AccountSide(js, code, Credit))
  }

  // ---------------------------------------------------------------- validation

  /** First failure of the per-entry loop, in entry order, currency before amount. */
  function FirstBadEntry(es: seq<Entry>, currency: string): Option<Error> {
    if es == [] then None
    else if es[0].currency != currency then Some(MixedCurrency)
    else if es[0].amount <= 0 then Some(NonPositiveAmount)
    else FirstBadEntry(es[1..], currency)
  }

  function Validate(es: seq<Entry>): Option<Error> {
    if |es| < 2 then Some(TooFewEntries)
    else if FirstBadEntry(es, es[0].currency).Some? then FirstBadEntry(es, es[0].currency)
    else if Wrap(Side(es, Debit)) != Wrap(Side(es, Credit)) then Some(WrappedUnbalanced)
    else None
  }

  // ---------------------------------------------------------------- one serializable attempt

  function Find(js: seq<Posting>, key: Key): Option<nat> {
    if js == [] then None
    else if js[|js|-1].key == Some(key) then Some(|js|-1)
    else Find(js[..|js|-1], key)
  }

  function FindReversal(js: seq<Posting>, parent: nat): Option<nat> {
    if js == [] then None
    else if js[|js|-1].kind == Reversal && js[|js|-1].parent == Some(parent) then Some(|js|-1)
    else FindReversal(js[..|js|-1], parent)
  }

  function FirstUnknown(chart: map<string, AccountType>, es: seq<Entry>): Option<string> {
    if es == [] then None
    else if es[0].account !in chart then Some(es[0].account)
    else FirstUnknown(chart, es[1..])
  }

  /** The insert collides with the key constraint or with uq_reversal_per_parent. */
  predicate Collides(js: seq<Posting>, req: PostRequest) {
    || (req.key.Some? && Find(js, req.key.value).Some?)
    || (req.kind == Reversal && req.parent.Some? && FindReversal(js, req.parent.value).Some?)
  }

  function Touched(es: seq<Entry>): set<string> { set e | e in es :: e.account }

  predicate DirectionsOk(es: seq<Entry>) { forall e :: e in es ==> e.direction != Unspecified }

  /** The deferred trigger: every currency group of the transaction balances exactly. */
  predicate GroupsBalance(es: seq<Entry>) {
    forall e :: e in es ==> SideIn(es, e.currency, Debit) == SideIn(es, e.currency, Credit)
  }

  /** An empty status is recorded as pending. */
  function StatusOf(req: PostRequest): string {
    if req.status == "" then "pending" else req.status
  }

  function Record(req: PostRequest): Posting {
    Posting(req.reference, req.kind, StatusOf(req), req.entries, req.key, req.parent)
  }

  datatype Attempt = Committed(book: Book, id: nat) | Aborted(error: Error)

  function Recached(b: Book, js: seq<Posting>, codes: set<string>): map<string, int64>
    requires codes <= b.chart.Keys
    requires forall c :: c in codes ==> SumsFit(js, c)
  {
    b.cache + map c | c in codes :: JournalBalance(b.chart[c], js, c)
  }

  /** One run of the transaction body: constraints in the order the database applies them. */
  function AttemptPost(b: Book, req: PostRequest): Attempt {
    if FirstUnknown(b.chart, req.entries).Some? then
      Aborted(UnknownAccount(FirstUnknown(b.chart, req.entries).value))
    else if req.kind == UnlistedKind || StatusOf(req) !in STATUSES then Aborted(CheckViolation)
    else if Collides(b.journal, req) then Aborted(UniqueViolation)
    else if req.parent.Some? && req.parent.value >= |b.journal| then Aborted(ForeignKeyViolation)
    else if !DirectionsOk(req.entries) then Aborted(CheckViolation)
    else
      var js := b.journal + [Record(req)];
      if exists c :: c in Touched(req.entries) && !SumsFit(js, c) then Aborted(SumOutOfRange)
      else if !GroupsBalance(req.entries) then Aborted(TriggerUnbalanced)
      else
        KnownAccounts(b.chart, req.entries);
        Committed(Book(b.chart, js, Recached(b, js, Touched(req.entries))), |b.journal|)
  }

  /** PostTransaction when the first `aborts` attempts fail with a serialization error. */
  function Post(b: Book, req: PostRequest, aborts: nat): (Book, PostResult) {
    if Validate(req.entries).Some? then (b, Rejected(Validate(req.entries).value))
    else if aborts >= MAX_SERIALIZATION_RETRIES then (b, Rejected(SerializationExhausted))
    else match AttemptPost(b, req)
      case Committed(b', id) => (b', Posted(id))
      case Aborted(UniqueViolation) =>
        if req.key.Some? && Find(b.journal, req.key.value).Some?
        then (b, Posted(Find(b.journal, req.key.value).value))
        else (b, Rejected(UniqueViolation))
      case Aborted(e) => (b, Rejected(e))
  }

  lemma {:induction false} KnownAccounts(chart: map<string, AccountType>, es: seq<Entry>)
    ensures FirstUnknown(chart, es).None? <==> Touched(es) <= chart.Keys
    ensures FirstUnknown(chart, es).Some? ==> FirstUnknown(chart, es).value in Touched(es) - chart.Keys
  {
    if es != [] {
      KnownAccounts(chart, es[1..]);
      assert es == [es[0]] + es[1..];
      assert Touched(es) == {es[0].account} + Touched(es[1..]);
    }
  }

  // ---------------------------------------------------------------- the book's invariant

  predicate SoundPosting(chart: map<string, AccountType>, p: Posting) {
    && Touched(p.entries) <= chart.Keys
    && (forall e :: e in p.entries ==> e.amount > 0)
    && Side(p.entries, Debit) == Side(p.entries, Credit)
    && GroupsBalance(p.entries)
  }

  ghost predicate SoundJournal(b: Book) {
    forall i :: 0 <= i < |b.journal| ==> SoundPosting(b.chart, b.journal[i])
  }

  ghost predicate UniqueKeys(js: seq<Posting>) {
    forall i, j :: 0 <= i < j < |js| && js[i].key.Some? ==> js[i].key != js[j].key
  }

  ghost predicate UniqueReversals(js: seq<Posting>) {
    forall i, j :: 0 <= i < j < |js| && js[i].kind == Reversal && js[j].kind == Reversal && js[i].parent.Some?
      ==> js[i].parent != js[j].parent
  }

  /** Parents are earlier transactions. */
  ghost predicate ParentsExist(js: seq<Posting>) {
    forall i :: 0 <= i < |js| && js[i].parent.Some? ==> js[i].parent.value < i
  }

  predicate HasEntry(js: seq<Posting>, code: string) {
    exists i :: 0 <= i < |js| && code in Touched(js[i].entries)
  }

  ghost predicate AllSumsFit(js: seq<Posting>) { forall c: string :: SumsFit(js, c) }

  ghost predicate CacheAgrees(b: Book)
    requires AllSumsFit(b.journal)
  {
    forall c :: c in b.chart && HasEntry(b.journal, c) ==>
      c in b.cache && b.cache[c] == JournalBalance(b.chart[c], b.journal, c)
  }

  ghost predicate Sound(b: Book) {
    && SoundJournal(b)
    && UniqueKeys(b.journal)
    && UniqueReversals(b.journal)
    && ParentsExist(b.journal)
    && AllSumsFit(b.journal)
    && CacheAgrees(b)
  }
}
