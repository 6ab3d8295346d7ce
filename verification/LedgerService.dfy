/** The ledger service in its own imperative form: loops over entries and touched accounts, rows
    written in place, rolled back on error. Each method is proved against the function in Ledger. */
module LedgerService {
  import opened Prelude
  import opened Ledger
  import LedgerProofs

  /** Sums each side in wrapping int64. */
  method Totals(es: seq<Entry>) returns (debits: int64, credits: int64)
    ensures debits == Wrap(Side(es, Debit)) && credits == Wrap(Side(es, Credit))
  {
    debits, credits := 0, 0;
    for i := 0 to |es|
      invariant debits == Wrap(Side(es[..i], Debit)) && credits == Wrap(Side(es[..i], Credit))
    {
      assert es[..i + 1][..i] == es[..i];
      WrapAbsorbs(Side(es[..i], Debit), es[i].amount);
      WrapAbsorbs(Side(es[..i], Credit), es[i].amount);
      match es[i].direction {
        case Debit => debits := Wrap(debits + es[i].amount);
        case Credit => credits := Wrap(credits + es[i].amount);
        case Unspecified =>
      }
    }
    assert es[..|es|] == es;
  }

  /** Entry k is the first with another currency than the first entry's, or an amount that is not positive. */
  predicate FirstFault(es: seq<Entry>, k: nat)
    requires k < |es|
  {
    && (es[k].currency != es[0].currency || es[k].amount <= 0)
    && forall j :: 0 <= j < k ==> es[j].currency == es[0].currency && es[j].amount > 0
  }

  method ValidateEntries(es: seq<Entry>) returns (error: Option<Error>)
    ensures error == Validate(es)
    ensures error == Some(TooFewEntries) <==> |es| < 2
    ensures |es| >= 2 ==>
              && (error == Some(MixedCurrency) <==> exists k :: 0 <= k < |es| && FirstFault(es, k) && es[k].currency != es[0].currency)
              && (error == Some(NonPositiveAmount) <==>
                    exists k :: 0 <= k < |es| && FirstFault(es, k) && es[k].currency == es[0].currency && es[k].amount <= 0)
    ensures error.None? <==>
              && |es| >= 2 && (forall k :: 0 <= k < |es| ==> es[k].currency == es[0].currency && es[k].amount > 0)
              && Wrap(Side(es, Debit)) == Wrap(Side(es, Credit))
  {
    if |es| < 2 { return Some(TooFewEntries); }
    var currency := es[0].currency;
    for i := 0 to |es|
      invariant FirstBadEntry(es, currency) == FirstBadEntry(es[i..], currency)
      invariant forall k :: 0 <= k < i ==> es[k].currency == currency && es[k].amount > 0
    {
      assert es[i].currency != currency || es[i].amount <= 0 ==> FirstFault(es, i);
      if es[i].currency != currency { return Some(MixedCurrency); }
      if es[i].amount <= 0 { return Some(NonPositiveAmount); }
    }
    var debits, credits := Totals(es);
    error := if debits != credits then Some(WrappedUnbalanced) else None;
  }

  /** Maps each referenced code to its account, stopping at the first unknown one. */
  method ResolveAccounts(chart: map<string, AccountType>, es: seq<Entry>)
      returns (accounts: map<string, AccountType>, unknown: Option<string>)
    ensures unknown == FirstUnknown(chart, es)
    ensures unknown.None? ==> accounts.Keys == Touched(es) <= chart.Keys
    ensures unknown.None? <==> forall k :: 0 <= k < |es| ==> es[k].account in chart
    ensures unknown.Some? ==>
              exists k :: 0 <= k < |es| && es[k].account == unknown.value && es[k].account !in chart
                          && forall j :: 0 <= j < k ==> es[j].account in chart
    ensures forall c :: c in accounts ==> c in chart && accounts[c] == chart[c]
  {
    accounts := map[];
    LedgerProofs.UnknownExactly(chart, es);
    for i := 0 to |es|
      invariant FirstUnknown(chart, es) == FirstUnknown(chart, es[i..])
      invariant accounts.Keys == Touched(es[..i])
      invariant forall c :: c in accounts ==> c in chart && accounts[c] == chart[c]
    {
      var code := es[i].account;
      assert es[..i + 1] == es[..i] + [es[i]];
      assert Touched(es[..i + 1]) == Touched(es[..i]) + {code};
      if code !in accounts {
        if code !in chart { return accounts, Some(code); }
        accounts := accounts[code := chart[code]];
      }
    }
    assert es[..|es|] == es;
    unknown := None;
  }

  lemma RecachedAdds(b: Book, js: seq<Posting>, codes: set<string>, c: string)
    requires codes <= b.chart.Keys && c in b.chart
    requires forall x :: x in codes ==> SumsFit(js, x)
    requires SumsFit(js, c)
    ensures Recached(b, js, codes + {c}) == Recached(b, js, codes)[c := JournalBalance(b.chart[c], js, c)]
  {
  }

  class Service {
    const chart: map<string, AccountType>
    var journal: seq<Posting>
    var cache: map<string, int64>

    ghost function Contents(): Book
      reads this
    {
      Book(chart, journal, cache)
    }

    ghost predicate Valid()
      reads this
    {
      Sound(Contents())
    }

    constructor (chart: map<string, AccountType>)
      ensures Valid() && Contents() == LedgerProofs.Opening(chart)
    {
      this.chart := chart;
      journal, cache := [], map[];
      new;
      LedgerProofs.OpeningIsSound(chart);
    }

    /** Re-derives the cached balance of every touched account, in no particular order, reading
        the uncommitted journal. Fails when a sum does not fit a BIGINT. */
    method UpdateCachedBalances(js: seq<Posting>, accounts: map<string, AccountType>)
        returns (ok: bool, renewed: map<string, int64>)
      requires forall c :: c in accounts ==> c in chart && accounts[c] == chart[c]
      ensures ok <==> forall c :: c in accounts ==> SumsFit(js, c)
      ensures ok ==> renewed == Recached(Contents(), js, accounts.Keys)
    {
      renewed := cache;
      var todo := accounts.Keys;
      while todo != {}
        invariant todo <= accounts.Keys
        invariant forall c :: c in accounts.Keys - todo ==> SumsFit(js, c)
        invariant renewed == Recached(Contents(), js, accounts.Keys - todo)
        decreases |todo|
      {
        var c :| c in todo;
        if !SumsFit(js, c) { return false, cache; }
        RecachedAdds(Contents(), js, accounts.Keys - todo, c);
        assert accounts.Keys - (todo - {c}) == accounts.Keys - todo + {c};
        renewed := renewed[c := DeriveBalance(accounts[c], AccountSide(js, c, Debit), AccountSide(js, c, Credit))];
        todo := todo - {c};
      }
      assert accounts.Keys - {} == accounts.Keys;
      ok := true;
    }

    /** The body of the serializable transaction. Nothing is written unless it commits. */
    method TryPost(req: PostRequest) returns (result: PostResult)
      modifies this
      ensures match AttemptPost(old(Contents()), req)
              case Committed(b, id) => result == Posted(id) && Contents() == b
              case Aborted(e) => result == Rejected(e) && Contents() == old(Contents())
    {
      var accounts, unknown := ResolveAccounts(chart, req.entries);
      if unknown.Some? { return Rejected(UnknownAccount(unknown.value)); }
      if req.kind == UnlistedKind || StatusOf(req) !in STATUSES { return Rejected(CheckViolation); }
      if Collides(journal, req) { return Rejected(UniqueViolation); }
      if req.parent.Some? && req.parent.value >= |journal| { return Rejected(ForeignKeyViolation); }
      var ok := true;
      for i := 0 to |req.entries|
        invariant ok <==> DirectionsOk(req.entries[..i])
      {
        assert req.entries[..i + 1] == req.entries[..i] + [req.entries[i]];
        ok := ok && req.entries[i].direction != Unspecified;
      }
      assert req.entries[..|req.entries|] == req.entries;
      if !ok { return Rejected(CheckViolation); }
      var js := journal + [Record(req)];
      var fits, renewed := UpdateCachedBalances(js, accounts);
      if !fits { return Rejected(SumOutOfRange); }
      var balanced := GroupsBalance(req.entries);
      if !balanced { return Rejected(TriggerUnbalanced); }
      result := Posted(|journal|);
      journal, cache := js, renewed;
    }

    /** Retries the transaction while it aborts with 40001, at most five times in all; a unique
        violation under a known key answers with the transaction that key already produced. */
    method PostTransaction(req: PostRequest, aborts: nat) returns (result: PostResult)
      requires Valid()
      modifies this
      ensures Valid()
      ensures (Contents(), result) == Post(old(Contents()), req, aborts)
    {
      LedgerProofs.PostKeepsSound(Contents(), req, aborts);
      var error := ValidateEntries(req.entries);
      if error.Some? { return Rejected(error.value); }
      for attempt := 0 to MAX_SERIALIZATION_RETRIES
        invariant attempt <= aborts
        invariant Contents() == old(Contents())
      {
        if attempt >= aborts {
          result := TryPost(req);
          if result == Rejected(UniqueViolation) && req.key.Some? {
            var existing := Find(journal, req.key.value);
            if existing.Some? { result := Posted(existing.value); }
          }
          return;
        }
      }
      result := Rejected(SerializationExhausted);
    }

    /** Reads the balance from the journal; the cache agrees with it on every account in use. */
    method GetBalance(code: string) returns (balance: Option<int64>)
      requires Valid()
      ensures balance.Some? <==> code in chart
      ensures code in chart ==> balance.value == LedgerProofs.Exact(chart, journal, code)
      ensures code in chart && chart[code] in {Asset, Expense} ==>
                balance.value == AccountSide(journal, code, Debit) - AccountSide(journal, code, Credit)
      ensures code in chart && chart[code] in {Liability, Equity, Revenue} ==>
                balance.value == AccountSide(journal, code, Credit) - AccountSide(journal, code, Debit)
      ensures code in chart && HasEntry(journal, code) ==> code in cache && balance.value == cache[code]
    {
      if code !in chart { return None; }
      assert SumsFit(journal, code);
      forall i, e | 0 <= i < |journal| && e in journal[i].entries ensures e.amount > 0 {
        assert SoundPosting(chart, journal[i]);
      }
      LedgerProofs.BalanceByType(chart[code], journal, code);
      balance := Some(DeriveBalance(chart[code], AccountSide(journal, code, Debit), AccountSide(journal, code, Credit)));
    }
  }
}
