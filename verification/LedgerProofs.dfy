/** What the ledger promises: an exact commit gate despite wrapping sums, conservation of value,
    a cache that never drifts from the journal, and idempotent posting. */
module LedgerProofs {
  import opened Prelude
  import opened Ledger

  // ---------------------------------------------------------------- sums over entries

  lemma {:induction false} SideInSingleCurrency(es: seq<Entry>, currency: string, d: Direction)
    requires forall e :: e in es ==> e.currency == currency
    ensures SideIn(es, currency, d) == Side(es, d)
  {
    if es != [] {
      SideInSingleCurrency(es[..|es|-1], currency, d);
    }
  }

  lemma {:induction false} SideNonNegative(es: seq<Entry>, code: string, d: Direction)
    requires forall e :: e in es ==> e.amount > 0
    ensures Side(es, d) >= 0 && SideAt(es, code, d) >= 0
  {
    if es != [] {
      SideNonNegative(es[..|es|-1], code, d);
    }
  }

  lemma {:induction false} SideAtUntouched(es: seq<Entry>, code: string, d: Direction)
    requires code !in Touched(es)
    ensures SideAt(es, code, d) == 0
  {
    if es != [] {
      var rest := es[..|es|-1];
      assert es[|es|-1] in es;
      assert forall e :: e in rest ==> e in es;
      SideAtUntouched(rest, code, d);
    }
  }

  /** A side of a set of entries is the sum of its parts over the accounts of the chart. */
  lemma {:induction false} SideByAccount(chart: map<string, AccountType>, es: seq<Entry>, d: Direction)
    requires Touched(es) <= chart.Keys
    ensures SetSum(chart.Keys, c => SideAt(es, c, d)) == Side(es, d)
  {
    var all := c => SideAt(es, c, d);
    if es == [] {
      SetSumZero(chart.Keys, all);
    } else {
      var rest, e := es[..|es|-1], es[|es|-1];
      assert e in es;
      assert forall x :: x in rest ==> x in es;
      SideByAccount(chart, rest, d);
      var before := c => SideAt(rest, c, d);
      var last := c => if e.direction == d && e.account == c then e.amount else 0;
      SetSumAdds(chart.Keys, before, last, all);
      SetSumCongruent(chart.Keys, before, c => SideAt(rest, c, d));
      SetSumSingle(chart.Keys, last, e.account);
    }
  }

  lemma {:induction false} JournalSideByAccount(chart: map<string, AccountType>, js: seq<Posting>, d: Direction)
    requires forall i :: 0 <= i < |js| ==> Touched(js[i].entries) <= chart.Keys
    ensures Sides(js, chart.Keys, d) == JournalSide(js, d)
  {
    var all := c => AccountSide(js, c, d);
    if js == [] {
      SetSumZero(chart.Keys, all);
    } else {
      var rest, p := js[..|js|-1], js[|js|-1];
      JournalSideByAccount(chart, rest, d);
      SideByAccount(chart, p.entries, d);
      var before := c => AccountSide(rest, c, d);
      var last := c => SideAt(p.entries, c, d);
      SetSumAdds(chart.Keys, before, last, all);
      SetSumCongruent(chart.Keys, before, c => AccountSide(rest, c, d));
      SetSumCongruent(chart.Keys, last, c => SideAt(p.entries, c, d));
      SetSumCongruent(chart.Keys, all, c => AccountSide(js, c, d));
    }
  }

  lemma {:induction false} JournalBalances(js: seq<Posting>)
    requires forall i :: 0 <= i < |js| ==> Side(js[i].entries, Debit) == Side(js[i].entries, Credit)
    ensures JournalSide(js, Debit) == JournalSide(js, Credit)
  {
    if js != [] {
      JournalBalances(js[..|js|-1]);
    }
  }

  lemma {:induction false} AccountSideNonNegative(js: seq<Posting>, code: string, d: Direction)
    requires forall i, e :: 0 <= i < |js| && e in js[i].entries ==> e.amount > 0
    ensures AccountSide(js, code, d) >= 0
  {
    if js != [] {
      AccountSideNonNegative(js[..|js|-1], code, d);
      SideNonNegative(js[|js|-1].entries, code, d);
    }
  }

  // ---------------------------------------------------------------- the commit gate

  lemma {:induction false} NoBadEntry(es: seq<Entry>, currency: string)
    ensures FirstBadEntry(es, currency).None? <==> forall e :: e in es ==> e.currency == currency && e.amount > 0
  {
    if es != [] {
      NoBadEntry(es[1..], currency);
      assert es == [es[0]] + es[1..];
    }
  }

  /** The wrapped pre-check and the exact trigger together accept exactly the balanced sets. */
  lemma CommitGateIsExact(es: seq<Entry>)
    requires |es| >= 2
    requires forall e :: e in es ==> e.currency == es[0].currency && e.amount > 0
    ensures Validate(es).None? && GroupsBalance(es) <==> Side(es, Debit) == Side(es, Credit)
    ensures Side(es, Debit) == Side(es, Credit) ==> Validate(es).None?
  {
    NoBadEntry(es, es[0].currency);
    SideInSingleCurrency(es, es[0].currency, Debit);
    SideInSingleCurrency(es, es[0].currency, Credit);
    assert es[0] in es;
  }

  /** The pre-check alone is not enough: one-sided entries summing to 2^64 pass it. */
  lemma WrappedCheckAloneIsNotEnough(es: seq<Entry>)
    requires es == [Entry("A", Debit, TWO63 - 1, "NGN"), Entry("B", Debit, TWO63 - 1, "NGN"), Entry("A", Debit, 2, "NGN")]
    ensures Validate(es).None? && Side(es, Debit) != Side(es, Credit) && !GroupsBalance(es)
  {
    NoBadEntry(es, "NGN");
    assert es[..2][..1] == es[..1] && es[..1][..0] == [];
    assert Side(es[..1], Debit) == TWO63 - 1 && Side(es[..1], Credit) == 0;
    assert Side(es[..2], Debit) == TWO64 - 2 && Side(es[..2], Credit) == 0;
    assert Side(es, Debit) == TWO64 && Side(es, Credit) == 0;
    SideInSingleCurrency(es, "NGN", Debit);
    SideInSingleCurrency(es, "NGN", Credit);
    assert es[0] in es;
  }

  /** With both sums non-negative and in range the balance is the exact difference. */
  lemma DerivedBalanceIsExact(t: AccountType, js: seq<Posting>, code: string)
    requires SumsFit(js, code)
    requires forall i, e :: 0 <= i < |js| && e in js[i].entries ==> e.amount > 0
    ensures var net := AccountSide(js, code, Debit) - AccountSide(js, code, Credit);
            JournalBalance(t, js, code) == if IsDebitNormal(t) then net else -net
  {
    AccountSideNonNegative(js, code, Debit);
    AccountSideNonNegative(js, code, Credit);
  }

  /** Assets and expenses grow on debits, liabilities, equity and revenue on credits. */
  lemma BalanceByType(t: AccountType, js: seq<Posting>, code: string)
    requires SumsFit(js, code)
    requires forall i, e :: 0 <= i < |js| && e in js[i].entries ==> e.amount > 0
    ensures t == Asset || t == Expense ==>
              JournalBalance(t, js, code) == AccountSide(js, code, Debit) - AccountSide(js, code, Credit)
    ensures t == Liability || t == Equity || t == Revenue ==>
              JournalBalance(t, js, code) == AccountSide(js, code, Credit) - AccountSide(js, code, Debit)
  {
    DerivedBalanceIsExact(t, js, code);
  }

  // ---------------------------------------------------------------- lookups

  lemma {:induction false} FindSpec(js: seq<Posting>, key: Key)
    ensures match Find(js, key)
            case Some(i) => i < |js| && js[i].key == Some(key)
            case None => forall i :: 0 <= i < |js| ==> js[i].key != Some(key)
  {
    if js != [] {
      FindSpec(js[..|js|-1], key);
    }
  }

  lemma {:induction false} FindReversalSpec(js: seq<Posting>, parent: nat)
    ensures match FindReversal(js, parent)
            case Some(i) => i < |js| && js[i].kind == Reversal && js[i].parent == Some(parent)
            case None => forall i :: 0 <= i < |js| && js[i].kind == Reversal ==> js[i].parent != Some(parent)
  {
    if js != [] {
      FindReversalSpec(js[..|js|-1], parent);
    }
  }

  lemma FindAppend(js: seq<Posting>, p: Posting, key: Key)
    ensures Find(js + [p], key) == if p.key == Some(key) then Some(|js|) else Find(js, key)
  {
    assert (js + [p])[..|js|] == js;
  }

  lemma AccountSideAppend(js: seq<Posting>, p: Posting, code: string, d: Direction)
    ensures AccountSide(js + [p], code, d) == AccountSide(js, code, d) + SideAt(p.entries, code, d)
  {
    assert (js + [p])[..|js|] == js;
  }

  // ---------------------------------------------------------------- every post keeps the book sound

  /** A request that passes validation and commits adds a sound posting. */
  lemma CommittedPostingIsSound(b: Book, req: PostRequest)
    requires Validate(req.entries).None?
    requires AttemptPost(b, req).Committed?
    ensures SoundPosting(b.chart, Record(req))
  {
    KnownAccounts(b.chart, req.entries);
    NoBadEntry(req.entries, req.entries[0].currency);
    CommitGateIsExact(req.entries);
  }

  lemma AppendKeepsConstraints(b: Book, req: PostRequest)
    requires AttemptPost(b, req).Committed?
    requires UniqueKeys(b.journal) && UniqueReversals(b.journal) && ParentsExist(b.journal)
    ensures var js := b.journal + [Record(req)]; UniqueKeys(js) && UniqueReversals(js) && ParentsExist(js)
  {
    if req.key.Some? { FindSpec(b.journal, req.key.value); }
    if req.parent.Some? { FindReversalSpec(b.journal, req.parent.value); }
  }

  lemma AppendKeepsSums(b: Book, req: PostRequest)
    requires AttemptPost(b, req).Committed?
    requires AllSumsFit(b.journal)
    ensures AllSumsFit(b.journal + [Record(req)])
  {
    var js := b.journal + [Record(req)];
    forall c: string ensures SumsFit(js, c) {
      if c !in Touched(req.entries) {
        assert SumsFit(b.journal, c);
        UntouchedKeepsSides(b, req, c);
      }
    }
  }

  lemma UntouchedKeepsSides(b: Book, req: PostRequest, c: string)
    requires c !in Touched(req.entries)
    ensures var js := b.journal + [Record(req)];
            forall d :: AccountSide(js, c, d) == AccountSide(b.journal, c, d)
  {
    forall d ensures AccountSide(b.journal + [Record(req)], c, d) == AccountSide(b.journal, c, d) {
      AccountSideAppend(b.journal, Record(req), c, d);
      SideAtUntouched(req.entries, c, d);
    }
  }

  lemma CommitKeepsCache(b: Book, req: PostRequest)
    requires AttemptPost(b, req).Committed?
    requires AllSumsFit(b.journal) && CacheAgrees(b)
    ensures var b' := AttemptPost(b, req).book; AllSumsFit(b'.journal) && CacheAgrees(b')
  {
    var b' := AttemptPost(b, req).book;
    AppendKeepsSums(b, req);
    forall c | c in b'.chart && HasEntry(b'.journal, c)
      ensures c in b'.cache && b'.cache[c] == JournalBalance(b'.chart[c], b'.journal, c)
    {
      if c !in Touched(req.entries) {
        UntouchedKeepsSides(b, req, c);
        var i :| 0 <= i < |b'.journal| && c in Touched(b'.journal[i].entries);
        assert i < |b.journal| && b'.journal[i] == b.journal[i];
        assert HasEntry(b.journal, c);
      }
    }
  }

  lemma CommitKeepsSound(b: Book, req: PostRequest)
    requires Sound(b)
    requires Validate(req.entries).None?
    requires AttemptPost(b, req).Committed?
    ensures Sound(AttemptPost(b, req).book)
  {
    var b' := AttemptPost(b, req).book;
    CommittedPostingIsSound(b, req);
    AppendKeepsConstraints(b, req);
    CommitKeepsCache(b, req);
    forall i | 0 <= i < |b'.journal| ensures SoundPosting(b'.chart, b'.journal[i]) {
      if i < |b.journal| { assert b'.journal[i] == b.journal[i]; }
    }
  }

  /** Accepted, rejected, aborted or replayed, a post leaves the book sound. */
  lemma PostKeepsSound(b: Book, req: PostRequest, aborts: nat)
    requires Sound(b)
    ensures Sound(Post(b, req, aborts).0)
  {
    if Validate(req.entries).None? && aborts < MAX_SERIALIZATION_RETRIES && AttemptPost(b, req).Committed? {
      CommitKeepsSound(b, req);
    }
  }

  /** The effect of a post on the journal: nothing, or one new transaction under the request's key. */
  lemma PostEffect(b: Book, req: PostRequest, aborts: nat)
    ensures var (b', r) := Post(b, req, aborts);
            && b'.chart == b.chart
            && (b' == b || (r == Posted(|b.journal|) && b'.journal == b.journal + [Record(req)]))
            && (b' != b && req.key.Some? ==> Find(b.journal, req.key.value).None?)
            && (r.Posted? && req.key.Some? ==> Find(b'.journal, req.key.value) == Some(r.id))
            && (r.Posted? && b' == b ==> req.key.Some? && Find(b.journal, req.key.value) == Some(r.id))
  {
    if req.key.Some? {
      FindAppend(b.journal, Record(req), req.key.value);
      FindSpec(b.journal, req.key.value);
    }
  }

  // ---------------------------------------------------------------- conservation

  /** An account's journal balance, total on all codes (0 off the chart or out of range). */
  ghost function Exact(chart: map<string, AccountType>, js: seq<Posting>, c: string): int {
    if c in chart && SumsFit(js, c) then JournalBalance(chart[c], js, c) else 0
  }

  /** The accounts among codes whose balance normally sits on the given side. */
  function Normal(chart: map<string, AccountType>, codes: set<string>, debitNormal: bool): set<string> {
    set c | c in codes && c in chart && IsDebitNormal(chart[c]) == debitNormal
  }

  /** Total held by debit-normal accounts, or by credit-normal accounts, from the journal alone. */
  ghost function Held(chart: map<string, AccountType>, js: seq<Posting>, codes: set<string>, debitNormal: bool): int {
    SetSum(Normal(chart, codes, debitNormal), c => Exact(chart, js, c))
  }

  ghost function Sides(js: seq<Posting>, codes: set<string>, d: Direction): int {
    SetSum(codes, c => AccountSide(js, c, d))
  }

  lemma SidesSplit(js: seq<Posting>, codes: set<string>, d: Direction, x: string)
    requires x in codes
    ensures Sides(js, codes, d) == AccountSide(js, x, d) + Sides(js, codes - {x}, d)
  {
    var f := c => AccountSide(js, c, d);
    SetSumSplit(codes, f, x);
    SetSumCongruent(codes, f, c => AccountSide(js, c, d));
    SetSumCongruent(codes - {x}, f, c => AccountSide(js, c, d));
  }

  lemma HeldSplit(chart: map<string, AccountType>, js: seq<Posting>, codes: set<string>, x: string, dn: bool)
    requires x in codes && x in chart
    ensures Held(chart, js, codes, dn)
         == Held(chart, js, codes - {x}, dn) + (if IsDebitNormal(chart[x]) == dn then Exact(chart, js, x) else 0)
  {
    var f := c => Exact(chart, js, c);
    var s, rest := Normal(chart, codes, dn), Normal(chart, codes - {x}, dn);
    if IsDebitNormal(chart[x]) == dn {
      SetSumSplit(s, f, x);
      assert s - {x} == rest;
    } else {
      assert s == rest;
    }
    SetSumCongruent(s, f, c => Exact(chart, js, c));
    SetSumCongruent(rest, f, c => Exact(chart, js, c));
  }

  lemma {:induction false} NormalSidesAgree(chart: map<string, AccountType>, js: seq<Posting>, codes: set<string>)
    requires codes <= chart.Keys && AllSumsFit(js)
    requires forall i, e :: 0 <= i < |js| && e in js[i].entries ==> e.amount > 0
    ensures Held(chart, js, codes, true) - Held(chart, js, codes, false)
         == Sides(js, codes, Debit) - Sides(js, codes, Credit)
    decreases |codes|
  {
    if codes == {} {
      assert Normal(chart, codes, true) == {} == Normal(chart, codes, false);
    } else {
      var x :| x in codes;
      NormalSidesAgree(chart, js, codes - {x});
      SidesSplit(js, codes, Debit, x);
      SidesSplit(js, codes, Credit, x);
      HeldSplit(chart, js, codes, x, true);
      HeldSplit(chart, js, codes, x, false);
      DerivedBalanceIsExact(chart[x], js, x);
    }
  }

  ghost function HeldBy(b: Book, debitNormal: bool): int {
    Held(b.chart, b.journal, b.chart.Keys, debitNormal)
  }

  lemma SoundBookConserves(b: Book)
    requires Sound(b)
    ensures HeldBy(b, true) == HeldBy(b, false)
  {
    JournalBalances(b.journal);
    JournalSideByAccount(b.chart, b.journal, Debit);
    JournalSideByAccount(b.chart, b.journal, Credit);
    NormalSidesAgree(b.chart, b.journal, b.chart.Keys);
  }

  lemma {:induction false} CurrencyBalances(js: seq<Posting>, currency: string)
    requires forall i :: 0 <= i < |js| ==> GroupsBalance(js[i].entries)
    ensures CurrencySide(js, currency, Debit) == CurrencySide(js, currency, Credit)
  {
    if js != [] {
      CurrencyBalances(js[..|js|-1], currency);
      var es := js[|js|-1].entries;
      if forall e :: e in es ==> e.currency != currency {
        AbsentCurrency(es, currency, Debit);
        AbsentCurrency(es, currency, Credit);
      }
    }
  }

  lemma {:induction false} AbsentCurrency(es: seq<Entry>, currency: string, d: Direction)
    requires forall e :: e in es ==> e.currency != currency
    ensures SideIn(es, currency, d) == 0
  {
    if es != [] {
      AbsentCurrency(es[..|es|-1], currency, d);
    }
  }

  // ---------------------------------------------------------------- whole histories

  /** A call of PostTransaction and the number of serialization aborts it met. */
  datatype Call = Call(req: PostRequest, aborts: nat)

  function PostAll(b: Book, calls: seq<Call>): Book {
    if calls == [] then b else
    Post(PostAll(b, calls[..|calls|-1]), calls[|calls|-1].req, calls[|calls|-1].aborts).0
  }

  /** What the last call of a history answered. */
  function Answer(b: Book, calls: seq<Call>): PostResult
    requires calls != []
  {
    Post(PostAll(b, calls[..|calls|-1]), calls[|calls|-1].req, calls[|calls|-1].aborts).1
  }

  function Opening(chart: map<string, AccountType>): Book { Book(chart, [], map[]) }

  lemma {:induction false} HistoryKeepsSound(b: Book, calls: seq<Call>)
    requires Sound(b)
    ensures Sound(PostAll(b, calls))
  {
    if calls != [] {
      HistoryKeepsSound(b, calls[..|calls|-1]);
      PostKeepsSound(PostAll(b, calls[..|calls|-1]), calls[|calls|-1].req, calls[|calls|-1].aborts);
    }
  }

  lemma OpeningIsSound(chart: map<string, AccountType>)
    ensures Sound(Opening(chart))
  {
    var b := Opening(chart);
    assert forall c: string :: AccountSide(b.journal, c, Debit) == 0 == AccountSide(b.journal, c, Credit);
  }

  /** After any history of calls, value is conserved over the accounts and within each currency,
      and no account's cached balance differs from the one its journal lines derive. */
  lemma LedgerConservation(chart: map<string, AccountType>, calls: seq<Call>)
    ensures var b := PostAll(Opening(chart), calls);
            && HeldBy(b, true) == HeldBy(b, false)
            && (forall cur: string :: CurrencySide(b.journal, cur, Debit) == CurrencySide(b.journal, cur, Credit))
            && AllSumsFit(b.journal) && CacheAgrees(b)
            && UniqueReversals(b.journal)
  {
    OpeningIsSound(chart);
    HistoryKeepsSound(Opening(chart), calls);
    var b := PostAll(Opening(chart), calls);
    SoundBookConserves(b);
    forall cur: string ensures CurrencySide(b.journal, cur, Debit) == CurrencySide(b.journal, cur, Credit) {
      CurrencyBalances(b.journal, cur);
    }
  }

  /** The history without the calls whose key an earlier call had already committed. */
  function WithoutRepeats(b: Book, calls: seq<Call>): seq<Call> {
    if calls == [] then [] else
    var before, last := calls[..|calls|-1], calls[|calls|-1];
    var kept := WithoutRepeats(b, before);
    if last.req.key.Some? && Find(PostAll(b, before).journal, last.req.key.value).Some? then kept
    else kept + [last]
  }

  /** Repeats of a committed key leave no trace: the deduplicated history builds the same book. */
  lemma {:induction false} RepeatsLeaveNoTrace(b: Book, calls: seq<Call>)
    ensures PostAll(b, calls) == PostAll(b, WithoutRepeats(b, calls))
  {
    if calls != [] {
      var before, last := calls[..|calls|-1], calls[|calls|-1];
      RepeatsLeaveNoTrace(b, before);
      PostEffect(PostAll(b, before), last.req, last.aborts);
      var kept := WithoutRepeats(b, before);
      assert (kept + [last])[..|kept|] == kept;
    }
  }

  /** A committed key keeps its transaction for ever. */
  lemma {:induction false} CommittedKeyIsStable(b: Book, calls: seq<Call>, n: nat, key: Key)
    requires n <= |calls|
    requires Find(PostAll(b, calls[..n]).journal, key).Some?
    ensures Find(PostAll(b, calls).journal, key) == Find(PostAll(b, calls[..n]).journal, key)
    decreases |calls| - n
  {
    if n == |calls| {
      assert calls[..n] == calls;
    } else {
      var mid := PostAll(b, calls[..n]);
      var call := calls[n];
      assert calls[..n + 1][..n] == calls[..n];
      PostEffect(mid, call.req, call.aborts);
      FindAppend(mid.journal, Record(call.req), key);
      CommittedKeyIsStable(b, calls, n + 1, key);
    }
  }

  /** All successful calls under one key, anywhere in a history, return the same transaction. */
  lemma OneKeyOneTransaction(b: Book, calls: seq<Call>, i: nat, j: nat, key: Key)
    requires i < j < |calls|
    requires calls[i].req.key == Some(key) && calls[j].req.key == Some(key)
    requires Answer(b, calls[..i + 1]).Posted? && Answer(b, calls[..j + 1]).Posted?
    ensures Answer(b, calls[..i + 1]) == Answer(b, calls[..j + 1])
  {
    var upto := calls[..j + 1];
    assert calls[..i + 1][..i] == calls[..i] && upto[..j] == calls[..j] && calls[..j][..i + 1] == calls[..i + 1];
    PostEffect(PostAll(b, calls[..i]), calls[i].req, calls[i].aborts);
    CommittedKeyIsStable(b, calls[..j], i + 1, key);
    PostEffect(PostAll(b, calls[..j]), calls[j].req, calls[j].aborts);
  }

  /** After any history every account in use is cached at its debits less its credits, or the reverse, as
      its type says. */
  lemma CachedBalances(chart: map<string, AccountType>, calls: seq<Call>, code: string)
    requires code in chart && HasEntry(PostAll(Opening(chart), calls).journal, code)
    ensures var b := PostAll(Opening(chart), calls);
            var net := AccountSide(b.journal, code, Debit) - AccountSide(b.journal, code, Credit);
            && code in b.cache
            && (chart[code] == Asset || chart[code] == Expense ==> b.cache[code] == net)
            && (chart[code] == Liability || chart[code] == Equity || chart[code] == Revenue ==> b.cache[code] == -net)
  {
    hide PostAll;
    OpeningIsSound(chart);
    HistoryKeepsSound(Opening(chart), calls);
    ChartIsFixed(Opening(chart), calls);
    var b := PostAll(Opening(chart), calls);
    forall i, e | 0 <= i < |b.journal| && e in b.journal[i].entries ensures e.amount > 0 {
      assert SoundPosting(b.chart, b.journal[i]);
    }
    assert SumsFit(b.journal, code);
    BalanceByType(chart[code], b.journal, code);
  }

  lemma {:induction false} ChartIsFixed(b: Book, calls: seq<Call>)
    ensures PostAll(b, calls).chart == b.chart
  {
    if calls != [] {
      ChartIsFixed(b, calls[..|calls|-1]);
      PostEffect(PostAll(b, calls[..|calls|-1]), calls[|calls|-1].req, calls[|calls|-1].aborts);
    }
  }

  // ---------------------------------------------------------------- what is accepted, and what is recorded

  /** Up to four aborted attempts do not show; five exhaust a valid request. */
  lemma RetriesDoNotShow(b: Book, req: PostRequest, aborts: nat)
    ensures aborts <= 4 ==> Post(b, req, aborts) == Post(b, req, 0)
    ensures aborts >= 5 && Validate(req.entries).None? ==> Post(b, req, aborts) == (b, Rejected(SerializationExhausted))
  {
    hide AttemptPost, Validate;
  }

  /** An earlier transaction has the request's key, or reverses the same parent. */
  ghost predicate AlreadyThere(js: seq<Posting>, req: PostRequest) {
    || (req.key.Some? && exists i :: 0 <= i < |js| && js[i].key == req.key)
    || (req.kind == Reversal && req.parent.Some? && exists i :: 0 <= i < |js| && js[i].kind == Reversal && js[i].parent == req.parent)
  }

  lemma CollidesExactly(js: seq<Posting>, req: PostRequest)
    ensures Collides(js, req) <==> AlreadyThere(js, req)
  {
    if req.key.Some? { FindSpec(js, req.key.value); }
    if req.parent.Some? { FindReversalSpec(js, req.parent.value); }
  }

  lemma {:induction false} UnknownExactly(chart: map<string, AccountType>, es: seq<Entry>)
    ensures FirstUnknown(chart, es).None? <==> forall k :: 0 <= k < |es| ==> es[k].account in chart
    ensures FirstUnknown(chart, es).Some? ==>
              exists k :: 0 <= k < |es| && es[k].account == FirstUnknown(chart, es).value && es[k].account !in chart
                          && forall j :: 0 <= j < k ==> es[j].account in chart
  {
    if es != [] && es[0].account in chart {
      UnknownExactly(chart, es[1..]);
      if FirstUnknown(chart, es).Some? {
        var k :| 0 <= k < |es[1..]| && es[1..][k].account == FirstUnknown(chart, es[1..]).value && es[1..][k].account !in chart
                 && forall j :: 0 <= j < k ==> es[1..][j].account in chart;
        assert es[k + 1].account == FirstUnknown(chart, es).value && es[k + 1].account !in chart;
        forall j | 0 <= j < k + 1 ensures es[j].account in chart {
          if j > 0 { assert es[j] == es[1..][j - 1]; }
        }
      }
    }
  }

  /** The database takes a valid request exactly when every account exists, type and status are listed,
      neither its key nor its parent's reversal is there already, its parent exists, every direction is
      debit or credit, the sums fit and every currency balances. An unknown account is noticed first. */
  lemma CommitsExactly(b: Book, req: PostRequest)
    ensures AttemptPost(b, req).Committed? <==>
              && (forall k :: 0 <= k < |req.entries| ==> req.entries[k].account in b.chart)
              && req.kind in {Transfer, Reversal, Fee}
              && (req.status == "" || req.status in STATUSES)
              && !AlreadyThere(b.journal, req)
              && (req.parent.Some? ==> req.parent.value < |b.journal|)
              && (forall e :: e in req.entries ==> e.direction == Debit || e.direction == Credit)
              && (forall e :: e in req.entries ==> SumsFit(b.journal + [Record(req)], e.account))
              && GroupsBalance(req.entries)
    ensures (exists k :: 0 <= k < |req.entries| && req.entries[k].account !in b.chart) <==>
              AttemptPost(b, req).Aborted? && AttemptPost(b, req).error.UnknownAccount?
    ensures AttemptPost(b, req) == Aborted(UniqueViolation) <==>
              && (forall k :: 0 <= k < |req.entries| ==> req.entries[k].account in b.chart)
              && req.kind in {Transfer, Reversal, Fee}
              && (req.status == "" || req.status in STATUSES)
              && AlreadyThere(b.journal, req)
  {
    hide SumsFit, GroupsBalance, FirstUnknown, Collides, Find, FindReversal, AlreadyThere;
    UnknownExactly(b.chart, req.entries);
    CollidesExactly(b.journal, req);
    KnownAccounts(b.chart, req.entries);
    assert "pending" in STATUSES;
    assert forall e :: e in req.entries ==> e.account in Touched(req.entries);
  }

  /** What a post appends carries the request's fields, and the status pending if it gave none. */
  lemma RecordedAsAsked(b: Book, req: PostRequest, aborts: nat)
    requires Post(b, req, aborts).0 != b
    ensures var b' := Post(b, req, aborts).0;
            && |b'.journal| == |b.journal| + 1 && b.journal <= b'.journal
            && var p := b'.journal[|b.journal|];
               && p.reference == req.reference && p.kind == req.kind && p.entries == req.entries
               && p.key == req.key && p.parent == req.parent
               && p.status == if req.status == "" then "pending" else req.status
  {
    hide AttemptPost, Validate, Find;
    PostEffect(b, req, aborts);
  }

  /** An error reported as terminal is one that no retry and no later posting turns into a success. */
  lemma TerminalIsForGood(b: Book, later: Book, req: PostRequest, n: nat, m: nat)
    requires Post(b, req, n).1.Rejected? && IsTerminalError(Post(b, req, n).1.error)
    requires later.chart == b.chart && m <= 4
    ensures Post(later, req, m).1 == Post(b, req, n).1
  {
    hide Validate, Find, FindReversal, GroupsBalance, SumsFit;
  }
}
