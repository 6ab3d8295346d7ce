/** Generating a fixture and matching it: every injected discrepancy is found, and nothing else. */
module Recall {
  import opened Prelude
  import opened Reconcile
  import opened ReportOrder
  import opened Matcher
  import opened MatchTheorems
  import opened Fixture

  // ---------------------------------------------------------------- counting

  /** The references of the first n pairs of a family. */
  function RefsOf(f: Family, n: nat): set<string> {
    if n == 0 then {} else RefsOf(f, n - 1) + {Ref(f, n - 1)}
  }

  lemma {:induction false} RefsOfSpec(f: Family, n: nat)
    ensures |RefsOf(f, n)| == n
    ensures forall g, j: nat :: Ref(g, j) in RefsOf(f, n) <==> f == g && j < n
    ensures forall r :: r in RefsOf(f, n) ==> exists j: nat :: j < n && r == Ref(f, j)
  {
    hide Ref;
    if n > 0 {
      RefsOfSpec(f, n - 1);
      forall g, j: nat ensures Ref(g, j) in RefsOf(f, n) <==> f == g && j < n { RefsOfStep(f, n, g, j); }
      assert Ref(f, n - 1) !in RefsOf(f, n - 1);
    }
  }

  lemma RefsOfStep(f: Family, n: nat, g: Family, j: nat)
    requires n > 0 && (Ref(g, j) in RefsOf(f, n - 1) <==> f == g && j < n - 1)
    ensures Ref(g, j) in RefsOf(f, n) <==> f == g && j < n
  {
    hide Ref;
    if Ref(g, j) == Ref(f, n - 1) { RefsAreDistinct(g, j, f, n - 1); }
  }

  /** A category whose classes are single exceptions for the given references has as many exceptions. */
  lemma {:induction false} CountByRefs(ex: seq<Exception>, c: Category, refs: set<string>)
    requires forall r :: |OfClass(ex, c, r)| == if r in refs then 1 else 0
    ensures Count(ex, c) == |refs|
  {
    if ex == [] {
      assert forall r :: OfClass(ex, c, r) == [];
      assert refs == {};
    } else {
      var front, last := ex[..|ex|-1], ex[|ex|-1];
      var rest := if last.category == c then refs - {last.reference} else refs;
      forall r ensures |OfClass(front, c, r)| == if r in rest then 1 else 0 {
        assert |OfClass(ex, c, r)| == |OfClass(front, c, r)| + (if last.category == c && last.reference == r then 1 else 0);
      }
      CountByRefs(front, c, rest);
      assert last.category == c ==> last.reference in refs;
    }
  }

  // ---------------------------------------------------------------- full recall

  function FamilyOf(c: Category): Family {
    match c
    case AmountMismatch => Mismatch
    case UnmatchedInternal => OnlyInternal
    case UnmatchedExternal => OnlyExternal
    case Duplicate => Repeated
    case PendingReversal => Owed
  }

  /** Exactly the injected references, each once, each in its own category; and all the clean pairs. */
  ghost predicate Recalled(res: Result, spec: Spec) {
    && res.matchedCount == spec.count + spec.perCategory
    && (forall c, r :: |OfClass(res.exceptions, c, r)| == if r in RefsOf(FamilyOf(c), spec.perCategory) then 1 else 0)
    && (forall c :: Count(res.exceptions, c) == spec.perCategory)
  }

  lemma ClassOfReference(spec: Spec, draw: nat -> nat, window: int64, c: Category, r: string)
    requires Bounded(draw) && Tolerant(window) && spec.perCategory < TWO62
    ensures var i, e := Contents(Inside, spec, draw, FAMILIES), Contents(Outside, spec, draw, FAMILIES);
            && |Expected(i, e, window, c, r)| == (if r in RefsOf(FamilyOf(c), spec.perCategory) then 1 else 0)
            && (Reconciled(i, e, window, r) <==> r in RefsOf(Clean, spec.count) + RefsOf(Repeated, spec.perCategory))
  {
    hide Ref, Contents, Expected, Reconciled, RefsOf, Bounded;
    RefsOfSpec(FamilyOf(c), spec.perCategory);
    RefsOfSpec(Clean, spec.count);
    RefsOfSpec(Repeated, spec.perCategory);
    if f, j: nat :| j < Size(spec, f) && r == Ref(f, j) {
      Deserved(spec, draw, window, f, j, c);
    } else {
      NothingDeserved(spec, draw, window, r, c);
      NotIn(spec, FamilyOf(c), r);
      NotIn(spec, Clean, r);
      NotIn(spec, Repeated, r);
    }
  }

  lemma NotIn(spec: Spec, f: Family, r: string)
    requires forall g, j: nat :: j < Size(spec, g) ==> r != Ref(g, j)
    ensures r !in RefsOf(f, Size(spec, f))
  {
    hide Ref, RefsOf;
    RefsOfSpec(f, Size(spec, f));
  }

  /** The expectations of the unshuffled sides carry over to any shuffle. */
  lemma ShuffledAlike(spec: Spec, draw: nat -> nat, window: int64, internals: seq<Record>, externals: seq<Record>,
        c: Category, r: string)
    requires Bounded(draw)
    requires multiset(internals) == multiset(Contents(Inside, spec, draw, FAMILIES))
    requires multiset(externals) == multiset(Contents(Outside, spec, draw, FAMILIES))
    ensures var i, e := Contents(Inside, spec, draw, FAMILIES), Contents(Outside, spec, draw, FAMILIES);
            && Expected(internals, externals, window, c, r) == Expected(i, e, window, c, r)
            && (Reconciled(internals, externals, window, r) <==> Reconciled(i, e, window, r))
  {
    hide Contents, OrderFree, Expected, Reconciled;
    FixtureIsOrderFree(spec, draw, window);
    OrderFreeIsEnough(Contents(Inside, spec, draw, FAMILIES), Contents(Outside, spec, draw, FAMILIES),
                      internals, externals, window, c, r);
  }

  lemma MatchedOfFixture(spec: Spec, draw: nat -> nat, window: int64, internals: seq<Record>, externals: seq<Record>)
    requires Bounded(draw) && Tolerant(window) && spec.perCategory < TWO62
    requires multiset(internals) == multiset(Contents(Inside, spec, draw, FAMILIES))
    requires multiset(externals) == multiset(Contents(Outside, spec, draw, FAMILIES))
    ensures |ReconciledRefs(internals, externals, window)| == spec.count + spec.perCategory
  {
    hide Ref, Contents, Expected, RefsOf, Agree, Bounded, LastOf, AllOf, References;
    var clean, repeated := RefsOf(Clean, spec.count), RefsOf(Repeated, spec.perCategory);
    forall r ensures r in ReconciledRefs(internals, externals, window) <==> r in clean + repeated {
      ShuffledAlike(spec, draw, window, internals, externals, Duplicate, r);
      ClassOfReference(spec, draw, window, Duplicate, r);
      AllOfMembers(externals, r);
    }
    assert ReconciledRefs(internals, externals, window) == clean + repeated;
    RefsOfSpec(Clean, spec.count);
    RefsOfSpec(Repeated, spec.perCategory);
    assert clean !! repeated;
  }

  /** The pair whose surcharge is 2^64 times 25 comes out equal on both sides. */
  lemma LostSurcharge(spec: Spec, draw: nat -> nat, window: int64)
    requires Bounded(draw) && Tolerant(window) && spec.perCategory >= TWO62
    ensures Expected(Contents(Inside, spec, draw, FAMILIES), Contents(Outside, spec, draw, FAMILIES), window,
                     AmountMismatch, Ref(Mismatch, TWO62 - 1)) == []
  {
    hide Ref, Contents, DrawIndex, Agree, LastOf, AllOf;
    var j := TWO62 - 1;
    var minor := draw(DrawIndex(spec, Mismatch, j));
    ContentsByReference(Inside, spec, draw, FAMILIES, Mismatch, j);
    ContentsByReference(Outside, spec, draw, FAMILIES, Mismatch, j);
    NoReversals(spec, draw, Ref(Mismatch, j));
    PairAgrees(Mismatch, j, minor, window);
    SurchargeShows(j, minor);
  }

  /** Every count, every draw, every shuffle, every window that is off or at least thirty seconds: the
      matcher recalls the injected discrepancies exactly, if and only if there are fewer than 2^62
      per category. */
  lemma FullRecall(spec: Spec, draw: nat -> nat, window: int64, internals: seq<Record>, externals: seq<Record>, res: Result)
    requires Bounded(draw) && Tolerant(window)
    requires multiset(internals) == multiset(Contents(Inside, spec, draw, FAMILIES))
    requires multiset(externals) == multiset(Contents(Outside, spec, draw, FAMILIES))
    requires Reports(res, internals, externals, window)
    ensures Recalled(res, spec) <==> spec.perCategory < TWO62
  {
    hide Ref, Contents, Expected, RefsOf, OfClass, Count, ReconciledRefs, Sorted, Bounded;
    if spec.perCategory < TWO62 {
      MatchedOfFixture(spec, draw, window, internals, externals);
      forall c, r ensures |OfClass(res.exceptions, c, r)| == if r in RefsOf(FamilyOf(c), spec.perCategory) then 1 else 0 {
        ShuffledAlike(spec, draw, window, internals, externals, c, r);
        ClassOfReference(spec, draw, window, c, r);
      }
      forall c ensures Count(res.exceptions, c) == spec.perCategory {
        CountByRefs(res.exceptions, c, RefsOf(FamilyOf(c), spec.perCategory));
        RefsOfSpec(FamilyOf(c), spec.perCategory);
      }
    } else {
      var r := Ref(Mismatch, TWO62 - 1);
      ShuffledAlike(spec, draw, window, internals, externals, AmountMismatch, r);
      LostSurcharge(spec, draw, window);
      RefsOfSpec(Mismatch, spec.perCategory);
      assert OfClass(res.exceptions, AmountMismatch, r) == [];
      assert r in RefsOf(FamilyOf(AmountMismatch), spec.perCategory);
    }
  }

  // ---------------------------------------------------------------- the generator

  function Tally(m: map<Category, nat>, c: Category): nat { if c in m then m[c] else 0 }

  /** A fixture in the making. */
  datatype Draft = Draft(
    internals: seq<Record>, externals: seq<Record>,
    byCategory: map<Category, nat>, byRef: map<string, Category>, matched: nat, drawn: nat)

  ghost predicate OnePair(draw: nat -> nat, f: Family, j: nat, d: Draft, d': Draft)
    requires Bounded(draw)
  {
    && d'.internals == d.internals + RowsOf(Inside, f, j, draw(d.drawn))
    && d'.externals == d.externals + RowsOf(Outside, f, j, draw(d.drawn))
    && d'.drawn == d.drawn + 1
    && d'.matched == d.matched + (if f == Clean || f == Repeated then 1 else 0)
    && (forall c :: Tally(d'.byCategory, c) == Tally(d.byCategory, c) + (if CategoryOf(f) == Some(c) then 1 else 0))
    && d'.byRef == if f == Clean then d.byRef else d.byRef[Ref(f, j) := CategoryOf(f).value]
  }

  /** The expectations after n pairs of a family. */
  ghost predicate Labelled(f: Family, n: nat, d: Draft, d': Draft) {
    && (forall r :: r in d'.byRef <==> r in d.byRef || (f != Clean && r in RefsOf(f, n)))
    && (forall r :: r in d'.byRef ==>
          if f != Clean && r in RefsOf(f, n) then CategoryOf(f) == Some(d'.byRef[r])
          else r in d.byRef && d'.byRef[r] == d.byRef[r])
  }

  /** The first n pairs of family f lead from d to d'. */
  ghost predicate Wrote(spec: Spec, draw: nat -> nat, f: Family, n: nat, d: Draft, d': Draft)
    requires Bounded(draw)
  {
    && d'.internals == d.internals + Series(Inside, spec, draw, f, n)
    && d'.externals == d.externals + Series(Outside, spec, draw, f, n)
    && d'.drawn == d.drawn + n
    && d'.matched == d.matched + (if f == Clean || f == Repeated then n else 0)
    && (forall c :: Tally(d'.byCategory, c) == Tally(d.byCategory, c) + (if CategoryOf(f) == Some(c) then n else 0))
    && Labelled(f, n, d, d')
  }

  lemma WroteNone(spec: Spec, draw: nat -> nat, f: Family, d: Draft)
    requires Bounded(draw)
    ensures Wrote(spec, draw, f, 0, d, d)
  {
  }

  lemma LabelledOne(f: Family, n: nat, d0: Draft, d1: Draft, d2: Draft)
    requires Labelled(f, n, d0, d1)
    requires d2.byRef == if f == Clean then d1.byRef else d1.byRef[Ref(f, n) := CategoryOf(f).value]
    ensures Labelled(f, n + 1, d0, d2)
  {
    hide Ref;
  }

  lemma WroteRows(spec: Spec, draw: nat -> nat, f: Family, n: nat, d0: Draft, d1: Draft, d2: Draft)
    requires Bounded(draw) && d1.drawn == DrawIndex(spec, f, n)
    requires Wrote(spec, draw, f, n, d0, d1) && OnePair(draw, f, n, d1, d2)
    ensures d2.internals == d0.internals + Series(Inside, spec, draw, f, n + 1)
    ensures d2.externals == d0.externals + Series(Outside, spec, draw, f, n + 1)
    ensures d2.drawn == DrawIndex(spec, f, n + 1)
  {
    hide Ref, RowsOf, Tally, Labelled, RefsOf, CategoryOf;
  }

  lemma WroteTally(spec: Spec, draw: nat -> nat, f: Family, n: nat, d0: Draft, d1: Draft, d2: Draft, c: Category)
    requires Bounded(draw) && Wrote(spec, draw, f, n, d0, d1) && OnePair(draw, f, n, d1, d2)
    ensures Tally(d2.byCategory, c) == Tally(d0.byCategory, c) + (if CategoryOf(f) == Some(c) then n + 1 else 0)
  {
    hide Ref, RowsOf, Tally, Labelled, RefsOf, CategoryOf, Series;
  }

  lemma WroteLabels(spec: Spec, draw: nat -> nat, f: Family, n: nat, d0: Draft, d1: Draft, d2: Draft)
    requires Bounded(draw) && Wrote(spec, draw, f, n, d0, d1) && OnePair(draw, f, n, d1, d2)
    ensures Labelled(f, n + 1, d0, d2)
  {
    hide Ref, RowsOf, Tally, Labelled, RefsOf, Series;
    LabelledOne(f, n, d0, d1, d2);
  }

  lemma WroteOne(spec: Spec, draw: nat -> nat, f: Family, n: nat, d0: Draft, d1: Draft, d2: Draft)
    requires Bounded(draw) && d1.drawn == DrawIndex(spec, f, n)
    requires Wrote(spec, draw, f, n, d0, d1) && OnePair(draw, f, n, d1, d2)
    ensures Wrote(spec, draw, f, n + 1, d0, d2) && d2.drawn == DrawIndex(spec, f, n + 1)
  {
    hide Ref, RowsOf, Tally, Labelled, RefsOf, CategoryOf, Series, DrawIndex;
    WroteRows(spec, draw, f, n, d0, d1, d2);
    WroteLabels(spec, draw, f, n, d0, d1, d2);
    forall c ensures Tally(d2.byCategory, c) == Tally(d0.byCategory, c) + (if CategoryOf(f) == Some(c) then n + 1 else 0) {
      WroteTally(spec, draw, f, n, d0, d1, d2, c);
    }
  }

  class Generator {
    const spec: Spec
    const draw: nat -> nat
    var internals: seq<Record>
    var externals: seq<Record>
    var expectedByCategory: map<Category, nat>
    var expectedByRef: map<string, Category>
    var expectedMatched: nat
    var drawn: nat

    constructor (spec: Spec, draw: nat -> nat)
      ensures this.spec == spec && this.draw == draw
      ensures internals == [] && externals == [] && drawn == 0 && expectedMatched == 0
      ensures expectedByCategory == map[] && expectedByRef == map[]
    {
      this.spec, this.draw := spec, draw;
      internals, externals, expectedByCategory, expectedByRef, expectedMatched, drawn := [], [], map[], map[], 0, 0;
    }

    method Add(inRec: Option<Record>, exRec: Option<Record>)
      modifies this`internals, this`externals
      ensures internals == old(internals) + ToSeq(inRec) && externals == old(externals) + ToSeq(exRec)
    {
      if inRec.Some? { internals := internals + [inRec.value]; }
      if exRec.Some? { externals := externals + [exRec.value]; }
    }

    method Expect(ref: string, c: Category)
      modifies this`expectedByCategory, this`expectedByRef
      ensures expectedByRef == old(expectedByRef)[ref := c]
      ensures forall d :: Tally(expectedByCategory, d) == Tally(old(expectedByCategory), d) + (if d == c then 1 else 0)
    {
      expectedByCategory := expectedByCategory[c := Tally(expectedByCategory, c) + 1];
      expectedByRef := expectedByRef[ref := c];
    }

    /** The records of one pair, on the sides the family shows them. */
    method AddRecords(f: Family, j: nat, minor: nat)
      requires minor < 999_900
      modifies this`internals, this`externals
      ensures internals == old(internals) + RowsOf(Inside, f, j, minor)
      ensures externals == old(externals) + RowsOf(Outside, f, j, minor)
    {
      hide Ref, Wrap, TimeOf;
      var inRec := Record("", Ref(f, j), "CUST-001", "CUST-002", 100 + minor, "NGN", Transfer, Settled, TimeOf(j), None, map[]);
      var exRec := inRec.(initiatedAt := inRec.initiatedAt + MATCH_OFFSET);
      match f {
        case Clean =>
          Add(Some(inRec), Some(exRec));
        case Mismatch =>
          Add(Some(inRec), Some(exRec.(amountMinor := Wrap(inRec.amountMinor + Wrap(100 * (j + 1))))));
        case OnlyInternal =>
          Add(Some(inRec), None);
        case OnlyExternal =>
          Add(None, Some(inRec));
        case Repeated =>
          Add(Some(inRec), Some(exRec));
          Add(None, Some(exRec));
        case Owed =>
          Add(Some(inRec.(status := Failed)), None);
      }
    }

    /** One pair of the family, with what the matcher is expected to make of it. */
    method AddPair(f: Family, j: nat)
      requires Bounded(draw) && drawn == DrawIndex(spec, f, j)
      modifies this
      ensures OnePair(draw, f, j, old(Now()), Now())
    {
      hide Ref, Tally, Bounded, RowsOf;
      Drawn(draw, drawn);
      AddRecords(f, j, draw(drawn));
      drawn := drawn + 1;
      if f == Clean || f == Repeated { expectedMatched := expectedMatched + 1; }
      if CategoryOf(f).Some? { Expect(Ref(f, j), CategoryOf(f).value); }
    }

    ghost function Now(): Draft
      reads this
    {
      Draft(internals, externals, expectedByCategory, expectedByRef, expectedMatched, drawn)
    }

    lemma Drawn(draw: nat -> nat, k: nat)
      requires Bounded(draw)
      ensures draw(k) < 999_900
    {
    }

    method AddFamily(f: Family)
      requires Bounded(draw) && drawn == DrawIndex(spec, f, 0)
      modifies this
      ensures Wrote(spec, draw, f, Size(spec, f), old(Now()), Now())
    {
      hide Ref, RowsOf, Wrote, OnePair, RefsOf, CategoryOf, Tally, Series;
      ghost var d0 := Now();
      WroteNone(spec, draw, f, d0);
      for j := 0 to Size(spec, f)
        invariant Wrote(spec, draw, f, j, d0, Now())
        invariant drawn == DrawIndex(spec, f, j)
      {
        ghost var d1 := Now();
        AddPair(f, j);
        WroteOne(spec, draw, f, j, d0, d1, Now());
      }
    }
  }

  method Shuffle(s: seq<Record>, pick: nat -> nat) returns (shuffled: seq<Record>)
    ensures multiset(shuffled) == multiset(s)
  {
    shuffled := s;
    var i := |s|;
    while i > 1
      invariant |shuffled| == |s| && multiset(shuffled) == multiset(s)
    {
      i := i - 1;
      var j := pick(i) % (i + 1);
      shuffled := shuffled[i := shuffled[j]][j := shuffled[i]];
    }
  }

  /** Everything written, family by family, starting from nothing. */
  ghost predicate Written(spec: Spec, draw: nat -> nat, fs: seq<Family>, d: Draft)
    requires Bounded(draw)
  {
    && d.internals == Contents(Inside, spec, draw, fs) && d.externals == Contents(Outside, spec, draw, fs)
    && d.matched == (if Clean in fs then spec.count else 0) + (if Repeated in fs then spec.perCategory else 0)
    && (forall c :: Tally(d.byCategory, c) == if FamilyOf(c) in fs then spec.perCategory else 0)
    && ExactLabels(spec, fs, d.byRef)
  }

  lemma WrittenLabels(spec: Spec, draw: nat -> nat, fs: seq<Family>, f: Family, d: Draft, d': Draft, c: Category, r: string)
    requires Bounded(draw) && Written(spec, draw, fs, d) && f !in fs && Labelled(f, Size(spec, f), d, d')
    ensures r in d'.byRef ==> FamilyOf(d'.byRef[r]) in fs + [f] && r in RefsOf(FamilyOf(d'.byRef[r]), spec.perCategory)
    ensures FamilyOf(c) in fs + [f] && r in RefsOf(FamilyOf(c), spec.perCategory) ==> r in d'.byRef && d'.byRef[r] == c
  {
    hide Ref, RefsOf, Contents, Tally;
    RefsOfSpec(f, spec.perCategory);
    RefsOfSpec(FamilyOf(c), spec.perCategory);
  }

  lemma WrittenTotals(spec: Spec, draw: nat -> nat, fs: seq<Family>, f: Family, d: Draft, d': Draft, c: Category)
    requires Bounded(draw) && Written(spec, draw, fs, d) && f !in fs && Wrote(spec, draw, f, Size(spec, f), d, d')
    ensures Tally(d'.byCategory, c) == if FamilyOf(c) in fs + [f] then spec.perCategory else 0
    ensures d'.matched == (if Clean in fs + [f] then spec.count else 0) + (if Repeated in fs + [f] then spec.perCategory else 0)
  {
    hide RefsOf, Tally, Series, Labelled, Contents;
    assert FamilyOf(c) == f <==> CategoryOf(f) == Some(c);
  }

  lemma WrittenContents(spec: Spec, draw: nat -> nat, fs: seq<Family>, f: Family, d: Draft, d': Draft)
    requires Bounded(draw) && Written(spec, draw, fs, d) && Wrote(spec, draw, f, Size(spec, f), d, d')
    ensures d'.internals == Contents(Inside, spec, draw, fs + [f]) && d'.externals == Contents(Outside, spec, draw, fs + [f])
    ensures Labelled(f, Size(spec, f), d, d')
  {
    hide RefsOf, Tally, Series, Labelled, Size;
    assert (fs + [f])[..|fs|] == fs;
  }

  ghost predicate ExactLabels(spec: Spec, fs: seq<Family>, byRef: map<string, Category>) {
    && (forall r :: r in byRef ==> FamilyOf(byRef[r]) in fs && r in RefsOf(FamilyOf(byRef[r]), spec.perCategory))
    && (forall c, r :: FamilyOf(c) in fs && r in RefsOf(FamilyOf(c), spec.perCategory) ==> r in byRef && byRef[r] == c)
  }

  lemma WrittenAllLabels(spec: Spec, draw: nat -> nat, fs: seq<Family>, f: Family, d: Draft, d': Draft)
    requires Bounded(draw) && Written(spec, draw, fs, d) && f !in fs && Labelled(f, Size(spec, f), d, d')
    ensures ExactLabels(spec, fs + [f], d'.byRef)
  {
    hide Ref, RefsOf, Tally, Contents, Labelled, Size, FamilyOf, Written;
    forall r | r in d'.byRef
      ensures FamilyOf(d'.byRef[r]) in fs + [f] && r in RefsOf(FamilyOf(d'.byRef[r]), spec.perCategory) {
      WrittenLabels(spec, draw, fs, f, d, d', Duplicate, r);
    }
    forall c, r | FamilyOf(c) in fs + [f] && r in RefsOf(FamilyOf(c), spec.perCategory)
      ensures r in d'.byRef && d'.byRef[r] == c {
      WrittenLabels(spec, draw, fs, f, d, d', c, r);
    }
  }

  lemma WrittenOne(spec: Spec, draw: nat -> nat, fs: seq<Family>, f: Family, d: Draft, d': Draft)
    requires Bounded(draw) && Written(spec, draw, fs, d) && f !in fs && Wrote(spec, draw, f, Size(spec, f), d, d')
    ensures Written(spec, draw, fs + [f], d')
  {
    hide Ref, RefsOf, Tally, Contents, Labelled, Wrote, Size, FamilyOf, ExactLabels;
    WrittenContents(spec, draw, fs, f, d, d');
    forall c ensures Tally(d'.byCategory, c) == if FamilyOf(c) in fs + [f] then spec.perCategory else 0 {
      WrittenTotals(spec, draw, fs, f, d, d', c);
    }
    WrittenTotals(spec, draw, fs, f, d, d', Duplicate);
    WrittenAllLabels(spec, draw, fs, f, d, d');
  }

  /** Writes every family, then shuffles both sides. The expectations name exactly the injected references. */
  method Generate(spec: Spec, draw: nat -> nat, pick: nat -> nat) returns (g: Generator)
    requires Bounded(draw)
    ensures fresh(g)
    ensures multiset(g.internals) == multiset(Contents(Inside, spec, draw, FAMILIES))
    ensures multiset(g.externals) == multiset(Contents(Outside, spec, draw, FAMILIES))
    ensures g.expectedMatched == spec.count + spec.perCategory
    ensures forall c :: Tally(g.expectedByCategory, c) == spec.perCategory
    ensures forall c, r :: r in RefsOf(FamilyOf(c), spec.perCategory) <==> r in g.expectedByRef && g.expectedByRef[r] == c
  {
    hide Contents, Tally, RefsOf, Wrote, Ref, Written;
    g := new Generator(spec, draw);
    NothingWritten(spec, draw);
    for i := 0 to |FAMILIES|
      invariant g.spec == spec && g.draw == draw
      invariant Written(spec, draw, FAMILIES[..i], g.Now())
      invariant i < |FAMILIES| ==> g.drawn == DrawIndex(spec, FAMILIES[i], 0)
    {
      ghost var d := g.Now();
      g.AddFamily(FAMILIES[i]);
      WroteDraws(spec, draw, FAMILIES[i], d, g.Now());
      WrittenOne(spec, draw, FAMILIES[..i], FAMILIES[i], d, g.Now());
      assert FAMILIES[..i] + [FAMILIES[i]] == FAMILIES[..i + 1];
    }
    assert FAMILIES[..|FAMILIES|] == FAMILIES;
    AllWritten(spec, draw, g.Now());
    var internals := Shuffle(g.internals, pick);
    var externals := Shuffle(g.externals, pick);
    g.internals, g.externals := internals, externals;
  }

  lemma AllWritten(spec: Spec, draw: nat -> nat, d: Draft)
    requires Bounded(draw) && Written(spec, draw, FAMILIES, d)
    ensures d.internals == Contents(Inside, spec, draw, FAMILIES) && d.externals == Contents(Outside, spec, draw, FAMILIES)
    ensures d.matched == spec.count + spec.perCategory
    ensures forall c :: Tally(d.byCategory, c) == spec.perCategory
    ensures forall c, r :: r in RefsOf(FamilyOf(c), spec.perCategory) <==> r in d.byRef && d.byRef[r] == c
  {
    hide Contents, Tally, RefsOf;
    assert forall c :: FamilyOf(c) in FAMILIES;
  }

  lemma NothingWritten(spec: Spec, draw: nat -> nat)
    requires Bounded(draw)
    ensures Written(spec, draw, FAMILIES[..0], Draft([], [], map[], map[], 0, 0))
  {
  }

  lemma WroteDraws(spec: Spec, draw: nat -> nat, f: Family, d: Draft, d': Draft)
    requires Bounded(draw) && Wrote(spec, draw, f, Size(spec, f), d, d')
    ensures d'.drawn == d.drawn + Size(spec, f)
  {
  }

  /** Generate, then match: the matcher's report is the generator's expectation. */
  method GenerateAndMatch(spec: Spec, draw: nat -> nat, pick: nat -> nat, window: int64) returns (g: Generator, res: Result)
    requires Bounded(draw) && Tolerant(window) && spec.perCategory < TWO62
    ensures fresh(g)
    ensures res.matchedCount == g.expectedMatched
    ensures forall c :: Count(res.exceptions, c) == Tally(g.expectedByCategory, c)
    ensures forall e :: e in res.exceptions ==> e.reference in g.expectedByRef && g.expectedByRef[e.reference] == e.category
    ensures forall r :: r in g.expectedByRef ==> |OfClass(res.exceptions, g.expectedByRef[r], r)| == 1
  {
    hide Contents, Tally, RefsOf, OfClass, Count, Reports;
    g := Generate(spec, draw, pick);
    var stream := seq(|g.externals|, i requires 0 <= i < |g.externals| reads g => Item(g.externals[i]));
    AllItems(stream, g.externals);
    var out := Match(g.internals, stream, window);
    res := out.value;
    FullRecall(spec, draw, window, g.internals, g.externals, res);
    forall e | e in res.exceptions ensures e.reference in g.expectedByRef && g.expectedByRef[e.reference] == e.category {
      ClassMember(res.exceptions, e, e.category, e.reference);
      assert OfClass(res.exceptions, e.category, e.reference) != [];
    }
  }

  lemma {:induction false} AllItems(stream: seq<Read>, recs: seq<Record>)
    requires |stream| == |recs| && forall i :: 0 <= i < |recs| ==> stream[i] == Item(recs[i])
    ensures Readable(stream) && Records(stream) == recs
  {
    if stream != [] {
      AllItems(stream[..|stream|-1], recs[..|recs|-1]);
      assert recs == recs[..|recs|-1] + [recs[|recs|-1]];
    }
  }
}
