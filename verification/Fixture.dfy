/** Reconciliation fixtures: paired inputs with known discrepancies, for any draws and any shuffles. */
module Fixture {
  import opened Prelude
  import opened Reconcile
  import opened Matcher
  import opened MatchTheorems

  const SECOND: int := 1_000_000_000
  const MINUTE: int := 60 * SECOND

  /** 2026-05-31 09:00:00 UTC. */
  const BASE_TIME: Instant := 63_915_814_800 * SECOND

  const MATCH_OFFSET: int := 30 * SECOND

  const TWO62: int := 0x4000_0000_0000_0000

  datatype Spec = Spec(count: nat, perCategory: nat)

  /** The groups of pairs that are generated. */
  datatype Family = Clean | Mismatch | OnlyInternal | OnlyExternal | Repeated | Owed

  /** The generator's source of numbers below 999 900, by how many were drawn before. */
  ghost predicate Bounded(draw: nat -> nat) { forall k: nat :: draw(k) < 999_900 }

  // ---------------------------------------------------------------- references

  function Digit(d: nat): char
    requires d < 10
  {
    '0' + d as char
  }

  /** Decimal, zero-padded to the given width. */
  function Decimal(n: nat, width: nat): string {
    if n == 0 && width == 0 then ""
    else Decimal(n / 10, if width == 0 then 0 else width - 1) + [Digit(n % 10)]
  }

  function Prefix(f: Family): string {
    match f
    case Clean => "TXN-"
    case Mismatch => "AMIS-"
    case OnlyInternal => "UINT-"
    case OnlyExternal => "UEXT-"
    case Repeated => "DUP-"
    case Owed => "PREV-"
  }

  /** Sprintf's %06d and %04d print the digit 0 for zero, which the padding provides here. */
  function Ref(f: Family, j: nat): string {
    Prefix(f) + Decimal(j, if f == Clean then 6 else 4)
  }

  lemma {:induction false} DecimalInjective(m: nat, n: nat, width: nat)
    requires Decimal(m, width) == Decimal(n, width)
    ensures m == n
    decreases m + n
  {
    var rest := if width == 0 then 0 else width - 1;
    if m == 0 && width == 0 {
    } else if n == 0 && width == 0 {
    } else {
      var a, b := Decimal(m / 10, rest), Decimal(n / 10, rest);
      assert (a + [Digit(m % 10)])[..|a|] == a && (b + [Digit(n % 10)])[..|b|] == b;
      assert Decimal(m, width)[|a|] == Decimal(n, width)[|b|];
      if m + n > 0 { DecimalInjective(m / 10, n / 10, rest); }
    }
  }

  lemma RefsAreDistinct(f: Family, j: nat, g: Family, k: nat)
    requires Ref(f, j) == Ref(g, k)
    ensures f == g && j == k
  {
    hide Decimal;
    var r := Ref(f, j);
    assert r[0] == Prefix(f)[0] == Prefix(g)[0] && r[1] == Prefix(f)[1] == Prefix(g)[1];
    var a, b := Decimal(j, if f == Clean then 6 else 4), Decimal(k, if g == Clean then 6 else 4);
    assert r[|Prefix(f)|..] == a && r[|Prefix(f)|..] == b;
    DecimalInjective(j, k, if f == Clean then 6 else 4);
  }

  // ---------------------------------------------------------------- the intended contents

  /** How many numbers are drawn before the family's j-th amount. */
  function DrawIndex(spec: Spec, f: Family, j: nat): nat {
    match f
    case Clean => j
    case Mismatch => spec.count + j
    case OnlyInternal => spec.count + spec.perCategory + j
    case OnlyExternal => spec.count + 2 * spec.perCategory + j
    case Repeated => spec.count + 3 * spec.perCategory + j
    case Owed => spec.count + 4 * spec.perCategory + j
  }

  function TimeOf(j: nat): Instant { BASE_TIME + Wrap(j * MINUTE) }

  function Base(f: Family, j: nat, minor: nat): Record
    requires minor < 999_900
  {
    Record("", Ref(f, j), "CUST-001", "CUST-002", 100 + minor, "NGN", Transfer,
           if f == Owed then Failed else Settled, TimeOf(j), None, map[])
  }

  /** What the internal side shows of one pair. */
  function InternalOf(f: Family, j: nat, minor: nat): seq<Record>
    requires minor < 999_900
  {
    if f == OnlyExternal then [] else [Base(f, j, minor)]
  }

  function Counterpart(f: Family, j: nat, minor: nat): Record
    requires minor < 999_900
  {
    var b := Base(f, j, minor);
    match f
    case OnlyExternal => b
    case Mismatch => b.(amountMinor := Wrap(b.amountMinor + Wrap(100 * (j + 1))), initiatedAt := b.initiatedAt + MATCH_OFFSET)
    case _ => b.(initiatedAt := b.initiatedAt + MATCH_OFFSET)
  }

  /** What the external side shows of one pair. */
  function ExternalOf(f: Family, j: nat, minor: nat): seq<Record>
    requires minor < 999_900
  {
    match f
    case OnlyInternal | Owed => []
    case Repeated => [Counterpart(f, j, minor), Counterpart(f, j, minor)]
    case _ => [Counterpart(f, j, minor)]
  }

  datatype Side = Inside | Outside

  function RowsOf(side: Side, f: Family, j: nat, minor: nat): seq<Record>
    requires minor < 999_900
  {
    if side == Inside then InternalOf(f, j, minor) else ExternalOf(f, j, minor)
  }

  /** The first n pairs of a family, on one side. */
  ghost function Series(side: Side, spec: Spec, draw: nat -> nat, f: Family, n: nat): seq<Record>
    requires Bounded(draw)
  {
    if n == 0 then []
    else Series(side, spec, draw, f, n - 1) + RowsOf(side, f, n - 1, draw(DrawIndex(spec, f, n - 1)))
  }

  function Size(spec: Spec, f: Family): nat { if f == Clean then spec.count else spec.perCategory }

  /** The families in the order they are written. */
  const FAMILIES: seq<Family> := [Clean, Mismatch, OnlyInternal, OnlyExternal, Repeated, Owed]

  /** One whole side before it is shuffled, up to and including some of the families. */
  ghost function Contents(side: Side, spec: Spec, draw: nat -> nat, fs: seq<Family>): seq<Record>
    requires Bounded(draw)
  {
    if fs == [] then []
    else Contents(side, spec, draw, fs[..|fs|-1]) + Series(side, spec, draw, fs[|fs|-1], Size(spec, fs[|fs|-1]))
  }

  // ---------------------------------------------------------------- finding a reference in them

  lemma {:induction false} AllOfConcat(a: seq<Record>, b: seq<Record>, r: string)
    ensures AllOf(a + b, r) == AllOf(a, r) + AllOf(b, r)
  {
    if b == [] {
      assert a + b == a;
    } else {
      AllOfConcat(a, b[..|b|-1], r);
      assert (a + b)[..|a + b|-1] == a + b[..|b|-1];
    }
  }

  lemma RowsByReference(side: Side, f: Family, j: nat, minor: nat, r: string)
    requires minor < 999_900
    ensures AllOf(RowsOf(side, f, j, minor), r) == if r == Ref(f, j) then RowsOf(side, f, j, minor) else []
  {
    hide Ref;
    hide Counterpart, Base, AllOf;
    var rows := RowsOf(side, f, j, minor);
    RowReference(f, j, minor);
    if rows == [] {
      NoneOf(r);
    } else {
      AllOfOne(rows[0], r);
      AllOfConcat([rows[0]], [rows[0]], r);
      assert rows == [rows[0]] || rows == [rows[0]] + [rows[0]];
    }
  }

  lemma AllOfOne(x: Record, r: string)
    ensures AllOf([x], r) == if x.reference == r then [x] else []
  {
    assert [x][..0] == [];
  }

  lemma NoneOf(r: string)
    ensures AllOf([], r) == []
  {
  }

  lemma RowReference(f: Family, j: nat, minor: nat)
    requires minor < 999_900
    ensures Base(f, j, minor).reference == Counterpart(f, j, minor).reference == Ref(f, j)
  {
    hide Ref;
  }

  lemma {:induction false} SeriesByReference(side: Side, spec: Spec, draw: nat -> nat, f: Family, n: nat, g: Family, j: nat)
    requires Bounded(draw)
    ensures AllOf(Series(side, spec, draw, f, n), Ref(g, j))
            == if f == g && j < n then RowsOf(side, f, j, draw(DrawIndex(spec, f, j))) else []
  {
    hide Ref, RowsOf, DrawIndex, AllOf;
    if n == 0 {
      NoneOf(Ref(g, j));
    } else {
      var minor := draw(DrawIndex(spec, f, n - 1));
      SeriesByReference(side, spec, draw, f, n - 1, g, j);
      AllOfConcat(Series(side, spec, draw, f, n - 1), RowsOf(side, f, n - 1, minor), Ref(g, j));
      RowsByReference(side, f, n - 1, minor, Ref(g, j));
      if Ref(g, j) == Ref(f, n - 1) { RefsAreDistinct(g, j, f, n - 1); }
    }
  }

  lemma {:induction false} SeriesElsewhere(side: Side, spec: Spec, draw: nat -> nat, f: Family, n: nat, r: string)
    requires Bounded(draw) && forall j: nat :: r != Ref(f, j)
    ensures AllOf(Series(side, spec, draw, f, n), r) == []
  {
    hide Ref, RowsOf, DrawIndex, AllOf;
    if n == 0 {
      NoneOf(r);
    } else {
      var minor := draw(DrawIndex(spec, f, n - 1));
      SeriesElsewhere(side, spec, draw, f, n - 1, r);
      AllOfConcat(Series(side, spec, draw, f, n - 1), RowsOf(side, f, n - 1, minor), r);
      RowsByReference(side, f, n - 1, minor, r);
    }
  }

  lemma {:induction false} ContentsByReference(side: Side, spec: Spec, draw: nat -> nat, fs: seq<Family>, g: Family, j: nat)
    requires Bounded(draw) && forall a, b :: 0 <= a < b < |fs| ==> fs[a] != fs[b]
    ensures AllOf(Contents(side, spec, draw, fs), Ref(g, j))
            == if g in fs && j < Size(spec, g) then RowsOf(side, g, j, draw(DrawIndex(spec, g, j))) else []
  {
    hide Ref, RowsOf, DrawIndex, Size, Series, AllOf;
    if fs == [] {
      NoneOf(Ref(g, j));
    } else {
      var front, f := fs[..|fs|-1], fs[|fs|-1];
      assert fs == front + [f];
      ContentsByReference(side, spec, draw, front, g, j);
      AllOfConcat(Contents(side, spec, draw, front), Series(side, spec, draw, f, Size(spec, f)), Ref(g, j));
      SeriesByReference(side, spec, draw, f, Size(spec, f), g, j);
    }
  }

  lemma {:induction false} ContentsElsewhere(side: Side, spec: Spec, draw: nat -> nat, fs: seq<Family>, r: string)
    requires Bounded(draw) && forall f, j: nat :: r != Ref(f, j)
    ensures AllOf(Contents(side, spec, draw, fs), r) == []
  {
    hide Ref, Size, Series, AllOf;
    if fs == [] {
      NoneOf(r);
    } else {
      var front, f := fs[..|fs|-1], fs[|fs|-1];
      ContentsElsewhere(side, spec, draw, front, r);
      AllOfConcat(Contents(side, spec, draw, front), Series(side, spec, draw, f, Size(spec, f)), r);
      SeriesElsewhere(side, spec, draw, f, Size(spec, f), r);
    }
  }

  /** Any record of either side belongs to the rows of one pair, and none is a reversal. */
  lemma RecordBelongs(side: Side, spec: Spec, draw: nat -> nat, x: Record) returns (f: Family, j: nat)
    requires Bounded(draw) && x in Contents(side, spec, draw, FAMILIES)
    ensures x.reference == Ref(f, j) && j < Size(spec, f)
    ensures x in RowsOf(side, f, j, draw(DrawIndex(spec, f, j))) && x.kind == Transfer
  {
    hide Ref, Contents, DrawIndex, Size;
    AllOfMembers(Contents(side, spec, draw, FAMILIES), x.reference);
    if forall g, k: nat :: x.reference != Ref(g, k) {
      ContentsElsewhere(side, spec, draw, FAMILIES, x.reference);
      assert false;
    }
    f, j :| x.reference == Ref(f, j);
    ContentsByReference(side, spec, draw, FAMILIES, f, j);
  }

  lemma {:induction false} LastOfTransfers(s: seq<Record>, r: string)
    requires forall x :: x in s ==> x.kind == Transfer
    ensures LastOf(s, r) == if AllOf(s, r) == [] then None else Some(AllOf(s, r)[|AllOf(s, r)|-1])
  {
    if s != [] {
      assert s == s[..|s|-1] + [s[|s|-1]];
      LastOfTransfers(s[..|s|-1], r);
    }
  }

  // ---------------------------------------------------------------- what the matcher must say of them

  predicate Tolerant(window: int64) { window <= 0 || window >= MATCH_OFFSET }

  function CategoryOf(f: Family): Option<Category> {
    match f
    case Clean => None
    case Mismatch => Some(AmountMismatch)
    case OnlyInternal => Some(UnmatchedInternal)
    case OnlyExternal => Some(UnmatchedExternal)
    case Repeated => Some(Duplicate)
    case Owed => Some(PendingReversal)
  }

  /** A mismatched pair really differs in amount unless its surcharge is a multiple of 2^64. */
  lemma SurchargeShows(j: nat, minor: nat)
    requires minor < 999_900
    ensures Counterpart(Mismatch, j, minor).amountMinor == Base(Mismatch, j, minor).amountMinor <==> (j + 1) % TWO62 == 0
  {
    hide Ref;
    var a := 100 + minor;
    WrapAbsorbs(100 * (j + 1), a);
    assert Wrap(a + Wrap(100 * (j + 1))) == Wrap(a + 100 * (j + 1));
    WrapReturns(a, 100 * (j + 1));
    HundredFold(j + 1);
  }

  lemma WrapReturns(a: int64, d: int)
    ensures Wrap(a + d) == a <==> d % TWO64 == 0
  {
    var q := d / TWO64;
    if d % TWO64 == 0 { assert (a + TWO63 + q * TWO64) % TWO64 == a + TWO63; }
    if Wrap(a + d) == a {
      var p := (a + d + TWO63) / TWO64;
      assert d == p * TWO64;
    }
  }

  /** 100 is 4 times an odd number. */
  lemma HundredFold(n: nat)
    ensures (100 * n) % TWO64 == 0 <==> n % TWO62 == 0
  {
    var q, m := n / TWO62, n % TWO62;
    assert 100 * n == 25 * q * TWO64 + 100 * m;
    assert (100 * n) % TWO64 == (100 * m) % TWO64;
    if (100 * m) % TWO64 == 0 {
      var t := 100 * m / TWO64;
      assert 25 * m == t * TWO62;
      OddFactor(m, t);
    }
  }

  /** 2^62 leaves 4 when divided by 25. */
  lemma OddFactor(m: nat, t: nat)
    requires m < TWO62 && 25 * m == t * TWO62
    ensures m == 0
  {
    assert TWO62 == 25 * 184_467_440_737_095_516 + 4;
    assert 25 * (m - t * 184_467_440_737_095_516) == 4 * t;
    assert t < 25;
  }

  lemma PairAgrees(f: Family, j: nat, minor: nat, window: int64)
    requires minor < 999_900 && Tolerant(window) && f != OnlyExternal
    ensures Agree(Base(f, j, minor), Counterpart(f, j, minor), window)
            <==> Counterpart(f, j, minor).amountMinor == Base(f, j, minor).amountMinor
  {
    hide Ref;
  }

  /** What the unshuffled sides deserve, reference by reference. */
  lemma Deserved(spec: Spec, draw: nat -> nat, window: int64, f: Family, j: nat, c: Category)
    requires Bounded(draw) && Tolerant(window) && j < Size(spec, f) && (f == Mismatch ==> j + 1 < TWO62)
    ensures var i, e := Contents(Inside, spec, draw, FAMILIES), Contents(Outside, spec, draw, FAMILIES);
            && |Expected(i, e, window, c, Ref(f, j))| == (if CategoryOf(f) == Some(c) then 1 else 0)
            && (Reconciled(i, e, window, Ref(f, j)) <==> f == Clean || f == Repeated)
  {
    hide Ref, Contents, DrawIndex, Size, Agree, LastOf, AllOf, HasSettledReversal;
    var i, e := Contents(Inside, spec, draw, FAMILIES), Contents(Outside, spec, draw, FAMILIES);
    var minor := draw(DrawIndex(spec, f, j));
    ContentsByReference(Inside, spec, draw, FAMILIES, f, j);
    ContentsByReference(Outside, spec, draw, FAMILIES, f, j);
    NoReversals(spec, draw, Ref(f, j));
    if f != OnlyExternal { PairAgrees(f, j, minor, window); }
    if f == Mismatch { SurchargeShows(j, minor); }
    OneDuplicate(Counterpart(f, j, minor));
  }

  lemma OneDuplicate(x: Record)
    ensures |Duplicates([x, x][1..])| == 1 && Duplicates([x][1..]) == []
  {
    assert [x, x][1..] == [x];
  }

  lemma NoReversals(spec: Spec, draw: nat -> nat, r: string)
    requires Bounded(draw)
    ensures var i := Contents(Inside, spec, draw, FAMILIES);
            !HasSettledReversal(i, r) && LastOf(i, r) == if AllOf(i, r) == [] then None else Some(AllOf(i, r)[|AllOf(i, r)|-1])
  {
    hide Contents, LastOf, AllOf;
    var i := Contents(Inside, spec, draw, FAMILIES);
    forall x | x in i ensures x.kind == Transfer {
      var _, _ := RecordBelongs(Inside, spec, draw, x);
    }
    LastOfTransfers(i, r);
  }

  lemma NothingDeserved(spec: Spec, draw: nat -> nat, window: int64, r: string, c: Category)
    requires Bounded(draw) && forall f, j: nat :: j < Size(spec, f) ==> r != Ref(f, j)
    ensures var i, e := Contents(Inside, spec, draw, FAMILIES), Contents(Outside, spec, draw, FAMILIES);
            Expected(i, e, window, c, r) == [] && !Reconciled(i, e, window, r)
  {
    hide Ref, Contents, DrawIndex, Size, Agree, LastOf, AllOf, HasSettledReversal, RowsOf;
    NoReversals(spec, draw, r);
    Nowhere(Inside, spec, draw, r);
    Nowhere(Outside, spec, draw, r);
  }

  lemma Nowhere(side: Side, spec: Spec, draw: nat -> nat, r: string)
    requires Bounded(draw) && forall f, j: nat :: j < Size(spec, f) ==> r != Ref(f, j)
    ensures AllOf(Contents(side, spec, draw, FAMILIES), r) == []
  {
    hide Ref, Contents, DrawIndex, Size, AllOf, RowsOf;
    var s := Contents(side, spec, draw, FAMILIES);
    AllOfMembers(s, r);
    if AllOf(s, r) != [] {
      var x := AllOf(s, r)[0];
      var f, j := RecordBelongs(side, spec, draw, x);
      assert false;
    }
  }

  /** Generated inputs may be shuffled freely. */
  lemma FixtureIsOrderFree(spec: Spec, draw: nat -> nat, window: int64)
    requires Bounded(draw)
    ensures OrderFree(Contents(Inside, spec, draw, FAMILIES), Contents(Outside, spec, draw, FAMILIES), window)
  {
    hide Ref, Contents, DrawIndex, Size, Agree, Base, Counterpart;
    var i, e := Contents(Inside, spec, draw, FAMILIES), Contents(Outside, spec, draw, FAMILIES);
    forall x, y | x in i && y in i && x.reference == y.reference ensures x == y {
      var f, j := RecordBelongs(Inside, spec, draw, x);
      var g, k := RecordBelongs(Inside, spec, draw, y);
      RefsAreDistinct(f, j, g, k);
    }
    forall x, y | x in e && y in e && x.reference == y.reference ensures x == y {
      var f, j := RecordBelongs(Outside, spec, draw, x);
      var g, k := RecordBelongs(Outside, spec, draw, y);
      RefsAreDistinct(f, j, g, k);
    }
  }
}
