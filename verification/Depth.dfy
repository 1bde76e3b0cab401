/** Aggregated depth: the non-empty levels of a side, best first, with their totals. */
module Depth {
  import opened PriceTimeBook
  import opened BookLaws
  import opened IndexedBook
  import opened Widths

  datatype DepthLevel = DepthLevel(price: int, qty: nat)

  /** The non-empty levels from a rank on, best first. */
  function DepthFrom(b: Book, s: Side, r: nat): seq<DepthLevel>
    requires r <= Levels(b)
    decreases Levels(b) - r
  {
    if r == Levels(b) then []
    else
      var l := LevelAt(s, r, Levels(b));
      (if Queue(b, s, l) == [] then [] else [DepthLevel(b.lo + l, Total(Queue(b, s, l)))]) + DepthFrom(b, s, r + 1)
  }

  /** The levels from a rank on whose total, read at width m, is not zero, best first. */
  function ReadFrom(b: Book, s: Side, r: nat, m: nat): seq<DepthLevel>
    requires r <= Levels(b) && m > 0
    decreases Levels(b) - r
  {
    if r == Levels(b) then []
    else
      var l := LevelAt(s, r, Levels(b));
      var qty := Total(Queue(b, s, l)) % m;
      (if qty == 0 then [] else [DepthLevel(b.lo + l, qty)]) + ReadFrom(b, s, r + 1, m)
  }

  lemma NothingDeeper(b: Book, s: Side, m: nat)
    requires m > 0
    ensures ReadFrom(b, s, Levels(b), m) == [] && DepthFrom(b, s, Levels(b)) == []
  {}

  /** What a scan from the best shown level reads. */
  ghost function Scan(w: View, s: Side, m: nat): seq<DepthLevel>
    requires m > 0 && |w.shown.bids| == |w.shown.asks| == Levels(w.book)
  {
    BestIsBest(w.shown, s);
    if Best(w.shown, s) == -1 then [] else ReadFrom(w.book, s, LevelAt(s, Best(w.shown, s), Levels(w.book)), m)
  }

  /** Everything read from a rank on is at that rank or deeper, and the same holds of the true depth. */
  lemma {:induction false} ReadDeeper(b: Book, s: Side, r: nat, m: nat)
    requires r <= Levels(b) && m > 0
    ensures forall x :: x in ReadFrom(b, s, r, m) ==> AtLeastAsGood(s, LevelAt(s, r, Levels(b)), x.price - b.lo)
    ensures |ReadFrom(b, s, r, m)| <= Levels(b) - r
    decreases Levels(b) - r
  {
    hide ReadFrom, Queue, Total;
    if r < Levels(b) {
      ReadDeeper(b, s, r + 1, m);
      ReadUnfolds(b, s, r, m);
    } else {
      NothingDeeper(b, s, m);
    }
  }

  lemma DeeperRank(b: Book, s: Side, r: nat)
    ensures LevelEntry(b, s, r).price - b.lo == LevelAt(s, r, Levels(b))
    ensures LevelEntry(b, s, r).qty == Total(Queue(b, s, LevelAt(s, r, Levels(b))))
    ensures !AtLeastAsGood(s, LevelAt(s, r + 1, Levels(b)), LevelAt(s, r, Levels(b)))
  {}

  lemma EmptyTotal()
    ensures Total([]) == 0
  {}

  /** The true depth of a side starts at its best level. */
  lemma DepthStarts(b: Book, s: Side)
    requires |b.bids| == |b.asks|
    ensures Best(b, s) == -1 ==> DepthFrom(b, s, 0) == []
    ensures Best(b, s) != -1 ==>
      var f := LevelAt(s, Best(b, s), Levels(b));
      && 0 <= f < Levels(b) && LevelAt(s, f, Levels(b)) == Best(b, s) && Queue(b, s, Best(b, s)) != []
      && (forall k :: 0 <= k < f ==> Queue(b, s, LevelAt(s, k, Levels(b))) == [])
      && DepthFrom(b, s, 0) == DepthFrom(b, s, f)
      && DepthFrom(b, s, 0) == [LevelEntry(b, s, f)] + DepthFrom(b, s, f + 1)
  {
    var n, f := Levels(b), FirstRank(b, s, 0);
    hide DepthFrom, LevelEntry, Queue, FirstRank;
    SkipEmpty(b, s, 0, f);
    NothingDeeper(b, s, 1);
    if f < n {
      DepthUnfolds(b, s, f);
    }
  }

  lemma ShownIsThere(w: View, s: Side)
    requires Coherent(w)
    ensures |w.shown.bids| == |w.shown.asks| == |w.book.bids| == |w.book.asks|
    ensures Best(w.shown, s) != -1 ==>
      && 0 <= Best(w.shown, s) < Levels(w.book) && Best(w.book, s) != -1
      && AtLeastAsGood(s, Best(w.book, s), Best(w.shown, s))
  {
    BestIsBest(w.shown, s);
    BestIsBest(w.book, s);
    hide Best, AtLeastAsGood, Queue;
    if Best(w.shown, s) != -1 {
      assert ShownAt(w, s, Best(w.shown, s));
    }
  }

  function FirstLevels(d: seq<DepthLevel>, n: nat): (r: seq<DepthLevel>)
    ensures r <= d && |r| == Min(n, |d|)
  {
    if n <= |d| then d[..n] else d
  }

  /** None of the first max entries has a quantity that does not fit in m. */
  ghost predicate FirstFit(d: seq<DepthLevel>, m: nat, max: nat) {
    forall i :: 0 <= i < |d| && i < max ==> d[i].qty < m
  }

  lemma FirstCons(x: DepthLevel, d: seq<DepthLevel>, m: nat, max: nat)
    requires max > 0
    ensures FirstLevels([x] + d, max) == [x] + FirstLevels(d, max - 1)
    ensures FirstFit([x] + d, m, max) <==> x.qty < m && FirstFit(d, m, max - 1)
  {
    var r := [x] + d;
    assert max <= |r| ==> r[..max] == [x] + d[..max - 1];
    FitCons(x, d, m, max);
  }

  lemma FitCons(x: DepthLevel, d: seq<DepthLevel>, m: nat, max: nat)
    requires max > 0
    ensures FirstFit([x] + d, m, max) <==> x.qty < m && FirstFit(d, m, max - 1)
  {
    var r := [x] + d;
    assert r[0] == x;
    if FirstFit(r, m, max) {
      forall i | 0 <= i < |d| && i < max - 1 ensures d[i].qty < m {
        assert d[i] == r[i + 1];
      }
    }
  }

  lemma FirstNone(d: seq<DepthLevel>, m: nat)
    ensures FirstLevels(d, 0) == [] && FirstFit(d, m, 0)
  {}

  /** From a rank on, the first max entries read are the true ones exactly when the true ones fit. */
  lemma {:induction false} FirstRead(b: Book, s: Side, r: nat, m: nat, max: nat)
    requires r <= Levels(b) && m > 0 && Positive(b)
    ensures FirstLevels(ReadFrom(b, s, r, m), max) == FirstLevels(DepthFrom(b, s, r), max)
       <==> FirstFit(DepthFrom(b, s, r), m, max)
    decreases Levels(b) - r
  {
    hide *;
    if r < Levels(b) {
      if max == 0 {
        FirstNone(ReadFrom(b, s, r, m), m);
        FirstNone(DepthFrom(b, s, r), m);
      } else if Queue(b, s, LevelAt(s, r, Levels(b))) == [] {
        FirstRead(b, s, r + 1, m, max);
        EmptyRead(b, s, r, m);
      } else {
        FirstRead(b, s, r + 1, m, max - 1);
        if LevelEntry(b, s, r).qty < m {
          FittingRead(b, s, r, m);
          FittingEntry(LevelEntry(b, s, r), DepthFrom(b, s, r + 1), ReadFrom(b, s, r + 1, m), m, max);
        } else {
          OverflowingRead(b, s, r, m, max);
        }
      }
    } else {
      NothingDeeper(b, s, m);
      NoneFits(m, max);
    }
  }

  lemma NoneFits(m: nat, max: nat)
    ensures FirstFit([], m, max)
  {}

  lemma EmptyRead(b: Book, s: Side, r: nat, m: nat)
    requires r < Levels(b) && m > 0 && Queue(b, s, LevelAt(s, r, Levels(b))) == []
    ensures ReadFrom(b, s, r, m) == ReadFrom(b, s, r + 1, m) && DepthFrom(b, s, r) == DepthFrom(b, s, r + 1)
  {
    hide *;
    DepthUnfolds(b, s, r);
    ReadUnfolds(b, s, r, m);
    EmptyTotal();
    assert [] + ReadFrom(b, s, r + 1, m) == ReadFrom(b, s, r + 1, m);
  }

  /** A non-empty rank that fits is read as it is. */
  lemma FittingRead(b: Book, s: Side, r: nat, m: nat)
    requires r < Levels(b) && m > 0 && Queue(b, s, LevelAt(s, r, Levels(b))) != [] && Positive(b)
    requires LevelEntry(b, s, r).qty < m
    ensures ReadFrom(b, s, r, m) == [LevelEntry(b, s, r)] + ReadFrom(b, s, r + 1, m)
    ensures DepthFrom(b, s, r) == [LevelEntry(b, s, r)] + DepthFrom(b, s, r + 1)
  {
    SomethingThere(b, s, LevelAt(s, r, Levels(b)));
    hide DepthFrom, Positive, Queue, ReadFrom, Total;
    DepthUnfolds(b, s, r);
    ReadUnfolds(b, s, r, m);
    SmallMod(LevelEntry(b, s, r).qty, m);
  }

  /** One that does not is read as another entry or not at all. */
  lemma OverflowingRead(b: Book, s: Side, r: nat, m: nat, max: nat)
    requires r < Levels(b) && m > 0 && max > 0 && Queue(b, s, LevelAt(s, r, Levels(b))) != []
    requires LevelEntry(b, s, r).qty >= m
    ensures FirstLevels(ReadFrom(b, s, r, m), max) != FirstLevels(DepthFrom(b, s, r), max)
    ensures !FirstFit(DepthFrom(b, s, r), m, max)
  {
    hide *;
    DeeperRank(b, s, r);
    DepthUnfolds(b, s, r);
    ReadUnfolds(b, s, r, m);
    ReadDeeper(b, s, r + 1, m);
    var x := LevelEntry(b, s, r);
    ModBelow(x.qty, m);
    OverflowingEntry(x, DepthLevel(x.price, x.qty % m), DepthFrom(b, s, r + 1), ReadFrom(b, s, r + 1, m), m, max);
  }

  lemma SmallMod(n: nat, m: nat)
    requires n < m
    ensures n % m == n
  {}

  lemma ModBelow(n: nat, m: nat)
    requires m > 0
    ensures n % m < m
  {}

  lemma FittingEntry(x: DepthLevel, d: seq<DepthLevel>, e: seq<DepthLevel>, m: nat, max: nat)
    requires x.qty < m && max > 0
    requires FirstLevels(e, max - 1) == FirstLevels(d, max - 1) <==> FirstFit(d, m, max - 1)
    ensures FirstLevels([x] + e, max) == FirstLevels([x] + d, max) <==> FirstFit([x] + d, m, max)
  {
    hide *;
    FirstCons(x, d, m, max);
    FirstCons(x, e, m, max);
    assert FirstLevels(d, max - 1) == ([x] + FirstLevels(d, max - 1))[1..];
    assert FirstLevels(e, max - 1) == ([x] + FirstLevels(e, max - 1))[1..];
  }

  lemma OverflowingEntry(x: DepthLevel, y: DepthLevel, d: seq<DepthLevel>, e: seq<DepthLevel>, m: nat, max: nat)
    requires x.qty >= m > y.qty && max > 0 && x !in e
    ensures FirstLevels((if y.qty == 0 then [] else [y]) + e, max) != FirstLevels([x] + d, max)
    ensures !FirstFit([x] + d, m, max)
  {
    hide *;
    FirstCons(x, d, m, max);
    FirstIn((if y.qty == 0 then [] else [y]) + e, max);
    assert ([x] + FirstLevels(d, max - 1))[0] == x;
    assert x !in (if y.qty == 0 then [] else [y]) + e;
  }

  lemma SomethingThere(b: Book, s: Side, l: int)
    requires Positive(b) && Queue(b, s, l) != []
    ensures Total(Queue(b, s, l)) > 0
  {
    assert AllPositive(Queue(b, s, l));
    TotalPositive(Queue(b, s, l));
  }

  lemma FirstIn(d: seq<DepthLevel>, max: nat)
    ensures forall x :: x in FirstLevels(d, max) ==> x in d
    ensures |d| <= max ==> FirstLevels(d, max) == d
  {}

  /** The first max entries of the scan of a side are true: the best level is shown, and what they hold fits. */
  ghost predicate ReadsFirst(w: View, s: Side, m: nat, max: nat) {
    max == 0 || (Best(w.shown, s) == Best(w.book, s) && FirstFit(DepthFrom(w.book, s, 0), m, max))
  }

  /**
   * The first max entries of the scan are those of the true depth exactly when none are
   * asked for, or the best level is shown and the first max totals fit.
   */
  lemma FirstOfScan(w: View, s: Side, m: nat, max: nat)
    requires Coherent(w) && Positive(w.book) && m > 0
    ensures |w.shown.bids| == |w.shown.asks| == Levels(w.book)
    ensures FirstLevels(Scan(w, s, m), max) == FirstLevels(DepthFrom(w.book, s, 0), max) <==> ReadsFirst(w, s, m, max)
  {
    hide AtLeastAsGood, Best, Coherent, DepthFrom, FirstFit, FirstLevels, LevelAt, LevelEntry, Levels, Positive;
    hide Queue, ReadFrom;
    var b, n := w.book, Levels(w.book);
    LevelsAre(b);
    ShownIsThere(w, s);
    DepthStarts(b, s);
    FirstIn(Scan(w, s, m), max);
    if max == 0 {
      FirstNone(Scan(w, s, m), m);
      FirstNone(DepthFrom(b, s, 0), m);
    } else if Best(b, s) == -1 {
      NoneFits(m, max);
    } else {
      var f := LevelAt(s, Best(b, s), n);
      FirstCons(LevelEntry(b, s, f), DepthFrom(b, s, f + 1), m, max);
      if Best(w.shown, s) == Best(b, s) {
        FirstRead(b, s, f, m, max);
      } else {
        assert LevelEntry(b, s, f) in FirstLevels(DepthFrom(b, s, 0), max);
        if Best(w.shown, s) != -1 {
          WorseStart(b, s, Best(w.shown, s), m);
        }
      }
    }
  }

  lemma LevelsAre(b: Book)
    ensures Levels(b) == |b.bids|
  {}

  /** A scan from a worse level than the best does not read the best. */
  lemma WorseStart(b: Book, s: Side, l: int, m: nat)
    requires |b.bids| == |b.asks| && Best(b, s) != -1 && m > 0
    requires 0 <= l < Levels(b) && l != Best(b, s) && AtLeastAsGood(s, Best(b, s), l)
    ensures 0 <= LevelAt(s, l, Levels(b)) < Levels(b) && 0 <= LevelAt(s, Best(b, s), Levels(b)) < Levels(b)
    ensures LevelEntry(b, s, LevelAt(s, Best(b, s), Levels(b))) !in ReadFrom(b, s, LevelAt(s, l, Levels(b)), m)
  {
    hide Best, DepthFrom, Queue, ReadFrom, Total;
    DepthStarts(b, s);
    ReadDeeper(b, s, LevelAt(s, l, Levels(b)), m);
  }

  /** The scan of a side is its true depth exactly when its best level is shown and its totals fit. */
  lemma ScanIsDepth(w: View, s: Side, m: nat)
    requires Coherent(w) && Positive(w.book) && m > 0
    ensures |w.shown.bids| == |w.shown.asks| == Levels(w.book)
    ensures Scan(w, s, m) == DepthFrom(w.book, s, 0)
       <==> Best(w.shown, s) == Best(w.book, s) && FitsSide(w.book, s, m)
  {
    hide Best, Coherent, DepthFrom, FirstFit, FirstLevels, FitsSide, LevelAt, Levels, Positive, Queue, ReadFrom;
    var b, n := w.book, Levels(w.book);
    LevelsAre(b);
    FirstOfScan(w, s, m, n + 1);
    ShownIsThere(w, s);
    if Best(w.shown, s) != -1 {
      ScanStartsAt(w, s);
      ReadDeeper(b, s, LevelAt(s, Best(w.shown, s), n), m);
    }
    DepthFits(b, s, m);
    FirstIn(Scan(w, s, m), n + 1);
    FirstIn(DepthFrom(b, s, 0), n + 1);
  }

  lemma ScanStartsAt(w: View, s: Side)
    requires 0 <= Best(w.shown, s) < Levels(w.book)
    ensures 0 <= LevelAt(s, Best(w.shown, s), Levels(w.book)) < Levels(w.book)
  {
    hide Best;
  }

  lemma {:induction false} DepthShort(b: Book, s: Side, r: nat)
    requires r <= Levels(b)
    ensures |DepthFrom(b, s, r)| <= Levels(b) - r
    decreases Levels(b) - r
  {
    hide *;
    if r < Levels(b) {
      DepthUnfolds(b, s, r);
      DepthShort(b, s, r + 1);
    } else {
      ExactNone(b, s);
    }
  }

  /** All entries of the true depth fit exactly when the totals of the side do. */
  lemma DepthFits(b: Book, s: Side, m: nat)
    requires |b.bids| == |b.asks| && m > 0
    ensures |DepthFrom(b, s, 0)| <= Levels(b)
    ensures FirstFit(DepthFrom(b, s, 0), m, Levels(b) + 1) <==> FitsSide(b, s, m)
  {
    DepthShort(b, s, 0);
    DepthIsExact(b, s, 0);
    EmptyTotal();
    hide BestToWorst, DepthFrom, LevelAt, Queue, Total;
    var d := DepthFrom(b, s, 0);
    if FirstFit(d, m, Levels(b) + 1) {
      forall l: int ensures Total(Queue(b, s, l)) < m {
        if Queue(b, s, l) != [] {
          InItsEntry(b, s, l);
        }
      }
    } else {
      var i :| 0 <= i < |d| && d[i].qty >= m;
      assert TrueLevel(b, s, 0, d[i]);
    }
  }

  lemma InItsEntry(b: Book, s: Side, l: int)
    requires |b.bids| == |b.asks| && Queue(b, s, l) != []
    ensures var k := LevelAt(s, l, Levels(b));
      0 <= k < Levels(b) && LevelAt(s, k, Levels(b)) == l
      && LevelEntry(b, s, k) == DepthLevel(b.lo + l, Total(Queue(b, s, l)))
  {
    hide Total;
  }

  /**
   * A run whose depth is wrong: the asks at the lowest price have a total of m, which
   * reads zero at width m, so the scan of the asks finds nothing.
   */
  lemma DepthOfLostLevel(lo: int, levels: nat, capacity: nat, m: nat) returns (views: seq<View>, ops: seq<Op>)
    requires levels > 1 && capacity >= 3 && m > 1
    ensures IsRunAt(views, ops, capacity, m) && views[0] == EmptyView(lo, levels) && |views| == 5
    ensures |views[4].shown.bids| == |views[4].shown.asks| == Levels(views[4].book)
    ensures Scan(views[4], Sell, m) == [] && DepthLevel(lo, m) in DepthFrom(views[4].book, Sell, 0)
  {
    hide *;
    views, ops := WrappedLevelIsLost(lo, levels, capacity, m);
    RunLength(views, ops, capacity, m);
    EmptyAt(lo, levels);
    EmptySteady(lo, levels);
    RunsStaySteady(views, ops, capacity, m, 4);
    SteadyParts(views[4]);
    LostDepth(views[4], m);
  }

  lemma RunLength(views: seq<View>, ops: seq<Op>, capacity: nat, m: nat)
    requires IsRunAt(views, ops, capacity, m)
    ensures |views| == |ops| + 1
  {}

  lemma EmptyAt(lo: int, levels: nat)
    ensures EmptyView(lo, levels).book.lo == lo
  {}

  lemma LostDepth(w: View, m: nat)
    requires Coherent(w) && m > 1 && Best(w.shown, Sell) == -1
    requires Queue(w.book, Sell, 0) == [Entry(0, m - 1), Entry(1, 1)]
    ensures |w.shown.bids| == |w.shown.asks| == Levels(w.book)
    ensures Scan(w, Sell, m) == [] && DepthLevel(w.book.lo, m) in DepthFrom(w.book, Sell, 0)
  {
    DepthIsExact(w.book, Sell, 0);
    TotalCons(Entry(0, m - 1), [Entry(1, 1)]);
    TotalCons(Entry(1, 1), []);
    assert [Entry(1, 1)] + [] == [Entry(1, 1)];
    assert [Entry(0, m - 1)] + [Entry(1, 1)] == [Entry(0, m - 1), Entry(1, 1)];
    assert LevelEntry(w.book, Sell, 0) == DepthLevel(w.book.lo, m);
    assert Queue(w.book, Sell, LevelAt(Sell, 0, Levels(w.book))) != [];
  }

  /** Levels whose total reads zero add nothing. */
  lemma {:induction false} SkipZero(b: Book, s: Side, r: nat, r': nat, m: nat)
    requires r <= r' <= Levels(b) && m > 0
    requires forall i :: r <= i < r' ==> Total(Queue(b, s, LevelAt(s, i, Levels(b)))) % m == 0
    ensures ReadFrom(b, s, r, m) == ReadFrom(b, s, r', m)
    decreases r' - r
  {
    hide LevelAt, Levels, Queue, ReadFrom, Total;
    if r < r' {
      ReadUnfolds(b, s, r, m);
      SkipZero(b, s, r + 1, r', m);
      assert [] + ReadFrom(b, s, r + 1, m) == ReadFrom(b, s, r + 1, m);
    }
  }

  lemma ReadUnfolds(b: Book, s: Side, r: nat, m: nat)
    requires r < Levels(b) && m > 0
    ensures var l := LevelAt(s, r, Levels(b));
      var qty := Total(Queue(b, s, l)) % m;
      ReadFrom(b, s, r, m) == (if qty == 0 then [] else [DepthLevel(b.lo + l, qty)]) + ReadFrom(b, s, r + 1, m)
  {}

  /** Ranks without orders add nothing. */
  lemma {:induction false} SkipEmpty(b: Book, s: Side, r: nat, r': nat)
    requires r <= r' <= Levels(b)
    requires forall i :: r <= i < r' ==> Queue(b, s, LevelAt(s, i, Levels(b))) == []
    ensures DepthFrom(b, s, r) == DepthFrom(b, s, r')
    decreases r' - r
  {
    hide DepthFrom, LevelAt, LevelEntry, Levels, Queue, Total;
    if r < r' {
      DepthUnfolds(b, s, r);
      SkipEmpty(b, s, r + 1, r');
    }
  }

  ghost predicate StrictlyBetter(s: Side, p: int, p': int) {
    if s == Buy then p > p' else p < p'
  }

  ghost predicate TrueLevel(b: Book, s: Side, r: nat, x: DepthLevel) {
    && Queue(b, s, x.price - b.lo) != [] && x.qty == Total(Queue(b, s, x.price - b.lo))
    && AtLeastAsGood(s, LevelAt(s, r, Levels(b)), x.price - b.lo)
  }

  ghost predicate BestToWorst(d: seq<DepthLevel>, s: Side) {
    forall i, j :: 0 <= i < j < |d| ==> StrictlyBetter(s, d[i].price, d[j].price)
  }

  function LevelEntry(b: Book, s: Side, k: int): DepthLevel {
    var l := LevelAt(s, k, Levels(b));
    DepthLevel(b.lo + l, Total(Queue(b, s, l)))
  }

  /** d lists every non-empty level from rank r on, once, strictly best to worst, with its queue total. */
  ghost predicate ExactDepth(b: Book, s: Side, r: nat, d: seq<DepthLevel>) {
    && (forall i :: 0 <= i < |d| ==> TrueLevel(b, s, r, d[i]))
    && BestToWorst(d, s)
    && (forall k :: r <= k < Levels(b) && Queue(b, s, LevelAt(s, k, Levels(b))) != [] ==> LevelEntry(b, s, k) in d)
  }

  lemma ExactStep(b: Book, s: Side, r: nat, d: seq<DepthLevel>)
    requires r < Levels(b) && ExactDepth(b, s, r + 1, d)
    ensures Queue(b, s, LevelAt(s, r, Levels(b))) == [] ==> ExactDepth(b, s, r, d)
    ensures Queue(b, s, LevelAt(s, r, Levels(b))) != [] ==> ExactDepth(b, s, r, [LevelEntry(b, s, r)] + d)
  {
    hide BestToWorst, LevelAt, LevelEntry, Levels, Queue, StrictlyBetter, TrueLevel;
    var x := LevelEntry(b, s, r);
    forall i | 0 <= i < |d| ensures TrueLevel(b, s, r, d[i]) && StrictlyBetter(s, x.price, d[i].price) {
      DeeperIsWorse(b, s, r, d[i]);
    }
    ConsBestToWorst(x, d, s);
    LevelEntryTrue(b, s, r);
    assert ([x] + d)[0] == x && forall y :: y in d ==> y in [x] + d;
    assert forall i :: 0 <= i < |[x] + d| ==> ([x] + d)[i] == if i == 0 then x else d[i - 1];
  }

  lemma DeeperIsWorse(b: Book, s: Side, r: nat, x: DepthLevel)
    requires TrueLevel(b, s, r + 1, x)
    ensures TrueLevel(b, s, r, x) && StrictlyBetter(s, LevelEntry(b, s, r).price, x.price)
  {}

  lemma LevelEntryTrue(b: Book, s: Side, r: nat)
    ensures Queue(b, s, LevelAt(s, r, Levels(b))) != [] ==> TrueLevel(b, s, r, LevelEntry(b, s, r))
  {}

  lemma ConsBestToWorst(x: DepthLevel, d: seq<DepthLevel>, s: Side)
    requires BestToWorst(d, s) && forall i :: 0 <= i < |d| ==> StrictlyBetter(s, x.price, d[i].price)
    ensures BestToWorst([x] + d, s)
  {
    assert forall i :: 0 < i < |[x] + d| ==> ([x] + d)[i] == d[i - 1];
  }

  /** The depth of the whole side is exact. */
  lemma {:induction false} DepthIsExact(b: Book, s: Side, r: nat)
    requires r <= Levels(b)
    ensures ExactDepth(b, s, r, DepthFrom(b, s, r))
    decreases Levels(b) - r
  {
    hide *;
    if r < Levels(b) {
      DepthUnfolds(b, s, r);
      DepthIsExact(b, s, r + 1);
      ExactStep(b, s, r, DepthFrom(b, s, r + 1));
    } else {
      ExactNone(b, s);
    }
  }

  lemma ExactNone(b: Book, s: Side)
    ensures DepthFrom(b, s, Levels(b)) == [] && ExactDepth(b, s, Levels(b), [])
  {}

  lemma DepthUnfolds(b: Book, s: Side, r: nat)
    requires r < Levels(b)
    ensures DepthFrom(b, s, r)
         == if Queue(b, s, LevelAt(s, r, Levels(b))) == [] then DepthFrom(b, s, r + 1)
            else [LevelEntry(b, s, r)] + DepthFrom(b, s, r + 1)
  {}
}
