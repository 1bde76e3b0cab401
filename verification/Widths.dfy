/**
 * Level totals at the width of QtyT: exactly when an order or a cancel leaves the index
 * showing the whole book, exactly when the totals still fit afterwards, and a run that
 * loses a level when they do not.
 */
module Widths {
  import opened PriceTimeBook
  import opened BookLaws
  import opened IndexedBook

  // ---- When the index keeps showing everything ----------------------------------------------

  /** The zero test of unlink_order is right about a level: a total of zero means it is empty. */
  ghost predicate NoFalseZero(b: Book, s: Side, l: int, m: nat)
    requires m > 0
  {
    Total(Queue(b, s, l)) % m == 0 ==> Queue(b, s, l) == []
  }

  /** No order filled on the way leaves behind a level whose total reads zero. */
  ghost predicate CleanMatch(b: Book, side: Side, limit: int, qty: nat, m: nat)
    requires Positive(b) && m > 0
    decreases qty
  {
    MatchUnfolds(b, side, limit, qty, 0);
    MatchEnds(b, side, limit, qty)
    || var maker, l := side.Opposite(), Best(b, side.Opposite());
       var t := Min(qty, Queue(b, maker, l)[0].qty);
       && (t == Queue(b, maker, l)[0].qty ==> NoFalseZero(Consume(b, maker, l, t), maker, l, m))
       && CleanMatch(Consume(b, maker, l, t), side, limit, qty - t, m)
  }

  lemma CleanUnfolds(b: Book, side: Side, limit: int, qty: nat, m: nat)
    requires Positive(b) && m > 0
    ensures MatchEnds(b, side, limit, qty) ==> CleanMatch(b, side, limit, qty, m)
    ensures !MatchEnds(b, side, limit, qty) ==>
      var maker, l := side.Opposite(), Best(b, side.Opposite());
      && Queue(b, maker, l) != []
      && var t := Min(qty, Queue(b, maker, l)[0].qty);
      && 0 < t <= qty && t <= Queue(b, maker, l)[0].qty && Positive(Consume(b, maker, l, t))
      && (CleanMatch(b, side, limit, qty, m)
          <==> (t == Queue(b, maker, l)[0].qty ==> NoFalseZero(Consume(b, maker, l, t), maker, l, m))
               && CleanMatch(Consume(b, maker, l, t), side, limit, qty - t, m))
  {
    MatchUnfolds(b, side, limit, qty, 0);
  }

  lemma WholeCoherent(b: Book)
    requires |b.bids| == |b.asks|
    ensures Coherent(View(b, b))
  {}

  /** One trade with everything shown: the rest of the level drops out exactly on a false zero. */
  lemma ServedExact(b: Book, s: Side, l: int, t: nat, m: nat)
    requires |b.bids| == |b.asks| && Queue(b, s, l) != [] && t <= Queue(b, s, l)[0].qty && m > 0
    ensures var clean := t == Queue(b, s, l)[0].qty ==> NoFalseZero(Consume(b, s, l, t), s, l, m);
      && (clean ==> Served(View(b, b), s, l, t, m) == View(Consume(b, s, l, t), Consume(b, s, l, t)))
      && (!clean ==> Hidden(Served(View(b, b), s, l, t, m), s, l))
  {}

  /** A level hidden on the makers' side stays hidden while matching goes on. */
  lemma {:induction false} HiddenStays(w: View, side: Side, limit: int, qty: nat, id: int, m: nat, l: int)
    requires Coherent(w) && Positive(w.book) && m > 0 && Hidden(w, side.Opposite(), l)
    ensures Hidden(MatchAt(w, side, limit, qty, id, m).view, side.Opposite(), l)
    decreases qty
  {
    hide Best, Coherent, Consume, Crosses, LadderOf, Levels, MatchAt, MatchEnds, Min, Positive, Queue;
    hide Served, Side.Opposite, Total;
    MatchAtUnfolds(w, side, limit, qty, id, m);
    if !MatchEnds(w.shown, side, limit, qty) {
      var maker, best := side.Opposite(), Best(w.shown, side.Opposite());
      var t := Min(qty, Queue(w.book, maker, best)[0].qty);
      ServedShown(w, maker, best, t, m, maker, l);
      ServedIs(w, maker, best, t, m);
      ConsumeQueues(w.book, maker, best, t, maker, l);
      HiddenStays(Served(w, maker, best, t, m), side, limit, qty - t, id, m, l);
    }
  }

  /** With everything shown, matching at width m is price-time matching if it is clean, and hides a level if not. */
  lemma {:induction false} MatchExact(b: Book, side: Side, limit: int, qty: nat, id: int, m: nat) returns (l: int)
    requires Positive(b) && m > 0
    ensures Coherent(View(b, b))
    ensures var r, p := MatchAt(View(b, b), side, limit, qty, id, m), Match(b, side, limit, qty, id);
      && (CleanMatch(b, side, limit, qty, m) ==> r == Settled(View(p.book, p.book), p.execs, p.rest))
      && (!CleanMatch(b, side, limit, qty, m) ==> Hidden(r.view, side.Opposite(), l))
    decreases qty
  {
    hide Best, CleanMatch, Coherent, Consume, Crosses, Hidden, LadderOf, Levels, Match, MatchAt, MatchEnds;
    hide Min, NoFalseZero, Positive, Queue, Served, Side.Opposite;
    PositiveLevels(b);
    WholeCoherent(b);
    l := 0;
    var w := View(b, b);
    MatchAtUnfolds(w, side, limit, qty, id, m);
    MatchUnfolds(b, side, limit, qty, id);
    CleanUnfolds(b, side, limit, qty, m);
    if !MatchEnds(b, side, limit, qty) {
      var maker, best := side.Opposite(), Best(b, side.Opposite());
      var t := Min(qty, Queue(b, maker, best)[0].qty);
      ServedExact(b, maker, best, t, m);
      if t == Queue(b, maker, best)[0].qty && !NoFalseZero(Consume(b, maker, best, t), maker, best, m) {
        l := best;
        HiddenStays(Served(w, maker, best, t, m), side, limit, qty - t, id, m, l);
      } else {
        l := MatchExact(Consume(b, maker, best, t), side, limit, qty - t, id, m);
      }
    }
  }

  /** A call keeps the index whole if its arguments are refused or its matching is clean. */
  ghost predicate CleanProcess(b: Book, capacity: nat, side: Side, price: int, qty: nat, id: int, m: nat)
    requires Positive(b) && m > 0
  {
    GoodArguments(b, capacity, price, qty, id) ==> CleanMatch(b, side, price, qty, m)
  }

  lemma JoinedWhole(b: Book, s: Side, l: int, e: Entry)
    requires 0 <= l < |LadderOf(b, s)|
    ensures Joined(View(b, b), s, l, e) == View(Rest(b, s, l, e), Rest(b, s, l, e))
  {}

  lemma HiddenIsNotWhole(w: View, s: Side, l: int)
    requires Hidden(w, s, l)
    ensures w.shown != w.book
  {}

  /**
   * process_order on a fully shown book is exactly price-time priority, and leaves the
   * book fully shown, exactly when no order it fills leaves a level totalling zero.
   */
  lemma ProcessExact(b: Book, capacity: nat, side: Side, price: int, qty: nat, id: int, m: nat)
    requires WellFormed(b) && m > 0
    ensures Coherent(View(b, b)) && Positive(b)
    ensures var o, p := ProcessAt(View(b, b), capacity, side, price, qty, id, m),
      Process(b, capacity, side, price, qty, id);
      && (o.view.shown == o.view.book <==> CleanProcess(b, capacity, side, price, qty, id, m))
      && (CleanProcess(b, capacity, side, price, qty, id, m) ==> o == Result(p.accepted, View(p.book, p.book), p.execs))
  {
    hide CleanMatch, Coherent, GoodArguments, Joined, LadderOf, Levels, Match, MatchAt, Positive, Queue;
    hide Rest, Resting, UniqueIds, WellFormed;
    WellFormedPositive(b);
    PositiveLevels(b);
    WholeCoherent(b);
    if GoodArguments(b, capacity, price, qty, id) {
      var l := MatchExact(b, side, price, qty, id, m);
      var w := View(b, b);
      MatchAtShape(w, side, price, qty, id, m);
      MatchShape(b, side, price, qty, id);
      PriceOnLadder(b, capacity, side, price, qty, id);
      var r := MatchAt(w, side, price, qty, id, m);
      if !CleanMatch(b, side, price, qty, m) {
        HiddenIsNotWhole(r.view, side.Opposite(), l);
        if r.rest > 0 && !Resting(r.view.book, id) {
          var e := Entry(id, r.rest);
          JoinedQueues(r.view, side, price - b.lo, e, side.Opposite(), l);
          HiddenIsNotWhole(Joined(r.view, side, price - b.lo, e), side.Opposite(), l);
        }
      } else if r.rest > 0 && !Resting(r.view.book, id) {
        JoinedWhole(r.view.book, side, price - b.lo, Entry(id, r.rest));
      }
    }
  }

  /** Removing an id leaves no level totalling zero. */
  ghost predicate CleanRemoval(b: Book, id: int, m: nat)
    requires m > 0
  {
    forall s: Side, l: int :: HasId(Queue(b, s, l), id) ==> NoFalseZero(Remove(b, id), s, l, m)
  }

  lemma RemoveAtWhole(b: Book, id: int, m: nat, s: Side, l: int)
    requires |b.bids| == |b.asks| && m > 0
    ensures Coherent(View(b, b))
    ensures Queue(RemoveAt(View(b, b), id, m).shown, s, l) == Queue(Remove(b, id), s, l)
       <==> (HasId(Queue(b, s, l), id) ==> NoFalseZero(Remove(b, id), s, l, m))
  {
    WholeCoherent(b);
    RemoveAtQueues(View(b, b), id, m, s, l);
    RemoveQueue(b, id, s, l);
    hide RemoveAt, Remove, Queue;
    if !HasId(Queue(b, s, l), id) {
      WithoutAbsent(Queue(b, s, l), id);
    }
  }

  /** cancel on a fully shown book leaves it fully shown exactly when the removal is clean. */
  lemma RemoveExact(b: Book, id: int, m: nat)
    requires |b.bids| == |b.asks| && m > 0
    ensures Coherent(View(b, b))
    ensures RemoveAt(View(b, b), id, m).book == Remove(b, id)
    ensures RemoveAt(View(b, b), id, m).shown == Remove(b, id) <==> CleanRemoval(b, id, m)
  {
    hide Coherent, HasId, Levels, NoFalseZero, Queue, Remove, RemoveAt;
    WholeCoherent(b);
    var v := RemoveAt(View(b, b), id, m);
    RemoveAtShape(View(b, b), id, m);
    forall s: Side, l: int
      ensures Queue(v.shown, s, l) == Queue(v.book, s, l)
         <==> (HasId(Queue(b, s, l), id) ==> NoFalseZero(Remove(b, id), s, l, m))
    {
      RemoveAtWhole(b, id, m, s, l);
    }
    if CleanRemoval(b, id, m) {
      BooksEqual(v.shown, v.book);
    }
  }

  // ---- Runs with everything shown ---------------------------------------------------------------

  /** An operation that leaves a fully shown book fully shown. */
  ghost predicate CleanOp(b: Book, capacity: nat, op: Op, m: nat)
    requires Positive(b) && m > 0
  {
    match op
    case Place(side, price, qty, id) => CleanProcess(b, capacity, side, price, qty, id, m)
    case Pull(id) => CleanRemoval(b, id, m)
    case Clear => true
  }

  lemma OpExact(b: Book, capacity: nat, op: Op, m: nat)
    requires WellFormed(b) && Steady(View(b, b)) && m > 0
    ensures Positive(b)
    ensures var v := ApplyAt(View(b, b), capacity, op, m);
      && (v.shown == v.book <==> CleanOp(b, capacity, op, m))
      && (CleanOp(b, capacity, op, m) ==> v.book == Apply(b, capacity, op))
  {
    hide CleanProcess, CleanRemoval, Coherent, EmptyView, Levels, Positive, Process, ProcessAt, Remove;
    hide RemoveAt, Steady, UniqueIds, WellFormed;
    WellFormedPositive(b);
    PositiveLevels(b);
    match op
    case Place(side, price, qty, id) => ProcessExact(b, capacity, side, price, qty, id, m);
    case Pull(id) => RemoveExact(b, id, m);
    case Clear => ClearIsEmpty(b, capacity);
  }

  lemma ClearIsEmpty(b: Book, capacity: nat)
    requires WellFormed(b)
    ensures var e := EmptyView(b.lo, Levels(b)); e.shown == e.book == Apply(b, capacity, Clear)
  {}

  /**
   * The engine is exactly the width-free price-time book, with nothing hidden at any step
   * of a run, exactly when every operation of the run is clean in the book it meets.
   */
  lemma {:induction false} PlainExactly(views: seq<View>, ops: seq<Op>, capacity: nat, m: nat, n: nat)
    requires IsRunAt(views, ops, capacity, m) && Steady(views[0]) && views[0].shown == views[0].book && n <= |ops|
    ensures forall i :: 0 <= i <= n ==> Steady(views[i]) && WellFormed(views[i].book) && Positive(views[i].book)
    ensures (forall i :: 0 <= i <= n ==> views[i].shown == views[i].book)
       <==> forall i :: 0 <= i < n ==> CleanOp(views[i].book, capacity, ops[i], m)
    ensures (forall i :: 0 <= i < n ==> CleanOp(views[i].book, capacity, ops[i], m)) ==>
              forall i :: 0 <= i < n ==> views[i + 1].book == Apply(views[i].book, capacity, ops[i])
  {
    hide Apply, ApplyAt, CleanOp, Coherent, Levels, Positive, Steady, Uncrossed, UniqueIds, WellFormed;
    SteadyParts(views[0]);
    if n > 0 {
      PlainExactly(views, ops, capacity, m, n - 1);
      ApplyAtKeeps(views[n - 1], capacity, ops[n - 1], m);
      SteadyParts(views[n]);
      if views[n - 1].shown == views[n - 1].book {
        assert views[n - 1] == View(views[n - 1].book, views[n - 1].book);
        OpExact(views[n - 1].book, capacity, ops[n - 1], m);
      }
    }
  }

  // ---- When totals fit ---------------------------------------------------------------------------

  /** No queue total of this side reaches the width of QtyT. */
  ghost predicate FitsSide(b: Book, s: Side, m: nat) {
    forall l: int :: Total(Queue(b, s, l)) < m
  }

  /** Every level total of the book is below the modulus. */
  ghost predicate Fits(b: Book, m: nat) {
    forall s: Side :: FitsSide(b, s, m)
  }

  lemma TotalPositive(q: seq<Entry>)
    requires AllPositive(q) && q != []
    ensures Total(q) > 0
  {}

  lemma SmallTotal(q: seq<Entry>, m: nat)
    requires AllPositive(q) && Total(q) < m
    ensures Total(q) % m == 0 ==> q == []
  {
    if q != [] {
      TotalPositive(q);
    }
  }

  lemma FittedLevelIsClean(b: Book, s: Side, l: int, m: nat)
    requires Positive(b) && FitsSide(b, s, m) && m > 0
    ensures NoFalseZero(b, s, l, m)
  {
    assert AllPositive(Queue(b, s, l));
    SmallTotal(Queue(b, s, l), m);
  }

  /** Totals that fit on the makers' side make every call clean. */
  lemma {:induction false} FitsIsCleanMatch(b: Book, side: Side, limit: int, qty: nat, m: nat)
    requires Positive(b) && m > 0 && FitsSide(b, side.Opposite(), m)
    ensures CleanMatch(b, side, limit, qty, m)
    decreases qty
  {
    hide *;
    CleanUnfolds(b, side, limit, qty, m);
    if !MatchEnds(b, side, limit, qty) {
      var maker, l := side.Opposite(), Best(b, side.Opposite());
      var t := Min(qty, Queue(b, maker, l)[0].qty);
      ConsumeKeepsFit(b, maker, l, t, maker, m);
      FittedLevelIsClean(Consume(b, maker, l, t), maker, l, m);
      FitsIsCleanMatch(Consume(b, maker, l, t), side, limit, qty - t, m);
    }
  }

  lemma ConsumeTotal(b: Book, s: Side, l: int, t: nat, s': Side, l': int)
    requires Queue(b, s, l) != [] && t <= Queue(b, s, l)[0].qty
    ensures Total(Queue(Consume(b, s, l, t), s', l'))
         == Total(Queue(b, s', l')) - if s' == s && l' == l then t else 0
  {}

  lemma {:induction false} MatchFits(b: Book, side: Side, limit: int, qty: nat, id: int, s: Side, m: nat)
    requires Positive(b) && FitsSide(b, s, m)
    ensures FitsSide(Match(b, side, limit, qty, id).book, s, m)
    decreases qty
  {
    hide Positive, FitsSide, Match, Best, Queue, Consume;
    MatchUnfolds(b, side, limit, qty, id);
    if !MatchEnds(b, side, limit, qty) {
      var maker, l := side.Opposite(), Best(b, side.Opposite());
      var t := Min(qty, Queue(b, maker, l)[0].qty);
      ConsumeKeepsFit(b, maker, l, t, s, m);
      MatchFits(Consume(b, maker, l, t), side, limit, qty - t, id, s, m);
    }
  }

  lemma ConsumeKeepsFit(b: Book, maker: Side, l: int, t: nat, s: Side, m: nat)
    requires Queue(b, maker, l) != [] && t <= Queue(b, maker, l)[0].qty && FitsSide(b, s, m)
    ensures FitsSide(Consume(b, maker, l, t), s, m)
  {
    forall l': int ensures Total(Queue(Consume(b, maker, l, t), s, l')) < m {
      ConsumeTotal(b, maker, l, t, s, l');
      assert Total(Queue(b, s, l')) < m;
    }
  }

  lemma RestTotal(b: Book, s: Side, l: int, e: Entry, s': Side, l': int)
    requires 0 <= l < |LadderOf(b, s)|
    ensures Total(Queue(Rest(b, s, l, e), s', l')) == Total(Queue(b, s', l')) + if s' == s && l' == l then e.qty else 0
  {
    RestQueues(b, s, l, e, s', l');
    TotalConcat(Queue(b, s', l'), [e]);
    TotalConcat(Queue(b, s', l'), []);
  }

  /**
   * All totals fit after an order exactly when the remainder it rests fits on top of
   * its own level, which the caller can read off the book beforehand.
   */
  lemma ProcessFits(b: Book, capacity: nat, side: Side, price: int, qty: nat, id: int, m: nat)
    requires WellFormed(b) && Fits(b, m)
    ensures var t := Match(b, side, price, qty, id);
      Fits(Process(b, capacity, side, price, qty, id).book, m)
      <==> !GoodArguments(b, capacity, price, qty, id) || t.rest == 0 || Resting(t.book, id)
           || Total(Queue(b, side, price - b.lo)) + t.rest < m
  {
    hide Fits, FitsSide, GoodArguments, LadderOf, Match, Positive, Queue, Rest, Resting, Total, UniqueIds;
    hide WellFormed;
    WellFormedPositive(b);
    EachSideFits(b, m);
    if GoodArguments(b, capacity, price, qty, id) {
      var t := Match(b, side, price, qty, id);
      MatchShape(b, side, price, qty, id);
      MatchFits(b, side, price, qty, id, Buy, m);
      MatchFits(b, side, price, qty, id, Sell, m);
      BothSidesFit(t.book, m);
      PriceInRange(b, capacity, side, price, qty, id, t.book);
      SameLadderSameQueue(b, t.book, side, price - b.lo);
      if t.rest > 0 && !Resting(t.book, id) {
        RestFits(t.book, side, price - b.lo, Entry(id, t.rest), m);
      }
    }
  }

  lemma EachSideFits(b: Book, m: nat)
    requires Fits(b, m)
    ensures FitsSide(b, Buy, m) && FitsSide(b, Sell, m)
  {}

  lemma SameLadderSameQueue(b: Book, c: Book, s: Side, l: int)
    requires LadderOf(c, s) == LadderOf(b, s)
    ensures Queue(c, s, l) == Queue(b, s, l)
  {}

  lemma BothSidesFit(b: Book, m: nat)
    requires FitsSide(b, Buy, m) && FitsSide(b, Sell, m)
    ensures Fits(b, m)
  {
    forall s: Side ensures FitsSide(b, s, m) {
      assert s == Buy || s == Sell;
    }
  }

  lemma RestFits(b: Book, s: Side, l: int, e: Entry, m: nat)
    requires 0 <= l < |LadderOf(b, s)| && FitsSide(b, Buy, m) && FitsSide(b, Sell, m)
    ensures Fits(Rest(b, s, l, e), m) <==> Total(Queue(b, s, l)) + e.qty < m
  {
    var c := Rest(b, s, l, e);
    RestTotal(b, s, l, e, s, l);
    if Total(Queue(b, s, l)) + e.qty < m {
      forall s': Side, l': int ensures Total(Queue(c, s', l')) < m {
        RestTotal(b, s, l, e, s', l');
        assert FitsSide(b, s', m);
      }
    } else {
      assert !FitsSide(c, s, m);
    }
  }

  // ---- Cancelling ------------------------------------------------------------------------------

  lemma {:induction false} WithoutTotal(q: seq<Entry>, id: int)
    ensures Total(Without(q, id)) <= Total(q)
    ensures AllPositive(q) ==> AllPositive(Without(q, id))
  {
    if q != [] {
      WithoutTotal(q[1..], id);
      assert AllPositive(q) ==> AllPositive(q[1..]);
    }
  }

  lemma RemoveFits(b: Book, id: int, m: nat)
    requires Fits(b, m)
    ensures Fits(Remove(b, id), m)
  {
    forall s: Side, l: int ensures Total(Queue(Remove(b, id), s, l)) < m {
      RemoveQueue(b, id, s, l);
      WithoutTotal(Queue(b, s, l), id);
      assert FitsSide(b, s, m);
    }
  }

  /** A cancel keeps the index whenever the book it leaves fits, even if the book it found did not. */
  lemma FitsAfterIsClean(b: Book, id: int, m: nat)
    requires m > 0 && Positive(b) && Fits(Remove(b, id), m)
    ensures CleanRemoval(b, id, m)
  {
    forall s: Side, l: int | HasId(Queue(b, s, l), id) ensures NoFalseZero(Remove(b, id), s, l, m) {
      RemoveQueue(b, id, s, l);
      assert AllPositive(Queue(b, s, l)) && FitsSide(Remove(b, id), s, m);
      WithoutTotal(Queue(b, s, l), id);
      SmallTotal(Queue(Remove(b, id), s, l), m);
    }
  }

  /**
   * Resting an order and cancelling it again gives back the book, and the view with it
   * exactly when the level was shown before if and only if its total does not read zero:
   * the cancel shows a level that was hidden and hides one that was shown.
   */
  lemma RestedCancelExactly(w: View, s: Side, l: int, e: Entry, m: nat)
    requires Coherent(w) && !Resting(w.book, e.id) && 0 <= l < |LadderOf(w.book, s)| && m > 0
    ensures |LadderOf(w.book, s)| == |LadderOf(w.shown, s)| && Coherent(Joined(w, s, l, e))
    ensures var v := RemoveAt(Joined(w, s, l, e), e.id, m);
      && v.book == w.book
      && (v == w <==> (Queue(w.shown, s, l) == [] <==> Total(Queue(w.book, s, l)) % m == 0))
  {
    hide Coherent, HasId, Joined, Kept, LadderOf, Queue, Remove, RemoveAt, Rest, Resting, Total, Without;
    LaddersFit(w, s);
    JoinedCoherent(w, s, l, e);
    JoinedShape(w, s, l, e);
    JoinedQueues(w, s, l, e, s, l);
    var j := Joined(w, s, l, e);
    var v := RemoveAt(j, e.id, m);
    RemoveAtShape(j, e.id, m);
    RestThenRemove(w.book, s, l, e);
    forall s': Side, l': int
      ensures Queue(v.shown, s', l')
           == if s' != s || l' != l then Queue(w.shown, s', l')
              else if Total(Queue(w.book, s, l)) % m == 0 then [] else Queue(w.book, s, l)
    {
      CancelledQueue(w, s, l, e, m, s', l');
    }
    CoherentAt(w, s, l);
    WholeSizes(w);
    TotalOfNothing(m);
    if Queue(v.shown, s, l) == Queue(w.shown, s, l) {
      BooksEqual(v.shown, w.shown);
    }
  }

  lemma CancelledQueue(w: View, s: Side, l: int, e: Entry, m: nat, s': Side, l': int)
    requires Coherent(w) && !Resting(w.book, e.id) && 0 <= l < |LadderOf(w.book, s)| == |LadderOf(w.shown, s)| && m > 0
    requires Coherent(Joined(w, s, l, e))
    ensures Queue(RemoveAt(Joined(w, s, l, e), e.id, m).shown, s', l')
         == if s' != s || l' != l then Queue(w.shown, s', l')
            else if Total(Queue(w.book, s, l)) % m == 0 then [] else Queue(w.book, s, l)
  {
    hide Coherent, HasId, Joined, LadderOf, Queue, RemoveAt, Rest, Resting, Total, Without;
    var q := Queue(w.book, s', l');
    JoinedQueues(w, s, l, e, s', l');
    RemoveAtQueues(Joined(w, s, l, e), e.id, m, s', l');
    NotInQueue(w.book, e.id, s', l');
    assert q + [] == q;
    if s' == s && l' == l {
      HasIdAppend(q, e, e.id);
      WithoutAbsent(q, e.id);
      WithoutConcat(q, [e], e.id);
      WithoutOnly(e);
    }
  }

  lemma WithoutOnly(e: Entry)
    ensures Without([e], e.id) == []
  {}

  lemma CoherentAt(w: View, s: Side, l: int)
    requires Coherent(w)
    ensures Queue(w.shown, s, l) == [] || Queue(w.shown, s, l) == Queue(w.book, s, l)
  {
    hide Queue;
    assert ShownAt(w, s, l);
  }

  lemma WholeSizes(w: View)
    requires Coherent(w)
    ensures w.shown.lo == w.book.lo && |w.book.bids| == |w.book.asks| == |w.shown.bids| == |w.shown.asks|
    ensures Levels(w.book) == |w.book.bids|
  {}

  lemma TotalOfNothing(m: nat)
    requires m > 0
    ensures Total([]) % m == 0
  {}

  /**
   * Discarding what is left of an order under a fresh id, on a fully shown book: the book
   * is fully shown afterwards exactly when matching was clean and, if something was left,
   * the orders at its own level do not have a total reading zero.
   */
  lemma DiscardExactly(b: Book, capacity: nat, side: Side, price: int, qty: nat, id: int, m: nat)
    requires WellFormed(b) && !Resting(b, id) && GoodArguments(b, capacity, price, qty, id) && m > 0
    ensures Coherent(View(b, b)) && Positive(b)
    ensures Coherent(ProcessAt(View(b, b), capacity, side, price, qty, id, m).view)
    ensures var v := RemoveAt(ProcessAt(View(b, b), capacity, side, price, qty, id, m).view, id, m);
      v.shown == v.book
      <==> CleanMatch(b, side, price, qty, m)
           && (MatchAt(View(b, b), side, price, qty, id, m).rest > 0 ==> NoFalseZero(b, side, price - b.lo, m))
  {
    hide CleanMatch, Coherent, GoodArguments, HasId, Joined, LadderOf, Levels, Match, MatchAt, MatchEnds;
    hide NoFalseZero, Positive, Queue, Remove, RemoveAt, Resting, ShowsLess, Shrinks, UniqueIds, WellFormed;
    WellFormedPositive(b);
    PositiveLevels(b);
    WholeCoherent(b);
    var w := View(b, b);
    MatchAtShape(w, side, price, qty, id, m);
    MatchAtLeaves(w, side, price, qty, id, m);
    PriceOnLadder(b, capacity, side, price, qty, id);
    var h := MatchExact(b, side, price, qty, id, m);
    var r := MatchAt(w, side, price, qty, id, m);
    var o := ProcessAt(w, capacity, side, price, qty, id, m);
    if Resting(r.view.book, id) {
      ShrinksResting(b, r.view.book, id);
    }
    if r.rest == 0 {
      RemoveAbsentAt(r.view, id, m);
      if !CleanMatch(b, side, price, qty, m) {
        HiddenIsNotWhole(r.view, side.Opposite(), h);
      }
    } else {
      var l, e := price - b.lo, Entry(id, r.rest);
      RestedCancelExactly(r.view, side, l, e, m);
      SameLadderSameQueue(b, r.view.book, side, l);
      SameLadderSameQueue(w.shown, r.view.shown, side, l);
      FalseZeroIs(b, side, l, m);
      TotalOfNothing(m);
      if CleanMatch(b, side, price, qty, m) {
        var v := RemoveAt(o.view, id, m);
        assert r.view == View(r.view.book, r.view.book);
        assert v.shown == v.book <==> v == r.view;
      } else {
        CancelledQueue(r.view, side, l, e, m, side.Opposite(), h);
        OtherSide(side);
        StillHidden(r.view, RemoveAt(o.view, id, m), side.Opposite(), h);
      }
    }
  }

  lemma OtherSide(s: Side)
    ensures s.Opposite() != s
  {}

  lemma FalseZeroIs(b: Book, s: Side, l: int, m: nat)
    requires m > 0
    ensures NoFalseZero(b, s, l, m) <==> (Total(Queue(b, s, l)) % m == 0 ==> Queue(b, s, l) == [])
  {}

  lemma StillHidden(w: View, v: View, s: Side, l: int)
    requires Hidden(w, s, l) && v.book == w.book && Queue(v.shown, s, l) == Queue(w.shown, s, l)
    ensures v.shown != v.book
  {}

  /**
   * On the width-free book, taking out an order that has just been entered under a fresh
   * id leaves no false zero exactly when its level had none before, or nothing was rested;
   * so in particular when all totals fitted, even if the level no longer fits.
   */
  lemma FreshCancelIsClean(b: Book, capacity: nat, side: Side, price: int, qty: nat, id: int, m: nat)
    requires WellFormed(b) && m > 0 && !Resting(b, id) && GoodArguments(b, capacity, price, qty, id)
    ensures var c := Process(b, capacity, side, price, qty, id).book;
      && (CleanRemoval(c, id, m)
          <==> (Match(b, side, price, qty, id).rest > 0 ==> NoFalseZero(b, side, price - b.lo, m)))
      && (Fits(b, m) ==> CleanRemoval(c, id, m) && Fits(Remove(c, id), m))
  {
    hide Fits, FitsSide, GoodArguments, LadderOf, Levels, Match, MatchEnds, NoFalseZero, Positive, Queue, Remove;
    hide Rest, Resting, Shrinks, UniqueIds, WellFormed;
    WellFormedPositive(b);
    SubmitThenCancel(b, capacity, side, price, qty, id);
    MatchShape(b, side, price, qty, id);
    MatchShrinks(b, side, price, qty, id);
    var r, l := Match(b, side, price, qty, id), price - b.lo;
    PriceInRange(b, capacity, side, price, qty, id, r.book);
    if Resting(r.book, id) {
      ShrinksResting(b, r.book, id);
    }
    var c := Process(b, capacity, side, price, qty, id).book;
    SameLadderSameQueue(b, r.book, side, l);
    FalseZeroIs(b, side, l, m);
    FalseZeroIs(r.book, side, l, m);
    forall s': Side, l': int
      ensures HasId(Queue(c, s', l'), id) <==> r.rest > 0 && s' == side && l' == l
    {
      NotInQueue(r.book, id, s', l');
      if r.rest > 0 {
        RestQueues(r.book, side, l, Entry(id, r.rest), s', l');
        HasIdAppend(Queue(r.book, s', l'), Entry(id, r.rest), id);
        assert Queue(r.book, s', l') + [] == Queue(r.book, s', l');
      }
    }
    if Fits(b, m) {
      EachSideFits(b, m);
      MatchFits(b, side, price, qty, id, Buy, m);
      MatchFits(b, side, price, qty, id, Sell, m);
      BothSidesFit(r.book, m);
      assert side == Buy || side == Sell;
      FittedLevelIsClean(b, side, l, m);
    }
  }

  // ---- When totals do not fit --------------------------------------------------------------------

  /** A fully shown book whose only orders are the asks q at its lowest price. */
  ghost predicate SellsOnly(w: View, q: seq<Entry>) {
    && w.shown == w.book && WellFormed(w.book) && Levels(w.book) > 1
    && forall s: Side, l: int :: Queue(w.book, s, l) == if s == Sell && l == 0 then q else []
  }

  lemma SellsOnlySteady(w: View, q: seq<Entry>)
    requires SellsOnly(w, q)
    ensures Steady(w)
  {}

  /** A sell at the lowest price of a book without bids joins its level in full. */
  lemma SellJoins(w: View, q: seq<Entry>, capacity: nat, qty: nat, id: int, m: nat)
    requires SellsOnly(w, q) && 0 <= id < capacity && qty > 0 && !HasId(q, id) && m > 0
    ensures Steady(w)
    ensures var v := ApplyAt(w, capacity, Place(Sell, w.book.lo, qty, id), m);
      SellsOnly(v, q + [Entry(id, qty)]) && v.book.lo == w.book.lo && Levels(v.book) == Levels(w.book)
  {
    SellsOnlySteady(w, q);
    var b := w.book;
    var c := Rest(b, Sell, 0, Entry(id, qty));
    BestIsBest(b, Buy);
    MatchUnfolds(b, Sell, b.lo, qty, id);
    ProcessExact(b, capacity, Sell, b.lo, qty, id, m);
    ProcessKeepsBook(b, capacity, Sell, b.lo, qty, id);
    CleanUnfolds(b, Sell, b.lo, qty, m);
    assert !Resting(b, id);
    hide Match, MatchAt, ProcessAt, WellFormed, Resting, Best, CleanMatch, Steady;
    forall s: Side, l: int ensures Queue(c, s, l) == if s == Sell && l == 0 then q + [Entry(id, qty)] else [] {
      RestQueues(b, Sell, 0, Entry(id, qty), s, l);
    }
  }

  /**
   * Three sell orders at one price, of m - 1, 1 and 1, and a cancel of the third: the
   * level's total has wrapped to zero, so with two asks resting the engine has no best
   * ask. Holds at every width.
   */
  lemma WrappedLevelIsLost(lo: int, levels: nat, capacity: nat, m: nat) returns (views: seq<View>, ops: seq<Op>)
    requires levels > 1 && capacity >= 3 && m > 1
    ensures IsRunAt(views, ops, capacity, m) && views[0] == EmptyView(lo, levels)
    ensures ops == [Place(Sell, lo, m - 1, 0), Place(Sell, lo, 1, 1), Place(Sell, lo, 1, 2), Pull(2)]
    ensures Queue(views[4].book, Sell, 0) == [Entry(0, m - 1), Entry(1, 1)] && Best(views[4].shown, Sell) == -1
  {
    hide *;
    var x, y, z := Entry(0, m - 1), Entry(1, 1), Entry(2, 1);
    FreshIds(x, y, z);
    EmptySells(lo, levels);
    var v0 := EmptyView(lo, levels);
    SellJoins(v0, [], capacity, m - 1, 0, m);
    var v1 := ApplyAt(v0, capacity, Place(Sell, lo, m - 1, 0), m);
    SellJoins(v1, [x], capacity, 1, 1, m);
    var v2 := ApplyAt(v1, capacity, Place(Sell, lo, 1, 1), m);
    SellJoins(v2, [x, y], capacity, 1, 2, m);
    var v3 := ApplyAt(v2, capacity, Place(Sell, lo, 1, 2), m);
    ThirdLeaves(v3, capacity, m);
    var v4 := ApplyAt(v3, capacity, Pull(2), m);
    views, ops := [v0, v1, v2, v3, v4],
      [Place(Sell, lo, m - 1, 0), Place(Sell, lo, 1, 1), Place(Sell, lo, 1, 2), Pull(2)];
    FourStepRun(v0, v1, v2, v3, v4, ops[0], ops[1], ops[2], ops[3], capacity, m);
  }

  lemma FourStepRun(v0: View, v1: View, v2: View, v3: View, v4: View, o0: Op, o1: Op, o2: Op, o3: Op,
                    capacity: nat, m: nat)
    requires m > 0 && Steady(v0) && Steady(v1) && Steady(v2) && Steady(v3)
    requires v1 == ApplyAt(v0, capacity, o0, m) && v2 == ApplyAt(v1, capacity, o1, m)
    requires v3 == ApplyAt(v2, capacity, o2, m) && v4 == ApplyAt(v3, capacity, o3, m)
    ensures IsRunAt([v0, v1, v2, v3, v4], [o0, o1, o2, o3], capacity, m)
  {
    hide Steady, ApplyAt;
  }

  lemma FreshIds(x: Entry, y: Entry, z: Entry)
    requires x.id == 0 && y.id == 1 && z.id == 2
    ensures !HasId([], 0) && !HasId([x], 1) && !HasId([x, y], 2)
    ensures [] + [x] == [x] && [x] + [y] == [x, y] && [x, y] + [z] == [x, y, z]
  {}

  lemma EmptySells(lo: int, levels: nat)
    requires levels > 1
    ensures SellsOnly(EmptyView(lo, levels), []) && EmptyView(lo, levels).book.lo == lo
  {
    assert forall s: Side, l: int :: Queue(EmptyView(lo, levels).book, s, l) == [];
  }

  lemma ThirdLeaves(w: View, capacity: nat, m: nat)
    requires m > 1 && SellsOnly(w, [Entry(0, m - 1), Entry(1, 1), Entry(2, 1)])
    ensures Steady(w)
    ensures var v := ApplyAt(w, capacity, Pull(2), m);
      Queue(v.book, Sell, 0) == [Entry(0, m - 1), Entry(1, 1)] && Best(v.shown, Sell) == -1
  {
    SellsOnlySteady(w, [Entry(0, m - 1), Entry(1, 1), Entry(2, 1)]);
    var x, y, z := Entry(0, m - 1), Entry(1, 1), Entry(2, 1);
    var q := [x, y, z];
    var v := RemoveAt(w, 2, m);
    assert q[2].id == 2 && q[..2] + q[3..] == [x, y];
    WithoutAt(q, 2, 2);
    TotalCons(x, [y]);
    TotalCons(y, []);
    assert [x] + [y] == [x, y] && [y] + [] == [y];
    assert Total([x, y]) % m == 0;
    forall l: int ensures Queue(v.shown, Sell, l) == [] {
      RemoveAtQueues(w, 2, m, Sell, l);
      assert l == 0 ==> HasId(q, 2);
    }
    RemoveAtQueues(w, 2, m, Sell, 0);
    assert HasId(q, 2);
    RemoveAtShape(w, 2, m);
    BestIsBest(v.shown, Sell);
  }
}
