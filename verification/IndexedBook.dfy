/**
 * The book together with what the engine's level index shows of it. A level total is
 * kept at the width of QtyT, and unlink_order takes a total of zero to mean an empty
 * level: when a total wraps to zero, the level's orders stay in the pool but drop out
 * of the index. Matching, resting and cancelling are specified here for every width
 * and every state, with the exact conditions under which nothing drops out.
 */
module IndexedBook {
  import opened PriceTimeBook
  import opened BookLaws

  /** All resting orders, and the part of them the index shows. */
  datatype View = View(book: Book, shown: Book)

  /** A level is shown whole or not at all. */
  ghost predicate ShownAt(w: View, s: Side, l: int) {
    Queue(w.shown, s, l) == [] || Queue(w.shown, s, l) == Queue(w.book, s, l)
  }

  ghost predicate Coherent(w: View) {
    && w.shown.lo == w.book.lo
    && |w.book.bids| == |w.book.asks| == |w.shown.bids| == |w.shown.asks|
    && forall s: Side, l: int :: ShownAt(w, s, l)
  }

  ghost predicate Hidden(w: View, s: Side, l: int) {
    Queue(w.shown, s, l) == [] && Queue(w.book, s, l) != []
  }

  // ---- The engine's operations at width m -----------------------------------------------------

  /** What the index shows of a level that is left with q by a removal. */
  function Kept(shown: seq<Entry>, q: seq<Entry>, m: nat): seq<Entry>
    requires m > 0
  {
    if shown == [] || Total(q) % m == 0 then [] else q
  }

  /** A level left with q by a removal. */
  function Less(w: View, s: Side, l: int, q: seq<Entry>, m: nat): View
    requires 0 <= l < |LadderOf(w.book, s)| == |LadderOf(w.shown, s)| && m > 0
  {
    View(WithQueue(w.book, s, l, q), WithQueue(w.shown, s, l, Kept(Queue(w.shown, s, l), q, m)))
  }

  /** A level that is shown and whose oldest order has t to give. */
  predicate CanServe(w: View, s: Side, l: int, t: nat) {
    && |LadderOf(w.book, s)| == |LadderOf(w.shown, s)|
    && Queue(w.shown, s, l) != [] && Queue(w.shown, s, l) == Queue(w.book, s, l) && t <= Queue(w.book, s, l)[0].qty
  }

  /** A shown level from whose oldest order t has been taken. */
  function Served(w: View, s: Side, l: int, t: nat, m: nat): View
    requires CanServe(w, s, l, t) && m > 0
  {
    var q := Queue(w.book, s, l);
    if t == q[0].qty then Less(w, s, l, q[1..], m) else View(Consume(w.book, s, l, t), Consume(w.shown, s, l, t))
  }

  datatype Settled = Settled(view: View, execs: seq<Execution>, rest: nat)

  ghost function MatchAt(w: View, side: Side, limit: int, qty: nat, id: int, m: nat): Settled
    requires Coherent(w) && Positive(w.book) && m > 0
    decreases qty
  {
    if MatchEnds(w.shown, side, limit, qty) then Settled(w, [], qty)
    else
      var maker, l := side.Opposite(), Best(w.shown, side.Opposite());
      HeadShown(w, maker);
      var e := Queue(w.book, maker, l)[0];
      var t := Min(qty, e.qty);
      ServedOk(w, maker, l, t, m);
      var r := MatchAt(Served(w, maker, l, t, m), side, limit, qty - t, id, m);
      Settled(r.view, [Execution(side, id, maker, e.id, w.book.lo + l, t)] + r.execs, r.rest)
  }

  /** A new order linked behind its level: the index now shows the level again. */
  function Joined(w: View, s: Side, l: int, e: Entry): View
    requires 0 <= l < |LadderOf(w.book, s)| == |LadderOf(w.shown, s)|
  {
    View(Rest(w.book, s, l, e), WithQueue(w.shown, s, l, Queue(w.book, s, l) + [e]))
  }

  datatype Result = Result(accepted: bool, view: View, execs: seq<Execution>)

  ghost function ProcessAt(w: View, capacity: nat, side: Side, price: int, qty: nat, id: int, m: nat): Result
    requires Coherent(w) && WellFormed(w.book) && m > 0
  {
    if !GoodArguments(w.book, capacity, price, qty, id) then Result(false, w, [])
    else
      MatchAtShape(w, side, price, qty, id, m);
      var r := MatchAt(w, side, price, qty, id, m);
      if r.rest == 0 then Result(true, r.view, r.execs)
      else if Resting(r.view.book, id) then Result(false, r.view, r.execs)
      else Result(true, Joined(r.view, side, price - w.book.lo, Entry(id, r.rest)), r.execs)
  }

  ghost function KeptAll(shown: Ladder, book: Ladder, id: int, m: nat): Ladder
    requires |shown| == |book| && m > 0
  {
    seq(|shown|, l requires 0 <= l < |shown| =>
      if HasId(book[l], id) then Kept(shown[l], Without(book[l], id), m) else shown[l])
  }

  ghost function RemoveAt(w: View, id: int, m: nat): View
    requires Coherent(w) && m > 0
  {
    View(Remove(w.book, id),
         Book(w.shown.lo, KeptAll(w.shown.bids, w.book.bids, id, m), KeptAll(w.shown.asks, w.book.asks, id, m)))
  }

  // ---- One trade ---------------------------------------------------------------------------------

  /** The best level the index shows has an order to trade with. */
  lemma HeadShown(w: View, s: Side)
    requires Coherent(w) && Positive(w.book) && Best(w.shown, s) != -1
    ensures var l := Best(w.shown, s);
      && 0 <= l < Levels(w.book) && CanServe(w, s, l, 0) && Queue(w.book, s, l)[0].qty > 0
  {
    BestIsBest(w.shown, s);
    assert ShownAt(w, s, Best(w.shown, s)) && AllPositive(Queue(w.book, s, Best(w.shown, s)));
  }

  lemma LessQueues(w: View, s: Side, l: int, q: seq<Entry>, m: nat, s': Side, l': int)
    requires 0 <= l < |LadderOf(w.book, s)| == |LadderOf(w.shown, s)| && m > 0
    ensures var r := Less(w, s, l, q, m);
      && Queue(r.book, s', l') == (if s' == s && l' == l then q else Queue(w.book, s', l'))
      && Queue(r.shown, s', l')
        == (if s' == s && l' == l then Kept(Queue(w.shown, s, l), q, m) else Queue(w.shown, s', l'))
  {}

  lemma LessShape(w: View, s: Side, l: int, q: seq<Entry>, m: nat)
    requires 0 <= l < |LadderOf(w.book, s)| == |LadderOf(w.shown, s)| && m > 0
    ensures var r := Less(w, s, l, q, m);
      && r.book.lo == w.book.lo && |r.book.bids| == |w.book.bids| && |r.book.asks| == |w.book.asks|
      && r.shown.lo == w.shown.lo && |r.shown.bids| == |w.shown.bids| && |r.shown.asks| == |w.shown.asks|
      && forall s' :: s' != s ==>
        LadderOf(r.book, s') == LadderOf(w.book, s') && LadderOf(r.shown, s') == LadderOf(w.shown, s')
  {}

  lemma LessCoherent(w: View, s: Side, l: int, q: seq<Entry>, m: nat)
    requires Coherent(w) && 0 <= l < |LadderOf(w.book, s)| == |LadderOf(w.shown, s)| && m > 0
    ensures Coherent(Less(w, s, l, q, m))
  {
    hide Less, Queue, LadderOf;
    LessShape(w, s, l, q, m);
    forall s': Side, l': int ensures ShownAt(Less(w, s, l, q, m), s', l') {
      LessQueues(w, s, l, q, m, s', l');
      assert ShownAt(w, s', l');
    }
  }

  /** Serving takes from the book what the width-free book would give, and hides at most that level. */
  lemma ServedIs(w: View, s: Side, l: int, t: nat, m: nat)
    requires CanServe(w, s, l, t) && m > 0
    ensures Served(w, s, l, t, m).book == Consume(w.book, s, l, t)
  {}

  lemma ServedShown(w: View, s: Side, l: int, t: nat, m: nat, s': Side, l': int)
    requires CanServe(w, s, l, t) && m > 0
    ensures var q, r := Queue(w.book, s, l), Served(w, s, l, t, m);
      Queue(r.shown, s', l') == if s' == s && l' == l
                                then (if t == q[0].qty && Total(q[1..]) % m == 0 then [] else Queue(r.book, s, l))
                                else Queue(w.shown, s', l')
  {}

  lemma ServedShape(w: View, s: Side, l: int, t: nat, m: nat)
    requires CanServe(w, s, l, t) && m > 0
    ensures var r := Served(w, s, l, t, m);
      && r.shown.lo == w.shown.lo && |r.shown.bids| == |w.shown.bids| && |r.shown.asks| == |w.shown.asks|
      && forall s' :: s' != s ==>
        LadderOf(r.book, s') == LadderOf(w.book, s') && LadderOf(r.shown, s') == LadderOf(w.shown, s')
  {}

  lemma ServedOk(w: View, s: Side, l: int, t: nat, m: nat)
    requires Coherent(w) && Positive(w.book) && m > 0 && CanServe(w, s, l, t)
    ensures Coherent(Served(w, s, l, t, m)) && Positive(Served(w, s, l, t, m).book)
  {
    ServedIs(w, s, l, t, m);
    ServedShape(w, s, l, t, m);
    ConsumePositive(w.book, s, l, t);
    ConsumeShape(w.book, s, l, t);
    hide Served, Consume, Queue, Positive, LadderOf;
    forall s': Side, l': int ensures ShownAt(Served(w, s, l, t, m), s', l') {
      ServedShown(w, s, l, t, m, s', l');
      ConsumeQueues(w.book, s, l, t, s', l');
      assert ShownAt(w, s', l');
    }
  }

  // ---- Matching at width m --------------------------------------------------------------------------

  /** One unfolding of matching. */
  lemma MatchAtUnfolds(w: View, side: Side, limit: int, qty: nat, id: int, m: nat)
    requires Coherent(w) && Positive(w.book) && m > 0
    ensures MatchEnds(w.shown, side, limit, qty) ==> MatchAt(w, side, limit, qty, id, m) == Settled(w, [], qty)
    ensures var maker, l := side.Opposite(), Best(w.shown, side.Opposite());
      !MatchEnds(w.shown, side, limit, qty) ==>
        && qty > 0 && 0 <= l < Levels(w.book) && Crosses(side, limit, w.book.lo + l)
        && Queue(w.shown, maker, l) != [] && Queue(w.book, maker, l) != [] && Queue(w.book, maker, l)[0].qty > 0
        && var t := Min(qty, Queue(w.book, maker, l)[0].qty);
        && 0 < t <= qty && CanServe(w, maker, l, t)
        && var v := Served(w, maker, l, t, m);
        && Coherent(v) && Positive(v.book)
        && var r := MatchAt(v, side, limit, qty - t, id, m);
        && MatchAt(w, side, limit, qty, id, m)
           == Settled(r.view,
                      [Execution(side, id, maker, Queue(w.book, maker, l)[0].id, w.book.lo + l, t)] + r.execs, r.rest)
  {
    hide Served, Positive, Queue, Best;
    if !MatchEnds(w.shown, side, limit, qty) {
      var maker, l := side.Opposite(), Best(w.shown, side.Opposite());
      HeadShown(w, maker);
      ServedOk(w, maker, l, Min(qty, Queue(w.book, maker, l)[0].qty), m);
    }
  }

  /** Matching keeps the taker's side, the price range and the coherence of book and index. */
  lemma {:induction false} MatchAtShape(w: View, side: Side, limit: int, qty: nat, id: int, m: nat)
    requires Coherent(w) && Positive(w.book) && m > 0
    ensures var v := MatchAt(w, side, limit, qty, id, m).view;
      && Coherent(v) && Positive(v.book) && v.book.lo == w.book.lo && Levels(v.book) == Levels(w.book)
      && LadderOf(v.book, side) == LadderOf(w.book, side) && LadderOf(v.shown, side) == LadderOf(w.shown, side)
      && |LadderOf(v.book, side)| == |LadderOf(v.shown, side)| == Levels(v.book)
    decreases qty
  {
    hide Best, Coherent, Consume, Crosses, LadderOf, Levels, MatchAt, MatchEnds, Min, Positive, Queue;
    hide Served;
    MatchAtUnfolds(w, side, limit, qty, id, m);
    LaddersFit(w, side);
    if !MatchEnds(w.shown, side, limit, qty) {
      var maker, l := side.Opposite(), Best(w.shown, side.Opposite());
      var t := Min(qty, Queue(w.book, maker, l)[0].qty);
      ServedIs(w, maker, l, t, m);
      ServedShape(w, maker, l, t, m);
      ConsumeShape(w.book, maker, l, t);
      MatchAtShape(Served(w, maker, l, t, m), side, limit, qty - t, id, m);
    }
  }

  lemma LaddersFit(w: View, s: Side)
    requires Coherent(w)
    ensures |LadderOf(w.book, s)| == |LadderOf(w.shown, s)| == Levels(w.book)
  {}

  /** The index of v shows no level that the index of w does not. */
  ghost predicate ShowsLess(w: View, v: View) {
    |v.shown.bids| == |w.shown.bids| && |v.shown.asks| == |w.shown.asks|
    && forall s: Side, l: int :: Queue(v.shown, s, l) != [] ==> Queue(w.shown, s, l) != []
  }

  lemma ServedShowsLess(w: View, s: Side, l: int, t: nat, m: nat)
    requires CanServe(w, s, l, t) && m > 0
    ensures ShowsLess(w, Served(w, s, l, t, m))
  {
    ServedShape(w, s, l, t, m);
    hide Served, Queue;
    forall s': Side, l': int | Queue(Served(w, s, l, t, m).shown, s', l') != []
      ensures Queue(w.shown, s', l') != []
    {
      ServedShown(w, s, l, t, m, s', l');
    }
  }

  lemma ShowsLessTransitive(u: View, v: View, w: View)
    requires ShowsLess(u, v) && ShowsLess(v, w)
    ensures ShowsLess(u, w)
  {}

  /**
   * Whatever the totals do, matching trades the quantity it does not return, only shrinks
   * queues, shows no new level, and stops only filled or when nothing shown crosses.
   */
  lemma {:induction false} MatchAtLeaves(w: View, side: Side, limit: int, qty: nat, id: int, m: nat)
    requires Coherent(w) && Positive(w.book) && m > 0
    ensures var r := MatchAt(w, side, limit, qty, id, m);
      && Volume(r.execs) + r.rest == qty
      && Shrinks(w.book, r.view.book) && ShowsLess(w, r.view)
      && (r.rest > 0 ==> MatchEnds(r.view.shown, side, limit, r.rest))
    decreases qty
  {
    hide Best, Coherent, Consume, Crosses, LadderOf, Levels, MatchAt, MatchEnds, Min, Positive, Queue;
    hide Served, ShowsLess, Shrinks, Side.Opposite, Volume;
    MatchAtUnfolds(w, side, limit, qty, id, m);
    if MatchEnds(w.shown, side, limit, qty) {
      ShrinksSelf(w.book);
      LeavesAll(w, side, limit, qty);
    } else {
      var maker, l := side.Opposite(), Best(w.shown, side.Opposite());
      var t := Min(qty, Queue(w.book, maker, l)[0].qty);
      var v := Served(w, maker, l, t, m);
      ServedIs(w, maker, l, t, m);
      ConsumeShrinks(w.book, maker, l, t);
      ServedShowsLess(w, maker, l, t, m);
      MatchAtLeaves(v, side, limit, qty - t, id, m);
      var r := MatchAt(v, side, limit, qty - t, id, m);
      ShrinksTransitive(w.book, v.book, r.view.book);
      ShowsLessTransitive(w, v, r.view);
      VolumeCons(Execution(side, id, maker, Queue(w.book, maker, l)[0].id, w.book.lo + l, t), r.execs);
    }
  }

  lemma LeavesAll(w: View, side: Side, limit: int, qty: nat)
    requires MatchEnds(w.shown, side, limit, qty)
    ensures ShowsLess(w, w) && Volume([]) == 0
  {}

  lemma HeadRests(b: Book, s: Side, l: int)
    requires Queue(b, s, l) != []
    ensures Resting(b, Queue(b, s, l)[0].id)
  {
    assert HasId(Queue(b, s, l), Queue(b, s, l)[0].id);
  }

  /** A filled order no longer rests. */
  lemma FilledIsGone(b: Book, s: Side, l: int)
    requires UniqueIds(b) && Queue(b, s, l) != []
    ensures !Resting(Consume(b, s, l, Queue(b, s, l)[0].qty), Queue(b, s, l)[0].id)
  {
    var q, c := Queue(b, s, l), Consume(b, s, l, Queue(b, s, l)[0].qty);
    assert HasId(q, q[0].id) && DistinctIds(q);
    forall s': Side, l': int ensures !HasId(Queue(c, s', l'), q[0].id) {
      ConsumeQueues(b, s, l, q[0].qty, s', l');
      assert [] + q[1..] == q[1..];
    }
  }

  /** Every maker of a matching rested in the book before it. */
  lemma {:induction false} MakersRested(w: View, side: Side, limit: int, qty: nat, id: int, m: nat)
    requires Coherent(w) && Positive(w.book) && m > 0
    ensures forall k :: 0 <= k < |MatchAt(w, side, limit, qty, id, m).execs| ==>
              Resting(w.book, MatchAt(w, side, limit, qty, id, m).execs[k].makerId)
    decreases qty
  {
    hide Best, Coherent, Consume, Crosses, LadderOf, Levels, MatchAt, MatchEnds, Min, Positive, Queue;
    hide Resting, Served, Shrinks, Side.Opposite;
    MatchAtUnfolds(w, side, limit, qty, id, m);
    if !MatchEnds(w.shown, side, limit, qty) {
      var maker, l := side.Opposite(), Best(w.shown, side.Opposite());
      var t := Min(qty, Queue(w.book, maker, l)[0].qty);
      var v := Served(w, maker, l, t, m);
      MakersRested(v, side, limit, qty - t, id, m);
      HeadRests(w.book, maker, l);
      ServedIs(w, maker, l, t, m);
      ConsumeShrinks(w.book, maker, l, t);
      var es := MatchAt(v, side, limit, qty - t, id, m).execs;
      forall k | 0 <= k < |es| ensures Resting(w.book, es[k].makerId) {
        ShrinksResting(w.book, v.book, es[k].makerId);
      }
    }
  }

  ghost predicate DistinctMakers(es: seq<Execution>) {
    forall i, j :: 0 <= i < j < |es| ==> es[i].makerId != es[j].makerId
  }

  lemma DistinctCons(e: Execution, es: seq<Execution>)
    requires DistinctMakers(es) && forall k :: 0 <= k < |es| ==> es[k].makerId != e.makerId
    ensures DistinctMakers([e] + es)
  {}

  /** One call trades with each maker at most once. */
  lemma {:induction false} EachMakerOnce(w: View, side: Side, limit: int, qty: nat, id: int, m: nat)
    requires Coherent(w) && Positive(w.book) && UniqueIds(w.book) && m > 0
    ensures DistinctMakers(MatchAt(w, side, limit, qty, id, m).execs)
    decreases qty
  {
    hide Best, Coherent, Consume, Crosses, LadderOf, Levels, MatchAt, MatchEnds, Positive, Queue, Resting;
    hide Served, Shrinks, Side.Opposite, UniqueIds;
    MatchAtUnfolds(w, side, limit, qty, id, m);
    if MatchEnds(w.shown, side, limit, qty) {
    } else {
      var maker, l := side.Opposite(), Best(w.shown, side.Opposite());
      var q := Queue(w.book, maker, l);
      var t := Min(qty, q[0].qty);
      var v := Served(w, maker, l, t, m);
      ServedIs(w, maker, l, t, m);
      ConsumeShrinks(w.book, maker, l, t);
      ShrinksUnique(w.book, v.book);
      EachMakerOnce(v, side, limit, qty - t, id, m);
      var es := MatchAt(v, side, limit, qty - t, id, m).execs;
      if t < q[0].qty {
        FilledTaker(v, side, limit, id, m);
      } else {
        FilledIsGone(w.book, maker, l);
        MakersRested(v, side, limit, qty - t, id, m);
      }
      DistinctCons(Execution(side, id, maker, q[0].id, w.book.lo + l, t), es);
    }
  }

  lemma FilledTaker(w: View, side: Side, limit: int, id: int, m: nat)
    requires Coherent(w) && Positive(w.book) && m > 0
    ensures MatchAt(w, side, limit, 0, id, m).execs == []
  {}

  // ---- What every call keeps, at every width ---------------------------------------------------------

  /** Book and index cohere, the book is well formed, and the index shows no crossed prices. */
  ghost predicate Steady(w: View) {
    Coherent(w) && WellFormed(w.book) && Uncrossed(w.shown)
  }

  lemma JoinedQueues(w: View, s: Side, l: int, e: Entry, s': Side, l': int)
    requires 0 <= l < |LadderOf(w.book, s)| == |LadderOf(w.shown, s)|
    ensures var v := Joined(w, s, l, e);
      && v.book == Rest(w.book, s, l, e)
      && Queue(v.book, s', l') == Queue(w.book, s', l') + (if s' == s && l' == l then [e] else [])
      && Queue(v.shown, s', l') == if s' == s && l' == l then Queue(w.book, s, l) + [e] else Queue(w.shown, s', l')
  {}

  lemma JoinedShape(w: View, s: Side, l: int, e: Entry)
    requires 0 <= l < |LadderOf(w.book, s)| == |LadderOf(w.shown, s)|
    ensures var v := Joined(w, s, l, e);
      && v.book.lo == w.book.lo && |v.book.bids| == |w.book.bids| && |v.book.asks| == |w.book.asks|
      && v.shown.lo == w.shown.lo && |v.shown.bids| == |w.shown.bids| && |v.shown.asks| == |w.shown.asks|
  {}

  lemma JoinedCoherent(w: View, s: Side, l: int, e: Entry)
    requires Coherent(w) && 0 <= l < |LadderOf(w.book, s)| == |LadderOf(w.shown, s)|
    ensures Coherent(Joined(w, s, l, e))
  {
    hide Joined, Queue, LadderOf;
    JoinedShape(w, s, l, e);
    forall s': Side, l': int ensures ShownAt(Joined(w, s, l, e), s', l') {
      JoinedQueues(w, s, l, e, s', l');
      assert ShownAt(w, s', l');
    }
  }

  /** A remainder that crosses nothing shown leaves nothing shown crossed. */
  lemma JoinedUncrossed(w: View, side: Side, limit: int, e: Entry, rest: nat)
    requires Coherent(w) && Uncrossed(w.shown) && rest > 0 && MatchEnds(w.shown, side, limit, rest)
    requires 0 <= limit - w.book.lo < |LadderOf(w.book, side)| == |LadderOf(w.shown, side)|
    ensures Uncrossed(Joined(w, side, limit - w.book.lo, e).shown)
  {
    hide Joined, Queue, LadderOf, Best, ShownAt;
    var v := Joined(w, side, limit - w.book.lo, e);
    BestIsBest(w.shown, side.Opposite());
    forall i: int, j: int | Queue(v.shown, Buy, i) != [] && Queue(v.shown, Sell, j) != [] ensures i < j {
      JoinedQueues(w, side, limit - w.book.lo, e, Buy, i);
      JoinedQueues(w, side, limit - w.book.lo, e, Sell, j);
    }
  }

  lemma ShowsLessUncrossed(w: View, v: View)
    requires ShowsLess(w, v) && Uncrossed(w.shown)
    ensures Uncrossed(v.shown)
  {}

  lemma SteadyParts(w: View)
    requires Steady(w)
    ensures Coherent(w) && WellFormed(w.book) && Positive(w.book) && UniqueIds(w.book) && Uncrossed(w.shown)
  {}

  lemma SteadyWhole(w: View)
    requires Coherent(w) && Positive(w.book) && UniqueIds(w.book) && Uncrossed(w.shown)
    ensures Steady(w)
  {}

  /** process_order keeps all of it, whether it accepts or not and whatever wraps. */
  lemma ProcessAtKeeps(w: View, capacity: nat, side: Side, price: int, qty: nat, id: int, m: nat)
    requires Steady(w) && m > 0
    ensures Coherent(w) && WellFormed(w.book)
    ensures var v := ProcessAt(w, capacity, side, price, qty, id, m).view;
      Steady(v) && v.book.lo == w.book.lo && Levels(v.book) == Levels(w.book)
  {
    hide Coherent, GoodArguments, Joined, LadderOf, MatchAt, MatchEnds, Positive, Queue, Rest, Resting;
    hide ShowsLess, Shrinks, Steady, Uncrossed, UniqueIds, Volume, WellFormed;
    SteadyParts(w);
    if GoodArguments(w.book, capacity, price, qty, id) {
      MatchAtShape(w, side, price, qty, id, m);
      MatchAtLeaves(w, side, price, qty, id, m);
      var r := MatchAt(w, side, price, qty, id, m);
      ShrinksUnique(w.book, r.view.book);
      ShowsLessUncrossed(w, r.view);
      SteadyWhole(r.view);
      SteadyParts(r.view);
      if r.rest > 0 && !Resting(r.view.book, id) {
        var e := Entry(id, r.rest);
        PriceOnLadder(w.book, capacity, side, price, qty, id);
        JoinedShape(r.view, side, price - w.book.lo, e);
        JoinedCoherent(r.view, side, price - w.book.lo, e);
        JoinedUncrossed(r.view, side, price, e, r.rest);
        JoinedQueues(r.view, side, price - w.book.lo, e, side, 0);
        RestWellFormed(r.view.book, side, price - w.book.lo, e);
        WellFormedPositive(Joined(r.view, side, price - w.book.lo, e).book);
        SteadyWhole(Joined(r.view, side, price - w.book.lo, e));
      }
    }
  }

  lemma PriceOnLadder(b: Book, capacity: nat, side: Side, price: int, qty: nat, id: int)
    requires GoodArguments(b, capacity, price, qty, id)
    ensures 0 <= price - b.lo < Levels(b)
  {}

  lemma RemoveAtQueues(w: View, id: int, m: nat, s: Side, l: int)
    requires Coherent(w) && m > 0
    ensures var v := RemoveAt(w, id, m);
      && Queue(v.book, s, l) == Without(Queue(w.book, s, l), id)
      && Queue(v.shown, s, l) == if HasId(Queue(w.book, s, l), id)
                                 then Kept(Queue(w.shown, s, l), Without(Queue(w.book, s, l), id), m)
                                 else Queue(w.shown, s, l)
  {}

  lemma RemoveAtShape(w: View, id: int, m: nat)
    requires Coherent(w) && m > 0
    ensures var v := RemoveAt(w, id, m);
      && v.book == Remove(w.book, id) && v.book.lo == v.shown.lo == w.book.lo
      && |v.book.bids| == |v.book.asks| == |v.shown.bids| == |v.shown.asks| == Levels(w.book)
  {}

  lemma RemoveAtCoherent(w: View, id: int, m: nat)
    requires Coherent(w) && m > 0
    ensures Coherent(RemoveAt(w, id, m)) && ShowsLess(w, RemoveAt(w, id, m))
  {
    RemoveAtShape(w, id, m);
    hide RemoveAt, Queue;
    forall s: Side, l: int
      ensures ShownAt(RemoveAt(w, id, m), s, l)
      ensures Queue(RemoveAt(w, id, m).shown, s, l) != [] ==> Queue(w.shown, s, l) != []
    {
      RemoveAtQueues(w, id, m, s, l);
      assert ShownAt(w, s, l);
      if !HasId(Queue(w.book, s, l), id) {
        WithoutAbsent(Queue(w.book, s, l), id);
      }
    }
  }

  lemma RemoveAtKeeps(w: View, id: int, m: nat)
    requires Steady(w) && m > 0
    ensures Coherent(w) && Steady(RemoveAt(w, id, m))
    ensures RemoveAt(w, id, m).book.lo == w.book.lo && Levels(RemoveAt(w, id, m).book) == Levels(w.book)
  {
    SteadyParts(w);
    hide Coherent, Positive, Remove, RemoveAt, ShowsLess, Shrinks, Steady, Uncrossed, UniqueIds, WellFormed;
    var v := RemoveAt(w, id, m);
    RemoveAtShape(w, id, m);
    RemoveAtCoherent(w, id, m);
    ShowsLessUncrossed(w, v);
    PositiveLevels(w.book);
    RemoveShrinks(w.book, id);
    ShrinksUnique(w.book, v.book);
    SteadyWhole(v);
  }

  lemma RemoveAbsentAt(w: View, id: int, m: nat)
    requires Coherent(w) && m > 0 && !Resting(w.book, id)
    ensures RemoveAt(w, id, m) == w
  {
    var v := RemoveAt(w, id, m);
    RemoveAtShape(w, id, m);
    RemoveAbsent(w.book, id);
    forall s: Side, l: int ensures Queue(v.shown, s, l) == Queue(w.shown, s, l) {
      RemoveAtQueues(w, id, m, s, l);
      assert !HasId(Queue(w.book, s, l), id);
    }
    BooksEqual(v.shown, w.shown);
  }

  // ---- Runs at every width ------------------------------------------------------------------------------

  ghost function EmptyView(lo: int, levels: nat): View {
    View(EmptyBook(lo, levels), EmptyBook(lo, levels))
  }

  ghost function ApplyAt(w: View, capacity: nat, op: Op, m: nat): View
    requires Steady(w) && m > 0
  {
    match op
    case Place(side, price, qty, id) => ProcessAt(w, capacity, side, price, qty, id, m).view
    case Pull(id) => RemoveAt(w, id, m)
    case Clear => EmptyView(w.book.lo, Levels(w.book))
  }

  lemma EmptySteady(lo: int, levels: nat)
    ensures Steady(EmptyView(lo, levels))
  {
    var b := EmptyView(lo, levels).book;
    assert forall s: Side, l: int :: Queue(b, s, l) == [];
  }

  lemma ApplyAtKeeps(w: View, capacity: nat, op: Op, m: nat)
    requires Steady(w) && m > 0
    ensures var v := ApplyAt(w, capacity, op, m);
      Steady(v) && v.book.lo == w.book.lo && Levels(v.book) == Levels(w.book)
  {
    hide Steady, ProcessAt, RemoveAt;
    match op
    case Place(side, price, qty, id) => ProcessAtKeeps(w, capacity, side, price, qty, id, m);
    case Pull(id) => RemoveAtKeeps(w, id, m);
    case Clear => EmptySteady(w.book.lo, Levels(w.book));
  }

  ghost predicate IsRunAt(views: seq<View>, ops: seq<Op>, capacity: nat, m: nat) {
    && |views| == |ops| + 1 && m > 0
    && forall i :: 0 <= i < |ops| && Steady(views[i]) ==> views[i + 1] == ApplyAt(views[i], capacity, ops[i], m)
  }

  /**
   * In every run, at every width and with any totals wrapping: ids stay unique, quantities
   * positive, each level is shown whole or not at all, and the best prices never cross.
   */
  lemma {:induction false} RunsStaySteady(views: seq<View>, ops: seq<Op>, capacity: nat, m: nat, i: nat)
    requires IsRunAt(views, ops, capacity, m) && Steady(views[0]) && i < |views|
    ensures var w := views[i];
      && Steady(w) && w.book.lo == views[0].book.lo && Levels(w.book) == Levels(views[0].book)
      && (Best(w.shown, Buy) != -1 && Best(w.shown, Sell) != -1 ==> Best(w.shown, Buy) < Best(w.shown, Sell))
  {
    hide Steady, ApplyAt, Best;
    if i > 0 {
      RunsStaySteady(views, ops, capacity, m, i - 1);
      ApplyAtKeeps(views[i - 1], capacity, ops[i - 1], m);
    }
    BestsApart(views[i]);
  }

  lemma BestsApart(w: View)
    requires Steady(w)
    ensures Best(w.shown, Buy) != -1 && Best(w.shown, Sell) != -1 ==> Best(w.shown, Buy) < Best(w.shown, Sell)
  {
    BestIsBest(w.shown, Buy);
    BestIsBest(w.shown, Sell);
  }
}
