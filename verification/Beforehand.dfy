/**
 * What a call will do, read off the book before it: how far down the makers' line its
 * limit reaches, which of those orders a wrapped level total cuts off, when matching is
 * clean, and when a call fails although its arguments are good.
 */
module Beforehand {
  import opened PriceTimeBook
  import opened BookLaws
  import opened IndexedBook
  import opened Widths

  // ---- What a limit reaches of a line ------------------------------------------------------

  /** The length of the front of the line that crosses the limit. */
  function Reach(p: seq<Offer>, lo: int, taker: Side, limit: int): (n: nat)
    ensures n <= |p|
    ensures forall k :: 0 <= k < n ==> Crosses(taker, limit, lo + p[k].level)
    ensures n < |p| ==> !Crosses(taker, limit, lo + p[n].level)
  {
    if p == [] || !Crosses(taker, limit, lo + p[0].level) then 0 else 1 + Reach(p[1..], lo, taker, limit)
  }

  /** No offer behind the reach crosses. */
  lemma ReachIsAll(b: Book, taker: Side, limit: int, k: nat)
    requires |b.bids| == |b.asks| && Reach(Priority(b, taker.Opposite()), b.lo, taker, limit) <= k
    requires k < |Priority(b, taker.Opposite())|
    ensures !Crosses(taker, limit, b.lo + Priority(b, taker.Opposite())[k].level)
  {
    PrioritySorted(b, taker.Opposite(), 0);
    hide PriorityFrom;
  }

  /** Offers that all cross are within the reach, and it ends where they do if the next does not cross. */
  lemma {:induction false} ReachFront(p: seq<Offer>, lo: int, taker: Side, limit: int, k: nat)
    requires k <= |p| && forall i :: 0 <= i < k ==> Crosses(taker, limit, lo + p[i].level)
    ensures k <= Reach(p, lo, taker, limit)
    ensures k < |p| && !Crosses(taker, limit, lo + p[k].level) ==> Reach(p, lo, taker, limit) == k
  {
    hide Crosses;
    if k > 0 {
      ReachFront(p[1..], lo, taker, limit, k - 1);
    }
  }

  function Offered(p: seq<Offer>): nat {
    if p == [] then 0 else p[0].qty + Offered(p[1..])
  }

  lemma OfferedCons(x: Offer, p: seq<Offer>)
    ensures Offered([x] + p) == x.qty + Offered(p)
  {
    assert ([x] + p)[1..] == p;
  }

  /** Filling the first n offers in full trades what they offer. */
  lemma {:induction false} VolumeOffered(p: seq<Offer>, es: seq<Execution>, n: nat)
    requires n <= |p| && |es| == n && forall k :: 0 <= k < n ==> es[k].qty == p[k].qty
    ensures Volume(es) == Offered(p[..n])
  {
    if n > 0 {
      assert p[..n][1..] == p[1..][..n - 1];
      VolumeOffered(p[1..], es[1..], n - 1);
    }
  }

  /** Executions never trade more than the offers they take from. */
  lemma {:induction false} VolumeWithin(p: seq<Offer>, es: seq<Execution>, n: nat)
    requires |es| <= n <= |p| && forall k :: 0 <= k < |es| ==> es[k].qty <= p[k].qty
    ensures Volume(es) <= Offered(p[..n])
  {
    if |es| > 0 {
      assert p[..n][1..] == p[1..][..n - 1];
      VolumeWithin(p[1..], es[1..], n - 1);
    }
  }

  /** A taker is left with a remainder exactly when the limit reaches too little, and has then taken all of it. */
  lemma LeftoverExactly(p: seq<Offer>, lo: int, side: Side, limit: int, qty: nat, id: int,
                        es: seq<Execution>, p': seq<Offer>, rest: nat)
    requires FollowsPriority(p, lo, side, limit, qty, id, es, p', rest)
    ensures var n := Reach(p, lo, side, limit);
      && |es| <= n
      && (rest > 0 <==> Offered(p[..n]) < qty)
      && (rest > 0 ==> |es| == n && p' == p[n..] && Volume(es) == Offered(p[..n]))
  {
    hide Crosses, Volume, Offered, Reach;
    var n, k := Reach(p, lo, side, limit), |es|;
    ReachFront(p, lo, side, limit, k);
    VolumeWithin(p, es, n);
    if rest > 0 {
      VolumeOffered(p, es, n);
      if n == 0 {
        assert p[0..] == p;
      } else {
        assert p[n - 1..][1..] == p[n..];
      }
    }
  }

  ghost predicate InLine(p: seq<Offer>, id: int) {
    exists k :: 0 <= k < |p| && p[k].id == id
  }

  /** Of the makers opposite, those the limit reaches. */
  function Reached(b: Book, side: Side, limit: int): seq<Offer> {
    var p := Priority(b, side.Opposite());
    p[..Reach(p, b.lo, side, limit)]
  }

  lemma ReachedIs(b: Book, side: Side, limit: int)
    ensures var p := Priority(b, side.Opposite());
      && Reach(p, b.lo, side, limit) <= |p|
      && Reached(b, side, limit) == p[..Reach(p, b.lo, side, limit)]
      && |Reached(b, side, limit)| == Reach(p, b.lo, side, limit)
  {}

  // ---- What is still active after matching -----------------------------------------------------

  ghost predicate Made(es: seq<Execution>, id: int) {
    exists k :: 0 <= k < |es| && es[k].makerId == id
  }

  lemma MadeCons(e: Execution, es: seq<Execution>, id: int)
    ensures !Made([], id)
    ensures Made([e] + es, id) <==> e.makerId == id || Made(es, id)
  {
    assert ([e] + es)[0] == e && forall k :: 0 <= k < |es| ==> ([e] + es)[k + 1] == es[k];
    assert forall k :: 0 < k < |[e] + es| ==> ([e] + es)[k] == es[k - 1];
  }

  /** Filling an order in full takes its id, and no other, out of the book. */
  lemma FilledLeaves(b: Book, s: Side, l: int, id: int)
    requires UniqueIds(b) && Queue(b, s, l) != []
    ensures Resting(Consume(b, s, l, Queue(b, s, l)[0].qty), id) <==> Resting(b, id) && id != Queue(b, s, l)[0].id
  {
    var q, c := Queue(b, s, l), Consume(b, s, l, Queue(b, s, l)[0].qty);
    FilledIsGone(b, s, l);
    ConsumeShrinks(b, s, l, q[0].qty);
    if Resting(c, id) {
      ShrinksResting(b, c, id);
    }
    if Resting(b, id) && id != q[0].id {
      var s': Side, l': int :| HasId(Queue(b, s', l'), id);
      ConsumeQueues(b, s, l, q[0].qty, s', l');
      StillThere(q, id);
      assert HasId(Queue(c, s', l'), id);
    }
  }

  lemma StillThere(q: seq<Entry>, id: int)
    requires q != [] && id != q[0].id
    ensures HasId([] + q[1..], id) <==> HasId(q, id)
  {
    assert [] + q[1..] == q[1..];
    assert forall k :: 0 < k < |q| ==> q[k] == q[1..][k - 1];
  }

  /** After a matching that leaves a remainder, the active ids are those that were active and did not trade. */
  lemma {:induction false} ActiveAfter(b: Book, side: Side, limit: int, qty: nat, taker: int, id: int)
    requires Positive(b) && UniqueIds(b)
    ensures var r := Match(b, side, limit, qty, taker);
      r.rest > 0 ==> (Resting(r.book, id) <==> Resting(b, id) && !Made(r.execs, id))
    decreases qty
  {
    hide *;
    MatchUnfolds(b, side, limit, qty, taker);
    var maker, l := side.Opposite(), Best(b, side.Opposite());
    if MatchEnds(b, side, limit, qty) {
      MadeCons(Execution(side, taker, maker, 0, 0, 0), [], id);
    } else {
      var e := Queue(b, maker, l)[0];
      var t := Min(qty, e.qty);
      var c := Consume(b, maker, l, t);
      ConsumeShrinks(b, maker, l, t);
      ShrinksUnique(b, c);
      ActiveAfter(c, side, limit, qty - t, taker, id);
      var r := Match(c, side, limit, qty - t, taker);
      MadeCons(Execution(side, taker, maker, e.id, b.lo + l, t), r.execs, id);
      FilledLeaves(b, maker, l, id);
      MinIs(qty, e.qty);
      NothingWanted(c, side, limit, taker);
    }
  }

  lemma NothingWanted(b: Book, side: Side, limit: int, id: int)
    requires Positive(b)
    ensures Match(b, side, limit, 0, id).rest == 0
  {}

  lemma MinIs(x: nat, y: nat)
    ensures Min(x, y) <= x && Min(x, y) <= y
    ensures Min(x, y) == x || (Min(x, y) == y && y < x)
  {}

  /** The same at every width. */
  lemma {:induction false} ActiveAfterAt(w: View, side: Side, limit: int, qty: nat, taker: int, m: nat, id: int)
    requires Coherent(w) && Positive(w.book) && UniqueIds(w.book) && m > 0
    ensures var r := MatchAt(w, side, limit, qty, taker, m);
      r.rest > 0 ==> (Resting(r.view.book, id) <==> Resting(w.book, id) && !Made(r.execs, id))
    decreases qty
  {
    hide *;
    MatchAtUnfolds(w, side, limit, qty, taker, m);
    var maker, l := side.Opposite(), Best(w.shown, side.Opposite());
    if MatchEnds(w.shown, side, limit, qty) {
      MadeCons(Execution(side, taker, maker, 0, 0, 0), [], id);
    } else {
      var e := Queue(w.book, maker, l)[0];
      var t := Min(qty, e.qty);
      var v := Served(w, maker, l, t, m);
      MinIs(qty, e.qty);
      ServedIs(w, maker, l, t, m);
      ConsumeShrinks(w.book, maker, l, t);
      ShrinksUnique(w.book, v.book);
      ActiveAfterAt(v, side, limit, qty - t, taker, m, id);
      var r := MatchAt(v, side, limit, qty - t, taker, m);
      MadeCons(Execution(side, taker, maker, e.id, w.book.lo + l, t), r.execs, id);
      FilledLeaves(w.book, maker, l, id);
      NothingWantedAt(v, side, limit, taker, m);
    }
  }

  lemma NothingWantedAt(w: View, side: Side, limit: int, id: int, m: nat)
    requires Coherent(w) && Positive(w.book) && m > 0
    ensures MatchAt(w, side, limit, 0, id, m).rest == 0
  {}

  /** The makers of a matching that leaves a remainder are those the limit reaches. */
  lemma MadeIsReached(b: Book, side: Side, limit: int, qty: nat, taker: int, id: int)
    requires Positive(b)
    ensures var r := Match(b, side, limit, qty, taker);
      && (r.rest > 0 <==> Offered(Reached(b, side, limit)) < qty)
      && (r.rest > 0 ==>
            && |r.execs| == |Reached(b, side, limit)| && Volume(r.execs) == Offered(Reached(b, side, limit))
            && (Made(r.execs, id) <==> InLine(Reached(b, side, limit), id)))
  {
    hide *;
    var r, p := Match(b, side, limit, qty, taker), Priority(b, side.Opposite());
    MatchFollowsPriority(b, side, limit, qty, taker);
    ReachedIs(b, side, limit);
    LeftoverExactly(p, b.lo, side, limit, qty, taker, r.execs, Priority(r.book, side.Opposite()), r.rest);
    FollowsMakers(p, b.lo, side, limit, qty, taker, r.execs, Priority(r.book, side.Opposite()), r.rest);
    if r.rest > 0 {
      SameIds(r.execs, Reached(b, side, limit), id);
    }
  }

  lemma SameIds(es: seq<Execution>, p: seq<Offer>, id: int)
    requires |es| == |p| && forall k :: 0 <= k < |es| ==> es[k].makerId == p[k].id
    ensures Made(es, id) <==> InLine(p, id)
  {}

  lemma FollowsMakers(p: seq<Offer>, lo: int, side: Side, limit: int, qty: nat, id: int,
                      es: seq<Execution>, p': seq<Offer>, rest: nat)
    requires FollowsPriority(p, lo, side, limit, qty, id, es, p', rest)
    ensures |es| <= |p| && forall k :: 0 <= k < |es| ==> es[k].makerId == p[k].id
  {
    hide Crosses, Volume;
  }

  // ---- Calls that fail with good arguments -----------------------------------------------------

  /** Too little is reached, and the id's own order is active and not among what is reached. */
  ghost predicate Refuses(b: Book, reached: seq<Offer>, qty: nat, id: int) {
    Offered(reached) < qty && Resting(b, id) && !InLine(reached, id)
  }

  /**
   * On the width-free book, a call with good arguments returns false exactly when its
   * limit reaches too little quantity while its id is active on an order it does not
   * reach. It has then taken all it reaches: it has traded exactly when anything crossed.
   */
  lemma RejectedExactly(b: Book, capacity: nat, side: Side, price: int, qty: nat, id: int)
    requires WellFormed(b) && GoodArguments(b, capacity, price, qty, id)
    ensures var o, reached := Process(b, capacity, side, price, qty, id), Reached(b, side, price);
      && (!o.accepted <==> Refuses(b, reached, qty, id))
      && (!o.accepted ==> Volume(o.execs) == Offered(reached) && (o.execs == [] <==> reached == []))
  {
    var reached := Reached(b, side, price);
    assert Refuses(b, reached, qty, id) <==> Offered(reached) < qty && Resting(b, id) && !InLine(reached, id);
    hide *;
    WellFormedPositive(b);
    RejectedKeepsTrades(b, capacity, side, price, qty, id);
    MatchConserves(b, side, price, qty, id);
    ActiveAfter(b, side, price, qty, id, id);
    MadeIsReached(b, side, price, qty, id, id);
  }

  // ---- What a wrapped total cuts off -----------------------------------------------------------

  /** The front of a queue that can be filled before the total of what is left behind reads zero. */
  function Servable(q: seq<Entry>, m: nat): (r: seq<Entry>)
    requires m > 0
    ensures r <= q && (q != [] ==> r != [])
  {
    if q == [] then []
    else [q[0]] + if Total(q[1..]) % m == 0 then [] else Servable(q[1..], m)
  }

  function CutLadder(l: Ladder, m: nat): Ladder
    requires m > 0
  {
    seq(|l|, i requires 0 <= i < |l| => Servable(l[i], m))
  }

  /** The book with every queue cut down to what can be filled. */
  function Cut(b: Book, m: nat): Book
    requires m > 0
  {
    Book(b.lo, CutLadder(b.bids, m), CutLadder(b.asks, m))
  }

  lemma CutQueue(b: Book, m: nat, s: Side, l: int)
    requires m > 0
    ensures Queue(Cut(b, m), s, l) == Servable(Queue(b, s, l), m)
    ensures Queue(Cut(b, m), s, l) == [] <==> Queue(b, s, l) == []
    ensures Queue(b, s, l) != [] ==> Queue(Cut(b, m), s, l)[0] == Queue(b, s, l)[0]
  {}

  lemma CutShape(b: Book, m: nat)
    requires m > 0
    ensures var c := Cut(b, m);
      c.lo == b.lo && |c.bids| == |b.bids| && |c.asks| == |b.asks|
  {}

  lemma CutPositive(w: View, m: nat)
    requires Coherent(w) && Positive(w.book) && m > 0
    ensures Positive(Cut(w.shown, m))
  {
    var c := Cut(w.shown, m);
    CutShape(w.shown, m);
    hide Cut, Queue;
    forall s: Side, l: int ensures AllPositive(Queue(c, s, l)) {
      CutQueue(w.shown, m, s, l);
      assert ShownAt(w, s, l) && AllPositive(Queue(w.book, s, l));
    }
  }

  lemma CutBest(b: Book, m: nat, s: Side)
    requires |b.bids| == |b.asks| && m > 0
    ensures Best(Cut(b, m), s) == Best(b, s)
  {
    CutShape(b, m);
    BestIsBest(b, s);
    hide Cut, Queue, Best;
    forall l: int ensures Queue(Cut(b, m), s, l) == [] <==> Queue(b, s, l) == [] {
      CutQueue(b, m, s, l);
    }
    BestUnique(Cut(b, m), s, Best(b, s));
  }

  lemma ServableStep(q: seq<Entry>, t: nat, m: nat)
    requires q != [] && t <= q[0].qty && m > 0
    ensures t == q[0].qty ==>
              Servable(if Total(q[1..]) % m == 0 then [] else q[1..], m) == [] + Servable(q, m)[1..]
    ensures var e := Entry(q[0].id, q[0].qty - t);
      Servable([e] + q[1..], m) == [e] + Servable(q, m)[1..]
  {
    var e := Entry(q[0].id, q[0].qty - t);
    assert ([e] + q[1..])[1..] == q[1..];
    var rest := if Total(q[1..]) % m == 0 then [] else Servable(q[1..], m);
    assert Servable(q, m) == [q[0]] + rest && ([q[0]] + rest)[1..] == rest && [] + rest == rest;
  }

  /** Serving at width m is consuming from the cut book. */
  lemma ServedCut(w: View, s: Side, l: int, t: nat, m: nat)
    requires CanServe(w, s, l, t) && m > 0
    ensures var c := Cut(w.shown, m);
      && Queue(c, s, l) != [] && t <= Queue(c, s, l)[0].qty
      && Cut(Served(w, s, l, t, m).shown, m) == Consume(c, s, l, t)
  {
    var q, c, v := Queue(w.shown, s, l), Cut(w.shown, m), Served(w, s, l, t, m);
    CutQueue(w.shown, m, s, l);
    CutShape(w.shown, m);
    CutShape(v.shown, m);
    ServedShape(w, s, l, t, m);
    ServedIs(w, s, l, t, m);
    hide *;
    CanServeIs(w, s, l, t);
    ConsumeShape(c, s, l, t);
    ServableStep(q, t, m);
    forall s': Side, l': int ensures Queue(Cut(v.shown, m), s', l') == Queue(Consume(c, s, l, t), s', l') {
      CutQueue(v.shown, m, s', l');
      CutQueue(w.shown, m, s', l');
      ConsumeQueues(c, s, l, t, s', l');
      ConsumeQueues(w.book, s, l, t, s, l);
      ServedShown(w, s, l, t, m, s', l');
    }
    BooksEqual(Cut(v.shown, m), Consume(c, s, l, t));
  }

  lemma CanServeIs(w: View, s: Side, l: int, t: nat)
    requires CanServe(w, s, l, t)
    ensures Queue(w.shown, s, l) != [] && Queue(w.shown, s, l) == Queue(w.book, s, l) && t <= Queue(w.book, s, l)[0].qty
  {}

  /**
   * At every width, whatever is hidden and whatever wraps: matching is price-time matching
   * on the shown book with every queue cut where its remaining total first reads zero.
   */
  lemma {:induction false} MatchAtIsCutMatch(w: View, side: Side, limit: int, qty: nat, id: int, m: nat)
    requires Coherent(w) && Positive(w.book) && m > 0
    ensures Positive(Cut(w.shown, m))
    ensures var r, c := MatchAt(w, side, limit, qty, id, m), Match(Cut(w.shown, m), side, limit, qty, id);
      r.execs == c.execs && r.rest == c.rest && Cut(r.view.shown, m) == c.book
    decreases qty
  {
    hide *;
    CutPositive(w, m);
    CutShape(w.shown, m);
    CoherentSides(w);
    CutBest(w.shown, m, side.Opposite());
    MatchAtUnfolds(w, side, limit, qty, id, m);
    MatchUnfolds(Cut(w.shown, m), side, limit, qty, id);
    SameEnds(w.shown, Cut(w.shown, m), side, limit, qty);
    if !MatchEnds(w.shown, side, limit, qty) {
      var maker, l := side.Opposite(), Best(w.shown, side.Opposite());
      var t := Min(qty, Queue(w.book, maker, l)[0].qty);
      CanServeIs(w, maker, l, t);
      CutQueue(w.shown, m, maker, l);
      ServedCut(w, maker, l, t, m);
      MatchAtIsCutMatch(Served(w, maker, l, t, m), side, limit, qty - t, id, m);
    }
  }

  lemma CoherentSides(w: View)
    requires Coherent(w)
    ensures |w.shown.bids| == |w.shown.asks| && w.shown.lo == w.book.lo
  {}

  lemma SameEnds(b: Book, c: Book, side: Side, limit: int, qty: nat)
    requires b.lo == c.lo && Best(b, side.Opposite()) == Best(c, side.Opposite())
    ensures MatchEnds(b, side, limit, qty) <==> MatchEnds(c, side, limit, qty)
  {}

  /** What a limit reaches at width m: of the makers shown, those that are not cut off. */
  function ReachedAt(w: View, side: Side, limit: int, m: nat): seq<Offer>
    requires m > 0
  {
    Reached(Cut(w.shown, m), side, limit)
  }

  lemma {:induction false} ServableAll(q: seq<Entry>, m: nat)
    requires m > 0 && AllPositive(q) && Total(q) < m
    ensures Servable(q, m) == q
  {
    if q != [] {
      assert AllPositive(q[1..]);
      SmallTotal(q[1..], m);
      ServableAll(q[1..], m);
    }
  }

  /** With totals that fit nothing is cut off: a limit reaches what it reaches of the width-free book. */
  lemma FittedIsUncut(b: Book, side: Side, limit: int, m: nat)
    requires Positive(b) && Fits(b, m) && m > 0
    ensures Cut(b, m) == b && ReachedAt(View(b, b), side, limit, m) == Reached(b, side, limit)
  {
    CutShape(b, m);
    EachSideFits(b, m);
    hide Cut, Fits, Queue, Reached, Servable, Total;
    forall s: Side, l: int ensures Queue(Cut(b, m), s, l) == Queue(b, s, l) {
      CutQueue(b, m, s, l);
      assert AllPositive(Queue(b, s, l)) && FitsSide(b, s, m);
      ServableAll(Queue(b, s, l), m);
    }
    BooksEqual(Cut(b, m), b);
  }

  /** A call is refused after matching exactly while a remainder meets an id that is still active; its trades stay. */
  lemma RejectedAfterMatching(w: View, capacity: nat, side: Side, price: int, qty: nat, id: int, m: nat)
    requires Coherent(w) && WellFormed(w.book) && m > 0 && GoodArguments(w.book, capacity, price, qty, id)
    ensures Positive(w.book)
    ensures var o, r := ProcessAt(w, capacity, side, price, qty, id, m), MatchAt(w, side, price, qty, id, m);
      && o.execs == r.execs && (!o.accepted <==> Volume(o.execs) < qty && Resting(r.view.book, id))
      && (!o.accepted ==> o.view == r.view)
  {
    MatchAtLeaves(w, side, price, qty, id, m);
  }

  /**
   * At every width and with anything hidden, a call with good arguments returns false
   * exactly when what it reaches is too little and its id is active on an order it does
   * not reach; it has traded all it reaches, and has left no trace exactly if that is nothing.
   */
  lemma RejectedExactlyAt(w: View, capacity: nat, side: Side, price: int, qty: nat, id: int, m: nat)
    requires Coherent(w) && WellFormed(w.book) && m > 0 && GoodArguments(w.book, capacity, price, qty, id)
    ensures var o, reached := ProcessAt(w, capacity, side, price, qty, id, m), ReachedAt(w, side, price, m);
      && (!o.accepted <==> Refuses(w.book, reached, qty, id))
      && (!o.accepted ==> Volume(o.execs) == Offered(reached) && (o.execs == [] <==> reached == [])
                          && (o.view == w <==> reached == []))
  {
    var reached := ReachedAt(w, side, price, m);
    assert Refuses(w.book, reached, qty, id)
      <==> Offered(reached) < qty && Resting(w.book, id) && !InLine(reached, id);
    assert reached == Reached(Cut(w.shown, m), side, price);
    hide *;
    WellFormedPositive(w.book);
    RejectedAfterMatching(w, capacity, side, price, qty, id, m);
    MatchAtLeaves(w, side, price, qty, id, m);
    MatchAtIsCutMatch(w, side, price, qty, id, m);
    ActiveAfterAt(w, side, price, qty, id, m, id);
    MadeIsReached(Cut(w.shown, m), side, price, qty, id, id);
    MatchAtUnfolds(w, side, price, qty, id, m);
    var r := MatchAt(w, side, price, qty, id, m);
    if r.execs != [] && r.rest > 0 {
      TradesLeaveTraces(w, side, price, qty, id, m);
    }
  }

  /**
   * At every width, whatever the id stands for: a call without a quantity, off the price
   * range or with an id that has no place is refused outright; and a call under an
   * inactive id is refused for nothing else.
   */
  lemma RefusedOutright(w: View, capacity: nat, side: Side, price: int, qty: nat, id: int, m: nat)
    requires Coherent(w) && WellFormed(w.book) && m > 0
    ensures var o := ProcessAt(w, capacity, side, price, qty, id, m);
      var fits := qty > 0 && w.book.lo <= price < w.book.lo + Levels(w.book) && 0 <= id < capacity;
      && (!fits ==> !o.accepted && o.view == w && o.execs == [])
      && (!Resting(w.book, id) ==> (o.accepted <==> fits))
  {
    hide Coherent, Joined, LadderOf, MatchAt, Positive, Resting, Shrinks, ShowsLess, UniqueIds, WellFormed;
    WellFormedPositive(w.book);
    if GoodArguments(w.book, capacity, price, qty, id) {
      MatchAtLeaves(w, side, price, qty, id, m);
      var r := MatchAt(w, side, price, qty, id, m);
      if Resting(r.view.book, id) {
        ShrinksResting(w.book, r.view.book, id);
      }
    }
  }

  lemma TradesLeaveTraces(w: View, side: Side, limit: int, qty: nat, id: int, m: nat)
    requires Coherent(w) && Positive(w.book) && UniqueIds(w.book) && m > 0
    requires MatchAt(w, side, limit, qty, id, m).execs != [] && MatchAt(w, side, limit, qty, id, m).rest > 0
    ensures MatchAt(w, side, limit, qty, id, m).view != w
  {
    var r := MatchAt(w, side, limit, qty, id, m);
    assert Made(r.execs, r.execs[0].makerId);
    hide *;
    MakersRested(w, side, limit, qty, id, m);
    ActiveAfterAt(w, side, limit, qty, id, m, r.execs[0].makerId);
  }

  // ---- When the executions are the price-time ones ----------------------------------------------

  /** The lines p and c agree on every offer of p that the limit reaches before the quantity is filled. */
  ghost predicate SameFront(p: seq<Offer>, c: seq<Offer>, lo: int, side: Side, limit: int, qty: nat) {
    forall k :: 0 <= k < Reach(p, lo, side, limit) && Offered(p[..k]) < qty ==> k < |c| && c[k] == p[k]
  }

  lemma SameNone(p: seq<Offer>, c: seq<Offer>, lo: int, side: Side, limit: int, qty: nat)
    requires qty == 0 || p == [] || !Crosses(side, limit, lo + p[0].level)
    ensures SameFront(p, c, lo, side, limit, qty)
  {
    hide Crosses;
  }

  /** The first offer of p counts if it crosses and there is a quantity to fill. */
  lemma SameHead(p: seq<Offer>, c: seq<Offer>, lo: int, side: Side, limit: int, qty: nat)
    requires qty > 0 && p != [] && Crosses(side, limit, lo + p[0].level)
    requires SameFront(p, c, lo, side, limit, qty)
    ensures c != [] && c[0] == p[0]
  {
    hide Crosses;
    assert Offered(p[..0]) == 0;
  }

  lemma OfferedStep(p: seq<Offer>, k: nat)
    requires 0 < k <= |p|
    ensures Offered(p[..k]) == p[0].qty + Offered(p[1..][..k - 1])
  {
    assert p[..k] == [p[0]] + p[1..][..k - 1];
    OfferedCons(p[0], p[1..][..k - 1]);
  }

  /** A quantity that the first offer fills. */
  lemma SameFilled(p: seq<Offer>, c: seq<Offer>, lo: int, side: Side, limit: int, qty: nat)
    requires p != [] && c != [] && c[0] == p[0] && qty <= p[0].qty
    ensures SameFront(p, c, lo, side, limit, qty)
  {
    hide Crosses, Offered, Reach;
    forall k | 0 < k < |p| ensures Offered(p[..k]) >= qty {
      OfferedStep(p, k);
    }
  }

  /** A quantity that goes on behind the first offer. */
  lemma SameRest(p: seq<Offer>, c: seq<Offer>, lo: int, side: Side, limit: int, qty: nat)
    requires p != [] && c != [] && c[0] == p[0] && p[0].qty <= qty && Crosses(side, limit, lo + p[0].level)
    ensures SameFront(p, c, lo, side, limit, qty) <==> SameFront(p[1..], c[1..], lo, side, limit, qty - p[0].qty)
  {
    hide Crosses, Offered, Reach;
    ReachStep(p, lo, side, limit);
    var q, d, n := p[1..], c[1..], Reach(p, lo, side, limit);
    if SameFront(p, c, lo, side, limit, qty) {
      forall k | 0 <= k < n - 1 && Offered(q[..k]) < qty - p[0].qty ensures k < |d| && d[k] == q[k] {
        OfferedStep(p, k + 1);
        assert c[k + 1] == p[k + 1];
      }
    }
    if SameFront(q, d, lo, side, limit, qty - p[0].qty) {
      forall k | 0 <= k < n && Offered(p[..k]) < qty ensures k < |c| && c[k] == p[k] {
        if k > 0 {
          OfferedStep(p, k);
          assert d[k - 1] == q[k - 1];
        }
      }
    }
  }

  /** The head of the line of the book and of the line the engine sees. */
  lemma BothHeads(w: View, s: Side, m: nat)
    requires Coherent(w) && Positive(w.book) && m > 0
    ensures var p, c := Priority(w.book, s), Priority(Cut(w.shown, m), s);
      && (p == [] <==> Best(w.book, s) == -1) && (c == [] <==> Best(w.shown, s) == -1)
      && (p != [] ==> p[0].level == Best(w.book, s)) && (c != [] ==> c[0].level == Best(w.shown, s))
      && (p != [] && c != [] && p[0].level == c[0].level ==> c[0] == p[0])
  {
    hide *;
    var b, x := w.book, Cut(w.shown, m);
    PositiveLevels(b);
    CutShape(w.shown, m);
    CoherentSides(w);
    CutBest(w.shown, m, s);
    HeadIs(b, s);
    HeadIs(x, s);
    CutQueue(w.shown, m, s, Best(w.shown, s));
    CoherentAt(w, s, Best(w.shown, s));
    if Best(w.shown, s) != -1 {
      BestIsThere(w.shown, s);
    }
  }

  lemma HeadIs(b: Book, s: Side)
    requires |b.bids| == |b.asks|
    ensures Best(b, s) == -1 ==> Priority(b, s) == []
    ensures var l := Best(b, s);
      l != -1 ==> Queue(b, s, l) != [] && Priority(b, s) != []
                  && Priority(b, s)[0] == Offer(l, Queue(b, s, l)[0].id, Queue(b, s, l)[0].qty)
  {
    hide *;
    if Best(b, s) == -1 {
      NoBestNoOffers(b, s);
    } else {
      BestIsFirst(b, s);
    }
  }

  lemma BestIsThere(b: Book, s: Side)
    requires |b.bids| == |b.asks| && Best(b, s) != -1
    ensures Queue(b, s, Best(b, s)) != []
  {
    BestIsBest(b, s);
  }

  /** Nothing shown crosses if nothing in the book does. */
  lemma WorseEnds(w: View, side: Side, limit: int, qty: nat)
    requires Coherent(w) && MatchEnds(w.book, side, limit, qty)
    ensures MatchEnds(w.shown, side, limit, qty)
  {
    var s := side.Opposite();
    BestIsBest(w.shown, s);
    BestIsBest(w.book, s);
    assert Best(w.shown, s) != -1 ==> ShownAt(w, s, Best(w.shown, s));
    hide Best, Queue;
  }

  lemma EndsIs(b: Book, side: Side, limit: int, qty: nat)
    ensures var l := Best(b, side.Opposite());
      MatchEnds(b, side, limit, qty) <==> qty == 0 || l == -1 || !Crosses(side, limit, b.lo + l)
  {
    hide Best, Crosses;
  }

  /** What the two lines are once the common head has been filled. */
  lemma FilledHead(w: View, s: Side, m: nat)
    requires Coherent(w) && Positive(w.book) && m > 0 && Best(w.shown, s) == Best(w.book, s) != -1
    ensures Queue(w.book, s, Best(w.book, s)) != [] && Priority(w.book, s) != []
    ensures var l, p, c := Best(w.book, s), Priority(w.book, s), Priority(Cut(w.shown, m), s);
      && c != [] && CanServe(w, s, l, p[0].qty) && p[0].qty == Queue(w.book, s, l)[0].qty
      && var v := Served(w, s, l, p[0].qty, m);
      && Priority(v.book, s) == p[1..] && Priority(Cut(v.shown, m), s) == c[1..]
  {
    hide *;
    var l, x := Best(w.book, s), Cut(w.shown, m);
    PositiveLevels(w.book);
    CutShape(w.shown, m);
    CoherentSides(w);
    CutPositive(w, m);
    CutBest(w.shown, m, s);
    HeadIs(w.book, s);
    HeadIs(x, s);
    BothHeads(w, s, m);
    HeadServes(w, s);
    var t := Queue(w.book, s, l)[0].qty;
    ServedIs(w, s, l, t, m);
    ServedCut(w, s, l, t, m);
    ConsumeAdvances(w.book, s, t);
    ConsumeAdvances(x, s, t);
    AdvanceFull(Priority(w.book, s));
    AdvanceFull(Priority(x, s));
  }

  lemma HeadServes(w: View, s: Side)
    requires Coherent(w) && Positive(w.book) && Best(w.shown, s) != -1
    ensures var l := Best(w.shown, s);
      Queue(w.book, s, l) != [] && CanServe(w, s, l, Queue(w.book, s, l)[0].qty)
  {
    HeadShown(w, s);
  }

  /**
   * From any view and at any width, the executions are those of price-time matching on
   * the whole book exactly when the line the engine sees, cut where totals read zero, is
   * the line of the book as far as the limit reaches and the quantity lasts.
   */
  lemma {:induction false} SameTradesExactly(w: View, side: Side, limit: int, qty: nat, id: int, m: nat)
    requires Coherent(w) && Positive(w.book) && m > 0
    ensures MatchAt(w, side, limit, qty, id, m).execs == Match(w.book, side, limit, qty, id).execs
       <==> SameFront(Priority(w.book, side.Opposite()), Priority(Cut(w.shown, m), side.Opposite()),
                      w.book.lo, side, limit, qty)
    decreases qty
  {
    hide *;
    var maker, b := side.Opposite(), w.book;
    var p, c := Priority(b, maker), Priority(Cut(w.shown, m), maker);
    CoherentSides(w);
    BothHeads(w, maker, m);
    MatchAtUnfolds(w, side, limit, qty, id, m);
    MatchUnfolds(b, side, limit, qty, id);
    EndsIs(b, side, limit, qty);
    EndsIs(w.shown, side, limit, qty);
    if MatchEnds(b, side, limit, qty) {
      WorseEnds(w, side, limit, qty);
      SameNone(p, c, b.lo, side, limit, qty);
    } else if MatchEnds(w.shown, side, limit, qty) || Best(w.shown, maker) != Best(b, maker) {
      if SameFront(p, c, b.lo, side, limit, qty) {
        SameHead(p, c, b.lo, side, limit, qty);
      }
      FirstDiffers(w, side, limit, qty, id, m);
    } else {
      var l, e := Best(b, maker), Queue(b, maker, Best(b, maker))[0];
      var t := Min(qty, e.qty);
      var v := Served(w, maker, l, t, m);
      MinIs(qty, e.qty);
      FilledHead(w, maker, m);
      ServedIs(w, maker, l, t, m);
      SameTails(Execution(side, id, maker, e.id, b.lo + l, t), MatchAt(v, side, limit, qty - t, id, m).execs,
                Match(v.book, side, limit, qty - t, id).execs);
      SameTradesExactly(v, side, limit, qty - t, id, m);
      ConsumeShape(b, maker, l, t);
      if t == e.qty {
        SameRest(p, c, b.lo, side, limit, qty);
      } else {
        SameFilled(p, c, b.lo, side, limit, qty);
        SameNone(Priority(v.book, maker), Priority(Cut(v.shown, m), maker), b.lo, side, limit, 0);
      }
    }
  }

  lemma SameTails(e: Execution, es: seq<Execution>, es': seq<Execution>)
    ensures [e] + es == [e] + es' <==> es == es'
  {
    assert ([e] + es)[1..] == es && ([e] + es')[1..] == es';
  }

  /** Where the best shown level is not the best, or nothing shown crosses, the first execution differs. */
  lemma FirstDiffers(w: View, side: Side, limit: int, qty: nat, id: int, m: nat)
    requires Coherent(w) && Positive(w.book) && m > 0 && !MatchEnds(w.book, side, limit, qty)
    requires MatchEnds(w.shown, side, limit, qty) || Best(w.shown, side.Opposite()) != Best(w.book, side.Opposite())
    ensures MatchAt(w, side, limit, qty, id, m).execs != Match(w.book, side, limit, qty, id).execs
  {
    hide *;
    MatchAtUnfolds(w, side, limit, qty, id, m);
    MatchUnfolds(w.book, side, limit, qty, id);
    var es, es' := MatchAt(w, side, limit, qty, id, m).execs, Match(w.book, side, limit, qty, id).execs;
    assert es'[0].price == w.book.lo + Best(w.book, side.Opposite());
    if !MatchEnds(w.shown, side, limit, qty) {
      assert es[0].price == w.book.lo + Best(w.shown, side.Opposite());
    }
  }

  // ---- When matching is clean ------------------------------------------------------------------

  /** Filling offer k leaves orders of its level behind whose total reads zero. */
  predicate LosesBehind(p: seq<Offer>, k: nat, m: nat)
    requires k < |p| && m > 0
  {
    var left := AtLevel(p[k + 1..], p[k].level);
    left != [] && Total(left) % m == 0
  }

  /** What the first k + 1 offers have together. */
  function UpTo(p: seq<Offer>, k: nat): nat
    requires k < |p|
  {
    Offered(p[..k + 1])
  }

  /** Of the offers the limit reaches and the quantity fills, none loses what is behind it. */
  ghost predicate CleanLine(p: seq<Offer>, lo: int, side: Side, limit: int, qty: nat, m: nat)
    requires m > 0
  {
    forall k :: 0 <= k < Reach(p, lo, side, limit) && UpTo(p, k) <= qty ==> !LosesBehind(p, k, m)
  }

  lemma UpToStep(p: seq<Offer>, k: nat)
    requires k < |p|
    ensures UpTo(p, k) == p[0].qty + if k == 0 then 0 else UpTo(p[1..], k - 1)
  {
    assert p[..k + 1] == [p[0]] + p[1..][..k];
    OfferedCons(p[0], p[1..][..k]);
  }

  lemma LosesStep(p: seq<Offer>, k: nat, m: nat)
    requires 0 < k < |p| && m > 0
    ensures LosesBehind(p, k, m) == LosesBehind(p[1..], k - 1, m)
  {
    assert p[k + 1..] == p[1..][k..];
  }

  lemma ReachStep(p: seq<Offer>, lo: int, side: Side, limit: int)
    requires p != [] && Crosses(side, limit, lo + p[0].level)
    ensures Reach(p, lo, side, limit) == 1 + Reach(p[1..], lo, side, limit)
  {}

  /** A taker that fills nobody loses nothing. */
  lemma CleanNone(p: seq<Offer>, lo: int, side: Side, limit: int, qty: nat, m: nat)
    requires m > 0 && (p == [] || !Crosses(side, limit, lo + p[0].level) || qty < p[0].qty)
    ensures CleanLine(p, lo, side, limit, qty, m)
  {
    hide Crosses, LosesBehind, UpTo;
    forall k | 0 <= k < Reach(p, lo, side, limit) ensures UpTo(p, k) > qty {
      UpToStep(p, k);
    }
  }

  /** A taker that fills the first offer goes on with the rest of the line. */
  lemma CleanStep(p: seq<Offer>, lo: int, side: Side, limit: int, qty: nat, m: nat)
    requires m > 0 && p != [] && Crosses(side, limit, lo + p[0].level) && p[0].qty <= qty
    ensures CleanLine(p, lo, side, limit, qty, m)
       <==> !LosesBehind(p, 0, m) && CleanLine(p[1..], lo, side, limit, qty - p[0].qty, m)
  {
    hide Crosses, LosesBehind, Offered, Reach, UpTo;
    var n := Reach(p, lo, side, limit);
    ReachStep(p, lo, side, limit);
    UpToStep(p, 0);
    forall k | 0 < k < n
      ensures UpTo(p, k) == p[0].qty + UpTo(p[1..], k - 1) && LosesBehind(p, k, m) == LosesBehind(p[1..], k - 1, m)
    {
      UpToStep(p, k);
      LosesStep(p, k, m);
    }
    forall k | 0 <= k < n - 1
      ensures UpTo(p[1..], k) == UpTo(p, k + 1) - p[0].qty && LosesBehind(p[1..], k, m) == LosesBehind(p, k + 1, m)
    {
      UpToStep(p, k + 1);
      LosesStep(p, k + 1, m);
    }
  }

  /** Whether serving the head loses what is behind it can be read off the line. */
  lemma HeadLoses(b: Book, s: Side, m: nat)
    requires Positive(b) && Best(b, s) != -1 && m > 0
    ensures var l, p := Best(b, s), Priority(b, s);
      && Queue(b, s, l) != [] && p != [] && p[0] == Offer(l, Queue(b, s, l)[0].id, Queue(b, s, l)[0].qty)
      && var c := Consume(b, s, l, p[0].qty);
      && Priority(c, s) == p[1..] && (NoFalseZero(c, s, l, m) <==> !LosesBehind(p, 0, m))
  {
    hide *;
    PositiveLevels(b);
    BestIsFirst(b, s);
    BestIsBest(b, s);
    var l, p := Best(b, s), Priority(b, s);
    var c := Consume(b, s, l, p[0].qty);
    ConsumeAdvances(b, s, p[0].qty);
    ConsumeShape(b, s, l, p[0].qty);
    AdvanceFull(p);
    PriorityDeterminesQueues(c, s, l);
    LosesHead(c, s, l, p, m);
  }

  lemma LosesHead(c: Book, s: Side, l: int, p: seq<Offer>, m: nat)
    requires p != [] && p[0].level == l && AtLevel(p[1..], l) == Queue(c, s, l) && m > 0
    ensures NoFalseZero(c, s, l, m) <==> !LosesBehind(p, 0, m)
  {}

  /**
   * Matching on a fully shown book is clean exactly when no order that the limit reaches
   * and the quantity fills leaves behind it, at its level, orders whose total reads zero.
   */
  lemma {:induction false} CleanMatchExactly(b: Book, side: Side, limit: int, qty: nat, m: nat)
    requires Positive(b) && m > 0
    ensures CleanMatch(b, side, limit, qty, m) <==> CleanLine(Priority(b, side.Opposite()), b.lo, side, limit, qty, m)
    decreases qty
  {
    hide *;
    var maker, l := side.Opposite(), Best(b, side.Opposite());
    var p := Priority(b, maker);
    CleanUnfolds(b, side, limit, qty, m);
    if MatchEnds(b, side, limit, qty) {
      EndsAtLine(b, side, limit, qty);
      CleanNone(p, b.lo, side, limit, qty, m);
    } else {
      var t := Min(qty, Queue(b, maker, l)[0].qty);
      MinIs(qty, Queue(b, maker, l)[0].qty);
      GoesOnAtBest(b, side, limit, qty);
      HeadLoses(b, maker, m);
      if t == p[0].qty {
        CleanMatchExactly(Consume(b, maker, l, t), side, limit, qty - t, m);
        CleanStep(p, b.lo, side, limit, qty, m);
        ConsumeShape(b, maker, l, t);
      } else {
        CleanNone(p, b.lo, side, limit, qty, m);
        NothingToClean(Consume(b, maker, l, t), side, limit, m);
      }
    }
  }

  lemma GoesOnAtBest(b: Book, side: Side, limit: int, qty: nat)
    requires !MatchEnds(b, side, limit, qty)
    ensures Best(b, side.Opposite()) != -1 && Crosses(side, limit, b.lo + Best(b, side.Opposite()))
  {}

  lemma NothingToClean(b: Book, side: Side, limit: int, m: nat)
    requires Positive(b) && m > 0
    ensures CleanMatch(b, side, limit, 0, m)
  {}

  lemma EndsAtLine(b: Book, side: Side, limit: int, qty: nat)
    requires Positive(b) && MatchEnds(b, side, limit, qty)
    ensures var p := Priority(b, side.Opposite());
      p == [] || !Crosses(side, limit, b.lo + p[0].level) || qty < p[0].qty
  {
    var l := Best(b, side.Opposite());
    if l == -1 {
      NoBestNoOffers(b, side.Opposite());
    } else {
      BestIsFirst(b, side.Opposite());
      assert AllPositive(Queue(b, side.Opposite(), l));
    }
  }
}
