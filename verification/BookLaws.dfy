/**
 * Laws of the abstract book: matching is exactly price-time priority, quantity is
 * conserved, the book is never crossed, and resting then cancelling leaves only
 * the trades behind.
 */
module BookLaws {
  import opened PriceTimeBook

  // ---- The priority order of one side ---------------------------------------------------

  datatype Offer = Offer(level: int, id: int, qty: nat)

  function Tagged(q: seq<Entry>, l: int): (r: seq<Offer>)
    ensures |r| == |q|
    ensures forall k :: 0 <= k < |q| ==> r[k] == Offer(l, q[k].id, q[k].qty)
  {
    seq(|q|, k requires 0 <= k < |q| => Offer(l, q[k].id, q[k].qty))
  }

  function PriorityFrom(b: Book, s: Side, r: nat): seq<Offer>
    requires r <= Levels(b)
    decreases Levels(b) - r
  {
    if r == Levels(b) then []
    else
      var l := LevelAt(s, r, Levels(b));
      Tagged(Queue(b, s, l), l) + PriorityFrom(b, s, r + 1)
  }

  /** All resting orders of a side, best price first and oldest first within a price. */
  function Priority(b: Book, s: Side): seq<Offer> {
    PriorityFrom(b, s, 0)
  }

  ghost predicate BestFirst(p: seq<Offer>, s: Side) {
    forall i, j :: 0 <= i < j < |p| ==> AtLeastAsGood(s, p[i].level, p[j].level)
  }

  ghost predicate NoneBetter(p: seq<Offer>, s: Side, l: int) {
    forall i :: 0 <= i < |p| ==> AtLeastAsGood(s, l, p[i].level)
  }

  lemma BestFirstConcat(q: seq<Offer>, p: seq<Offer>, s: Side, l: int, l': int)
    requires forall i :: 0 <= i < |q| ==> q[i].level == l
    requires BestFirst(p, s) && NoneBetter(p, s, l') && AtLeastAsGood(s, l, l')
    ensures BestFirst(q + p, s) && NoneBetter(q + p, s, l)
  {}

  /** The priority order lists better levels before worse ones. */
  lemma {:induction false} PrioritySorted(b: Book, s: Side, r: nat)
    requires r <= Levels(b)
    ensures BestFirst(PriorityFrom(b, s, r), s)
    ensures NoneBetter(PriorityFrom(b, s, r), s, LevelAt(s, r, Levels(b)))
    decreases Levels(b) - r
  {
    if r < Levels(b) {
      PrioritySorted(b, s, r + 1);
      var l := LevelAt(s, r, Levels(b));
      BestFirstConcat(Tagged(Queue(b, s, l), l), PriorityFrom(b, s, r + 1), s, l, LevelAt(s, r + 1, Levels(b)));
    }
  }

  /** The offers of one level, in order, are that level's queue. */
  function AtLevel(p: seq<Offer>, l: int): seq<Entry> {
    if p == [] then []
    else if p[0].level == l then [Entry(p[0].id, p[0].qty)] + AtLevel(p[1..], l)
    else AtLevel(p[1..], l)
  }

  lemma {:induction false} AtLevelConcat(p: seq<Offer>, q: seq<Offer>, l: int)
    ensures AtLevel(p + q, l) == AtLevel(p, l) + AtLevel(q, l)
  {
    if p == [] {
      assert p + q == q;
    } else {
      assert (p + q)[1..] == p[1..] + q;
      AtLevelConcat(p[1..], q, l);
    }
  }

  lemma {:induction false} AtLevelTagged(q: seq<Entry>, l: int, l': int)
    ensures AtLevel(Tagged(q, l), l') == if l == l' then q else []
  {
    if q != [] {
      assert Tagged(q, l)[1..] == Tagged(q[1..], l);
      AtLevelTagged(q[1..], l, l');
    }
  }

  lemma PriorityUnfolds(b: Book, s: Side, r: nat)
    requires r <= Levels(b)
    ensures var l := LevelAt(s, r, Levels(b));
      PriorityFrom(b, s, r) == if r == Levels(b) then [] else Tagged(Queue(b, s, l), l) + PriorityFrom(b, s, r + 1)
  {}

  lemma {:induction false} PriorityFromQueues(b: Book, s: Side, r: nat, i: nat)
    requires r <= Levels(b) && i < Levels(b)
    ensures AtLevel(PriorityFrom(b, s, r), LevelAt(s, i, Levels(b)))
         == if r <= i then Queue(b, s, LevelAt(s, i, Levels(b))) else []
    decreases Levels(b) - r
  {
    hide Levels, PriorityFrom, Queue, Tagged;
    PriorityUnfolds(b, s, r);
    if r < Levels(b) {
      var l, l' := LevelAt(s, r, Levels(b)), LevelAt(s, i, Levels(b));
      assert l == l' <==> r == i;
      AtLevelConcat(Tagged(Queue(b, s, l), l), PriorityFrom(b, s, r + 1), l');
      AtLevelTagged(Queue(b, s, l), l, l');
      PriorityFromQueues(b, s, r + 1, i);
    } else {
    }
  }

  /** The priority order determines the side: every queue can be read back from it. */
  lemma PriorityDeterminesQueues(b: Book, s: Side, l: int)
    requires 0 <= l < Levels(b)
    ensures AtLevel(Priority(b, s), l) == Queue(b, s, l)
  {
    var i := if s == Buy then Levels(b) - 1 - l else l;
    PriorityFromQueues(b, s, 0, i);
  }

  // ---- The front of the priority order ------------------------------------------------------

  lemma {:induction false} EmptyRanks(b: Book, s: Side, r: nat, f: nat)
    requires r <= f <= Levels(b)
    requires forall i :: r <= i < f ==> Queue(b, s, LevelAt(s, i, Levels(b))) == []
    ensures PriorityFrom(b, s, r) == PriorityFrom(b, s, f)
    decreases f - r
  {
    if r < f {
      EmptyRanks(b, s, r + 1, f);
      assert Tagged(Queue(b, s, LevelAt(s, r, Levels(b))), LevelAt(s, r, Levels(b))) == [];
    }
  }

  lemma {:induction false} SameRanks(b: Book, c: Book, s: Side, r: nat)
    requires r <= Levels(b) == Levels(c)
    requires forall i :: r <= i < Levels(b) ==>
               Queue(b, s, LevelAt(s, i, Levels(b))) == Queue(c, s, LevelAt(s, i, Levels(b)))
    ensures PriorityFrom(b, s, r) == PriorityFrom(c, s, r)
    decreases Levels(b) - r
  {
    if r < Levels(b) {
      SameRanks(b, c, s, r + 1);
    }
  }

  lemma NoBestNoOffers(b: Book, s: Side)
    requires Best(b, s) == -1
    ensures Priority(b, s) == []
  {
    EmptyRanks(b, s, 0, Levels(b));
  }

  /** The oldest order of the best level is first in line. */
  lemma BestIsFirst(b: Book, s: Side)
    requires |b.bids| == |b.asks| && Best(b, s) != -1
    ensures var l := Best(b, s);
      Queue(b, s, l) != [] && Priority(b, s) != []
      && Priority(b, s)[0] == Offer(l, Queue(b, s, l)[0].id, Queue(b, s, l)[0].qty)
  {
    EmptyRanks(b, s, 0, FirstRank(b, s, 0));
  }

  /** The line after its first offer gave up t. */
  function Advance(p: seq<Offer>, t: nat): seq<Offer>
    requires p != [] && t <= p[0].qty
  {
    (if t == p[0].qty then [] else [p[0].(qty := p[0].qty - t)]) + p[1..]
  }

  lemma ConsumeQueues(b: Book, s: Side, l: int, t: nat, s': Side, l': int)
    requires Queue(b, s, l) != [] && t <= Queue(b, s, l)[0].qty
    ensures Queue(Consume(b, s, l, t), s', l')
         == if s' == s && l' == l
            then (if t == Queue(b, s, l)[0].qty then []
                  else [Entry(Queue(b, s, l)[0].id, Queue(b, s, l)[0].qty - t)]) + Queue(b, s, l)[1..]
            else Queue(b, s', l')
  {}

  /** The line of a side from its first non-empty rank f on. */
  lemma PriorityAtRank(b: Book, s: Side, f: nat)
    requires f < Levels(b)
    requires forall i :: 0 <= i < f ==> Queue(b, s, LevelAt(s, i, Levels(b))) == []
    ensures var l := LevelAt(s, f, Levels(b));
      Priority(b, s) == Tagged(Queue(b, s, l), l) + PriorityFrom(b, s, f + 1)
  {
    EmptyRanks(b, s, 0, f);
  }

  lemma ConsumeAtRank(b: Book, s: Side, f: nat, t: nat)
    requires |b.bids| == |b.asks| && f < Levels(b)
    requires forall i :: 0 <= i < f ==> Queue(b, s, LevelAt(s, i, Levels(b))) == []
    requires var q := Queue(b, s, LevelAt(s, f, Levels(b))); q != [] && t <= q[0].qty
    ensures Priority(b, s) != [] && t <= Priority(b, s)[0].qty
    ensures Priority(Consume(b, s, LevelAt(s, f, Levels(b)), t), s) == Advance(Priority(b, s), t)
  {
    hide Advance, Consume, Levels, Priority, PriorityFrom, Queue, Tagged;
    var l, n := LevelAt(s, f, Levels(b)), Levels(b);
    var c, q := Consume(b, s, l, t), Queue(b, s, l);
    ConsumeShape(b, s, l, t);
    forall i | 0 <= i < n && i != f
      ensures Queue(c, s, LevelAt(s, i, n)) == Queue(b, s, LevelAt(s, i, n))
    {
      ConsumeQueues(b, s, l, t, s, LevelAt(s, i, n));
    }
    PriorityAtRank(b, s, f);
    PriorityAtRank(c, s, f);
    SameRanks(b, c, s, f + 1);
    ConsumeQueues(b, s, l, t, s, l);
    TaggedAdvance(q, l, t, Queue(c, s, l), PriorityFrom(b, s, f + 1));
    assert Tagged(q, l)[0].qty == q[0].qty;
  }

  lemma ConsumeShape(b: Book, s: Side, l: int, t: nat)
    requires Queue(b, s, l) != [] && t <= Queue(b, s, l)[0].qty
    ensures var c := Consume(b, s, l, t);
      |c.bids| == |b.bids| && |c.asks| == |b.asks| && c.lo == b.lo && Levels(c) == Levels(b)
  {}

  /** Consuming from the best level advances the line and changes nothing else. */
  lemma ConsumeAdvances(b: Book, s: Side, t: nat)
    requires |b.bids| == |b.asks| && Best(b, s) != -1 && Queue(b, s, Best(b, s)) != []
    requires t <= Queue(b, s, Best(b, s))[0].qty
    ensures Priority(b, s) != [] && t <= Priority(b, s)[0].qty
    ensures Priority(Consume(b, s, Best(b, s), t), s) == Advance(Priority(b, s), t)
  {
    hide Advance, Consume, FirstRank, LevelAt, Levels, Priority, Queue;
    ConsumeAtRank(b, s, FirstRank(b, s, 0), t);
  }

  lemma TaggedAdvance(q: seq<Entry>, l: int, t: nat, q': seq<Entry>, rest: seq<Offer>)
    requires q != [] && t <= q[0].qty
    requires q' == (if t == q[0].qty then [] else [Entry(q[0].id, q[0].qty - t)]) + q[1..]
    ensures Tagged(q', l) + rest == Advance(Tagged(q, l) + rest, t)
  {
    assert (Tagged(q, l) + rest)[1..] == Tagged(q[1..], l) + rest;
    if t == q[0].qty {
      assert q' == q[1..];
    } else {
      assert Tagged(q', l) == [Offer(l, q[0].id, q[0].qty - t)] + Tagged(q[1..], l);
    }
  }

  // ---- Matching is price-time priority -----------------------------------------------------------

  function Volume(es: seq<Execution>): nat {
    if es == [] then 0 else es[0].qty + Volume(es[1..])
  }

  /**
   * The executions of a taker against a line p of makers: they take a prefix of the
   * line, everything but the last maker in full, never past the limit, and stop only
   * when the taker is filled or the next maker does not cross; p' is the line left.
   */
  ghost predicate FollowsPriority(p: seq<Offer>, lo: int, side: Side, limit: int, qty: nat, id: int,
                                  es: seq<Execution>, p': seq<Offer>, rest: nat)
  {
    var n := |es|;
    && n <= |p|
    && (forall k :: 0 <= k < n ==>
          && es[k] == Execution(side, id, side.Opposite(), p[k].id, lo + p[k].level, es[k].qty)
          && Crosses(side, limit, lo + p[k].level) && 0 < es[k].qty <= p[k].qty)
    && (forall k :: 0 <= k < n - 1 ==> es[k].qty == p[k].qty)
    && Volume(es) + rest == qty
    && (rest > 0 ==> (n > 0 ==> es[n - 1].qty == p[n - 1].qty)
                     && (n < |p| ==> !Crosses(side, limit, lo + p[n].level)))
    && p' == if n == 0 then p else Advance(p[n - 1..], es[n - 1].qty)
  }

  lemma FollowsStep(p: seq<Offer>, lo: int, side: Side, limit: int, qty: nat, id: int, t: nat,
                    es: seq<Execution>, p': seq<Offer>, rest: nat)
    requires p != [] && qty > 0 && p[0].qty > 0 && t == Min(qty, p[0].qty) && Crosses(side, limit, lo + p[0].level)
    requires FollowsPriority(Advance(p, t), lo, side, limit, qty - t, id, es, p', rest)
    requires t == qty ==> es == []
    ensures FollowsPriority(p, lo, side, limit, qty, id,
                            [Execution(side, id, side.Opposite(), p[0].id, lo + p[0].level, t)] + es, p', rest)
  {
    hide Advance, Crosses, FollowsPriority, Side.Opposite;
    AdvanceFull(p);
    if t == p[0].qty {
      FollowsFullTrade(p, lo, side, limit, qty, id, es, p', rest);
    } else {
      FollowsPartialTrade(p, lo, side, limit, qty, id, p', rest);
      assert forall x: Execution :: [x] + [] == [x];
    }
  }

  /** The taker is filled inside its first maker. */
  lemma FollowsPartialTrade(p: seq<Offer>, lo: int, side: Side, limit: int, qty: nat, id: int,
                            p': seq<Offer>, rest: nat)
    requires p != [] && 0 < qty < p[0].qty && Crosses(side, limit, lo + p[0].level)
    requires FollowsPriority(Advance(p, qty), lo, side, limit, 0, id, [], p', rest)
    ensures FollowsPriority(p, lo, side, limit, qty, id,
                            [Execution(side, id, side.Opposite(), p[0].id, lo + p[0].level, qty)], p', rest)
  {
    hide Crosses, Advance;
    assert p[0..] == p;
    var e := Execution(side, id, side.Opposite(), p[0].id, lo + p[0].level, qty);
    assert [e][1..] == [];
  }

  lemma VolumeCons(e: Execution, es: seq<Execution>)
    ensures Volume([e] + es) == e.qty + Volume(es)
  {
    assert ([e] + es)[1..] == es;
  }

  lemma FollowsFullTrade(p: seq<Offer>, lo: int, side: Side, limit: int, qty: nat, id: int,
                         es: seq<Execution>, p': seq<Offer>, rest: nat)
    requires p != [] && 0 < p[0].qty <= qty && Crosses(side, limit, lo + p[0].level)
    requires FollowsPriority(p[1..], lo, side, limit, qty - p[0].qty, id, es, p', rest)
    ensures FollowsPriority(p, lo, side, limit, qty, id,
                            [Execution(side, id, side.Opposite(), p[0].id, lo + p[0].level, p[0].qty)] + es, p', rest)
  {
    hide Advance, Crosses, Side.Opposite, Volume;
    var e := Execution(side, id, side.Opposite(), p[0].id, lo + p[0].level, p[0].qty);
    var es', n := [e] + es, |es|;
    VolumeCons(e, es);
    forall k | 0 <= k < n + 1
      ensures es'[k] == Execution(side, id, side.Opposite(), p[k].id, lo + p[k].level, es'[k].qty)
      ensures Crosses(side, limit, lo + p[k].level) && 0 < es'[k].qty <= p[k].qty
      ensures k < n ==> es'[k].qty == p[k].qty
    {
      if k > 0 {
        assert es'[k] == es[k - 1] && p[k] == p[1..][k - 1];
      }
    }
    AdvanceFull(p);
    if n > 0 {
      assert es'[n] == es[n - 1] && p[1..][n - 1] == p[n] && p[1..][n - 1..] == p[n..];
    } else {
      assert p[0..] == p;
    }
    assert n < |p[1..]| ==> p[1..][n] == p[n + 1];
  }

  lemma AdvanceFull(p: seq<Offer>)
    requires p != []
    ensures Advance(p, p[0].qty) == p[1..]
  {}

  /** The matching loop serves makers in price-time priority, for every book and every taker. */
  lemma {:induction false} MatchFollowsPriority(b: Book, side: Side, limit: int, qty: nat, id: int)
    requires Positive(b)
    ensures var m := Match(b, side, limit, qty, id);
      FollowsPriority(Priority(b, side.Opposite()), b.lo, side, limit, qty, id,
                      m.execs, Priority(m.book, side.Opposite()), m.rest)
    decreases qty
  {
    hide *;
    var maker, l := side.Opposite(), Best(b, side.Opposite());
    MatchUnfolds(b, side, limit, qty, id);
    if MatchEnds(b, side, limit, qty) {
      FollowsNone(b, side, limit, qty, id);
    } else {
      var t := Min(qty, Queue(b, maker, l)[0].qty);
      MatchFollowsPriority(Consume(b, maker, l, t), side, limit, qty - t, id);
      var m := Match(Consume(b, maker, l, t), side, limit, qty - t, id);
      FollowsTrade(b, side, limit, qty, id, m);
    }
  }

  lemma FollowsTrade(b: Book, side: Side, limit: int, qty: nat, id: int, m: Matched)
    requires Positive(b) && !MatchEnds(b, side, limit, qty)
    requires var maker, l := side.Opposite(), Best(b, side.Opposite());
      && Queue(b, maker, l) != [] && Queue(b, maker, l)[0].qty > 0
      && var t := Min(qty, Queue(b, maker, l)[0].qty);
      && (t == qty ==> m.execs == [])
      && FollowsPriority(Priority(Consume(b, maker, l, t), maker), b.lo, side, limit, qty - t, id,
                         m.execs, Priority(m.book, maker), m.rest)
    ensures var maker, l := side.Opposite(), Best(b, side.Opposite());
      var t := Min(qty, Queue(b, maker, l)[0].qty);
      FollowsPriority(Priority(b, maker), b.lo, side, limit, qty, id,
                      [Execution(side, id, maker, Queue(b, maker, l)[0].id, b.lo + l, t)] + m.execs,
                      Priority(m.book, maker), m.rest)
  {
    hide Positive, Best, Priority, FollowsPriority;
    var maker, l := side.Opposite(), Best(b, side.Opposite());
    var t := Min(qty, Queue(b, maker, l)[0].qty);
    PositiveLevels(b);
    BestIsFirst(b, maker);
    ConsumeAdvances(b, maker, t);
    FollowsStep(Priority(b, maker), b.lo, side, limit, qty, id, t, m.execs, Priority(m.book, maker), m.rest);
  }

  lemma PositiveLevels(b: Book)
    requires Positive(b)
    ensures |b.bids| == |b.asks|
  {}

  lemma FollowsNone(b: Book, side: Side, limit: int, qty: nat, id: int)
    requires Positive(b) && MatchEnds(b, side, limit, qty)
    ensures var p := Priority(b, side.Opposite());
      FollowsPriority(p, b.lo, side, limit, qty, id, [], p, qty)
  {
    var maker := side.Opposite();
    if Best(b, maker) == -1 {
      NoBestNoOffers(b, maker);
    } else {
      BestIsFirst(b, maker);
    }
  }

  // ---- What matching leaves ---------------------------------------------------------------------

  /** The queues of c are the queues of b with entries removed or reduced. */
  ghost predicate Shrinks(b: Book, c: Book) {
    && |b.bids| == |c.bids| && |b.asks| == |c.asks| && b.lo == c.lo
    && forall s: Side, l: int ::
         && (Queue(c, s, l) != [] ==> Queue(b, s, l) != [])
         && (DistinctIds(Queue(b, s, l)) ==> DistinctIds(Queue(c, s, l)))
         && (forall id :: HasId(Queue(c, s, l), id) ==> HasId(Queue(b, s, l), id))
  }

  lemma ShrinksUnique(b: Book, c: Book)
    requires Shrinks(b, c) && UniqueIds(b)
    ensures UniqueIds(c)
  {}

  lemma ShrinksUncrossed(b: Book, c: Book)
    requires Shrinks(b, c) && Uncrossed(b)
    ensures Uncrossed(c)
  {}

  lemma ShrinksTransitive(a: Book, b: Book, c: Book)
    requires Shrinks(a, b) && Shrinks(b, c)
    ensures Shrinks(a, c)
  {}

  lemma ShrinksResting(b: Book, c: Book, id: int)
    requires Shrinks(b, c) && Resting(c, id)
    ensures Resting(b, id)
  {
    var s: Side, l: int :| HasId(Queue(c, s, l), id);
    assert HasId(Queue(b, s, l), id);
  }

  lemma ConsumeShrinks(b: Book, s: Side, l: int, t: nat)
    requires Queue(b, s, l) != [] && t <= Queue(b, s, l)[0].qty
    ensures Shrinks(b, Consume(b, s, l, t))
  {
    var c := Consume(b, s, l, t);
    forall s': Side, l': int
      ensures (Queue(c, s', l') != [] ==> Queue(b, s', l') != [])
      ensures DistinctIds(Queue(b, s', l')) ==> DistinctIds(Queue(c, s', l'))
      ensures forall id :: HasId(Queue(c, s', l'), id) ==> HasId(Queue(b, s', l'), id)
    {
      ConsumeQueues(b, s, l, t, s', l');
      if s' == s && l' == l {
        ShorterQueue(Queue(b, s, l), Queue(c, s, l), t);
      }
    }
  }

  lemma ShorterQueue(q: seq<Entry>, q': seq<Entry>, t: nat)
    requires q != [] && t <= q[0].qty
    requires q' == (if t == q[0].qty then [] else [Entry(q[0].id, q[0].qty - t)]) + q[1..]
    ensures DistinctIds(q) ==> DistinctIds(q')
    ensures forall id :: HasId(q', id) ==> HasId(q, id)
  {
    var d := if t == q[0].qty then 1 else 0;
    assert forall k :: 0 <= k < |q'| ==> q'[k].id == q[k + d].id;
  }

  /** Matching only shrinks queues, and a remainder means nothing left crosses. */
  lemma {:induction false} MatchShrinks(b: Book, side: Side, limit: int, qty: nat, id: int)
    requires Positive(b)
    ensures var m := Match(b, side, limit, qty, id);
      && Positive(m.book) && Shrinks(b, m.book) && LadderOf(m.book, side) == LadderOf(b, side)
      && (m.rest > 0 ==> MatchEnds(m.book, side, limit, m.rest))
    decreases qty
  {
    hide *;
    MatchUnfolds(b, side, limit, qty, id);
    MatchShape(b, side, limit, qty, id);
    if MatchEnds(b, side, limit, qty) {
      ShrinksSelf(b);
    } else {
      var maker, l := side.Opposite(), Best(b, side.Opposite());
      var t := Min(qty, Queue(b, maker, l)[0].qty);
      ConsumeShrinks(b, maker, l, t);
      MatchShrinks(Consume(b, maker, l, t), side, limit, qty - t, id);
      ShrinksTransitive(b, Consume(b, maker, l, t), Match(b, side, limit, qty, id).book);
    }
  }

  lemma ShrinksSelf(b: Book)
    ensures Shrinks(b, b)
  {}

  // ---- Resting --------------------------------------------------------------------------------------

  lemma RestQueues(b: Book, s: Side, l: int, e: Entry, s': Side, l': int)
    requires 0 <= l < |LadderOf(b, s)|
    ensures Queue(Rest(b, s, l, e), s', l') == Queue(b, s', l') + if s' == s && l' == l then [e] else []
  {}

  lemma HasIdAppend(q: seq<Entry>, e: Entry, id: int)
    ensures HasId(q + [e], id) <==> HasId(q, id) || e.id == id
  {
    assert forall k :: 0 <= k < |q| ==> (q + [e])[k] == q[k];
    assert (q + [e])[|q|] == e;
  }

  lemma RestShape(b: Book, s: Side, l: int, e: Entry)
    requires 0 <= l < |LadderOf(b, s)|
    ensures var c := Rest(b, s, l, e);
      |c.bids| == |b.bids| && |c.asks| == |b.asks| && c.lo == b.lo
  {}

  lemma NotInQueue(b: Book, id: int, s: Side, l: int)
    requires !Resting(b, id)
    ensures !HasId(Queue(b, s, l), id)
  {}

  lemma DistinctAppend(q: seq<Entry>, e: Entry)
    requires DistinctIds(q) && !HasId(q, e.id)
    ensures DistinctIds(q + [e])
  {
    assert forall k :: 0 <= k < |q| ==> q[k].id != e.id;
  }

  lemma RestQueueOk(b: Book, s: Side, l: int, e: Entry, s': Side, l': int)
    requires WellFormed(b) && 0 <= l < |LadderOf(b, s)| && e.qty > 0 && !Resting(b, e.id)
    ensures var q := Queue(Rest(b, s, l, e), s', l');
      && AllPositive(q) && DistinctIds(q)
      && forall id :: HasId(q, id) <==> HasId(Queue(b, s', l'), id) || (s' == s && l' == l && id == e.id)
  {
    RestQueues(b, s, l, e, s', l');
    NotInQueue(b, e.id, s', l');
    var q := Queue(b, s', l');
    assert AllPositive(q) && DistinctIds(q);
    hide WellFormed, Resting, Queue, Rest, HasId;
    DistinctAppend(q, e);
    assert q + [] == q;
    forall id ensures HasId(q + [e], id) <==> HasId(q, id) || id == e.id {
      HasIdAppend(q, e, id);
    }
  }

  lemma RestWellFormed(b: Book, s: Side, l: int, e: Entry)
    requires WellFormed(b) && 0 <= l < |LadderOf(b, s)| && e.qty > 0 && !Resting(b, e.id)
    ensures WellFormed(Rest(b, s, l, e))
  {
    hide HasId, Queue, Rest, LadderOf, AllPositive, DistinctIds;
    var c := Rest(b, s, l, e);
    RestShape(b, s, l, e);
    forall s': Side, l': int
      ensures AllPositive(Queue(c, s', l')) && DistinctIds(Queue(c, s', l'))
      ensures forall id :: HasId(Queue(c, s', l'), id) <==>
        HasId(Queue(b, s', l'), id) || (s' == s && l' == l && id == e.id)
    {
      RestQueueOk(b, s, l, e, s', l');
    }
  }

  /** A remainder that crosses nothing keeps the book uncrossed. */
  lemma RestUncrossed(b: Book, side: Side, limit: int, e: Entry)
    requires Positive(b) && Uncrossed(b) && 0 <= limit - b.lo < |LadderOf(b, side)|
    requires Best(b, side.Opposite()) == -1 || !Crosses(side, limit, b.lo + Best(b, side.Opposite()))
    ensures Uncrossed(Rest(b, side, limit - b.lo, e))
  {
    PositiveLevels(b);
    hide Best, LadderOf, Levels, Positive, Queue, Rest;
    var c := Rest(b, side, limit - b.lo, e);
    BestIsBest(b, side.Opposite());
    forall i: int, j: int | Queue(c, Buy, i) != [] && Queue(c, Sell, j) != [] ensures i < j {
      RestNonEmpty(b, side, limit - b.lo, e, Buy, i);
      RestNonEmpty(b, side, limit - b.lo, e, Sell, j);
    }
  }

  lemma RestNonEmpty(b: Book, s: Side, l: int, e: Entry, s': Side, l': int)
    requires 0 <= l < |LadderOf(b, s)|
    ensures Queue(Rest(b, s, l, e), s', l') != [] <==> Queue(b, s', l') != [] || (s' == s && l' == l)
  {}

  // ---- process_order -------------------------------------------------------------------------------------

  /** Every call keeps ids unique, quantities positive and the book uncrossed, accepted or not. */
  lemma ProcessKeepsBook(b: Book, capacity: nat, side: Side, price: int, qty: nat, id: int)
    requires WellFormed(b)
    ensures var o := Process(b, capacity, side, price, qty, id);
      WellFormed(o.book) && o.book.lo == b.lo && Levels(o.book) == Levels(b) && (Uncrossed(b) ==> Uncrossed(o.book))
  {
    hide Best, Crosses, LadderOf, Match, Positive, Rest, Resting, Side.Opposite, Uncrossed, UniqueIds;
    if GoodArguments(b, capacity, price, qty, id) {
      var m := Match(b, side, price, qty, id);
      MatchShape(b, side, price, qty, id);
      MatchLeavesBook(b, side, price, qty, id);
      PositiveLevels(b);
      LadderLevels(m.book, side);
      if m.rest > 0 && !Resting(m.book, id) {
        var e := Entry(id, m.rest);
        RestWellFormed(m.book, side, price - b.lo, e);
        RestShape(m.book, side, price - b.lo, e);
        if Uncrossed(b) {
          RestUncrossed(m.book, side, price, e);
        }
      }
    }
  }

  lemma LadderLevels(b: Book, s: Side)
    requires Positive(b)
    ensures |LadderOf(b, s)| == Levels(b)
  {}

  /** Matching leaves a well-formed book, uncrossed if it was, on which a remainder crosses nothing. */
  lemma MatchLeavesBook(b: Book, side: Side, limit: int, qty: nat, id: int)
    requires WellFormed(b)
    ensures var m := Match(b, side, limit, qty, id);
      && WellFormed(m.book) && (Uncrossed(b) ==> Uncrossed(m.book))
      && (m.rest > 0 ==> var l := Best(m.book, side.Opposite()); l == -1 || !Crosses(side, limit, m.book.lo + l))
  {
    hide Best, Crosses, LadderOf, Match, Positive, Shrinks, Side.Opposite, Uncrossed, UniqueIds;
    var m := Match(b, side, limit, qty, id);
    MatchShrinks(b, side, limit, qty, id);
    ShrinksUnique(b, m.book);
    if Uncrossed(b) {
      ShrinksUncrossed(b, m.book);
    }
  }

  /** An inactive id is rejected for bad arguments only, and then nothing has happened. */
  lemma FreshIdAccepted(b: Book, capacity: nat, side: Side, price: int, qty: nat, id: int)
    requires WellFormed(b) && !Resting(b, id)
    ensures var o := Process(b, capacity, side, price, qty, id);
      && (o.accepted <==> qty > 0 && b.lo <= price < b.lo + Levels(b) && 0 <= id < capacity)
      && (!o.accepted ==> o.book == b && o.execs == [])
  {
    if GoodArguments(b, capacity, price, qty, id) {
      var m := Match(b, side, price, qty, id);
      MatchShrinks(b, side, price, qty, id);
      if Resting(m.book, id) {
        ShrinksResting(b, m.book, id);
      }
    }
  }

  /**
   * A call with good arguments fails exactly when quantity is left over and the id is
   * still active after matching; the trades made by then stay made.
   */
  lemma RejectedKeepsTrades(b: Book, capacity: nat, side: Side, price: int, qty: nat, id: int)
    requires WellFormed(b) && GoodArguments(b, capacity, price, qty, id)
    ensures var o, m := Process(b, capacity, side, price, qty, id), Match(b, side, price, qty, id);
      && o.execs == m.execs
      && (!o.accepted <==> Volume(o.execs) < qty && Resting(m.book, id))
      && (!o.accepted ==> o.book == m.book && Resting(b, id))
  {
    MatchConserves(b, side, price, qty, id);
    MatchShrinks(b, side, price, qty, id);
    var m := Match(b, side, price, qty, id);
    if Resting(m.book, id) {
      ShrinksResting(b, m.book, id);
    }
  }

  lemma MatchConserves(b: Book, side: Side, limit: int, qty: nat, id: int)
    requires Positive(b)
    ensures var m := Match(b, side, limit, qty, id);
      Volume(m.execs) + m.rest == qty
  {
    MatchFollowsPriority(b, side, limit, qty, id);
  }

  /** An accepted order is traded or rested in full. */
  lemma AcceptedInFull(b: Book, capacity: nat, side: Side, price: int, qty: nat, id: int) returns (rested: nat)
    requires WellFormed(b) && Process(b, capacity, side, price, qty, id).accepted
    ensures var o := Process(b, capacity, side, price, qty, id);
      && Volume(o.execs) + rested == qty
      && (rested > 0 ==> Queue(o.book, side, price - b.lo) == Queue(b, side, price - b.lo) + [Entry(id, rested)])
      && (rested == 0 ==> LadderOf(o.book, side) == LadderOf(b, side))
  {
    var m := Match(b, side, price, qty, id);
    rested := m.rest;
    MatchConserves(b, side, price, qty, id);
    MatchShape(b, side, price, qty, id);
    hide Match, UniqueIds, AllPositive, Resting;
    if m.rest > 0 {
      RestQueues(m.book, side, price - b.lo, Entry(id, m.rest), side, price - b.lo);
      assert Queue(m.book, side, price - b.lo) == Queue(b, side, price - b.lo);
    }
  }

  // ---- Resting, then cancelling -----------------------------------------------------------------------

  lemma {:induction false} WithoutConcat(p: seq<Entry>, q: seq<Entry>, id: int)
    ensures Without(p + q, id) == Without(p, id) + Without(q, id)
  {
    if p == [] {
      assert p + q == q;
    } else {
      assert (p + q)[1..] == p[1..] + q;
      WithoutConcat(p[1..], q, id);
    }
  }

  lemma {:induction false} WithoutAbsent(q: seq<Entry>, id: int)
    requires !HasId(q, id)
    ensures Without(q, id) == q
  {
    if q != [] {
      assert q[0].id != id;
      assert forall k :: 0 <= k < |q[1..]| ==> q[1..][k] == q[k + 1];
      WithoutAbsent(q[1..], id);
    }
  }

  lemma {:induction false} WithoutAt(q: seq<Entry>, k: int, id: int)
    requires DistinctIds(q) && 0 <= k < |q| && q[k].id == id
    ensures Without(q, id) == q[..k] + q[k + 1..]
  {
    if k == 0 {
      assert !HasId(q[1..], id);
      WithoutAbsent(q[1..], id);
    } else {
      WithoutAt(q[1..], k - 1, id);
      assert q[..k] == [q[0]] + q[1..][..k - 1];
      assert q[k + 1..] == q[1..][k..];
    }
  }

  lemma RemoveQueue(b: Book, id: int, s: Side, l: int)
    ensures Queue(Remove(b, id), s, l) == Without(Queue(b, s, l), id)
  {}

  /** Cancelling an order that has just been rested restores the queues, whatever the index shows of them. */
  lemma RestThenRemove(b: Book, s: Side, l: int, e: Entry)
    requires 0 <= l < |LadderOf(b, s)| && !Resting(b, e.id)
    ensures Remove(Rest(b, s, l, e), e.id) == b
  {
    var c := Rest(b, s, l, e);
    forall s': Side, l': int ensures Queue(Remove(c, e.id), s', l') == Queue(b, s', l') {
      RestQueues(b, s, l, e, s', l');
      assert !HasId(Queue(b, s', l'), e.id);
      WithoutAbsent(Queue(b, s', l'), e.id);
      WithoutConcat(Queue(b, s', l'), [e], e.id);
      assert [e][1..] == [];
    }
    BooksEqual(Remove(c, e.id), b);
  }

  lemma RemoveAbsent(b: Book, id: int)
    requires !Resting(b, id)
    ensures Remove(b, id) == b
  {
    forall s: Side, l: int ensures Queue(Remove(b, id), s, l) == Queue(b, s, l) {
      assert !HasId(Queue(b, s, l), id);
      WithoutAbsent(Queue(b, s, l), id);
    }
    BooksEqual(Remove(b, id), b);
  }

  /**
   * Submitting under a fresh id and then cancelling leaves the book that matching
   * alone leaves: an IOC order keeps its trades and nothing else, and a limit order
   * that crosses nothing leaves no trace.
   */
  lemma SubmitThenCancel(b: Book, capacity: nat, side: Side, price: int, qty: nat, id: int)
    requires WellFormed(b) && !Resting(b, id) && GoodArguments(b, capacity, price, qty, id)
    ensures var o := Process(b, capacity, side, price, qty, id);
      && Remove(o.book, id) == Match(b, side, price, qty, id).book
      && (MatchEnds(b, side, price, qty) ==> Remove(o.book, id) == b)
  {
    hide Best, Consume, GoodArguments, LadderOf, Levels, Match, MatchEnds, Min, Positive, Queue, Remove;
    hide Rest, Resting, Shrinks, Side.Opposite, UniqueIds, WellFormed;
    WellFormedPositive(b);
    var m := Match(b, side, price, qty, id);
    MatchUnfolds(b, side, price, qty, id);
    MatchShrinks(b, side, price, qty, id);
    MatchShape(b, side, price, qty, id);
    PriceInRange(b, capacity, side, price, qty, id, m.book);
    if Resting(m.book, id) {
      ShrinksResting(b, m.book, id);
    }
    if m.rest > 0 {
      RestThenRemove(m.book, side, price - b.lo, Entry(id, m.rest));
    } else {
      RemoveAbsent(m.book, id);
    }
  }

  lemma WellFormedPositive(b: Book)
    requires WellFormed(b)
    ensures Positive(b) && UniqueIds(b)
  {}

  lemma PriceInRange(b: Book, capacity: nat, side: Side, price: int, qty: nat, id: int, c: Book)
    requires GoodArguments(b, capacity, price, qty, id) && Positive(b) && Positive(c) && |c.bids| == |b.bids|
    ensures 0 <= price - b.lo < |LadderOf(c, side)|
  {}

  // ---- Runs ----------------------------------------------------------------------------------------------

  datatype Op = Place(side: Side, price: int, qty: nat, id: int) | Pull(id: int) | Clear

  ghost function Apply(b: Book, capacity: nat, op: Op): Book
    requires WellFormed(b)
  {
    match op
    case Place(side, price, qty, id) => Process(b, capacity, side, price, qty, id).book
    case Pull(id) => Remove(b, id)
    case Clear => EmptyBook(b.lo, Levels(b))
  }

  lemma {:induction false} WithoutShorter(q: seq<Entry>, id: int)
    ensures AllPositive(q) ==> AllPositive(Without(q, id))
    ensures DistinctIds(q) ==> DistinctIds(Without(q, id))
    ensures forall x :: HasId(Without(q, id), x) ==> HasId(q, x)
    ensures Without(q, id) != [] ==> q != []
  {
    if q != [] {
      WithoutShorter(q[1..], id);
      var r := Without(q[1..], id);
      assert forall k :: 0 <= k < |q[1..]| ==> q[1..][k] == q[k + 1];
      assert forall x :: HasId(q[1..], x) ==> HasId(q, x);
      assert DistinctIds(q) ==> !HasId(q[1..], q[0].id);
      if q[0].id != id {
        assert forall x :: HasId([q[0]] + r, x) ==> x == q[0].id || HasId(r, x);
        assert HasId(q, q[0].id);
      }
    }
  }

  lemma RemoveShrinks(b: Book, id: int)
    requires |b.bids| == |b.asks|
    ensures Shrinks(b, Remove(b, id)) && (Positive(b) ==> Positive(Remove(b, id)))
  {
    forall s: Side, l: int ensures Queue(Remove(b, id), s, l) == Without(Queue(b, s, l), id) {
    }
    forall s: Side, l: int
      ensures Queue(Remove(b, id), s, l) != [] ==> Queue(b, s, l) != []
      ensures DistinctIds(Queue(b, s, l)) ==> DistinctIds(Queue(Remove(b, id), s, l))
      ensures AllPositive(Queue(b, s, l)) ==> AllPositive(Queue(Remove(b, id), s, l))
      ensures forall x :: HasId(Queue(Remove(b, id), s, l), x) ==> HasId(Queue(b, s, l), x)
    {
      WithoutShorter(Queue(b, s, l), id);
    }
  }

  lemma ApplyKeepsBook(b: Book, capacity: nat, op: Op)
    requires WellFormed(b)
    ensures var c := Apply(b, capacity, op);
      WellFormed(c) && c.lo == b.lo && Levels(c) == Levels(b) && (Uncrossed(b) ==> Uncrossed(c))
  {
    match op
    case Place(side, price, qty, id) =>
      ProcessKeepsBook(b, capacity, side, price, qty, id);
    case Pull(id) =>
      RemoveShrinks(b, id);
      ShrinksUnique(b, Remove(b, id));
      if Uncrossed(b) {
        ShrinksUncrossed(b, Remove(b, id));
      }
    case Clear =>
      assert forall s: Side, l: int :: Queue(Apply(b, capacity, op), s, l) == [];
  }

  /** The books a run passes through, first to last. */
  ghost predicate IsRun(books: seq<Book>, ops: seq<Op>, capacity: nat) {
    && |books| == |ops| + 1
    && forall i :: 0 <= i < |ops| && WellFormed(books[i]) ==> books[i + 1] == Apply(books[i], capacity, ops[i])
  }

  /** In every run from an uncrossed book, no state is ever crossed, whatever is accepted or rejected. */
  lemma {:induction false} RunsNeverCross(books: seq<Book>, ops: seq<Op>, capacity: nat, i: nat)
    requires IsRun(books, ops, capacity) && WellFormed(books[0]) && Uncrossed(books[0]) && i < |books|
    ensures WellFormed(books[i]) && Uncrossed(books[i]) && Levels(books[i]) == Levels(books[0])
    ensures Best(books[i], Buy) != -1 && Best(books[i], Sell) != -1 ==> Best(books[i], Buy) < Best(books[i], Sell)
  {
    if i > 0 {
      RunsNeverCross(books, ops, capacity, i - 1);
      ApplyKeepsBook(books[i - 1], capacity, ops[i - 1]);
    }
    BestIsBest(books[i], Buy);
    BestIsBest(books[i], Sell);
  }
}
