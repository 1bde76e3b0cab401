/**
 * What the engine's storage invariant says about the abstract book: its ids are
 * unique, the id index finds them, a usable id always finds a free slot, and one
 * trade at the head of a level is one step of the matching specification.
 */
module EngineFacts {
  import opened PriceTimeBook
  import opened EngineState
  import opened EngineSteps
  import opened BookLaws
  import opened IndexedBook

  // ---- Ids ----------------------------------------------------------------------------

  lemma EntryOnLine(cfg: Config, c: State, g: Layout, b: Book, s: Side, l: int, k: int)
    requires Sound(cfg, c, g, b) && 0 <= k < |Queue(b, s, l)|
    ensures k < |Line(g, s, l)| && 0 <= l < cfg.levels
    ensures var i := Line(g, s, l)[k];
      && 0 <= i < cfg.capacity && g.home[i] == On(s, l) && c.pool.qty[i] > 0
      && Queue(b, s, l)[k] == Entry(c.pool.orderId[i], c.pool.qty[i])
      && 0 <= c.pool.orderId[i] < cfg.capacity && c.pool.idToIdx[c.pool.orderId[i]] == i
  {
    assert Lists(Queue(b, s, l), Line(g, s, l), c.pool.orderId, c.pool.qty);
    SlotOnLine(cfg, c.pool, g, s, l, k, b);
  }

  lemma SoundIsWellFormed(cfg: Config, c: State, g: Layout, b: Book)
    requires Sound(cfg, c, g, b)
    ensures WellFormed(b)
  {
    forall s: Side, l: int ensures AllPositive(Queue(b, s, l)) {
      forall k | 0 <= k < |Queue(b, s, l)| ensures Queue(b, s, l)[k].qty > 0 {
        EntryOnLine(cfg, c, g, b, s, l, k);
      }
    }
    forall s: Side, l: int ensures DistinctIds(Queue(b, s, l)) {
      forall i, j | 0 <= i < j < |Queue(b, s, l)| ensures Queue(b, s, l)[i].id != Queue(b, s, l)[j].id {
        EntryOnLine(cfg, c, g, b, s, l, i);
        EntryOnLine(cfg, c, g, b, s, l, j);
        assert LineOk(Line(g, s, l), s, l, g.home);
      }
    }
    forall id: int, s: Side, l: int, s': Side, l': int | HasId(Queue(b, s, l), id) && HasId(Queue(b, s', l'), id)
      ensures s == s' && l == l'
    {
      var k :| 0 <= k < |Queue(b, s, l)| && Queue(b, s, l)[k].id == id;
      var k' :| 0 <= k' < |Queue(b, s', l')| && Queue(b, s', l')[k'].id == id;
      EntryOnLine(cfg, c, g, b, s, l, k);
      EntryOnLine(cfg, c, g, b, s', l', k');
    }
  }

  /** The id index holds a slot for exactly the resting ids. */
  lemma IdIndexIsResting(cfg: Config, c: State, g: Layout, b: Book, id: int)
    requires Sound(cfg, c, g, b) && 0 <= id < cfg.capacity
    ensures c.pool.idToIdx[id] != NIL <==> Resting(b, id)
  {
    if c.pool.idToIdx[id] != NIL {
      var s, l, k := FindSlot(cfg, c, g, b, id);
      assert HasId(Queue(b, s, l), id);
    }
    if Resting(b, id) {
      var s: Side, l: int :| HasId(Queue(b, s, l), id);
      var k :| 0 <= k < |Queue(b, s, l)| && Queue(b, s, l)[k].id == id;
      EntryOnLine(cfg, c, g, b, s, l, k);
    }
  }

  /** Where the slot of an active id sits. */
  lemma FindSlot(cfg: Config, c: State, g: Layout, b: Book, id: int) returns (s: Side, l: int, k: int)
    requires Sound(cfg, c, g, b) && 0 <= id < cfg.capacity && c.pool.idToIdx[id] != NIL
    ensures 0 <= c.pool.idToIdx[id] < cfg.capacity && 0 <= l < cfg.levels
    ensures 0 <= k < |Line(g, s, l)| == |Queue(b, s, l)| && Line(g, s, l)[k] == c.pool.idToIdx[id]
    ensures Queue(b, s, l)[k].id == id
    ensures var i := c.pool.idToIdx[id];
      c.pool.orderId[i] == id && c.pool.side[i] == s && c.pool.price[i] == cfg.lo + l
  {
    var i := c.pool.idToIdx[id];
    assert IdOk(c.pool, g.home, id) && Placed(g, i);
    s, l := g.home[i].side, g.home[i].level;
    k :| 0 <= k < |Line(g, s, l)| && Line(g, s, l)[k] == i;
    assert Lists(Queue(b, s, l), Line(g, s, l), c.pool.orderId, c.pool.qty);
    SlotOnLine(cfg, c.pool, g, s, l, k, b);
  }

  // ---- The pool never runs out for an inactive id ------------------------------------------

  /** The ids stored by the first n slots. */
  function StoredIds(orderId: seq<int>, n: nat): set<int>
    requires n <= |orderId|
  {
    if n == 0 then {} else StoredIds(orderId, n - 1) + {orderId[n - 1]}
  }

  lemma {:induction false} StoredIdsAre(orderId: seq<int>, n: nat, x: int)
    requires n <= |orderId|
    ensures x in StoredIds(orderId, n) ==> exists i :: 0 <= i < n && orderId[i] == x
  {
    if n > 0 {
      StoredIdsAre(orderId, n - 1, x);
    }
  }

  lemma {:induction false} StoredIdsCount(orderId: seq<int>, n: nat)
    requires n <= |orderId|
    requires forall i, j :: 0 <= i < j < n ==> orderId[i] != orderId[j]
    ensures |StoredIds(orderId, n)| == n
  {
    if n > 0 {
      StoredIdsCount(orderId, n - 1);
      StoredIdsAre(orderId, n - 1, orderId[n - 1]);
    }
  }

  function Ids(n: nat): set<int> {
    if n == 0 then {} else Ids(n - 1) + {n - 1}
  }

  lemma {:induction false} IdsCount(n: nat)
    ensures |Ids(n)| == n
    ensures forall x :: x in Ids(n) <==> 0 <= x < n
  {
    if n > 0 {
      IdsCount(n - 1);
    }
  }

  /** Pigeonhole: with no free slot, the slots store as many distinct ids as there are ids. */
  lemma FreeSlotForInactiveId(cfg: Config, c: State, g: Layout, id: int)
    requires Structure(cfg, c, g) && 0 <= id < cfg.capacity && c.pool.idToIdx[id] == NIL
    ensures g.free != []
  {
    if g.free == [] {
      var n := cfg.capacity;
      forall i | 0 <= i < n
        ensures 0 <= c.pool.orderId[i] < n && c.pool.orderId[i] != id && c.pool.idToIdx[c.pool.orderId[i]] == i
      {
        assert Placed(g, i) && SlotOk(cfg, c.pool, i, g.home[i]);
      }
      StoredIdsCount(c.pool.orderId, n);
      IdsCount(n);
      hide Ids, StoredIds, Structure, SlotOk, Placed;
      forall x | x in StoredIds(c.pool.orderId, n) ensures x in Ids(n) - {id} {
        StoredIdsAre(c.pool.orderId, n, x);
      }
      SubsetCount(StoredIds(c.pool.orderId, n), Ids(n) - {id});
    }
  }

  lemma {:induction false} SubsetCount<T>(a: set<T>, b: set<T>)
    requires a <= b
    ensures |a| <= |b|
  {
    if a != {} {
      var x :| x in a;
      SubsetCount(a - {x}, b - {x});
    }
  }

  // ---- One trade at the head of a level -------------------------------------------------------

  /** The head of a non-empty level, seen from the arrays. */
  lemma HeadOfLevel(cfg: Config, c: State, g: Layout, b: Book, s: Side, l: int)
    requires Sound(cfg, c, g, b) && Queue(b, s, l) != []
    ensures 0 <= l < cfg.levels && Line(g, s, l) != [] && HalfOf(c, s).head[l] == Line(g, s, l)[0]
    ensures var i := Line(g, s, l)[0];
      && Neighbours(cfg, c.pool, i) && Queue(b, s, l)[0] == Entry(c.pool.orderId[i], c.pool.qty[i])
      && 0 < c.pool.qty[i] && 0 <= c.pool.orderId[i] < cfg.capacity && c.pool.idToIdx[c.pool.orderId[i]] == i
  {
    EntryOnLine(cfg, c, g, b, s, l, 0);
    assert LineChained(c, g, s, l) && LinkOk(Line(g, s, l), 0, c.pool.next, c.pool.prev);
    assert |Line(g, s, l)| > 1 ==> LinkOk(Line(g, s, l), 1, c.pool.next, c.pool.prev);
  }

  lemma PartialFill(cfg: Config, c: State, g: Layout, w: View, s: Side, l: int, t: nat)
    requires Indexed(cfg, c, g, w) && CanServe(w, s, l, t) && 0 < t < Queue(w.book, s, l)[0].qty
    ensures 0 <= l < cfg.levels && Line(g, s, l) != [] && 0 <= Line(g, s, l)[0] < cfg.capacity
    ensures Dims(cfg, c) && cfg.Good() && t <= c.pool.qty[Line(g, s, l)[0]]
    ensures Indexed(cfg, Reduced(cfg, c, s, l, Line(g, s, l)[0], t), g, Served(w, s, l, t, cfg.modulus))
  {
    IndexedParts(cfg, c, g, w);
    HeadOfLevel(cfg, c, g, w.book, s, l);
    ReduceKeepsIndex(cfg, c, g, s, l, t, w);
    hide Indexed, Sound, Structure, Coherent, Queue;
    ShrunkIsConsume(w.book, s, l, t);
    ShrunkIsConsume(w.shown, s, l, t);
  }

  lemma ShrunkIsConsume(b: Book, s: Side, l: int, t: nat)
    requires Queue(b, s, l) != [] && t < Queue(b, s, l)[0].qty
    ensures Shrunk(b, s, l, t) == Consume(b, s, l, t)
  {}

  /** What an operation on a valid engine may rely on. */
  lemma IndexedFacts(cfg: Config, c: State, g: Layout, w: View)
    requires Indexed(cfg, c, g, w)
    ensures cfg.Good() && Dims(cfg, c) && Structure(cfg, c, g) && Sound(cfg, c, g, w.book)
    ensures WellFormed(w.book) && Coherent(w) && cfg.modulus > 0
    ensures |w.book.bids| == |w.book.asks| == |w.shown.bids| == |w.shown.asks| == cfg.levels
    ensures w.book.lo == w.shown.lo == cfg.lo
    ensures c.bids.best == Best(w.shown, Buy) && c.asks.best == Best(w.shown, Sell)
    ensures NoStrayBits(c.bids.occ, cfg.levels) && NoStrayBits(c.asks.occ, cfg.levels)
    ensures c.pool.freeHead == NIL || 0 <= c.pool.freeHead < cfg.capacity
  {
    SoundIsWellFormed(cfg, c, g, w.book);
    assert HalfIndex(HalfOf(c, Buy), Buy, w.shown) && HalfIndex(HalfOf(c, Sell), Sell, w.shown);
  }

  /** Emptying, unlinking and freeing the head: the order leaves the front of its queue. */
  lemma FullFill(cfg: Config, c: State, g: Layout, w: View, s: Side, l: int)
    requires Indexed(cfg, c, g, w) && CanServe(w, s, l, 0)
    ensures 0 <= l < cfg.levels && Line(g, s, l) != [] && 0 <= Line(g, s, l)[0] < cfg.capacity
    ensures cfg.Good() && Dims(cfg, c) && |LinesOf(g, s)| == cfg.levels && |g.home| == cfg.capacity
    ensures var i := Line(g, s, l)[0];
      var id, q := c.pool.orderId[i], c.pool.qty[i];
      var r := Reduced(cfg, c, s, l, i, q);
      && Queue(w.book, s, l)[0] == Entry(id, q)
      && Dims(cfg, r) && Neighbours(cfg, r.pool, i) && NoStrayBits(HalfOf(r, s).occ, cfg.levels)
      && Dims(cfg, Unlinked(cfg, r, s, l, i))
      && 0 <= id < cfg.capacity && c.pool.idToIdx[id] == i
      && Indexed(cfg, Release(cfg, Unlinked(cfg, r, s, l, i), id), Dropped(g, s, l, 0), Served(w, s, l, q, cfg.modulus))
  {
    IndexedFacts(cfg, c, g, w);
    HeadOfLevel(cfg, c, g, w.book, s, l);
    var i := Line(g, s, l)[0];
    RemovedSteps(cfg, c, s, l, i, c.pool.orderId[i]);
    ReducedSteps(cfg, c, s, l, i);
    DropKeepsIndex(cfg, c, g, s, l, 0, w);
    hide Indexed, Sound, Structure, Coherent, WellFormed, NoStrayBits;
    WithdrawHeadIsServed(w, s, l, cfg.modulus);
  }

  lemma WithdrawHeadIsServed(w: View, s: Side, l: int, m: nat)
    requires CanServe(w, s, l, 0) && m > 0
    ensures Withdrawn(w, s, l, 0, m) == Served(w, s, l, Queue(w.book, s, l)[0].qty, m)
  {
    var q := Queue(w.book, s, l);
    assert q[..0] + q[1..] == q[1..];
  }

  // ---- The matching loop ------------------------------------------------------------------------

  /** What is left to match after some executions continues the specification. */
  ghost predicate Continues(r: Settled, done: seq<Execution>, rest: Settled) {
    r == Settled(rest.view, done + rest.execs, rest.rest)
  }

  lemma ContinuesFromStart(r: Settled)
    ensures Continues(r, [], r)
  {
    assert [] + r.execs == r.execs;
  }

  lemma MatchStep(r: Settled, done: seq<Execution>, w: View, side: Side, limit: int, qty: nat, id: int, m: nat)
    requires Coherent(w) && Positive(w.book) && m > 0 && !MatchEnds(w.shown, side, limit, qty)
    requires Continues(r, done, MatchAt(w, side, limit, qty, id, m))
    ensures var maker, l := side.Opposite(), Best(w.shown, side.Opposite());
      && Queue(w.book, maker, l) != []
      && var t := Min(qty, Queue(w.book, maker, l)[0].qty);
      && 0 < t <= qty && CanServe(w, maker, l, t)
      && var v := Served(w, maker, l, t, m);
      && Coherent(v) && Positive(v.book)
      && Continues(r, done + [Execution(side, id, maker, Queue(w.book, maker, l)[0].id, w.book.lo + l, t)],
                   MatchAt(v, side, limit, qty - t, id, m))
  {
    hide *;
    MatchAtUnfolds(w, side, limit, qty, id, m);
    var maker, l := side.Opposite(), Best(w.shown, side.Opposite());
    var t := Min(qty, Queue(w.book, maker, l)[0].qty);
    ContinuesOn(r, done, Execution(side, id, maker, Queue(w.book, maker, l)[0].id, w.book.lo + l, t),
                MatchAt(w, side, limit, qty, id, m), MatchAt(Served(w, maker, l, t, m), side, limit, qty - t, id, m));
  }

  lemma ContinuesOn(r: Settled, done: seq<Execution>, e: Execution, now: Settled, next: Settled)
    requires Continues(r, done, now) && now == Settled(next.view, [e] + next.execs, next.rest)
    ensures Continues(r, done + [e], next)
  {
    assert done + ([e] + next.execs) == (done + [e]) + next.execs;
  }

  // ---- Resting the remainder ---------------------------------------------------------------------

  /** The three steps of resting an order under an inactive id. */
  lemma RestNew(cfg: Config, c: State, g: Layout, w: View, s: Side, l: int, id: int, qty: nat)
    requires Indexed(cfg, c, g, w) && 0 <= l < cfg.levels && 0 <= id < cfg.capacity && 0 < qty < cfg.modulus
    requires c.pool.idToIdx[id] == NIL
    ensures g.free != [] && 0 <= g.free[0] < |g.home| && 0 <= c.pool.freeHead < cfg.capacity
    ensures c.pool.freeHead == g.free[0] && Dims(cfg, c) && Dims(cfg, Alloc(cfg, c, id))
    ensures HalfOf(c, s).tail[l] == NIL || 0 <= HalfOf(c, s).tail[l] < cfg.capacity
    ensures 0 <= l < |LadderOf(w.book, s)| == |LadderOf(w.shown, s)|
    ensures var i := c.pool.freeHead;
      var filled := Fill(cfg, Alloc(cfg, c, id), i, s, id, cfg.lo + l, qty);
      && Dims(cfg, filled) && 0 <= l < |LinesOf(g, s)|
      && Indexed(cfg, Linked(cfg, filled, s, l, i), Queued(g, s, l, i), Joined(w, s, l, Entry(id, qty)))
  {
    FreeSlotForInactiveId(cfg, c, g, id);
    RestKeepsIndex(cfg, c, g, s, l, id, qty, w);
    RestedSteps(cfg, c, s, l, id, qty);
  }

  /** Once matching stops, the outcome is the matched book, with the remainder rested if its id is free. */
  lemma ProcessEnds(w: View, capacity: nat, side: Side, price: int, qty: nat, id: int, m: nat,
                    v: View, done: seq<Execution>, remaining: nat)
    requires Coherent(w) && WellFormed(w.book) && Coherent(v) && Positive(v.book) && m > 0
    requires GoodArguments(w.book, capacity, price, qty, id) && MatchEnds(v.shown, side, price, remaining)
    requires Continues(MatchAt(w, side, price, qty, id, m), done, MatchAt(v, side, price, remaining, id, m))
    ensures remaining == 0 ==> ProcessAt(w, capacity, side, price, qty, id, m) == Result(true, v, done)
    ensures remaining > 0 && Resting(v.book, id) ==>
              ProcessAt(w, capacity, side, price, qty, id, m) == Result(false, v, done)
    ensures remaining > 0 && !Resting(v.book, id) ==>
              0 <= price - w.book.lo < |LadderOf(v.book, side)| == |LadderOf(v.shown, side)|
              && ProcessAt(w, capacity, side, price, qty, id, m)
                 == Result(true, Joined(v, side, price - w.book.lo, Entry(id, remaining)), done)
  {
    hide Best, CanServe, Coherent, Crosses, GoodArguments, Joined, LadderOf, Levels, MatchAt, MatchEnds, Min;
    hide Positive, Queue, Resting, Served, Side.Opposite, UniqueIds, WellFormed;
    WellFormedPositive(w.book);
    MatchAtUnfolds(v, side, price, remaining, id, m);
    MatchAtShape(w, side, price, qty, id, m);
    PriceOnLadder(w.book, capacity, side, price, qty, id);
    assert done + [] == done;
  }

  // ---- Cancelling --------------------------------------------------------------------------------

  /** Withdrawing the entry that holds an id is removing that id from the whole book. */
  lemma DropIsRemove(b: Book, s: Side, l: int, k: int, id: int)
    requires UniqueIds(b) && 0 <= k < |Queue(b, s, l)| && Queue(b, s, l)[k].id == id
    ensures DropAt(b, s, l, k) == Remove(b, id)
  {
    assert HasId(Queue(b, s, l), id);
    forall s': Side, l': int ensures Queue(DropAt(b, s, l, k), s', l') == Queue(Remove(b, id), s', l') {
      RemoveQueue(b, id, s', l');
      DropQueue(b, s, l, k, s', l');
      if s' == s && l' == l {
        assert DistinctIds(Queue(b, s, l));
        WithoutAt(Queue(b, s, l), k, id);
      } else {
        assert !HasId(Queue(b, s', l'), id);
        WithoutAbsent(Queue(b, s', l'), id);
      }
    }
    BooksEqual(DropAt(b, s, l, k), Remove(b, id));
  }

  lemma IdsInRange(cfg: Config, c: State, g: Layout, b: Book, id: int)
    requires Sound(cfg, c, g, b) && Resting(b, id)
    ensures 0 <= id < cfg.capacity
  {
    var s: Side, l: int :| HasId(Queue(b, s, l), id);
    var k :| 0 <= k < |Queue(b, s, l)| && Queue(b, s, l)[k].id == id;
    EntryOnLine(cfg, c, g, b, s, l, k);
  }

  /** Withdrawing the order that holds an id is removing that id from book and index. */
  lemma WithdrawnIsRemove(w: View, s: Side, l: int, k: int, id: int, m: nat)
    requires Coherent(w) && UniqueIds(w.book) && 0 <= k < |Queue(w.book, s, l)| && Queue(w.book, s, l)[k].id == id
    requires 0 <= l < |LadderOf(w.book, s)| == |LadderOf(w.shown, s)| && m > 0
    ensures Withdrawn(w, s, l, k, m) == RemoveAt(w, id, m)
  {
    hide *;
    var q := Queue(w.book, s, l);
    var v, x := Withdrawn(w, s, l, k, m), RemoveAt(w, id, m);
    WithdrawnParts(w, s, l, k, m);
    DropIsRemove(w.book, s, l, k, id);
    RemoveAtShape(w, id, m);
    ShownLessShape(w.shown, s, l, q[..k] + q[k + 1..], m);
    QueueDistinct(w.book, s, l);
    WithoutAt(q, k, id);
    CoherentSizes(w);
    forall s': Side, l': int ensures Queue(v.shown, s', l') == Queue(x.shown, s', l') {
      RemoveAtQueues(w, id, m, s', l');
      ShownLessQueue(w.shown, s, l, q[..k] + q[k + 1..], m, s', l');
      OnlyAt(w.book, s, l, k, id, s', l');
    }
    BooksEqual(v.shown, x.shown);
  }

  lemma QueueDistinct(b: Book, s: Side, l: int)
    requires UniqueIds(b)
    ensures DistinctIds(Queue(b, s, l))
  {}

  lemma CoherentSizes(w: View)
    requires Coherent(w)
    ensures w.shown.lo == w.book.lo
      && |w.book.bids| == |w.book.asks| == |w.shown.bids| == |w.shown.asks| == Levels(w.book)
  {}

  lemma OnlyAt(b: Book, s: Side, l: int, k: int, id: int, s': Side, l': int)
    requires UniqueIds(b) && 0 <= k < |Queue(b, s, l)| && Queue(b, s, l)[k].id == id
    ensures HasId(Queue(b, s', l'), id) <==> s' == s && l' == l
  {
    assert HasId(Queue(b, s, l), id);
  }

  /** Unlinking and freeing a resting order found through the id index. */
  lemma CancelFacts(cfg: Config, c: State, g: Layout, w: View, id: int) returns (s: Side, l: int, k: int)
    requires Indexed(cfg, c, g, w) && 0 <= id < cfg.capacity && c.pool.idToIdx[id] != NIL
    ensures cfg.Good() && Dims(cfg, c) && Neighbours(cfg, c.pool, c.pool.idToIdx[id])
    ensures 0 <= l < cfg.levels == |LinesOf(g, s)| && |g.home| == cfg.capacity
    ensures 0 <= k < |Line(g, s, l)| && Line(g, s, l)[k] == c.pool.idToIdx[id] && 0 <= c.pool.idToIdx[id] < cfg.capacity
    ensures var i := c.pool.idToIdx[id];
      && c.pool.side[i] == s && c.pool.price[i] == cfg.lo + l && NoStrayBits(HalfOf(c, s).occ, cfg.levels)
      && Dims(cfg, Unlinked(cfg, c, s, l, i)) && Coherent(w) && cfg.modulus > 0
      && Indexed(cfg, Release(cfg, Unlinked(cfg, c, s, l, i), id), Dropped(g, s, l, k), RemoveAt(w, id, cfg.modulus))
  {
    IndexedFacts(cfg, c, g, w);
    s, l, k := FindSlot(cfg, c, g, w.book, id);
    DropKeepsIndex(cfg, c, g, s, l, k, w);
    RemovedSteps(cfg, c, s, l, c.pool.idToIdx[id], id);
    hide Indexed, Sound, Structure, Coherent, NoStrayBits, Queue;
    WellFormedPositive(w.book);
    LaddersFit(w, s);
    WithdrawnIsRemove(w, s, l, k, id, cfg.modulus);
  }
}
