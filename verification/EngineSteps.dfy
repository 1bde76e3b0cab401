/**
 * Each change the engine makes to its arrays, seen as a change of the layout
 * and of the abstract book: resting a new order, partly filling the order at
 * the head of a level, and unlinking an order from anywhere in its level.
 */
module EngineSteps {
  import opened Bits
  import opened PriceTimeBook
  import opened BookLaws
  import opened IndexedBook
  import opened EngineState

  // ---- Layout changes ----------------------------------------------------------------

  function Queued(g: Layout, s: Side, l: int, i: int): Layout
    requires 0 <= l < |LinesOf(g, s)| && g.free != [] && 0 <= i < |g.home|
  {
    WithLine(g, s, l, Line(g, s, l) + [i]).(free := g.free[1..], home := g.home[i := On(s, l)])
  }

  function Dropped(g: Layout, s: Side, l: int, k: int): Layout
    requires 0 <= l < |LinesOf(g, s)| && 0 <= k < |Line(g, s, l)| && 0 <= Line(g, s, l)[k] < |g.home|
  {
    var q := Line(g, s, l);
    WithLine(g, s, l, q[..k] + q[k + 1..]).(free := [q[k]] + g.free, home := g.home[q[k] := Free])
  }

  lemma LineAppend(q: seq<int>, i: int, s: Side, l: int, home: seq<Home>)
    requires LineOk(q, s, l, home) && 0 <= i < |home| && home[i] == Free
    ensures LineOk(q + [i], s, l, home[i := On(s, l)])
  {}

  lemma LineRemove(q: seq<int>, k: int, s: Side, l: int, home: seq<Home>)
    requires LineOk(q, s, l, home) && 0 <= k < |q|
    ensures LineOk(q[..k] + q[k + 1..], s, l, home[q[k] := Free])
  {}

  /** A slot that moves leaves the lines it is not on as they were. */
  lemma LineFrame(q: seq<int>, i: int, s: Side, l: int, home: seq<Home>, h: Home)
    requires LineOk(q, s, l, home) && 0 <= i < |home| && home[i] != On(s, l)
    ensures i !in q && LineOk(q, s, l, home[i := h])
  {}

  lemma StillIn(q: seq<int>, k: int, j: int)
    requires 0 <= k < |q| && j in q && j != q[k]
    ensures j in q[..k] + q[k + 1..]
  {
    var m :| 0 <= m < |q| && q[m] == j;
    assert (q[..k] + q[k + 1..])[if m < k then m else m - 1] == j;
  }

  lemma FreeTail(free: seq<int>, home: seq<Home>, h: Home)
    requires FreeOk(free, home) && free != []
    ensures FreeOk(free[1..], home[free[0] := h])
    ensures forall j :: j in free && j != free[0] ==> j in free[1..]
  {
    forall j | j in free && j != free[0] ensures j in free[1..] {
      StillIn(free, 0, j);
      assert free[..0] + free[0 + 1..] == free[1..];
    }
  }

  lemma QueuedPartition(cfg: Config, g: Layout, s: Side, l: int)
    requires Partition(cfg, g) && 0 <= l < cfg.levels && g.free != []
    ensures Partition(cfg, Queued(g, s, l, g.free[0]))
  {
    var i := g.free[0];
    var g' := Queued(g, s, l, i);
    FreeTail(g.free, g.home, On(s, l));
    forall s': Side, l': int ensures LineOk(Line(g', s', l'), s', l', g'.home) {
      var q := Line(g, s', l');
      assert LineOk(q, s', l', g.home);
      if s' == s && l' == l {
        LineAppend(q, i, s, l, g.home);
      } else {
        LineFrame(q, i, s', l', g.home, On(s, l));
        assert Line(g', s', l') == q;
      }
    }
    forall j | 0 <= j < cfg.capacity ensures Placed(g', j) {
      assert Placed(g, j);
      if j == i {
        assert Line(g', s, l)[|Line(g, s, l)|] == i;
      }
    }
  }

  lemma DroppedPartition(cfg: Config, g: Layout, s: Side, l: int, k: int)
    requires Partition(cfg, g) && 0 <= l < cfg.levels && 0 <= k < |Line(g, s, l)|
    requires 0 <= Line(g, s, l)[k] < |g.home|
    ensures Partition(cfg, Dropped(g, s, l, k))
  {
    var i := Line(g, s, l)[k];
    var g' := Dropped(g, s, l, k);
    assert LineOk(Line(g, s, l), s, l, g.home);
    forall s': Side, l': int ensures LineOk(Line(g', s', l'), s', l', g'.home) {
      var q := Line(g, s', l');
      assert LineOk(q, s', l', g.home);
      if s' == s && l' == l {
        LineRemove(q, k, s, l, g.home);
      } else {
        LineFrame(q, i, s', l', g.home, Free);
        assert Line(g', s', l') == q;
      }
    }
    forall j | 0 <= j < cfg.capacity ensures Placed(g', j) {
      assert Placed(g, j);
      if j == i {
        assert g'.free[0] == i;
      } else if g.home[j] == On(s, l) {
        StillIn(Line(g, s, l), k, j);
      }
    }
  }

  // ---- Chain changes --------------------------------------------------------------------

  lemma ChainAppend(q: seq<int>, i: int, head: int, tail: int, next: seq<int>, prev: seq<int>)
    requires Chain(q, head, tail, next, prev) && 0 <= i < |next| && i !in q && DistinctSlots(q)
    ensures tail == NIL <==> q == []
    ensures tail == NIL || 0 <= tail < |next|
    ensures Chain(q + [i], if tail == NIL then i else head, i,
                  (if tail == NIL then next else next[tail := i])[i := NIL], prev[i := tail])
  {
    assert q != [] ==> LinkOk(q, |q| - 1, next, prev);
    var next', prev' := (if tail == NIL then next else next[tail := i])[i := NIL], prev[i := tail];
    forall k | 0 <= k < |q| + 1 ensures LinkOk(q + [i], k, next', prev') {
      assert k < |q| ==> LinkOk(q, k, next, prev);
    }
  }

  lemma ChainRemove(q: seq<int>, k: int, head: int, tail: int, next: seq<int>, prev: seq<int>)
    requires Chain(q, head, tail, next, prev) && DistinctSlots(q) && 0 <= k < |q| && 0 <= q[k] < |next|
    ensures var before, after := prev[q[k]], next[q[k]];
      && (before == NIL || 0 <= before < |next|) && (after == NIL || 0 <= after < |next|)
      && (before != NIL ==> before in q) && (after != NIL ==> after in q)
      && Chain(q[..k] + q[k + 1..],
            if before == NIL then after else head, if after == NIL then before else tail,
            if before == NIL then next else next[before := after],
            if after == NIL then prev else prev[after := before])
  {
    assert LinkOk(q, k, next, prev);
    assert k > 0 ==> LinkOk(q, k - 1, next, prev);
    assert k + 1 < |q| ==> LinkOk(q, k + 1, next, prev);
    var before, after := prev[q[k]], next[q[k]];
    var next' := if before == NIL then next else next[before := after];
    var prev' := if after == NIL then prev else prev[after := before];
    var r := q[..k] + q[k + 1..];
    forall j | 0 <= j < |r| ensures LinkOk(r, j, next', prev') {
      assert LinkOk(q, if j < k then j else j + 1, next, prev);
    }
  }

  /** A chain does not see writes to slots that are not on it. */
  lemma ChainFrame(q: seq<int>, head: int, tail: int, next: seq<int>, prev: seq<int>, next': seq<int>, prev': seq<int>)
    requires Chain(q, head, tail, next, prev) && |next'| == |next| && |prev'| == |prev|
    requires forall i :: 0 <= i < |next| && i in q ==> next'[i] == next[i] && prev'[i] == prev[i]
    ensures Chain(q, head, tail, next', prev')
  {
    forall k | 0 <= k < |q| ensures LinkOk(q, k, next', prev') {
      assert LinkOk(q, k, next, prev) && q[k] in q;
    }
  }

  // ---- Resting a new order --------------------------------------------------------------

  /** The pool after alloc_order, the field writes and the link behind slot t. */
  function RestedPool(p: Pool, t: int, s: Side, id: int, price: int, qty: nat): Pool
    requires |p.next| == |p.prev| == |p.orderId| == |p.price| == |p.qty| == |p.side| == |p.nextFree| == |p.idToIdx|
    requires 0 <= id < |p.next| && 0 <= p.freeHead < |p.next| && (t == NIL || 0 <= t < |p.next|)
  {
    var i := p.freeHead;
    Pool((if t == NIL then p.next else p.next[t := i])[i := NIL], p.prev[i := t],
         p.orderId[i := id], p.price[i := price], p.qty[i := qty], p.side[i := s],
         p.nextFree[i], p.nextFree, p.idToIdx[id := i])
  }

  function Rested(cfg: Config, c: State, s: Side, l: int, id: int, qty: nat): State
    requires cfg.Good() && Dims(cfg, c) && 0 <= l < cfg.levels && 0 <= id < cfg.capacity
    requires 0 <= c.pool.freeHead < cfg.capacity
    requires HalfOf(c, s).tail[l] == NIL || 0 <= HalfOf(c, s).tail[l] < cfg.capacity
  {
    WithHalf(c, s, LinkedHalf(cfg, HalfOf(c, s), s, l, c.pool.freeHead, qty)).(
      pool := RestedPool(c.pool, HalfOf(c, s).tail[l], s, id, cfg.lo + l, qty))
  }

  /** The state `Rested` is what the three steps of process_order leave behind. */
  lemma RestedSteps(cfg: Config, c: State, s: Side, l: int, id: int, qty: nat)
    requires cfg.Good() && Dims(cfg, c) && 0 <= l < cfg.levels && 0 <= id < cfg.capacity && qty < cfg.modulus
    requires 0 <= c.pool.freeHead < cfg.capacity
    requires HalfOf(c, s).tail[l] == NIL || 0 <= HalfOf(c, s).tail[l] < cfg.capacity
    ensures var i := c.pool.freeHead;
      var filled := Fill(cfg, Alloc(cfg, c, id), i, s, id, cfg.lo + l, qty);
      Dims(cfg, filled) && Rested(cfg, c, s, l, id, qty) == Linked(cfg, filled, s, l, i)
  {}

  lemma RestedPoolContents(cfg: Config, p: Pool, g: Layout, t: int, s: Side, l: int, id: int, qty: nat)
    requires |p.next| == |p.prev| == |p.orderId| == |p.price| == |p.qty| == cfg.capacity
    requires |p.side| == |p.nextFree| == |p.idToIdx| == |g.home| == cfg.capacity
    requires 0 <= id < cfg.capacity && (t == NIL || 0 <= t < cfg.capacity) && qty > 0 && p.idToIdx[id] == NIL
    requires g.free != [] && FreeOk(g.free, g.home) && FreeChain(p, g.free) && Contents(cfg, p, g.home)
    requires p.freeHead == g.free[0]
    ensures var p' := RestedPool(p, t, s, id, cfg.lo + l, qty);
      Contents(cfg, p', g.home[g.free[0] := On(s, l)]) && FreeChain(p', g.free[1..])
  {
    var i := g.free[0];
    var p', home' := RestedPool(p, t, s, id, cfg.lo + l, qty), g.home[i := On(s, l)];
    forall j | 0 <= j < cfg.capacity ensures SlotOk(cfg, p', j, home'[j]) {
      assert SlotOk(cfg, p, j, g.home[j]);
    }
    forall x | 0 <= x < cfg.capacity ensures IdOk(p', home', x) {
      assert IdOk(p, g.home, x);
    }
    assert FreeLinkOk(p, g.free, 0);
    forall k | 0 <= k < |g.free| - 1 ensures FreeLinkOk(p', g.free[1..], k) {
      assert FreeLinkOk(p, g.free, k + 1);
    }
  }

  lemma RestedLine(cfg: Config, c: State, g: Layout, s: Side, l: int, id: int, qty: nat)
    requires cfg.Good() && Dims(cfg, c) && 0 <= l < cfg.levels && 0 <= id < cfg.capacity && qty < cfg.modulus
    requires |g.bids| == |g.asks| == cfg.levels && |g.home| == cfg.capacity
    requires g.free != [] && FreeOk(g.free, g.home) && c.pool.freeHead == g.free[0]
    requires LineOk(Line(g, s, l), s, l, g.home) && LineChained(c, g, s, l)
    ensures var t := HalfOf(c, s).tail[l];
      t == NIL || (0 <= t < cfg.capacity && t in Line(g, s, l))
    ensures Dims(cfg, Rested(cfg, c, s, l, id, qty))
    ensures LineChained(Rested(cfg, c, s, l, id, qty), Queued(g, s, l, g.free[0]), s, l)
  {
    var i, h := g.free[0], HalfOf(c, s);
    LineFrame(Line(g, s, l), i, s, l, g.home, Free);
    ChainAppend(Line(g, s, l), i, h.head[l], h.tail[l], c.pool.next, c.pool.prev);
    QueuedLine(g, s, l, i, s, l);
    RestedDims(cfg, c, s, l, id, qty);
  }

  lemma RestedDims(cfg: Config, c: State, s: Side, l: int, id: int, qty: nat)
    requires cfg.Good() && Dims(cfg, c) && 0 <= l < cfg.levels && 0 <= id < cfg.capacity && qty < cfg.modulus
    requires 0 <= c.pool.freeHead < cfg.capacity
    requires HalfOf(c, s).tail[l] == NIL || 0 <= HalfOf(c, s).tail[l] < cfg.capacity
    ensures Dims(cfg, Rested(cfg, c, s, l, id, qty))
  {}

  lemma RestedOtherLine(cfg: Config, c: State, g: Layout, s: Side, l: int, id: int, qty: nat, s': Side, l': int)
    requires cfg.Good() && Dims(cfg, c) && 0 <= l < cfg.levels && 0 <= id < cfg.capacity && 0 <= l' < cfg.levels
    requires |g.bids| == |g.asks| == cfg.levels && |g.home| == cfg.capacity
    requires g.free != [] && FreeOk(g.free, g.home) && c.pool.freeHead == g.free[0]
    requires LineOk(Line(g, s, l), s, l, g.home) && LineOk(Line(g, s', l'), s', l', g.home)
    requires var t := HalfOf(c, s).tail[l];
      t == NIL || (0 <= t < cfg.capacity && t in Line(g, s, l))
    requires LineChained(c, g, s', l') && (s' != s || l' != l)
    ensures LineChained(Rested(cfg, c, s, l, id, qty), Queued(g, s, l, g.free[0]), s', l')
  {
    FreeHeadOk(g.free, g.home);
    PoolSizes(cfg, c);
    LineLevels(g, s);
    hide *;
    var c', q := Rested(cfg, c, s, l, id, qty), Line(g, s', l');
    QueuedLine(g, s, l, g.free[0], s', l');
    LineFrame(q, g.free[0], s', l', g.home, Free);
    LinesApart(q, s', l', Line(g, s, l), s, l, g.home);
    RestedFrame(cfg, c, s, l, id, qty, s', l');
    LineChainedIs(c, g, s', l');
    ChainFrame(q, HalfOf(c, s').head[l'], HalfOf(c, s').tail[l'],
               c.pool.next, c.pool.prev, c'.pool.next, c'.pool.prev);
    assert q + [] == q;
    LineChainedIs(c', Queued(g, s, l, g.free[0]), s', l');
  }

  lemma FreeHeadOk(free: seq<int>, home: seq<Home>)
    requires FreeOk(free, home) && free != []
    ensures 0 <= free[0] < |home| && home[free[0]] == Free
  {}

  lemma PoolSizes(cfg: Config, c: State)
    requires Dims(cfg, c)
    ensures |c.pool.next| == |c.pool.prev| == cfg.capacity
  {}

  lemma LineLevels(g: Layout, s: Side)
    ensures LinesOf(g, s) == if s == Buy then g.bids else g.asks
  {}

  lemma LineChainedIs(c: State, g: Layout, s: Side, l: int)
    ensures LineChained(c, g, s, l) <==>
      0 <= l < |HalfOf(c, s).head| == |HalfOf(c, s).tail|
      && Chain(Line(g, s, l), HalfOf(c, s).head[l], HalfOf(c, s).tail[l], c.pool.next, c.pool.prev)
  {}

  /** What joining a slot leaves alone: every link but those of the slot and the old tail, and other levels. */
  lemma RestedFrame(cfg: Config, c: State, s: Side, l: int, id: int, qty: nat, s': Side, l': int)
    requires cfg.Good() && Dims(cfg, c) && 0 <= l < cfg.levels && 0 <= id < cfg.capacity && 0 <= l' < cfg.levels
    requires 0 <= c.pool.freeHead < cfg.capacity && (s' != s || l' != l)
    requires HalfOf(c, s).tail[l] == NIL || 0 <= HalfOf(c, s).tail[l] < cfg.capacity
    ensures var p, p' := c.pool, Rested(cfg, c, s, l, id, qty).pool;
      && |p'.next| == |p.next| && |p'.prev| == |p.prev|
      && forall j :: 0 <= j < cfg.capacity && j != p.freeHead && j != HalfOf(c, s).tail[l] ==>
           p'.next[j] == p.next[j] && p'.prev[j] == p.prev[j]
    ensures var h, h' := HalfOf(c, s'), HalfOf(Rested(cfg, c, s, l, id, qty), s');
      && |h'.head| == |h'.tail| == |h.head| == |h.tail| == cfg.levels
      && h'.head[l'] == h.head[l'] && h'.tail[l'] == h.tail[l']
  {
    hide AddQty, Improves, WithLevel;
  }

  /** A list of entries does not see writes to slots that are not on its line. */
  lemma ListsFrame(q: seq<Entry>, line: seq<int>, orderId: seq<int>, qty: seq<nat>, i: int, id: int, n: nat)
    requires Lists(q, line, orderId, qty) && 0 <= i < |orderId| && i < |qty| && i !in line
    ensures Lists(q, line, orderId[i := id], qty[i := n]) && Lists(q, line, orderId, qty[i := n])
  {
    assert forall k :: 0 <= k < |line| ==> line[k] in line;
  }

  /** Resting an order appends it at the tail of its level and touches nothing else. */
  lemma RestedShows(cfg: Config, p: Pool, g: Layout, s: Side, l: int, t: int, id: int, price: int, qty: nat, b: Book)
    requires |p.next| == |p.prev| == |p.orderId| == |p.price| == |p.qty| == cfg.capacity
    requires |p.side| == |p.nextFree| == |p.idToIdx| == |g.home| == cfg.capacity
    requires 0 <= id < cfg.capacity && (t == NIL || 0 <= t < cfg.capacity)
    requires |g.bids| == |g.asks| == cfg.levels && 0 <= l < cfg.levels
    requires forall s': Side, l': int :: LineOk(Line(g, s', l'), s', l', g.home)
    requires g.free != [] && FreeOk(g.free, g.home) && p.freeHead == g.free[0] && Shows(cfg, p, g, b)
    ensures Shows(cfg, RestedPool(p, t, s, id, price, qty), Queued(g, s, l, g.free[0]), Rest(b, s, l, Entry(id, qty)))
  {
    var i := g.free[0];
    var p', g', b' := RestedPool(p, t, s, id, price, qty), Queued(g, s, l, i), Rest(b, s, l, Entry(id, qty));
    forall s': Side, l': int ensures Lists(Queue(b', s', l'), Line(g', s', l'), p'.orderId, p'.qty) {
      assert LineOk(Line(g, s', l'), s', l', g.home) && Lists(Queue(b, s', l'), Line(g, s', l'), p.orderId, p.qty);
      LineFrame(Line(g, s', l'), i, s', l', g.home, Free);
      QueuedLine(g, s, l, i, s', l');
      RestQueues(b, s, l, Entry(id, qty), s', l');
      RestedLists(Queue(b, s', l'), Line(g, s', l'), p.orderId, p.qty, i, id, qty);
    }
  }

  lemma RestedLists(q: seq<Entry>, line: seq<int>, orderId: seq<int>, qty: seq<nat>, i: int, id: int, n: nat)
    requires Lists(q, line, orderId, qty) && 0 <= i < |orderId| && i < |qty| && i !in line
    ensures Lists(q + [], line + [], orderId[i := id], qty[i := n])
    ensures Lists(q + [Entry(id, n)], line + [i], orderId[i := id], qty[i := n])
  {
    ListsFrame(q, line, orderId, qty, i, id, n);
    assert q + [] == q && line + [] == line;
  }

  lemma QueuedLine(g: Layout, s: Side, l: int, i: int, s': Side, l': int)
    requires 0 <= l < |LinesOf(g, s)| && g.free != [] && 0 <= i < |g.home|
    ensures Line(Queued(g, s, l, i), s', l') == Line(g, s', l') + if s' == s && l' == l then [i] else []
  {}

  lemma RestedTotals(cfg: Config, c: State, s: Side, l: int, id: int, qty: nat, b: Book)
    requires cfg.Good() && Dims(cfg, c) && 0 <= l < cfg.levels && 0 <= id < cfg.capacity
    requires 0 <= c.pool.freeHead < cfg.capacity
    requires HalfOf(c, s).tail[l] == NIL || 0 <= HalfOf(c, s).tail[l] < cfg.capacity
    requires Dims(cfg, Rested(cfg, c, s, l, id, qty))
    requires |b.bids| == |b.asks| == cfg.levels && Totals(cfg, c, b)
    ensures Totals(cfg, Rested(cfg, c, s, l, id, qty), Rest(b, s, l, Entry(id, qty)))
  {
    var c', b' := Rested(cfg, c, s, l, id, qty), Rest(b, s, l, Entry(id, qty));
    var q := Queue(b, s, l);
    forall s': Side, l': int | 0 <= l' < cfg.levels ensures TotalOk(cfg, c', b', s', l') {
      assert TotalOk(cfg, c, b, s', l');
      if s' == s && l' == l {
        TotalConcat(q, [Entry(id, qty)]);
        AddQtyTotal(Total(q), qty, cfg.modulus);
      }
    }
  }

  lemma RestedIndex(cfg: Config, h: Half, s: Side, l: int, i: int, e: Entry, b: Book)
    requires cfg.Good() && HalfDims(cfg, h) && 0 <= l < cfg.levels
    requires |b.bids| == |b.asks| == cfg.levels && HalfIndex(h, s, b)
    ensures HalfDims(cfg, LinkedHalf(cfg, h, s, l, i, e.qty))
    ensures HalfIndex(LinkedHalf(cfg, h, s, l, i, e.qty), s, Rest(b, s, l, e))
  {
    RestedBits(h.occ, s, l, e, b);
    RestedBest(s, l, e, b);
  }

  lemma RestedBits(occ: seq<Word>, s: Side, l: int, e: Entry, b: Book)
    requires 0 <= l < |b.bids| == |b.asks| && l < 64 * |occ| && BitsOk(occ, s, b)
    ensures BitsOk(WithLevel(occ, l, true), s, Rest(b, s, l, e))
  {
    forall x: nat | x < 64 * |occ|
      ensures Occupied(WithLevel(occ, l, true), x) <==> Queue(Rest(b, s, l, e), s, x) != []
    {
      WithLevelAt(occ, l, true, x);
    }
  }

  lemma RestedBest(s: Side, l: int, e: Entry, b: Book)
    requires 0 <= l < |b.bids| == |b.asks|
    ensures Best(Rest(b, s, l, e), s) == if Improves(s, l, Best(b, s)) then l else Best(b, s)
  {
    var b' := Rest(b, s, l, e);
    BestIsBest(b, s);
    assert forall x: int :: Queue(b', s, x) != [] <==> x == l || Queue(b, s, x) != [];
    BestUnique(b', s, if Improves(s, l, Best(b, s)) then l else Best(b, s));
  }

  lemma RestedChains(cfg: Config, c: State, g: Layout, s: Side, l: int, id: int, qty: nat)
    requires cfg.Good() && Dims(cfg, c) && 0 <= l < cfg.levels && 0 <= id < cfg.capacity && qty < cfg.modulus
    requires Partition(cfg, g) && Chains(cfg, c, g) && g.free != [] && c.pool.freeHead == g.free[0]
    ensures 0 <= c.pool.freeHead < cfg.capacity
    ensures HalfOf(c, s).tail[l] == NIL || 0 <= HalfOf(c, s).tail[l] < cfg.capacity
    ensures Dims(cfg, Rested(cfg, c, s, l, id, qty))
    ensures Chains(cfg, Rested(cfg, c, s, l, id, qty), Queued(g, s, l, g.free[0]))
  {
    assert LineOk(Line(g, s, l), s, l, g.home) && LineChained(c, g, s, l);
    RestedLine(cfg, c, g, s, l, id, qty);
    var c', g' := Rested(cfg, c, s, l, id, qty), Queued(g, s, l, g.free[0]);
    forall s': Side, l': int | 0 <= l' < cfg.levels ensures LineChained(c', g', s', l') {
      assert LineOk(Line(g, s', l'), s', l', g.home) && LineChained(c, g, s', l');
      if s' != s || l' != l {
        RestedOtherLine(cfg, c, g, s, l, id, qty, s', l');
      }
    }
  }

  lemma RestKeepsStructure(cfg: Config, c: State, g: Layout, s: Side, l: int, id: int, qty: nat)
    requires Structure(cfg, c, g) && 0 <= l < cfg.levels && 0 <= id < cfg.capacity && 0 < qty < cfg.modulus
    requires g.free != [] && c.pool.idToIdx[id] == NIL
    ensures 0 <= c.pool.freeHead < cfg.capacity && c.pool.freeHead == g.free[0]
    ensures HalfOf(c, s).tail[l] == NIL || 0 <= HalfOf(c, s).tail[l] < cfg.capacity
    ensures Structure(cfg, Rested(cfg, c, s, l, id, qty), Queued(g, s, l, g.free[0]))
  {
    assert c.pool.freeHead == g.free[0];
    hide Chains, FreeChain, Contents;
    RestedChains(cfg, c, g, s, l, id, qty);
    QueuedPartition(cfg, g, s, l);
    RestedPoolContents(cfg, c.pool, g, HalfOf(c, s).tail[l], s, l, id, qty);
    assert Contents(cfg, Rested(cfg, c, s, l, id, qty).pool, Queued(g, s, l, g.free[0]).home);
  }

  lemma RestKeepsSound(cfg: Config, c: State, g: Layout, s: Side, l: int, id: int, qty: nat, b: Book)
    requires Sound(cfg, c, g, b) && 0 <= l < cfg.levels && 0 <= id < cfg.capacity && 0 < qty < cfg.modulus
    requires g.free != [] && c.pool.idToIdx[id] == NIL
    ensures 0 <= c.pool.freeHead < cfg.capacity
    ensures HalfOf(c, s).tail[l] == NIL || 0 <= HalfOf(c, s).tail[l] < cfg.capacity
    ensures Sound(cfg, Rested(cfg, c, s, l, id, qty), Queued(g, s, l, g.free[0]), Rest(b, s, l, Entry(id, qty)))
  {
    RestKeepsStructure(cfg, c, g, s, l, id, qty);
    RestedShows(cfg, c.pool, g, s, l, HalfOf(c, s).tail[l], id, cfg.lo + l, qty, b);
    RestedTotals(cfg, c, s, l, id, qty, b);
  }

  lemma RestKeepsIndex(cfg: Config, c: State, g: Layout, s: Side, l: int, id: int, qty: nat, w: View)
    requires Indexed(cfg, c, g, w) && 0 <= l < cfg.levels && 0 <= id < cfg.capacity && 0 < qty < cfg.modulus
    requires g.free != [] && c.pool.idToIdx[id] == NIL
    ensures 0 <= c.pool.freeHead < cfg.capacity
    ensures HalfOf(c, s).tail[l] == NIL || 0 <= HalfOf(c, s).tail[l] < cfg.capacity
    ensures 0 <= l < |LadderOf(w.book, s)| == |LadderOf(w.shown, s)|
    ensures Indexed(cfg, Rested(cfg, c, s, l, id, qty), Queued(g, s, l, g.free[0]), Joined(w, s, l, Entry(id, qty)))
  {
    IndexedParts(cfg, c, g, w);
    LaddersFit(w, s);
    RestKeepsSound(cfg, c, g, s, l, id, qty, w.book);
    SoundDims(cfg, Rested(cfg, c, s, l, id, qty), Queued(g, s, l, g.free[0]), Rest(w.book, s, l, Entry(id, qty)));
    RestedIndexes(cfg, c, s, l, id, qty, w.shown);
    hide *;
    var e := Entry(id, qty);
    JoinedCoherent(w, s, l, e);
    JoinedQueues(w, s, l, e, s, l);
    JoinedPattern(w, s, l, e);
    PatternIndex(cfg, Rested(cfg, c, s, l, id, qty), Rest(w.shown, s, l, e), Joined(w, s, l, e).shown);
    IndexedWhole(cfg, Rested(cfg, c, s, l, id, qty), Queued(g, s, l, g.free[0]), Joined(w, s, l, e));
  }

  lemma IndexedParts(cfg: Config, c: State, g: Layout, w: View)
    requires Indexed(cfg, c, g, w)
    ensures Sound(cfg, c, g, w.book) && Structure(cfg, c, g) && cfg.Good() && Dims(cfg, c)
    ensures Index(c, w.shown) && Coherent(w) && Totals(cfg, c, w.book)
    ensures w.book.lo == w.shown.lo == cfg.lo
    ensures |w.book.bids| == |w.book.asks| == |w.shown.bids| == |w.shown.asks| == cfg.levels
  {}

  lemma IndexedWhole(cfg: Config, c: State, g: Layout, w: View)
    requires Sound(cfg, c, g, w.book) && Index(c, w.shown) && Coherent(w)
    ensures Indexed(cfg, c, g, w)
  {}

  lemma SoundDims(cfg: Config, c: State, g: Layout, b: Book)
    requires Sound(cfg, c, g, b)
    ensures Dims(cfg, c)
  {}

  // ---- The index sees only which levels are empty ------------------------------------------

  ghost predicate SamePattern(b: Book, b': Book) {
    && |b.bids| == |b'.bids| && |b.asks| == |b'.asks|
    && forall s: Side, l: int :: Queue(b, s, l) == [] <==> Queue(b', s, l) == []
  }

  lemma PatternHalf(h: Half, s: Side, b: Book, b': Book)
    requires HalfIndex(h, s, b) && SamePattern(b, b')
    ensures HalfIndex(h, s, b')
  {
    BestIsBest(b, s);
    BestUnique(b', s, h.best);
  }

  lemma PatternIndex(cfg: Config, c: State, b: Book, b': Book)
    requires Index(c, b) && SamePattern(b, b')
    ensures Index(c, b')
  {
    hide HalfIndex, SamePattern;
    forall s: Side ensures HalfIndex(HalfOf(c, s), s, b') {
      PatternHalf(HalfOf(c, s), s, b, b');
    }
  }

  lemma JoinedPattern(w: View, s: Side, l: int, e: Entry)
    requires 0 <= l < |LadderOf(w.book, s)| == |LadderOf(w.shown, s)|
    ensures SamePattern(Rest(w.shown, s, l, e), Joined(w, s, l, e).shown)
  {}

  lemma RestedIndexes(cfg: Config, c: State, s: Side, l: int, id: int, qty: nat, b: Book)
    requires cfg.Good() && Dims(cfg, c) && 0 <= l < cfg.levels && 0 <= id < cfg.capacity
    requires 0 <= c.pool.freeHead < cfg.capacity
    requires HalfOf(c, s).tail[l] == NIL || 0 <= HalfOf(c, s).tail[l] < cfg.capacity
    requires |b.bids| == |b.asks| == cfg.levels && Index(c, b)
    requires Dims(cfg, Rested(cfg, c, s, l, id, qty))
    ensures Index(Rested(cfg, c, s, l, id, qty), Rest(b, s, l, Entry(id, qty)))
  {
    var o := s.Opposite();
    assert HalfIndex(HalfOf(c, s), s, b) && HalfIndex(HalfOf(c, o), o, b);
    RestedIndex(cfg, HalfOf(c, s), s, l, c.pool.freeHead, Entry(id, qty), b);
    OtherSideIndex(cfg, HalfOf(c, o), o, b, Rest(b, s, l, Entry(id, qty)));
    var c' := Rested(cfg, c, s, l, id, qty);
    forall s': Side ensures HalfIndex(HalfOf(c', s'), s', Rest(b, s, l, Entry(id, qty))) {
      assert s' == s || s' == o;
    }
  }

  lemma OtherSideIndex(cfg: Config, h: Half, s: Side, b: Book, b': Book)
    requires HalfDims(cfg, h) && HalfIndex(h, s, b) && LadderOf(b', s) == LadderOf(b, s)
    requires |b.bids| == |b.asks| && |b'.bids| == |b'.asks|
    ensures HalfIndex(h, s, b')
  {
    assert forall l: int :: Queue(b', s, l) == Queue(b, s, l);
    BestIsBest(b, s);
    BestUnique(b', s, h.best);
  }

  // ---- Taking an order off its level -------------------------------------------------------

  /** The book with the k-th entry of a level withdrawn. */
  function DropAt(b: Book, s: Side, l: int, k: int): Book
    requires 0 <= k < |Queue(b, s, l)|
  {
    WithQueue(b, s, l, Queue(b, s, l)[..k] + Queue(b, s, l)[k + 1..])
  }

  /** The pool after slot i has left the neighbours before and after, and its id is freed. */
  function RemovedPool(p: Pool, i: int, before: int, after: int, id: int): Pool
    requires |p.next| == |p.prev| == |p.qty| == |p.nextFree| == |p.idToIdx|
    requires 0 <= i < |p.next| && 0 <= id < |p.next|
    requires (before == NIL || 0 <= before < |p.next|) && (after == NIL || 0 <= after < |p.next|)
  {
    p.(next := if before == NIL then p.next else p.next[before := after],
       prev := if after == NIL then p.prev else p.prev[after := before],
       qty := p.qty[i := 0],
       freeHead := i, nextFree := p.nextFree[i := p.freeHead], idToIdx := p.idToIdx[id := NIL])
  }

  ghost predicate Neighbours(cfg: Config, p: Pool, i: int)
    requires |p.next| == |p.prev| == cfg.capacity
  {
    && 0 <= i < cfg.capacity
    && (p.prev[i] == NIL || 0 <= p.prev[i] < cfg.capacity)
    && (p.next[i] == NIL || 0 <= p.next[i] < cfg.capacity)
  }

  function Removed(cfg: Config, c: State, s: Side, l: int, i: int, id: int): State
    requires cfg.Good() && Dims(cfg, c) && 0 <= l < cfg.levels && 0 <= id < cfg.capacity
    requires Neighbours(cfg, c.pool, i)
  {
    var before, after := c.pool.prev[i], c.pool.next[i];
    WithHalf(c, s, UnlinkedHalf(cfg, HalfOf(c, s), s, l, before, after, c.pool.qty[i])).(
      pool := RemovedPool(c.pool, i, before, after, id))
  }

  /** link_new_order, step by step. */
  lemma LinkedParts(cfg: Config, c: State, s: Side, l: int, i: int)
    requires cfg.Good() && Dims(cfg, c) && 0 <= l < cfg.levels && 0 <= i < cfg.capacity
    requires HalfOf(c, s).tail[l] == NIL || 0 <= HalfOf(c, s).tail[l] < cfg.capacity
    ensures var c1 := Appended(c, s, l, i);
      && |HalfOf(c1, s).total| == cfg.levels && |c1.pool.qty| == cfg.capacity
      && HalfOf(c1, s).total[l] == HalfOf(c, s).total[l] && c1.pool.qty[i] == c.pool.qty[i]
      && var c2 := WithTotal(c1, s, l, AddQty(HalfOf(c, s).total[l], c.pool.qty[i], cfg.modulus));
      && 0 <= l < 64 * |HalfOf(c2, s).occ|
      && var c3 := WithOcc(c2, s, l, true);
      && HalfOf(c3, s).best == HalfOf(c, s).best
      && Linked(cfg, c, s, l, i) == WithBest(c3, s, if Improves(s, l, HalfOf(c, s).best) then l else HalfOf(c, s).best)
  {
    hide AddQty, WithLevel;
  }

  /** unlink_order, step by step. */
  lemma UnlinkedParts(cfg: Config, c: State, s: Side, l: int, i: int)
    requires cfg.Good() && Dims(cfg, c) && 0 <= l < cfg.levels && Neighbours(cfg, c.pool, i)
    ensures HalfOf(c, s).total[l] < cfg.modulus && c.pool.qty[i] < cfg.modulus
    ensures var t := SubQty(HalfOf(c, s).total[l], c.pool.qty[i], cfg.modulus);
      var c1 := Spliced(c, s, l, i);
      && |HalfOf(c1, s).total| == cfg.levels && HalfOf(c1, s).total[l] == HalfOf(c, s).total[l]
      && |c1.pool.qty| == cfg.capacity && c1.pool.qty[i] == c.pool.qty[i]
      && var c2 := WithTotal(c1, s, l, t);
      && |c2.pool.qty| == cfg.capacity
      && var c3 := WithQty(c2, i, 0);
      && HalfOf(c3, s).occ == HalfOf(c, s).occ && HalfOf(c3, s).best == HalfOf(c, s).best
      && |HalfOf(c3, s).total| == cfg.levels && HalfOf(c3, s).total[l] == t
      && 0 <= l < 64 * |HalfOf(c3, s).occ|
      && var occ := WithLevel(HalfOf(c, s).occ, l, false);
      && cfg.levels <= 64 * |occ|
      && Unlinked(cfg, c, s, l, i)
         == if t != 0 then c3
            else WithBest(WithOcc(c3, s, l, false), s,
                          if HalfOf(c, s).best == l then BestOccupied(occ, s, cfg.levels) else HalfOf(c, s).best)
  {
    hide SubQty, WithLevel, BestOccupied;
  }

  lemma ReducedParts(cfg: Config, c: State, s: Side, l: int, i: int, t: nat)
    requires cfg.Good() && Dims(cfg, c) && 0 <= l < cfg.levels && 0 <= i < cfg.capacity && t <= c.pool.qty[i]
    ensures HalfOf(c, s).total[l] < cfg.modulus && t < cfg.modulus
    ensures var c1 := WithTotal(c, s, l, SubQty(HalfOf(c, s).total[l], t, cfg.modulus));
      |c1.pool.qty| == cfg.capacity && Reduced(cfg, c, s, l, i, t) == WithQty(c1, i, c.pool.qty[i] - t)
  {
    hide SubQty;
  }

  /** The state `Removed` is what unlink_order and free_order leave behind. */
  lemma RemovedSteps(cfg: Config, c: State, s: Side, l: int, i: int, id: int)
    requires cfg.Good() && Dims(cfg, c) && 0 <= l < cfg.levels && 0 <= id < cfg.capacity
    requires Neighbours(cfg, c.pool, i) && c.pool.idToIdx[id] == i
    ensures Dims(cfg, Unlinked(cfg, c, s, l, i))
    ensures Removed(cfg, c, s, l, i, id) == Release(cfg, Unlinked(cfg, c, s, l, i), id)
  {}

  /** Emptying an order before unlinking it makes no difference. */
  lemma ReducedSteps(cfg: Config, c: State, s: Side, l: int, i: int)
    requires cfg.Good() && Dims(cfg, c) && 0 <= l < cfg.levels
    requires Neighbours(cfg, c.pool, i)
    ensures Dims(cfg, Reduced(cfg, c, s, l, i, c.pool.qty[i]))
    ensures Unlinked(cfg, Reduced(cfg, c, s, l, i, c.pool.qty[i]), s, l, i) == Unlinked(cfg, c, s, l, i)
  {
    var h, q, p := HalfOf(c, s), c.pool.qty[i], c.pool;
    ReducedHalf(cfg, h, s, l, p.prev[i], p.next[i], q);
    assert p.qty[i := 0][i := 0] == p.qty[i := 0];
  }

  lemma ReducedHalf(cfg: Config, h: Half, s: Side, l: int, before: int, after: int, qty: nat)
    requires cfg.Good() && HalfDims(cfg, h) && 0 <= l < cfg.levels && qty < cfg.modulus
    ensures var t := SubQty(h.total[l], qty, cfg.modulus);
      && HalfDims(cfg, h.(total := h.total[l := t]))
      && UnlinkedHalf(cfg, h.(total := h.total[l := t]), s, l, before, after, 0)
         == UnlinkedHalf(cfg, h, s, l, before, after, qty)
  {
    SubAll(h.total[l], qty, cfg.modulus);
    var t := SubQty(h.total[l], qty, cfg.modulus);
    assert h.total[l := t][l := t] == h.total[l := t];
  }

  lemma RemovedPoolContents(cfg: Config, p: Pool, g: Layout, i: int, before: int, after: int, id: int)
    requires |p.next| == |p.prev| == |p.orderId| == |p.price| == |p.qty| == cfg.capacity
    requires |p.side| == |p.nextFree| == |p.idToIdx| == |g.home| == cfg.capacity
    requires 0 <= i < cfg.capacity && 0 <= id < cfg.capacity
    requires (before == NIL || 0 <= before < cfg.capacity) && (after == NIL || 0 <= after < cfg.capacity)
    requires FreeOk(g.free, g.home) && FreeChain(p, g.free) && Contents(cfg, p, g.home)
    requires g.home[i].On? && p.orderId[i] == id
    ensures var p' := RemovedPool(p, i, before, after, id);
      Contents(cfg, p', g.home[i := Free]) && FreeChain(p', [i] + g.free)
  {
    var p', home', free' := RemovedPool(p, i, before, after, id), g.home[i := Free], [i] + g.free;
    forall j | 0 <= j < cfg.capacity ensures SlotOk(cfg, p', j, home'[j]) {
      assert SlotOk(cfg, p, j, g.home[j]) && SlotOk(cfg, p, i, g.home[i]);
    }
    forall x | 0 <= x < cfg.capacity ensures IdOk(p', home', x) {
      assert IdOk(p, g.home, x);
    }
    forall k | 0 <= k < |free'| ensures FreeLinkOk(p', free', k) {
      assert k > 0 ==> FreeLinkOk(p, g.free, k - 1);
    }
  }

  lemma RemovedLine(cfg: Config, c: State, g: Layout, s: Side, l: int, k: int, id: int)
    requires cfg.Good() && Dims(cfg, c) && 0 <= l < cfg.levels && 0 <= id < cfg.capacity
    requires |g.bids| == |g.asks| == cfg.levels && |g.home| == cfg.capacity && 0 <= k < |Line(g, s, l)|
    requires LineOk(Line(g, s, l), s, l, g.home) && LineChained(c, g, s, l)
    ensures Neighbours(cfg, c.pool, Line(g, s, l)[k])
    ensures var before, after := c.pool.prev[Line(g, s, l)[k]], c.pool.next[Line(g, s, l)[k]];
      (before != NIL ==> before in Line(g, s, l)) && (after != NIL ==> after in Line(g, s, l))
    ensures Dims(cfg, Removed(cfg, c, s, l, Line(g, s, l)[k], id))
    ensures LineChained(Removed(cfg, c, s, l, Line(g, s, l)[k], id), Dropped(g, s, l, k), s, l)
  {
    var r, h := Line(g, s, l), HalfOf(c, s);
    ChainRemove(r, k, h.head[l], h.tail[l], c.pool.next, c.pool.prev);
    DroppedLine(g, s, l, k, s, l);
    RemovedDims(cfg, c, s, l, r[k], id);
  }

  lemma RemovedDims(cfg: Config, c: State, s: Side, l: int, i: int, id: int)
    requires cfg.Good() && Dims(cfg, c) && 0 <= l < cfg.levels && 0 <= id < cfg.capacity && Neighbours(cfg, c.pool, i)
    ensures Dims(cfg, Removed(cfg, c, s, l, i, id))
  {}

  lemma RemovedOtherLine(cfg: Config, c: State, g: Layout, s: Side, l: int, k: int, id: int, s': Side, l': int)
    requires cfg.Good() && Dims(cfg, c) && 0 <= l < cfg.levels && 0 <= id < cfg.capacity && 0 <= l' < cfg.levels
    requires |g.bids| == |g.asks| == cfg.levels && |g.home| == cfg.capacity
    requires 0 <= k < |Line(g, s, l)| && Neighbours(cfg, c.pool, Line(g, s, l)[k])
    requires LineOk(Line(g, s, l), s, l, g.home) && LineOk(Line(g, s', l'), s', l', g.home)
    requires var before, after := c.pool.prev[Line(g, s, l)[k]], c.pool.next[Line(g, s, l)[k]];
      (before != NIL ==> before in Line(g, s, l)) && (after != NIL ==> after in Line(g, s, l))
    requires LineChained(c, g, s', l') && (s' != s || l' != l)
    ensures LineChained(Removed(cfg, c, s, l, Line(g, s, l)[k], id), Dropped(g, s, l, k), s', l')
  {
    PoolSizes(cfg, c);
    LineLevels(g, s);
    SlotInPool(Line(g, s, l), k, s, l, g.home);
    hide *;
    var q, r := Line(g, s', l'), Line(g, s, l);
    var c' := Removed(cfg, c, s, l, r[k], id);
    DroppedOther(g, s, l, k, s', l');
    LinesApart(q, s', l', r, s, l, g.home);
    RemovedFrame(cfg, c, s, l, r[k], id, s', l');
    LineChainedIs(c, g, s', l');
    ChainFrame(q, HalfOf(c, s').head[l'], HalfOf(c, s').tail[l'],
               c.pool.next, c.pool.prev, c'.pool.next, c'.pool.prev);
    LineChainedIs(c', Dropped(g, s, l, k), s', l');
  }

  lemma SlotInPool(q: seq<int>, k: int, s: Side, l: int, home: seq<Home>)
    requires LineOk(q, s, l, home) && 0 <= k < |q|
    ensures 0 <= q[k] < |home|
  {}

  lemma DroppedOther(g: Layout, s: Side, l: int, k: int, s': Side, l': int)
    requires 0 <= l < |LinesOf(g, s)| && 0 <= k < |Line(g, s, l)| && 0 <= Line(g, s, l)[k] < |g.home|
    requires s' != s || l' != l
    ensures Line(Dropped(g, s, l, k), s', l') == Line(g, s', l')
  {}

  /** What removing a slot leaves alone: every link but those of its neighbours, and other levels. */
  lemma RemovedFrame(cfg: Config, c: State, s: Side, l: int, i: int, id: int, s': Side, l': int)
    requires cfg.Good() && Dims(cfg, c) && 0 <= l < cfg.levels && 0 <= id < cfg.capacity && 0 <= l' < cfg.levels
    requires Neighbours(cfg, c.pool, i) && (s' != s || l' != l)
    ensures 0 <= i < |c.pool.next| == |c.pool.prev|
    ensures var p, p' := c.pool, Removed(cfg, c, s, l, i, id).pool;
      && |p'.next| == |p.next| && |p'.prev| == |p.prev|
      && forall j :: 0 <= j < cfg.capacity && j != p.prev[i] && j != p.next[i] ==>
           p'.next[j] == p.next[j] && p'.prev[j] == p.prev[j]
    ensures var h, h' := HalfOf(c, s'), HalfOf(Removed(cfg, c, s, l, i, id), s');
      && |h'.head| == |h'.tail| == |h.head| == |h.tail| == cfg.levels
      && h'.head[l'] == h.head[l'] && h'.tail[l'] == h.tail[l']
  {
    hide SubQty, BestOccupied, WithLevel;
  }

  lemma LinesApart(q: seq<int>, s: Side, l: int, r: seq<int>, s': Side, l': int, home: seq<Home>)
    requires LineOk(q, s, l, home) && LineOk(r, s', l', home) && (s != s' || l != l')
    ensures forall i :: i in q ==> i !in r
  {}

  lemma DroppedLine(g: Layout, s: Side, l: int, k: int, s': Side, l': int)
    requires 0 <= l < |LinesOf(g, s)| && 0 <= k < |Line(g, s, l)| && 0 <= Line(g, s, l)[k] < |g.home|
    ensures Line(Dropped(g, s, l, k), s', l')
         == if s' == s && l' == l then Line(g, s, l)[..k] + Line(g, s, l)[k + 1..] else Line(g, s', l')
  {}

  lemma ListsDrop(q: seq<Entry>, line: seq<int>, k: int, orderId: seq<int>, qty: seq<nat>)
    requires Lists(q, line, orderId, qty) && DistinctSlots(line) && 0 <= k < |line|
    ensures Lists(q[..k] + q[k + 1..], line[..k] + line[k + 1..], orderId, qty[line[k] := 0])
  {}

  lemma RemovedShows(cfg: Config, p: Pool, g: Layout, s: Side, l: int, k: int, before: int, after: int,
                     id: int, b: Book)
    requires |p.next| == |p.prev| == |p.orderId| == |p.qty| == |p.nextFree| == |p.idToIdx| == |g.home|
    requires 0 <= id < |p.next| && (before == NIL || 0 <= before < |p.next|) && (after == NIL || 0 <= after < |p.next|)
    requires 0 <= k < |Line(g, s, l)| && 0 <= Line(g, s, l)[k] < |p.next| && Shows(cfg, p, g, b)
    requires forall s': Side, l': int :: LineOk(Line(g, s', l'), s', l', g.home)
    ensures k < |Queue(b, s, l)|
    ensures Shows(cfg, RemovedPool(p, Line(g, s, l)[k], before, after, id), Dropped(g, s, l, k), DropAt(b, s, l, k))
  {
    assert Lists(Queue(b, s, l), Line(g, s, l), p.orderId, p.qty);
    assert LineOk(Line(g, s, l), s, l, g.home);
    var i := Line(g, s, l)[k];
    var p', g', b' := RemovedPool(p, i, before, after, id), Dropped(g, s, l, k), DropAt(b, s, l, k);
    forall s': Side, l': int ensures Lists(Queue(b', s', l'), Line(g', s', l'), p'.orderId, p'.qty) {
      var q := Line(g, s', l');
      assert LineOk(q, s', l', g.home) && Lists(Queue(b, s', l'), q, p.orderId, p.qty);
      DroppedLine(g, s, l, k, s', l');
      DropQueue(b, s, l, k, s', l');
      if s' == s && l' == l {
        ListsDrop(Queue(b, s, l), q, k, p.orderId, p.qty);
      } else {
        LineFrame(q, i, s', l', g.home, Free);
        ListsFrame(Queue(b, s', l'), q, p.orderId, p.qty, i, id, 0);
      }
    }
  }

  lemma DropQueue(b: Book, s: Side, l: int, k: int, s': Side, l': int)
    requires 0 <= k < |Queue(b, s, l)|
    ensures Queue(DropAt(b, s, l, k), s', l')
         == if s' == s && l' == l then Queue(b, s, l)[..k] + Queue(b, s, l)[k + 1..] else Queue(b, s', l')
  {}

  lemma TotalDrop(q: seq<Entry>, k: int)
    requires 0 <= k < |q|
    ensures Total(q) == Total(q[..k] + q[k + 1..]) + q[k].qty
  {
    hide Total;
    assert q == q[..k] + ([q[k]] + q[k + 1..]);
    TotalConcat(q[..k], [q[k]] + q[k + 1..]);
    TotalCons(q[k], q[k + 1..]);
    TotalConcat(q[..k], q[k + 1..]);
  }

  lemma RemovedTotal(cfg: Config, c: State, s: Side, l: int, i: int, k: int, id: int, b: Book, s': Side, l': int)
    requires cfg.Good() && Dims(cfg, c) && 0 <= l < cfg.levels && 0 <= id < cfg.capacity
    requires Neighbours(cfg, c.pool, i) && Dims(cfg, Removed(cfg, c, s, l, i, id))
    requires TotalOk(cfg, c, b, s', l') && TotalOk(cfg, c, b, s, l)
    requires 0 <= k < |Queue(b, s, l)| && Queue(b, s, l)[k].qty == c.pool.qty[i]
    ensures TotalOk(cfg, Removed(cfg, c, s, l, i, id), DropAt(b, s, l, k), s', l')
  {
    hide Queue, DropAt, Total, WithLevel, BestOccupied, SubQty;
    DropQueue(b, s, l, k, s', l');
    if s' == s && l' == l {
      DroppedTotal(HalfOf(c, s).total[l], Queue(b, s, l), k, cfg.modulus);
    }
  }

  lemma RemovedTotals(cfg: Config, c: State, s: Side, l: int, i: int, k: int, id: int, b: Book)
    requires cfg.Good() && Dims(cfg, c) && 0 <= l < cfg.levels && 0 <= id < cfg.capacity
    requires Neighbours(cfg, c.pool, i) && Dims(cfg, Removed(cfg, c, s, l, i, id))
    requires |b.bids| == |b.asks| == cfg.levels && Totals(cfg, c, b)
    requires 0 <= k < |Queue(b, s, l)| && Queue(b, s, l)[k].qty == c.pool.qty[i]
    ensures Totals(cfg, Removed(cfg, c, s, l, i, id), DropAt(b, s, l, k))
  {
    hide Config.Good, Dims, DropAt, Neighbours, Queue, Removed, TotalOk;
    forall s': Side, l': int | 0 <= l' < cfg.levels
      ensures TotalOk(cfg, Removed(cfg, c, s, l, i, id), DropAt(b, s, l, k), s', l')
    {
      RemovedTotal(cfg, c, s, l, i, k, id, b, s', l');
    }
  }

  lemma RemovedChains(cfg: Config, c: State, g: Layout, s: Side, l: int, k: int, id: int)
    requires cfg.Good() && Dims(cfg, c) && 0 <= l < cfg.levels && 0 <= id < cfg.capacity
    requires Partition(cfg, g) && Chains(cfg, c, g) && 0 <= k < |Line(g, s, l)|
    ensures Neighbours(cfg, c.pool, Line(g, s, l)[k])
    ensures Dims(cfg, Removed(cfg, c, s, l, Line(g, s, l)[k], id))
    ensures Chains(cfg, Removed(cfg, c, s, l, Line(g, s, l)[k], id), Dropped(g, s, l, k))
  {
    assert LineOk(Line(g, s, l), s, l, g.home) && LineChained(c, g, s, l);
    RemovedLine(cfg, c, g, s, l, k, id);
    var c', g' := Removed(cfg, c, s, l, Line(g, s, l)[k], id), Dropped(g, s, l, k);
    forall s': Side, l': int | 0 <= l' < cfg.levels ensures LineChained(c', g', s', l') {
      assert LineOk(Line(g, s', l'), s', l', g.home) && LineChained(c, g, s', l');
      if s' != s || l' != l {
        RemovedOtherLine(cfg, c, g, s, l, k, id, s', l');
      }
    }
  }

  lemma DropKeepsStructure(cfg: Config, c: State, g: Layout, s: Side, l: int, k: int, id: int)
    requires Structure(cfg, c, g) && 0 <= k < |Line(g, s, l)| && 0 <= l < cfg.levels
    requires 0 <= Line(g, s, l)[k] < cfg.capacity && g.home[Line(g, s, l)[k]].On?
    requires id == c.pool.orderId[Line(g, s, l)[k]] && 0 <= id < cfg.capacity
    ensures Neighbours(cfg, c.pool, Line(g, s, l)[k])
    ensures Structure(cfg, Removed(cfg, c, s, l, Line(g, s, l)[k], id), Dropped(g, s, l, k))
  {
    var i := Line(g, s, l)[k];
    RemovedChains(cfg, c, g, s, l, k, id);
    DroppedPartition(cfg, g, s, l, k);
    RemovedPoolContents(cfg, c.pool, g, i, c.pool.prev[i], c.pool.next[i], id);
  }

  lemma DropKeepsSound(cfg: Config, c: State, g: Layout, s: Side, l: int, k: int, b: Book)
    requires Sound(cfg, c, g, b) && 0 <= k < |Line(g, s, l)|
    ensures 0 <= l < cfg.levels && k < |Queue(b, s, l)| && Neighbours(cfg, c.pool, Line(g, s, l)[k])
    ensures var i := Line(g, s, l)[k];
      && Queue(b, s, l)[k] == Entry(c.pool.orderId[i], c.pool.qty[i])
      && 0 <= c.pool.orderId[i] < cfg.capacity && c.pool.idToIdx[c.pool.orderId[i]] == i
      && Sound(cfg, Removed(cfg, c, s, l, i, c.pool.orderId[i]), Dropped(g, s, l, k), DropAt(b, s, l, k))
  {
    var i := Line(g, s, l)[k];
    SlotOnLine(cfg, c.pool, g, s, l, k, b);
    var id := c.pool.orderId[i];
    DropKeepsStructure(cfg, c, g, s, l, k, id);
    RemovedShows(cfg, c.pool, g, s, l, k, c.pool.prev[i], c.pool.next[i], id, b);
    RemovedTotals(cfg, c, s, l, i, k, id, b);
  }

  /** What the arrays say of the k-th slot of a line. */
  lemma SlotOnLine(cfg: Config, p: Pool, g: Layout, s: Side, l: int, k: int, b: Book)
    requires Partition(cfg, g) && Contents(cfg, p, g.home) && Shows(cfg, p, g, b) && 0 <= k < |Line(g, s, l)|
    ensures 0 <= l < cfg.levels && k < |Queue(b, s, l)| && 0 <= Line(g, s, l)[k] < cfg.capacity
    ensures var i := Line(g, s, l)[k];
      && g.home[i] == On(s, l) && i < |p.orderId| && i < |p.qty| && i < |p.side| && i < |p.price|
      && Queue(b, s, l)[k] == Entry(p.orderId[i], p.qty[i]) && p.qty[i] > 0
      && p.side[i] == s && p.price[i] == cfg.lo + l
      && 0 <= p.orderId[i] < cfg.capacity <= |p.idToIdx| && p.idToIdx[p.orderId[i]] == i
  {
    var i := Line(g, s, l)[k];
    assert LineOk(Line(g, s, l), s, l, g.home) && Lists(Queue(b, s, l), Line(g, s, l), p.orderId, p.qty);
    assert SlotOk(cfg, p, i, g.home[i]);
  }

  // ---- The index after an order has left -------------------------------------------------------

  lemma BestOccupiedIsBest(occ: seq<Word>, s: Side, b: Book)
    requires |b.bids| == |b.asks| <= 64 * |occ| && BitsOk(occ, s, b)
    ensures BestOccupied(occ, s, Levels(b)) == Best(b, s)
  {
    var n := Levels(b);
    var f, r := FirstOccupied(occ, s, 0, n), FirstRank(b, s, 0);
    assert f < n ==> Queue(b, s, LevelAt(s, f, n)) != [];
    assert r < n ==> Occupied(occ, LevelAt(s, r, n));
  }

  /** The index's part of the book when a level is left with q by a removal. */
  function ShownLess(shown: Book, s: Side, l: int, q: seq<Entry>, m: nat): Book
    requires 0 <= l < |LadderOf(shown, s)| && m > 0
  {
    WithQueue(shown, s, l, Kept(Queue(shown, s, l), q, m))
  }

  lemma ShownLessQueue(shown: Book, s: Side, l: int, q: seq<Entry>, m: nat, s': Side, l': int)
    requires 0 <= l < |LadderOf(shown, s)| && m > 0
    ensures Queue(ShownLess(shown, s, l, q, m), s', l')
         == if s' == s && l' == l then Kept(Queue(shown, s, l), q, m) else Queue(shown, s', l')
  {}

  lemma ShownLessShape(shown: Book, s: Side, l: int, q: seq<Entry>, m: nat)
    requires 0 <= l < |LadderOf(shown, s)| && m > 0
    ensures var v := ShownLess(shown, s, l, q, m);
      && v.lo == shown.lo && |v.bids| == |shown.bids| && |v.asks| == |shown.asks|
      && LadderOf(v, s.Opposite()) == LadderOf(shown, s.Opposite())
  {}

  /** Clearing the bit of a level that is no longer shown leaves the bits right. */
  lemma ClearedBits(occ: seq<Word>, s: Side, l: int, b: Book, b': Book)
    requires BitsOk(occ, s, b) && 0 <= l < 64 * |occ|
    requires Queue(b', s, l) == [] && forall x: int :: x != l ==> Queue(b', s, x) == Queue(b, s, x)
    ensures BitsOk(WithLevel(occ, l, false), s, b')
  {
    hide WithLevel, Occupied, Queue;
    forall x: nat | x < 64 * |occ| ensures Occupied(WithLevel(occ, l, false), x) <==> Queue(b', s, x) != [] {
      WithLevelAt(occ, l, false, x);
    }
  }

  /** A level that was not the best can empty without changing the best. */
  lemma OtherBestStays(s: Side, l: int, b: Book, b': Book)
    requires |b.bids| == |b.asks| == |b'.bids| == |b'.asks| && Best(b, s) != l
    requires Queue(b', s, l) == [] && forall x: int :: x != l ==> Queue(b', s, x) == Queue(b, s, x)
    ensures Best(b', s) == Best(b, s)
  {
    hide Best, Queue;
    BestIsBest(b, s);
    BestUnique(b', s, Best(b, s));
  }

  /** unlink_order's zero test keeps the index right for what it now shows. */
  lemma DroppedIndex(cfg: Config, h: Half, s: Side, l: int, before: int, after: int, v: Book, qty: nat, q: seq<Entry>)
    requires cfg.Good() && HalfDims(cfg, h) && |v.bids| == |v.asks| == cfg.levels && HalfIndex(h, s, v)
    requires 0 <= l < |LadderOf(v, s)| == cfg.levels && qty < cfg.modulus
    requires SubQty(h.total[l], qty, cfg.modulus) == Total(q) % cfg.modulus
    requires q == [] ==> Total(q) % cfg.modulus == 0
    ensures HalfDims(cfg, UnlinkedHalf(cfg, h, s, l, before, after, qty))
    ensures HalfIndex(UnlinkedHalf(cfg, h, s, l, before, after, qty), s, ShownLess(v, s, l, q, cfg.modulus))
  {
    hide Queue, Best, BestOccupied, WithLevel, BitsOk, ShownLess, Total, SubQty, LadderOf;
    var v' := ShownLess(v, s, l, q, cfg.modulus);
    ShownLessShape(v, s, l, q, cfg.modulus);
    forall x: int ensures Queue(v', s, x) == if x == l then Kept(Queue(v, s, l), q, cfg.modulus) else Queue(v, s, x) {
      ShownLessQueue(v, s, l, q, cfg.modulus, s, x);
    }
    if SubQty(h.total[l], qty, cfg.modulus) == 0 {
      ClearedBits(h.occ, s, l, v, v');
      if Best(v, s) == l {
        BestOccupiedIsBest(WithLevel(h.occ, l, false), s, v');
      } else {
        OtherBestStays(s, l, v, v');
      }
    } else {
      SameBits(h.occ, s, v, v');
    }
  }

  lemma SameBits(occ: seq<Word>, s: Side, b: Book, b': Book)
    requires BitsOk(occ, s, b) && |b.bids| == |b.asks| == |b'.bids| == |b'.asks|
    requires forall l: int :: Queue(b, s, l) == [] <==> Queue(b', s, l) == []
    ensures BitsOk(occ, s, b') && Best(b', s) == Best(b, s)
  {
    hide Best, Queue, Occupied;
    BestIsBest(b, s);
    BestUnique(b', s, Best(b, s));
  }

  lemma DroppedTotal(total: nat, q: seq<Entry>, k: int, m: nat)
    requires 0 <= k < |q| && q[k].qty < m && total == Total(q) % m
    ensures SubQty(total, q[k].qty, m) == Total(q[..k] + q[k + 1..]) % m
  {
    TotalDrop(q, k);
    SubQtyTotal(Total(q), q[k].qty, m);
  }

  /** The view with the k-th order of a level withdrawn. */
  function Withdrawn(w: View, s: Side, l: int, k: int, m: nat): View
    requires 0 <= k < |Queue(w.book, s, l)| && |LadderOf(w.book, s)| == |LadderOf(w.shown, s)| && m > 0
  {
    Less(w, s, l, Queue(w.book, s, l)[..k] + Queue(w.book, s, l)[k + 1..], m)
  }

  lemma WithdrawnParts(w: View, s: Side, l: int, k: int, m: nat)
    requires 0 <= k < |Queue(w.book, s, l)| && |LadderOf(w.book, s)| == |LadderOf(w.shown, s)| && m > 0
    ensures var q := Queue(w.book, s, l);
      Withdrawn(w, s, l, k, m) == View(DropAt(w.book, s, l, k), ShownLess(w.shown, s, l, q[..k] + q[k + 1..], m))
  {}

  lemma DropKeepsIndex(cfg: Config, c: State, g: Layout, s: Side, l: int, k: int, w: View)
    requires Indexed(cfg, c, g, w) && 0 <= k < |Line(g, s, l)|
    ensures 0 <= l < cfg.levels && k < |Queue(w.book, s, l)| && Neighbours(cfg, c.pool, Line(g, s, l)[k])
    ensures |LadderOf(w.book, s)| == |LadderOf(w.shown, s)| && cfg.modulus > 0
    ensures var i := Line(g, s, l)[k];
      && 0 <= c.pool.orderId[i] < cfg.capacity && Dims(cfg, c)
      && Indexed(cfg, Removed(cfg, c, s, l, i, c.pool.orderId[i]), Dropped(g, s, l, k),
                 Withdrawn(w, s, l, k, cfg.modulus))
  {
    IndexedParts(cfg, c, g, w);
    LaddersFit(w, s);
    DropKeepsSound(cfg, c, g, s, l, k, w.book);
    var i := Line(g, s, l)[k];
    var id, q := c.pool.orderId[i], Queue(w.book, s, l);
    var c', w' := Removed(cfg, c, s, l, i, id), Withdrawn(w, s, l, k, cfg.modulus);
    SoundDims(cfg, c', Dropped(g, s, l, k), DropAt(w.book, s, l, k));
    assert TotalOk(cfg, c, w.book, s, l);
    RemovedIndexes(cfg, c, s, l, i, k, id, w);
    hide *;
    WithdrawnParts(w, s, l, k, cfg.modulus);
    LessCoherent(w, s, l, q[..k] + q[k + 1..], cfg.modulus);
    WithdrawnIs(w, s, l, k, cfg.modulus);
    IndexedWhole(cfg, c', Dropped(g, s, l, k), w');
  }

  lemma WithdrawnIs(w: View, s: Side, l: int, k: int, m: nat)
    requires 0 <= k < |Queue(w.book, s, l)| && 0 <= l < |LadderOf(w.book, s)| == |LadderOf(w.shown, s)| && m > 0
    ensures Withdrawn(w, s, l, k, m) == Less(w, s, l, Queue(w.book, s, l)[..k] + Queue(w.book, s, l)[k + 1..], m)
  {}

  lemma RemovedIndexes(cfg: Config, c: State, s: Side, l: int, i: int, k: int, id: int, w: View)
    requires cfg.Good() && Dims(cfg, c) && 0 <= l < cfg.levels && 0 <= id < cfg.capacity
    requires Neighbours(cfg, c.pool, i) && Dims(cfg, Removed(cfg, c, s, l, i, id))
    requires |w.shown.bids| == |w.shown.asks| == cfg.levels && Index(c, w.shown)
    requires TotalOk(cfg, c, w.book, s, l)
    requires 0 <= k < |Queue(w.book, s, l)| && Queue(w.book, s, l)[k].qty == c.pool.qty[i]
    ensures 0 <= l < |LadderOf(w.shown, s)|
    ensures var q := Queue(w.book, s, l);
      Index(Removed(cfg, c, s, l, i, id), ShownLess(w.shown, s, l, q[..k] + q[k + 1..], cfg.modulus))
  {
    hide *;
    var o, q := s.Opposite(), Queue(w.book, s, l);
    var r := q[..k] + q[k + 1..];
    BothHalves(c, s, w.shown);
    LadderRange(w.shown, s);
    RemovedHalves(cfg, c, s, l, i, id);
    var v' := ShownLess(w.shown, s, l, r, cfg.modulus);
    HalvesDims(cfg, c, s);
    WithdrawnTotal(cfg, c, s, l, k, w.book, c.pool.qty[i]);
    DroppedIndex(cfg, HalfOf(c, s), s, l, c.pool.prev[i], c.pool.next[i], w.shown, c.pool.qty[i], r);
    ShownLessShape(w.shown, s, l, r, cfg.modulus);
    OtherSideIndex(cfg, HalfOf(c, o), o, w.shown, v');
    WholeIndex(Removed(cfg, c, s, l, i, id), s, v');
  }

  lemma BothHalves(c: State, s: Side, b: Book)
    requires Index(c, b)
    ensures HalfIndex(HalfOf(c, s), s, b) && HalfIndex(HalfOf(c, s.Opposite()), s.Opposite(), b)
  {}

  lemma WholeIndex(c: State, s: Side, b: Book)
    requires HalfIndex(HalfOf(c, s), s, b) && HalfIndex(HalfOf(c, s.Opposite()), s.Opposite(), b)
    ensures Index(c, b)
  {
    forall s': Side ensures HalfIndex(HalfOf(c, s'), s', b) {
      assert s' == s || s' == s.Opposite();
    }
  }

  lemma LadderRange(b: Book, s: Side)
    requires |b.bids| == |b.asks|
    ensures |LadderOf(b, s)| == |b.bids|
  {}

  lemma HalvesDims(cfg: Config, c: State, s: Side)
    requires Dims(cfg, c)
    ensures HalfDims(cfg, HalfOf(c, s)) && HalfDims(cfg, HalfOf(c, s.Opposite()))
    ensures |HalfOf(c, s).total| == cfg.levels
    ensures forall i :: 0 <= i < cfg.capacity ==> c.pool.qty[i] < cfg.modulus
    ensures forall l :: 0 <= l < cfg.levels ==> HalfOf(c, s).total[l] < cfg.modulus
  {}

  /** What unlinking does to each side. */
  lemma RemovedHalves(cfg: Config, c: State, s: Side, l: int, i: int, id: int)
    requires cfg.Good() && Dims(cfg, c) && 0 <= l < cfg.levels && 0 <= id < cfg.capacity
    requires Neighbours(cfg, c.pool, i)
    ensures HalfDims(cfg, HalfOf(c, s)) && 0 <= i < |c.pool.qty| && c.pool.qty[i] < cfg.modulus
    ensures cfg.modulus > 0 && i < |c.pool.prev| && i < |c.pool.next|
    ensures HalfOf(Removed(cfg, c, s, l, i, id), s)
         == UnlinkedHalf(cfg, HalfOf(c, s), s, l, c.pool.prev[i], c.pool.next[i], c.pool.qty[i])
    ensures HalfOf(Removed(cfg, c, s, l, i, id), s.Opposite()) == HalfOf(c, s.Opposite())
  {}

  /** The level total after the k-th order has left, at the width of QtyT. */
  lemma WithdrawnTotal(cfg: Config, c: State, s: Side, l: int, k: int, b: Book, qty: nat)
    requires cfg.Good() && Dims(cfg, c) && TotalOk(cfg, c, b, s, l) && 0 <= k < |Queue(b, s, l)|
    requires Queue(b, s, l)[k].qty == qty < cfg.modulus && 0 <= l < cfg.levels
    ensures var q := Queue(b, s, l);
      && 0 <= l < |HalfOf(c, s).total| && HalfOf(c, s).total[l] < cfg.modulus
      && SubQty(HalfOf(c, s).total[l], qty, cfg.modulus) == Total(q[..k] + q[k + 1..]) % cfg.modulus
      && (q[..k] + q[k + 1..] == [] ==> Total(q[..k] + q[k + 1..]) % cfg.modulus == 0)
  {
    hide Queue, SubQty, Total;
    TotalParts(cfg, c, b, s, l);
    hide *;
    DroppedTotal(HalfOf(c, s).total[l], Queue(b, s, l), k, cfg.modulus);
    NoTotal(Queue(b, s, l)[..k] + Queue(b, s, l)[k + 1..], cfg.modulus);
  }

  lemma TotalParts(cfg: Config, c: State, b: Book, s: Side, l: int)
    requires cfg.Good() && Dims(cfg, c) && TotalOk(cfg, c, b, s, l) && 0 <= l < cfg.levels
    ensures cfg.modulus > 1 && 0 <= l < |HalfOf(c, s).total| && HalfOf(c, s).total[l] < cfg.modulus
    ensures HalfOf(c, s).total[l] == Total(Queue(b, s, l)) % cfg.modulus
  {}

  lemma NoTotal(q: seq<Entry>, m: nat)
    requires m > 0
    ensures q == [] ==> Total(q) % m == 0
  {}

  // ---- Partly filling the order at the head of a level -------------------------------------------

  lemma ReduceKeepsStructure(cfg: Config, c: State, g: Layout, s: Side, l: int, i: int, t: nat)
    requires Structure(cfg, c, g) && 0 <= l < cfg.levels && 0 <= i < cfg.capacity && t < c.pool.qty[i]
    ensures Structure(cfg, Reduced(cfg, c, s, l, i, t), g)
    ensures Reduced(cfg, c, s, l, i, t).pool == c.pool.(qty := c.pool.qty[i := c.pool.qty[i] - t])
  {
    ReducedContents(cfg, c.pool, g.home, i, c.pool.qty[i] - t);
    ReducedChains(cfg, c, g, s, l, i, t);
  }

  lemma ReduceKeepsSound(cfg: Config, c: State, g: Layout, s: Side, l: int, t: nat, b: Book)
    requires Sound(cfg, c, g, b) && Line(g, s, l) != [] && 0 <= Line(g, s, l)[0] < cfg.capacity
    requires 0 < t < c.pool.qty[Line(g, s, l)[0]]
    ensures Queue(b, s, l) != [] && Queue(b, s, l)[0].qty == c.pool.qty[Line(g, s, l)[0]]
    ensures Sound(cfg, Reduced(cfg, c, s, l, Line(g, s, l)[0], t), g, Shrunk(b, s, l, t))
  {
    hide Chains, FreeChain, Contents, Totals, LineOk, Lists;
    SlotOnLine(cfg, c.pool, g, s, l, 0, b);
    ReduceKeepsStructure(cfg, c, g, s, l, Line(g, s, l)[0], t);
    ReducedShows(cfg, c.pool, g, s, l, t, b);
    ReducedTotals(cfg, c, s, l, Line(g, s, l)[0], t, b);
  }

  lemma ReduceKeepsIndex(cfg: Config, c: State, g: Layout, s: Side, l: int, t: nat, w: View)
    requires Indexed(cfg, c, g, w) && Line(g, s, l) != [] && 0 <= Line(g, s, l)[0] < cfg.capacity
    requires 0 < t < c.pool.qty[Line(g, s, l)[0]] && Queue(w.shown, s, l) != []
    ensures Queue(w.book, s, l) != [] && Queue(w.book, s, l)[0].qty == c.pool.qty[Line(g, s, l)[0]]
    ensures Queue(w.shown, s, l) == Queue(w.book, s, l) && 0 <= l < cfg.levels && Dims(cfg, c)
    ensures Indexed(cfg, Reduced(cfg, c, s, l, Line(g, s, l)[0], t), g,
                    View(Shrunk(w.book, s, l, t), Shrunk(w.shown, s, l, t)))
  {
    IndexedParts(cfg, c, g, w);
    ReduceKeepsSound(cfg, c, g, s, l, t, w.book);
    assert ShownAt(w, s, l);
    var c' := Reduced(cfg, c, s, l, Line(g, s, l)[0], t);
    SoundDims(cfg, c', g, Shrunk(w.book, s, l, t));
    ReducedIndexes(cfg, c, s, l, Line(g, s, l)[0], t, w.shown);
    ShrunkCoherent(w, s, l, t);
    IndexedWhole(cfg, c', g, View(Shrunk(w.book, s, l, t), Shrunk(w.shown, s, l, t)));
  }

  lemma ShrunkCoherent(w: View, s: Side, l: int, t: nat)
    requires Coherent(w) && Queue(w.shown, s, l) != [] && Queue(w.shown, s, l) == Queue(w.book, s, l)
    requires t <= Queue(w.book, s, l)[0].qty
    ensures Coherent(View(Shrunk(w.book, s, l, t), Shrunk(w.shown, s, l, t)))
  {
    var v := View(Shrunk(w.book, s, l, t), Shrunk(w.shown, s, l, t));
    forall s': Side, l': int ensures ShownAt(v, s', l') {
      ShrunkQueue(w.book, s, l, t, s', l');
      ShrunkQueue(w.shown, s, l, t, s', l');
      assert ShownAt(w, s', l');
    }
  }

  lemma ReducedChains(cfg: Config, c: State, g: Layout, s: Side, l: int, i: int, t: nat)
    requires cfg.Good() && Dims(cfg, c) && 0 <= l < cfg.levels && 0 <= i < cfg.capacity && t <= c.pool.qty[i]
    requires Chains(cfg, c, g) && FreeChain(c.pool, g.free)
    ensures Dims(cfg, Reduced(cfg, c, s, l, i, t))
    ensures Chains(cfg, Reduced(cfg, c, s, l, i, t), g) && FreeChain(Reduced(cfg, c, s, l, i, t).pool, g.free)
  {
    var c' := Reduced(cfg, c, s, l, i, t);
    forall s': Side, l': int | 0 <= l' < cfg.levels ensures LineChained(c', g, s', l') {
      assert LineChained(c, g, s', l');
    }
    forall k | 0 <= k < |g.free| ensures FreeLinkOk(c'.pool, g.free, k) {
      assert FreeLinkOk(c.pool, g.free, k);
    }
  }

  lemma ReducedContents(cfg: Config, p: Pool, home: seq<Home>, i: int, q: nat)
    requires |p.orderId| == |p.price| == |p.qty| == |p.side| == |p.idToIdx| == |home| == cfg.capacity
    requires Contents(cfg, p, home) && 0 <= i < cfg.capacity && q > 0
    ensures Contents(cfg, p.(qty := p.qty[i := q]), home)
  {
    var p' := p.(qty := p.qty[i := q]);
    forall j | 0 <= j < cfg.capacity ensures SlotOk(cfg, p', j, home[j]) {
      assert SlotOk(cfg, p, j, home[j]);
    }
    forall x | 0 <= x < cfg.capacity ensures IdOk(p', home, x) {
      assert IdOk(p, home, x);
    }
  }

  lemma ReducedShows(cfg: Config, p: Pool, g: Layout, s: Side, l: int, t: nat, b: Book)
    requires |p.orderId| == |p.qty| == |g.home| && Line(g, s, l) != [] && Shows(cfg, p, g, b)
    requires forall s': Side, l': int :: LineOk(Line(g, s', l'), s', l', g.home)
    requires 0 <= Line(g, s, l)[0] < |p.qty| && t <= p.qty[Line(g, s, l)[0]]
    ensures Queue(b, s, l) != [] && Queue(b, s, l)[0].qty == p.qty[Line(g, s, l)[0]]
    ensures var i := Line(g, s, l)[0];
      Shows(cfg, p.(qty := p.qty[i := p.qty[i] - t]), g, Shrunk(b, s, l, t))
  {
    assert Lists(Queue(b, s, l), Line(g, s, l), p.orderId, p.qty);
    assert LineOk(Line(g, s, l), s, l, g.home);
    var i := Line(g, s, l)[0];
    var p', b' := p.(qty := p.qty[i := p.qty[i] - t]), Shrunk(b, s, l, t);
    forall s': Side, l': int ensures Lists(Queue(b', s', l'), Line(g, s', l'), p'.orderId, p'.qty) {
      assert LineOk(Line(g, s', l'), s', l', g.home) && Lists(Queue(b, s', l'), Line(g, s', l'), p.orderId, p.qty);
      ReducedLists(p, g, s, l, t, b, s', l');
    }
  }

  lemma ReducedLists(p: Pool, g: Layout, s: Side, l: int, t: nat, b: Book, s': Side, l': int)
    requires |p.orderId| == |p.qty| == |g.home| && Line(g, s, l) != []
    requires LineOk(Line(g, s, l), s, l, g.home) && LineOk(Line(g, s', l'), s', l', g.home)
    requires Lists(Queue(b, s, l), Line(g, s, l), p.orderId, p.qty)
    requires Lists(Queue(b, s', l'), Line(g, s', l'), p.orderId, p.qty)
    requires t <= p.qty[Line(g, s, l)[0]]
    ensures Queue(b, s, l) != [] && t <= Queue(b, s, l)[0].qty
    ensures var i := Line(g, s, l)[0];
      Lists(Queue(Shrunk(b, s, l, t), s', l'), Line(g, s', l'), p.orderId, p.qty[i := p.qty[i] - t])
  {
    hide *;
    var i, q := Line(g, s, l)[0], Line(g, s', l');
    ListsHead(Queue(b, s, l), Line(g, s, l), p.orderId, p.qty);
    ShrunkQueue(b, s, l, t, s', l');
    if s' != s || l' != l {
      HeadElsewhere(Line(g, s, l), s, l, q, s', l', g.home);
      ListsFrame(Queue(b, s', l'), q, p.orderId, p.qty, i, 0, p.qty[i] - t);
    } else {
      SlotsDistinct(q, s, l, g.home);
      ListsShrunk(Queue(b, s, l), q, p.orderId, p.qty, t);
    }
  }

  lemma ListsHead(q: seq<Entry>, line: seq<int>, orderId: seq<int>, qty: seq<nat>)
    requires Lists(q, line, orderId, qty) && line != []
    ensures q != [] && 0 <= line[0] < |qty| && q[0].qty == qty[line[0]]
  {}

  lemma HeadElsewhere(q: seq<int>, s: Side, l: int, r: seq<int>, s': Side, l': int, home: seq<Home>)
    requires LineOk(q, s, l, home) && LineOk(r, s', l', home) && q != [] && (s != s' || l != l')
    ensures 0 <= q[0] < |home| && q[0] !in r
  {}

  lemma SlotsDistinct(q: seq<int>, s: Side, l: int, home: seq<Home>)
    requires LineOk(q, s, l, home)
    ensures DistinctSlots(q)
  {}

  lemma ListsShrunk(q: seq<Entry>, line: seq<int>, orderId: seq<int>, qty: seq<nat>, t: nat)
    requires Lists(q, line, orderId, qty) && q != [] && DistinctSlots(line) && t <= q[0].qty
    ensures line != [] && 0 <= line[0] < |qty| && qty[line[0]] == q[0].qty
    ensures Lists([q[0].(qty := q[0].qty - t)] + q[1..], line, orderId, qty[line[0] := qty[line[0]] - t])
  {}

  /** The book with t taken from the oldest entry of a level, which keeps its place. */
  function Shrunk(b: Book, s: Side, l: int, t: nat): Book
    requires Queue(b, s, l) != [] && t <= Queue(b, s, l)[0].qty
  {
    var q := Queue(b, s, l);
    WithQueue(b, s, l, [q[0].(qty := q[0].qty - t)] + q[1..])
  }

  lemma ShrunkQueue(b: Book, s: Side, l: int, t: nat, s': Side, l': int)
    requires Queue(b, s, l) != [] && t <= Queue(b, s, l)[0].qty
    ensures Queue(Shrunk(b, s, l, t), s', l')
         == if s' == s && l' == l then [Queue(b, s, l)[0].(qty := Queue(b, s, l)[0].qty - t)] + Queue(b, s, l)[1..]
            else Queue(b, s', l')
  {}

  lemma ReducedTotals(cfg: Config, c: State, s: Side, l: int, i: int, t: nat, b: Book)
    requires cfg.Good() && Dims(cfg, c) && 0 <= l < cfg.levels && 0 <= i < cfg.capacity
    requires |b.bids| == |b.asks| == cfg.levels && Totals(cfg, c, b)
    requires Queue(b, s, l) != [] && Queue(b, s, l)[0].qty == c.pool.qty[i] && 0 < t < c.pool.qty[i]
    requires Dims(cfg, Reduced(cfg, c, s, l, i, t))
    ensures Totals(cfg, Reduced(cfg, c, s, l, i, t), Shrunk(b, s, l, t))
  {
    var c', b' := Reduced(cfg, c, s, l, i, t), Shrunk(b, s, l, t);
    forall s': Side, l': int | 0 <= l' < cfg.levels ensures TotalOk(cfg, c', b', s', l') {
      assert TotalOk(cfg, c, b, s', l');
      ShrunkQueue(b, s, l, t, s', l');
      if s' == s && l' == l {
        SubQtyTotal(Total(Queue(b, s, l)), t, cfg.modulus);
      }
    }
  }

  lemma ReducedIndexes(cfg: Config, c: State, s: Side, l: int, i: int, t: nat, b: Book)
    requires cfg.Good() && Dims(cfg, c) && 0 <= l < cfg.levels && 0 <= i < cfg.capacity
    requires |b.bids| == |b.asks| == cfg.levels && Index(c, b)
    requires Queue(b, s, l) != [] && Queue(b, s, l)[0].qty == c.pool.qty[i] && 0 < t < c.pool.qty[i]
    requires Dims(cfg, Reduced(cfg, c, s, l, i, t))
    ensures Index(Reduced(cfg, c, s, l, i, t), Shrunk(b, s, l, t))
  {
    var c', b' := Reduced(cfg, c, s, l, i, t), Shrunk(b, s, l, t);
    forall s': Side ensures HalfIndex(HalfOf(c', s'), s', b') {
      assert HalfIndex(HalfOf(c, s'), s', b);
      forall x: int ensures Queue(b', s', x) != [] <==> Queue(b, s', x) != [] {
        ShrunkQueue(b, s, l, t, s', x);
      }
      BestIsBest(b, s');
      BestUnique(b', s', Best(b, s'));
    }
  }

  // ---- The empty book ------------------------------------------------------------------------------

  function EmptyLayout(cfg: Config): Layout {
    Layout(seq(cfg.levels, l => []), seq(cfg.levels, l => []), seq(cfg.capacity, i => i), seq(cfg.capacity, i => Free))
  }

  ghost predicate ResetHalf(levels: nat, h: Half) {
    && |h.head| == |h.tail| == |h.total| == levels && |h.occ| == WordCount(levels) && h.best == NIL
    && (forall l :: 0 <= l < levels ==> h.head[l] == NIL && h.tail[l] == NIL && h.total[l] == 0)
    && (forall w :: 0 <= w < |h.occ| ==> h.occ[w] == 0)
  }

  ghost predicate ResetPool(capacity: nat, p: Pool) {
    && |p.next| == |p.prev| == |p.orderId| == |p.price| == |p.qty| == capacity
    && |p.side| == |p.nextFree| == |p.idToIdx| == capacity && p.freeHead == 0
    && (forall i :: 0 <= i < capacity ==> p.nextFree[i] == if i + 1 < capacity then i + 1 else NIL)
    && (forall i :: 0 <= i < capacity ==> p.idToIdx[i] == NIL)
    && (forall i :: 0 <= i < capacity ==> p.qty[i] == 0)
  }

  lemma ResetStructure(cfg: Config, c: State)
    requires cfg.Good() && ResetHalf(cfg.levels, c.bids) && ResetHalf(cfg.levels, c.asks)
    requires ResetPool(cfg.capacity, c.pool)
    ensures Structure(cfg, c, EmptyLayout(cfg))
  {
    var g := EmptyLayout(cfg);
    assert forall s: Side, l: int :: Line(g, s, l) == [];
    forall i | 0 <= i < cfg.capacity ensures Placed(g, i) {
      assert g.free[i] == i;
    }
    assert forall k :: 0 <= k < cfg.capacity ==> FreeLinkOk(c.pool, g.free, k);
  }

  lemma ResetIndex(cfg: Config, h: Half, s: Side)
    requires cfg.Good() && ResetHalf(cfg.levels, h)
    ensures HalfIndex(h, s, EmptyBook(cfg.lo, cfg.levels))
  {
    var b := EmptyBook(cfg.lo, cfg.levels);
    assert forall l: int :: Queue(b, s, l) == [];
    BestIsBest(b, s);
    forall l: nat | l < 64 * |h.occ| ensures !Occupied(h.occ, l) {
      ZeroBit(l % 64);
    }
  }

  lemma ResetIsIndexed(cfg: Config, c: State)
    requires cfg.Good() && ResetHalf(cfg.levels, c.bids) && ResetHalf(cfg.levels, c.asks)
    requires ResetPool(cfg.capacity, c.pool)
    ensures Indexed(cfg, c, EmptyLayout(cfg), EmptyView(cfg.lo, cfg.levels))
  {
    ResetStructure(cfg, c);
    ResetBook(cfg, c);
    ResetIndex(cfg, c.bids, Buy);
    ResetIndex(cfg, c.asks, Sell);
    forall s: Side ensures HalfIndex(HalfOf(c, s), s, EmptyBook(cfg.lo, cfg.levels)) {
      assert s == Buy || s == Sell;
    }
  }

  lemma ResetBook(cfg: Config, c: State)
    requires cfg.Good() && ResetHalf(cfg.levels, c.bids) && ResetHalf(cfg.levels, c.asks)
    ensures var b := EmptyBook(cfg.lo, cfg.levels);
      Shows(cfg, c.pool, EmptyLayout(cfg), b) && Totals(cfg, c, b)
  {
    hide EmptyLayout, EmptyBook, Queue, Line, Total;
    EmptyShapes(cfg);
    var b := EmptyBook(cfg.lo, cfg.levels);
    forall s: Side, l: int ensures Queue(b, s, l) == [] && Line(EmptyLayout(cfg), s, l) == [] {
      EmptyEverywhere(cfg, s, l);
    }
    forall s: Side, l: int | 0 <= l < cfg.levels ensures TotalOk(cfg, c, b, s, l) {
      NothingTotalsZero(cfg.modulus);
    }
  }

  lemma NothingTotalsZero(m: nat)
    requires m > 0
    ensures Total([]) % m == 0
  {}

  lemma EmptyShapes(cfg: Config)
    ensures var b := EmptyBook(cfg.lo, cfg.levels);
      b.lo == cfg.lo && |b.bids| == |b.asks| == cfg.levels
  {}

  lemma EmptyEverywhere(cfg: Config, s: Side, l: int)
    ensures Queue(EmptyBook(cfg.lo, cfg.levels), s, l) == [] && Line(EmptyLayout(cfg), s, l) == []
  {}

  // ---- Scanning the occupancy words -------------------------------------------------------------------

  ghost predicate NoStrayBits(occ: seq<Word>, levels: nat) {
    forall l: nat :: levels <= l < 64 * |occ| ==> !Occupied(occ, l)
  }

  lemma NoStrayAfter(occ: seq<Word>, level: nat, levels: nat)
    requires NoStrayBits(occ, levels) && level < levels <= 64 * |occ|
    ensures NoStrayBits(WithLevel(occ, level, false), levels)
  {
    forall l: nat | levels <= l < 64 * |occ| ensures !Occupied(WithLevel(occ, level, false), l) {
      WithLevelAt(occ, level, false, l);
    }
  }

  lemma BestOccupiedIs(occ: seq<Word>, s: Side, levels: nat, best: int)
    requires levels <= 64 * |occ|
    requires best == NIL ==> forall l: nat :: l < levels ==> !Occupied(occ, l)
    requires best != NIL ==> 0 <= best < levels && Occupied(occ, best)
                             && forall l: nat :: l < levels && Occupied(occ, l) ==> AtLeastAsGood(s, best, l)
    ensures best == BestOccupied(occ, s, levels)
  {
    var f := FirstOccupied(occ, s, 0, levels);
    if best != NIL {
      var r := if s == Buy then levels - 1 - best else best;
      assert LevelAt(s, r, levels) == best;
    }
  }

  lemma NoneOccupied(occ: seq<Word>, s: Side, levels: nat)
    requires levels <= 64 * |occ| && forall w :: 0 <= w < |occ| ==> occ[w] == 0
    ensures BestOccupied(occ, s, levels) == NIL
  {
    forall l: nat | l < levels ensures !Occupied(occ, l) {
      ZeroBit(l % 64);
    }
    BestOccupiedIs(occ, s, levels, NIL);
  }

  lemma WordAndDigit(w: nat, i: nat)
    requires i < 64
    ensures (w * 64 + i) / 64 == w && (w * 64 + i) % 64 == i
  {}

  /** The top set digit of the last non-zero word is the highest occupied level, and it is in range. */
  lemma HighestInWord(occ: seq<Word>, w: nat, levels: nat)
    requires levels <= 64 * |occ| && NoStrayBits(occ, levels) && w < |occ| && occ[w] != 0
    requires forall v :: w < v < |occ| ==> occ[v] == 0
    ensures w * 64 + (63 - CountlZero(occ[w])) < levels
    ensures w * 64 + (63 - CountlZero(occ[w])) == BestOccupied(occ, Buy, levels)
  {
    hide Bit, CountlZero, BestOccupied;
    var best := w * 64 + (63 - CountlZero(occ[w]));
    WordAndDigit(w, 63 - CountlZero(occ[w]));
    assert Occupied(occ, best);
    forall l: nat | l < levels && Occupied(occ, l) ensures l <= best {
      if l / 64 > w {
        ZeroBit(l % 64);
      }
    }
    BestOccupiedIs(occ, Buy, levels, best);
  }

  lemma LowestInWord(occ: seq<Word>, w: nat, levels: nat)
    requires levels <= 64 * |occ| && NoStrayBits(occ, levels) && w < |occ| && occ[w] != 0
    requires forall v :: 0 <= v < w ==> occ[v] == 0
    ensures w * 64 + CountrZero(occ[w]) < levels
    ensures w * 64 + CountrZero(occ[w]) == BestOccupied(occ, Sell, levels)
  {
    hide Bit, CountrZero, BestOccupied;
    var best := w * 64 + CountrZero(occ[w]);
    WordAndDigit(w, CountrZero(occ[w]));
    assert Occupied(occ, best);
    forall l: nat | l < levels && Occupied(occ, l) ensures l >= best {
      if l / 64 < w {
        ZeroBit(l % 64);
      }
    }
    BestOccupiedIs(occ, Sell, levels, best);
  }
}
