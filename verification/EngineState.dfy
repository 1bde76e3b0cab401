/**
 * The engine's storage as values: one snapshot of its index arrays, the ghost
 * layout those arrays encode, the invariant tying the two to the abstract book and
 * its index, and what each private helper of the engine does to the arrays.
 */
module EngineState {
  import opened Bits
  import opened PriceTimeBook
  import opened IndexedBook

  const NIL: int := -1

  /** The template parameters: price range, pool size, and 2 to the width of QtyT. */
  datatype Config = Config(lo: int, levels: nat, capacity: nat, modulus: nat) {
    predicate Good() {
      levels > 1 && capacity > 0 && modulus > 1
    }
  }

  /** One BookSide with its cached best level. */
  datatype Half = Half(head: seq<int>, tail: seq<int>, total: seq<nat>, occ: seq<Word>, best: int)

  /** The order pool, the free list and the id index. */
  datatype Pool = Pool(next: seq<int>, prev: seq<int>, orderId: seq<int>, price: seq<int>, qty: seq<nat>,
                       side: seq<Side>, freeHead: int, nextFree: seq<int>, idToIdx: seq<int>)

  datatype State = State(bids: Half, asks: Half, pool: Pool)

  function HalfOf(c: State, s: Side): Half {
    if s == Buy then c.bids else c.asks
  }

  function WithHalf(c: State, s: Side, h: Half): State {
    if s == Buy then c.(bids := h) else c.(asks := h)
  }

  function WordCount(levels: nat): nat {
    (levels + 63) / 64
  }

  ghost predicate HalfDims(cfg: Config, h: Half) {
    && |h.head| == |h.tail| == |h.total| == cfg.levels
    && |h.occ| == WordCount(cfg.levels)
    && (forall l :: 0 <= l < cfg.levels ==> h.total[l] < cfg.modulus)
  }

  ghost predicate Dims(cfg: Config, c: State) {
    && HalfDims(cfg, c.bids) && HalfDims(cfg, c.asks)
    && |c.pool.next| == |c.pool.prev| == |c.pool.orderId| == |c.pool.price| == |c.pool.qty| == cfg.capacity
    && |c.pool.side| == |c.pool.nextFree| == |c.pool.idToIdx| == cfg.capacity
    && (forall i :: 0 <= i < cfg.capacity ==> c.pool.qty[i] < cfg.modulus)
  }

  // ---- The layout the arrays encode --------------------------------------------------

  datatype Home = Free | On(side: Side, level: int)

  /** Pool slots queued at each level, pool slots in free-list order, and where each slot is. */
  datatype Layout = Layout(bids: seq<seq<int>>, asks: seq<seq<int>>, free: seq<int>, home: seq<Home>)

  function LinesOf(g: Layout, s: Side): seq<seq<int>> {
    if s == Buy then g.bids else g.asks
  }

  function Line(g: Layout, s: Side, l: int): seq<int> {
    if 0 <= l < |LinesOf(g, s)| then LinesOf(g, s)[l] else []
  }

  function WithLine(g: Layout, s: Side, l: int, q: seq<int>): Layout
    requires 0 <= l < |LinesOf(g, s)|
  {
    if s == Buy then g.(bids := g.bids[l := q]) else g.(asks := g.asks[l := q])
  }

  predicate DistinctSlots(q: seq<int>) {
    forall i, j :: 0 <= i < j < |q| ==> q[i] != q[j]
  }

  /** Distinct slots, all of them recorded as queued at this level. */
  ghost predicate LineOk(q: seq<int>, s: Side, l: int, home: seq<Home>) {
    DistinctSlots(q) && forall k :: 0 <= k < |q| ==> 0 <= q[k] < |home| && home[q[k]] == On(s, l)
  }

  ghost predicate FreeOk(free: seq<int>, home: seq<Home>) {
    DistinctSlots(free) && forall k :: 0 <= k < |free| ==> 0 <= free[k] < |home| && home[free[k]] == Free
  }

  ghost predicate Placed(g: Layout, i: int)
    requires 0 <= i < |g.home|
  {
    match g.home[i]
    case Free => i in g.free
    case On(s, l) => i in Line(g, s, l)
  }

  /** The level queues and the free list partition the pool. */
  ghost predicate Partition(cfg: Config, g: Layout) {
    && |g.bids| == |g.asks| == cfg.levels && |g.home| == cfg.capacity
    && (forall s: Side, l: int :: LineOk(Line(g, s, l), s, l, g.home))
    && FreeOk(g.free, g.home)
    && (forall i :: 0 <= i < cfg.capacity ==> Placed(g, i))
  }

  function SlotAt(q: seq<int>, k: int): int {
    if 0 <= k < |q| then q[k] else NIL
  }

  /** The node at position k of a queue links to its neighbours. */
  ghost predicate LinkOk(q: seq<int>, k: int, next: seq<int>, prev: seq<int>)
    requires 0 <= k < |q| && |next| == |prev|
  {
    0 <= q[k] < |next| && next[q[k]] == SlotAt(q, k + 1) && prev[q[k]] == SlotAt(q, k - 1)
  }

  /** A finite chain from head to tail, with prev the inverse of next. */
  ghost predicate Chain(q: seq<int>, head: int, tail: int, next: seq<int>, prev: seq<int>) {
    && |next| == |prev|
    && head == SlotAt(q, 0)
    && tail == SlotAt(q, |q| - 1)
    && forall k :: 0 <= k < |q| ==> LinkOk(q, k, next, prev)
  }

  ghost predicate LineChained(c: State, g: Layout, s: Side, l: int) {
    0 <= l < |HalfOf(c, s).head| == |HalfOf(c, s).tail|
    && Chain(Line(g, s, l), HalfOf(c, s).head[l], HalfOf(c, s).tail[l], c.pool.next, c.pool.prev)
  }

  ghost predicate Chains(cfg: Config, c: State, g: Layout) {
    forall s: Side, l: int :: 0 <= l < cfg.levels ==> LineChained(c, g, s, l)
  }

  ghost predicate FreeLinkOk(p: Pool, free: seq<int>, k: int)
    requires 0 <= k < |free|
  {
    0 <= free[k] < |p.nextFree| && p.nextFree[free[k]] == SlotAt(free, k + 1)
  }

  ghost predicate FreeChain(p: Pool, free: seq<int>) {
    && p.freeHead == SlotAt(free, 0)
    && forall k :: 0 <= k < |free| ==> FreeLinkOk(p, free, k)
  }

  /** A queued slot stores the side and price of its level, and its id maps back to it. */
  ghost predicate SlotOk(cfg: Config, p: Pool, i: int, h: Home) {
    h.On? ==>
      && 0 <= i < |p.side| && i < |p.price| && i < |p.qty| && i < |p.orderId| && cfg.capacity <= |p.idToIdx|
      && p.side[i] == h.side && p.price[i] == cfg.lo + h.level && p.qty[i] > 0
      && 0 <= p.orderId[i] < cfg.capacity && p.idToIdx[p.orderId[i]] == i
  }

  /** An id is inactive or maps to the queued slot that stores it. */
  ghost predicate IdOk(p: Pool, home: seq<Home>, id: int) {
    0 <= id < |p.idToIdx| &&
    var i := p.idToIdx[id];
    i == NIL || (0 <= i < |home| && i < |p.orderId| && home[i].On? && p.orderId[i] == id)
  }

  ghost predicate Contents(cfg: Config, p: Pool, home: seq<Home>) {
    && (forall i :: 0 <= i < |home| ==> SlotOk(cfg, p, i, home[i]))
    && (forall id :: 0 <= id < cfg.capacity ==> IdOk(p, home, id))
  }

  // ---- The abstract book ----------------------------------------------------------------

  /** An abstract queue lists the id and quantity of each slot of a line. */
  ghost predicate Lists(q: seq<Entry>, line: seq<int>, orderId: seq<int>, qty: seq<nat>) {
    && |q| == |line|
    && forall k :: 0 <= k < |q| ==>
         0 <= line[k] < |orderId| && line[k] < |qty| && q[k] == Entry(orderId[line[k]], qty[line[k]])
  }

  /** The abstract book the pool and the layout represent. */
  ghost predicate Shows(cfg: Config, p: Pool, g: Layout, b: Book) {
    && b.lo == cfg.lo && |b.bids| == |b.asks| == cfg.levels
    && forall s: Side, l: int :: Lists(Queue(b, s, l), Line(g, s, l), p.orderId, p.qty)
  }

  /** A cached total is the queue's total modulo the width of QtyT. */
  ghost predicate TotalOk(cfg: Config, c: State, b: Book, s: Side, l: int) {
    cfg.modulus > 0 && 0 <= l < |HalfOf(c, s).total|
    && HalfOf(c, s).total[l] == Total(Queue(b, s, l)) % cfg.modulus
  }

  ghost predicate Totals(cfg: Config, c: State, b: Book) {
    forall s: Side, l: int :: 0 <= l < cfg.levels ==> TotalOk(cfg, c, b, s, l)
  }

  ghost predicate BitsOk(occ: seq<Word>, s: Side, b: Book) {
    forall l: nat :: l < 64 * |occ| ==> (Occupied(occ, l) <==> Queue(b, s, l) != [])
  }

  /** Occupancy bits and the cached best level agree with the queues. */
  ghost predicate HalfIndex(h: Half, s: Side, b: Book) {
    |b.bids| == |b.asks| && BitsOk(h.occ, s, b) && h.best == Best(b, s)
  }

  ghost predicate Index(c: State, b: Book) {
    forall s: Side :: HalfIndex(HalfOf(c, s), s, b)
  }

  /** The linked queues, the free list and the id index are well formed. */
  ghost predicate Structure(cfg: Config, c: State, g: Layout) {
    && cfg.Good() && Dims(cfg, c) && Partition(cfg, g)
    && Chains(cfg, c, g)
    && FreeChain(c.pool, g.free)
    && Contents(cfg, c.pool, g.home)
  }

  /** Everything but the index. */
  ghost predicate Sound(cfg: Config, c: State, g: Layout, b: Book) {
    && Structure(cfg, c, g)
    && Shows(cfg, c.pool, g, b)
    && Totals(cfg, c, b)
  }

  /** The arrays hold the whole book, and the index shows its part of it. */
  ghost predicate Indexed(cfg: Config, c: State, g: Layout, w: View) {
    Sound(cfg, c, g, w.book) && Index(c, w.shown) && Coherent(w)
  }

  // ---- Quantity arithmetic at the width of QtyT -----------------------------------------------

  function AddQty(x: nat, y: nat, m: nat): (r: nat)
    requires m > 0
    ensures r < m
  {
    (x + y) % m
  }

  function SubQty(x: nat, y: nat, m: nat): (r: nat)
    requires x < m && y < m
    ensures r < m
  {
    (x + m - y) % m
  }

  lemma AddQtyTotal(t: nat, y: nat, m: nat)
    requires m > 0
    ensures AddQty(t % m, y, m) == (t + y) % m
  {
    ModShift(t % m + y, t / m, m);
    assert t % m + y + (t / m) * m == t + y;
  }

  lemma SubQtyTotal(t: nat, y: nat, m: nat)
    requires m > 0 && y < m && y <= t
    ensures SubQty(t % m, y, m) == (t - y) % m
  {
    ModShift(t - y, 1, m);
    ModShift(t % m + m - y, t / m, m);
    assert t % m + m - y + (t / m) * m == t - y + 1 * m;
  }

  lemma {:induction false} ModShift(x: nat, k: nat, m: nat)
    requires m > 0
    ensures (x + k * m) % m == x % m
  {
    if k > 0 {
      ModShift(x, k - 1, m);
      var y := x + (k - 1) * m;
      assert x + k * m == y + m;
      DivModUnique(y + m, m, y / m + 1, y % m);
    }
  }

  lemma SubAll(t: nat, y: nat, m: nat)
    requires t < m && y < m
    ensures SubQty(SubQty(t, y, m), 0, m) == SubQty(t, y, m)
  {
    var r := SubQty(t, y, m);
    DivModUnique(r + m, m, 1, r);
  }

  // ---- What the private helpers of the engine do to the arrays ----------------------------------

  /** The best rank whose level has its bit set. */
  function FirstOccupied(occ: seq<Word>, s: Side, r: nat, levels: nat): (f: nat)
    requires r <= levels <= 64 * |occ|
    ensures r <= f <= levels
    ensures f < levels ==> Occupied(occ, LevelAt(s, f, levels))
    ensures forall i :: r <= i < f ==> !Occupied(occ, LevelAt(s, i, levels))
    decreases levels - r
  {
    if r == levels then r
    else if Occupied(occ, LevelAt(s, r, levels)) then r
    else FirstOccupied(occ, s, r + 1, levels)
  }

  function BestOccupied(occ: seq<Word>, s: Side, levels: nat): int
    requires levels <= 64 * |occ|
  {
    var f := FirstOccupied(occ, s, 0, levels);
    if f == levels then NIL else LevelAt(s, f, levels)
  }

  predicate Improves(s: Side, l: int, best: int) {
    best == NIL || (if s == Buy then l > best else l < best)
  }

  function Alloc(cfg: Config, c: State, id: int): State
    requires Dims(cfg, c) && 0 <= id < cfg.capacity && 0 <= c.pool.freeHead < cfg.capacity
  {
    var i := c.pool.freeHead;
    c.(pool := c.pool.(freeHead := c.pool.nextFree[i], idToIdx := c.pool.idToIdx[id := i]))
  }

  function Release(cfg: Config, c: State, id: int): State
    requires Dims(cfg, c) && 0 <= id < cfg.capacity && 0 <= c.pool.idToIdx[id] < cfg.capacity
  {
    var i := c.pool.idToIdx[id];
    c.(pool := c.pool.(idToIdx := c.pool.idToIdx[id := NIL],
                       nextFree := c.pool.nextFree[i := c.pool.freeHead], freeHead := i))
  }

  function Fill(cfg: Config, c: State, i: int, s: Side, id: int, price: int, qty: nat): State
    requires Dims(cfg, c) && 0 <= i < cfg.capacity
  {
    c.(pool := c.pool.(orderId := c.pool.orderId[i := id], side := c.pool.side[i := s],
                       price := c.pool.price[i := price], qty := c.pool.qty[i := qty]))
  }

  /** The links of link_new_order: slot i behind the tail of level l. */
  function Appended(c: State, s: Side, l: int, i: int): State
    requires 0 <= l < |HalfOf(c, s).head| == |HalfOf(c, s).tail| && 0 <= i < |c.pool.next| == |c.pool.prev|
    requires HalfOf(c, s).tail[l] == NIL || 0 <= HalfOf(c, s).tail[l] < |c.pool.next|
  {
    var h, p, t := HalfOf(c, s), c.pool, HalfOf(c, s).tail[l];
    WithHalf(c, s, h.(head := if t == NIL then h.head[l := i] else h.head, tail := h.tail[l := i])).(
      pool := p.(next := (if t == NIL then p.next else p.next[t := i])[i := NIL], prev := p.prev[i := t]))
  }

  /** The links of unlink_order: the neighbours of slot i joined, or the ends of level l. */
  function Spliced(c: State, s: Side, l: int, i: int): State
    requires 0 <= l < |HalfOf(c, s).head| == |HalfOf(c, s).tail| && 0 <= i < |c.pool.next| == |c.pool.prev|
    requires c.pool.prev[i] == NIL || 0 <= c.pool.prev[i] < |c.pool.next|
    requires c.pool.next[i] == NIL || 0 <= c.pool.next[i] < |c.pool.next|
  {
    var h, p, before, after := HalfOf(c, s), c.pool, c.pool.prev[i], c.pool.next[i];
    WithHalf(c, s, h.(head := if before == NIL then h.head[l := after] else h.head,
                      tail := if after == NIL then h.tail[l := before] else h.tail)).(
      pool := p.(next := if before == NIL then p.next else p.next[before := after],
                 prev := if after == NIL then p.prev else p.prev[after := before]))
  }

  function WithTotal(c: State, s: Side, l: int, t: nat): State
    requires 0 <= l < |HalfOf(c, s).total|
  {
    WithHalf(c, s, HalfOf(c, s).(total := HalfOf(c, s).total[l := t]))
  }

  function WithOcc(c: State, s: Side, l: int, occupied: bool): State
    requires 0 <= l < 64 * |HalfOf(c, s).occ|
  {
    WithHalf(c, s, HalfOf(c, s).(occ := WithLevel(HalfOf(c, s).occ, l, occupied)))
  }

  function WithBest(c: State, s: Side, best: int): State {
    WithHalf(c, s, HalfOf(c, s).(best := best))
  }

  function WithQty(c: State, i: int, q: nat): State
    requires 0 <= i < |c.pool.qty|
  {
    c.(pool := c.pool.(qty := c.pool.qty[i := q]))
  }

  function LinkedHalf(cfg: Config, h: Half, s: Side, l: int, i: int, qty: nat): Half
    requires cfg.Good() && HalfDims(cfg, h) && 0 <= l < cfg.levels
  {
    h.(head := if h.tail[l] == NIL then h.head[l := i] else h.head,
       tail := h.tail[l := i],
       total := h.total[l := AddQty(h.total[l], qty, cfg.modulus)],
       occ := WithLevel(h.occ, l, true),
       best := if Improves(s, l, h.best) then l else h.best)
  }

  function Linked(cfg: Config, c: State, s: Side, l: int, i: int): State
    requires cfg.Good() && Dims(cfg, c) && 0 <= l < cfg.levels && 0 <= i < cfg.capacity
    requires HalfOf(c, s).tail[l] == NIL || 0 <= HalfOf(c, s).tail[l] < cfg.capacity
  {
    var p, t := c.pool, HalfOf(c, s).tail[l];
    WithHalf(c, s, LinkedHalf(cfg, HalfOf(c, s), s, l, i, p.qty[i])).(
      pool := p.(next := (if t == NIL then p.next else p.next[t := i])[i := NIL], prev := p.prev[i := t]))
  }

  function UnlinkedHalf(cfg: Config, h: Half, s: Side, l: int, before: int, after: int, qty: nat): Half
    requires cfg.Good() && HalfDims(cfg, h) && 0 <= l < cfg.levels && qty < cfg.modulus
  {
    var t := SubQty(h.total[l], qty, cfg.modulus);
    var occ := if t == 0 then WithLevel(h.occ, l, false) else h.occ;
    h.(head := if before == NIL then h.head[l := after] else h.head,
       tail := if after == NIL then h.tail[l := before] else h.tail,
       total := h.total[l := t],
       occ := occ,
       best := if t == 0 && h.best == l then BestOccupied(occ, s, cfg.levels) else h.best)
  }

  function Unlinked(cfg: Config, c: State, s: Side, l: int, i: int): State
    requires cfg.Good() && Dims(cfg, c) && 0 <= l < cfg.levels && 0 <= i < cfg.capacity
    requires c.pool.prev[i] == NIL || 0 <= c.pool.prev[i] < cfg.capacity
    requires c.pool.next[i] == NIL || 0 <= c.pool.next[i] < cfg.capacity
  {
    var p := c.pool;
    var before, after := p.prev[i], p.next[i];
    WithHalf(c, s, UnlinkedHalf(cfg, HalfOf(c, s), s, l, before, after, p.qty[i])).(
      pool := p.(next := if before == NIL then p.next else p.next[before := after],
                 prev := if after == NIL then p.prev else p.prev[after := before],
                 qty := p.qty[i := 0]))
  }

  /** Take t from slot i and from its level total. */
  function Reduced(cfg: Config, c: State, s: Side, l: int, i: int, t: nat): State
    requires cfg.Good() && Dims(cfg, c) && 0 <= l < cfg.levels && 0 <= i < cfg.capacity
    requires t <= c.pool.qty[i]
  {
    var h := HalfOf(c, s);
    WithHalf(c, s, h.(total := h.total[l := SubQty(h.total[l], t, cfg.modulus)])).(
      pool := c.pool.(qty := c.pool.qty[i := c.pool.qty[i] - t]))
  }
}
