/**
 * The abstract limit order book: on each side, for every price level, the FIFO
 * sequence of resting (id, quantity) entries, and what an incoming limit order
 * and a cancel do to it.
 */
module PriceTimeBook {

  datatype Side = Buy | Sell {
    function Opposite(): Side {
      if this == Buy then Sell else Buy
    }
  }

  datatype Entry = Entry(id: int, qty: nat)

  datatype Execution = Execution(takerSide: Side, takerId: int, makerSide: Side, makerId: int, price: int, qty: nat)

  type Ladder = seq<seq<Entry>>

  /** Level l of either side is the price lo + l. */
  datatype Book = Book(lo: int, bids: Ladder, asks: Ladder)

  function LadderOf(b: Book, s: Side): Ladder {
    if s == Buy then b.bids else b.asks
  }

  function WithLadder(b: Book, s: Side, l: Ladder): Book {
    if s == Buy then b.(bids := l) else b.(asks := l)
  }

  function Levels(b: Book): nat {
    |b.bids|
  }

  function Hi(b: Book): int {
    b.lo + Levels(b) - 1
  }

  /** The FIFO queue of a level; levels outside the price range hold nothing. */
  function Queue(b: Book, s: Side, l: int): seq<Entry> {
    if 0 <= l < |LadderOf(b, s)| then LadderOf(b, s)[l] else []
  }

  function WithQueue(b: Book, s: Side, l: int, q: seq<Entry>): Book
    requires 0 <= l < |LadderOf(b, s)|
  {
    WithLadder(b, s, LadderOf(b, s)[l := q])
  }

  function EmptyBook(lo: int, levels: nat): Book {
    Book(lo, seq(levels, l => []), seq(levels, l => []))
  }

  function Min(x: nat, y: nat): nat {
    if x < y then x else y
  }

  // ---- Well-formed books ---------------------------------------------------------

  predicate HasId(q: seq<Entry>, id: int) {
    exists k :: 0 <= k < |q| && q[k].id == id
  }

  predicate DistinctIds(q: seq<Entry>) {
    forall i, j :: 0 <= i < j < |q| ==> q[i].id != q[j].id
  }

  predicate AllPositive(q: seq<Entry>) {
    forall k :: 0 <= k < |q| ==> q[k].qty > 0
  }

  ghost predicate Resting(b: Book, id: int) {
    exists s: Side, l: int :: HasId(Queue(b, s, l), id)
  }

  ghost predicate UniqueIds(b: Book) {
    && (forall s: Side, l: int :: DistinctIds(Queue(b, s, l)))
    && (forall id: int, s: Side, l: int, s': Side, l': int ::
          HasId(Queue(b, s, l), id) && HasId(Queue(b, s', l'), id) ==> s == s' && l == l')
  }

  /** Both sides have the same levels, and every resting quantity is positive. */
  ghost predicate Positive(b: Book) {
    && |b.bids| == |b.asks|
    && (forall s: Side, l: int :: AllPositive(Queue(b, s, l)))
  }

  ghost predicate WellFormed(b: Book) {
    Positive(b) && UniqueIds(b)
  }

  /** Every resting bid is below every resting ask. */
  ghost predicate Uncrossed(b: Book) {
    forall i: int, j: int :: Queue(b, Buy, i) != [] && Queue(b, Sell, j) != [] ==> i < j
  }

  // ---- Quantities ---------------------------------------------------------------------

  function Total(q: seq<Entry>): nat {
    if q == [] then 0 else q[0].qty + Total(q[1..])
  }

  lemma TotalCons(e: Entry, q: seq<Entry>)
    ensures Total([e] + q) == e.qty + Total(q)
  {
    assert ([e] + q)[1..] == q;
  }

  lemma {:induction false} TotalConcat(p: seq<Entry>, q: seq<Entry>)
    ensures Total(p + q) == Total(p) + Total(q)
  {
    if p == [] {
      assert p + q == q;
    } else {
      assert (p + q)[1..] == p[1..] + q;
      TotalConcat(p[1..], q);
    }
  }

  // ---- Best price -------------------------------------------------------------------

  /**
   * Rank 0 is the best price of a side: the highest bid level, the lowest ask level. The
   * function is its own inverse: given a level it gives the rank.
   */
  function LevelAt(s: Side, rank: int, levels: nat): int {
    if s == Buy then levels - 1 - rank else rank
  }

  /** The first rank from r on whose level is non-empty, or the number of levels. */
  function FirstRank(b: Book, s: Side, r: nat): (f: nat)
    requires r <= Levels(b)
    ensures r <= f <= Levels(b)
    ensures f < Levels(b) ==> Queue(b, s, LevelAt(s, f, Levels(b))) != []
    ensures forall i :: r <= i < f ==> Queue(b, s, LevelAt(s, i, Levels(b))) == []
    decreases Levels(b) - r
  {
    if r == Levels(b) then r
    else if Queue(b, s, LevelAt(s, r, Levels(b))) != [] then r
    else FirstRank(b, s, r + 1)
  }

  /** The best non-empty level of a side, or -1. */
  function Best(b: Book, s: Side): int {
    var f := FirstRank(b, s, 0);
    if f == Levels(b) then -1 else LevelAt(s, f, Levels(b))
  }

  predicate AtLeastAsGood(s: Side, l: int, l': int) {
    if s == Buy then l >= l' else l <= l'
  }

  /** `Best` is the maximum non-empty bid level, the minimum non-empty ask level. */
  lemma BestIsBest(b: Book, s: Side)
    requires |b.bids| == |b.asks|
    ensures Best(b, s) == -1 <==> forall l: int :: Queue(b, s, l) == []
    ensures Best(b, s) != -1 ==> 0 <= Best(b, s) < Levels(b) && Queue(b, s, Best(b, s)) != []
    ensures forall l: int :: Queue(b, s, l) != [] ==> AtLeastAsGood(s, Best(b, s), l)
  {
    var n, f := Levels(b), FirstRank(b, s, 0);
    forall l: int | Queue(b, s, l) != []
      ensures Best(b, s) != -1 && AtLeastAsGood(s, Best(b, s), l)
    {
      var i := if s == Buy then n - 1 - l else l;
      assert LevelAt(s, i, n) == l;
      assert i >= f;
    }
  }

  lemma BestUnique(b: Book, s: Side, l: int)
    requires |b.bids| == |b.asks|
    requires l == -1 ==> forall x: int :: Queue(b, s, x) == []
    requires l != -1 ==> Queue(b, s, l) != [] && forall x: int :: Queue(b, s, x) != [] ==> AtLeastAsGood(s, l, x)
    ensures l == Best(b, s)
  {
    BestIsBest(b, s);
  }

  // ---- Matching -----------------------------------------------------------------------

  /** A taker with this limit accepts this maker price. */
  predicate Crosses(taker: Side, limit: int, price: int) {
    if taker == Buy then price <= limit else price >= limit
  }

  /** Take t from the oldest entry of a level; a filled entry leaves the queue. */
  function Consume(b: Book, s: Side, l: int, t: nat): Book
    requires Queue(b, s, l) != [] && t <= Queue(b, s, l)[0].qty
  {
    var q := Queue(b, s, l);
    WithQueue(b, s, l, if t == q[0].qty then q[1..] else [q[0].(qty := q[0].qty - t)] + q[1..])
  }

  datatype Matched = Matched(book: Book, execs: seq<Execution>, rest: nat)

  ghost function Match(b: Book, side: Side, limit: int, qty: nat, id: int): Matched
    requires Positive(b)
    decreases qty
  {
    var maker := side.Opposite();
    var l := Best(b, maker);
    if qty == 0 || l == -1 || !Crosses(side, limit, b.lo + l) then Matched(b, [], qty)
    else
      BestIsBest(b, maker);
      var e := Queue(b, maker, l)[0];
      var t := Min(qty, e.qty);
      assert AllPositive(Queue(b, maker, l));
      ConsumePositive(b, maker, l, t);
      var m := Match(Consume(b, maker, l, t), side, limit, qty - t, id);
      Matched(m.book, [Execution(side, id, maker, e.id, b.lo + l, t)] + m.execs, m.rest)
  }

  lemma ConsumePositive(b: Book, s: Side, l: int, t: nat)
    requires Positive(b) && Queue(b, s, l) != [] && t <= Queue(b, s, l)[0].qty
    ensures var c := Consume(b, s, l, t);
      Positive(c) && |c.bids| == |b.bids| && c.lo == b.lo
  {
    var c := Consume(b, s, l, t);
    forall s': Side, l': int ensures AllPositive(Queue(c, s', l')) {
      assert AllPositive(Queue(b, s', l'));
    }
  }

  lemma ConsumeOther(b: Book, s: Side, l: int, t: nat, s': Side)
    requires Queue(b, s, l) != [] && t <= Queue(b, s, l)[0].qty && s' != s
    ensures LadderOf(Consume(b, s, l, t), s') == LadderOf(b, s')
  {}

  predicate MatchEnds(b: Book, side: Side, limit: int, qty: nat) {
    var l := Best(b, side.Opposite());
    qty == 0 || l == -1 || !Crosses(side, limit, b.lo + l)
  }

  lemma HeadOfBest(b: Book, s: Side)
    requires Positive(b) && Best(b, s) != -1
    ensures var l := Best(b, s);
      0 <= l < Levels(b) && Queue(b, s, l) != [] && Queue(b, s, l)[0].qty > 0
  {
    BestIsBest(b, s);
    assert AllPositive(Queue(b, s, Best(b, s)));
  }

  /** One unfolding of the matching specification. */
  lemma MatchUnfolds(b: Book, side: Side, limit: int, qty: nat, id: int)
    requires Positive(b)
    ensures MatchEnds(b, side, limit, qty) ==> Match(b, side, limit, qty, id) == Matched(b, [], qty)
    ensures var maker, l := side.Opposite(), Best(b, side.Opposite());
      !MatchEnds(b, side, limit, qty) ==>
        && qty > 0 && 0 <= l < Levels(b) && Queue(b, maker, l) != [] && Queue(b, maker, l)[0].qty > 0
        && var t := Min(qty, Queue(b, maker, l)[0].qty);
        && 0 < t <= qty && t <= Queue(b, maker, l)[0].qty && Positive(Consume(b, maker, l, t))
        && Consume(b, maker, l, t).lo == b.lo && Levels(Consume(b, maker, l, t)) == Levels(b)
        && var m := Match(Consume(b, maker, l, t), side, limit, qty - t, id);
        && Match(b, side, limit, qty, id)
           == Matched(m.book, [Execution(side, id, maker, Queue(b, maker, l)[0].id, b.lo + l, t)] + m.execs, m.rest)
        && (t == qty ==> m.execs == [])
  {
    hide Best, Consume, Crosses, LadderOf, Positive, Queue;
    var maker, l := side.Opposite(), Best(b, side.Opposite());
    if !MatchEnds(b, side, limit, qty) {
      HeadOfBest(b, maker);
      ConsumePositive(b, maker, l, Min(qty, Queue(b, maker, l)[0].qty));
    }
  }

  lemma {:induction false} MatchShape(b: Book, side: Side, limit: int, qty: nat, id: int)
    requires Positive(b)
    ensures var m := Match(b, side, limit, qty, id).book;
      Positive(m) && m.lo == b.lo && |m.bids| == |b.bids| && LadderOf(m, side) == LadderOf(b, side)
    decreases qty
  {
    hide Best, Consume, LadderOf, Levels, Match, MatchEnds, Min, Positive, Queue;
    MatchUnfolds(b, side, limit, qty, id);
    if !MatchEnds(b, side, limit, qty) {
      var maker, l := side.Opposite(), Best(b, side.Opposite());
      var t := Min(qty, Queue(b, maker, l)[0].qty);
      ConsumePositive(b, maker, l, t);
      ConsumeOther(b, maker, l, t, side);
      MatchShape(Consume(b, maker, l, t), side, limit, qty - t, id);
    }
  }

  // ---- The engine's public operations on the abstract book -----------------------------

  datatype Outcome = Outcome(accepted: bool, book: Book, execs: seq<Execution>)

  predicate GoodArguments(b: Book, capacity: nat, price: int, qty: nat, id: int) {
    qty > 0 && b.lo <= price <= Hi(b) && 0 <= id < capacity
  }

  function Rest(b: Book, s: Side, l: int, e: Entry): Book
    requires 0 <= l < |LadderOf(b, s)|
  {
    WithQueue(b, s, l, Queue(b, s, l) + [e])
  }

  ghost function Process(b: Book, capacity: nat, side: Side, price: int, qty: nat, id: int): Outcome
    requires WellFormed(b)
  {
    if !GoodArguments(b, capacity, price, qty, id) then Outcome(false, b, [])
    else
      MatchShape(b, side, price, qty, id);
      var m := Match(b, side, price, qty, id);
      if m.rest == 0 then Outcome(true, m.book, m.execs)
      else if Resting(m.book, id) then Outcome(false, m.book, m.execs)
      else Outcome(true, Rest(m.book, side, price - b.lo, Entry(id, m.rest)), m.execs)
  }

  function Without(q: seq<Entry>, id: int): seq<Entry> {
    if q == [] then []
    else if q[0].id == id then Without(q[1..], id)
    else [q[0]] + Without(q[1..], id)
  }

  function WithoutAll(l: Ladder, id: int): Ladder {
    seq(|l|, i requires 0 <= i < |l| => Without(l[i], id))
  }

  /** The book with one id withdrawn. */
  function Remove(b: Book, id: int): Book {
    Book(b.lo, WithoutAll(b.bids, id), WithoutAll(b.asks, id))
  }

  /** Books with the same queues are the same book. */
  lemma BooksEqual(b: Book, b': Book)
    requires b.lo == b'.lo && |b.bids| == |b'.bids| && |b.asks| == |b'.asks|
    requires forall s: Side, l: int :: Queue(b, s, l) == Queue(b', s, l)
    ensures b == b'
  {
    forall l | 0 <= l < |b.bids| ensures b.bids[l] == b'.bids[l] {
      assert Queue(b, Buy, l) == Queue(b', Buy, l);
    }
    forall l | 0 <= l < |b.asks| ensures b.asks[l] == b'.asks[l] {
      assert Queue(b, Sell, l) == Queue(b', Sell, l);
    }
  }
}
