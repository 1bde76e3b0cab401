/**
 * The matching engine: index arrays holding intrusive FIFO queues per price
 * level, a free list, an id index, an occupancy bitset and cached best levels,
 * updated in place and proved against the abstract book and what the index shows of
 * it, at every width of QtyT and in every state the operations can reach.
 */
module Engine {
  import opened Wrappers
  import opened Bits
  import opened PriceTimeBook
  import opened BookLaws
  import opened IndexedBook
  import opened EngineState
  import opened EngineSteps
  import opened EngineFacts

  class BookSide {
    const head: array<int>
    const tail: array<int>
    const levelQty: array<nat>
    const occ: array<Word>

    ghost function Snapshot(best: int): Half
      reads head, tail, levelQty, occ
    {
      Half(head[..], tail[..], levelQty[..], occ[..], best)
    }

    ghost predicate Sized(levels: nat) {
      head.Length == tail.Length == levelQty.Length == levels && occ.Length == WordCount(levels) && head != tail
    }

    constructor (levels: nat, ghost tag: map<object, nat>)
      ensures Sized(levels) && fresh(head) && fresh(tail) && fresh(levelQty) && fresh(occ)
      ensures head !in tag && tail !in tag && levelQty !in tag && occ !in tag
    {
      head := new int[levels](l => NIL);
      tail := new int[levels](l => NIL);
      levelQty := new nat[levels](l => 0);
      occ := new Word[WordCount(levels)](w => 0);
    }

    method Reset(levels: nat)
      requires Sized(levels)
      modifies head, tail, levelQty, occ
      ensures ResetHalf(levels, Snapshot(NIL))
    {
      forall l | 0 <= l < head.Length {
        head[l] := NIL;
      }
      forall l | 0 <= l < tail.Length {
        tail[l] := NIL;
      }
      forall l | 0 <= l < levelQty.Length {
        levelQty[l] := 0;
      }
      forall w | 0 <= w < occ.Length {
        occ[w] := 0;
      }
    }
  }

  /*
   * The engine owns sixteen arrays. A `Repr` set would need a disequality for every pair
   * of them; numbering the arrays instead gives one fact per array, from which every
   * pair is known to be distinct. `Arrays()`, the numbered arrays, plays the role of
   * `Repr` in the frames below.
   */

  /** A numbering that keeps the old numbers and gives o the number k. */
  ghost predicate Extends(tag: map<object, nat>, tag': map<object, nat>, o: object, k: nat) {
    o in tag' && tag'[o] == k && forall x :: x in tag ==> x in tag' && tag'[x] == tag[x]
  }

  /** A new array, numbered k in a ghost numbering that keeps arrays apart. */
  method Allocate<T>(n: nat, x: T, ghost tag: map<object, nat>, ghost k: nat)
    returns (a: array<T>, ghost tag': map<object, nat>)
    ensures fresh(a) && a.Length == n && Extends(tag, tag', a, k) && fresh(tag'.Keys - tag.Keys)
  {
    a := new T[n](i => x);
    tag' := tag[a := k];
  }

  /** The four arrays of a side, numbered from k. */
  lemma SideTags(side: BookSide, levels: nat, k: nat, tag: map<object, nat>) returns (tag': map<object, nat>)
    requires side.Sized(levels)
    requires side.head !in tag && side.tail !in tag && side.levelQty !in tag && side.occ !in tag
    ensures Extends(tag, tag', side.head, k) && Extends(tag, tag', side.tail, k + 1)
    ensures Extends(tag, tag', side.levelQty, k + 2) && Extends(tag, tag', side.occ, k + 3)
    ensures tag'.Keys == tag.Keys + {side.head as object, side.tail, side.levelQty, side.occ}
  {
    tag' := tag[side.head := k];
    tag' := tag'[side.tail := k + 1];
    tag' := tag'[side.levelQty := k + 2];
    tag' := tag'[side.occ := k + 3];
  }

  method NewSides(levels: nat, ghost tag: map<object, nat>)
    returns (b: BookSide, a: BookSide, ghost tag': map<object, nat>)
    ensures b.Sized(levels) && a.Sized(levels) && fresh(tag'.Keys - tag.Keys)
    ensures Extends(tag, tag', b.head, 0) && Extends(tag, tag', b.tail, 1)
    ensures Extends(tag, tag', b.levelQty, 2) && Extends(tag, tag', b.occ, 3)
    ensures Extends(tag, tag', a.head, 4) && Extends(tag, tag', a.tail, 5)
    ensures Extends(tag, tag', a.levelQty, 6) && Extends(tag, tag', a.occ, 7)
  {
    b := new BookSide(levels, tag);
    ghost var t := SideTags(b, levels, 0, tag);
    a := new BookSide(levels, t);
    tag' := SideTags(a, levels, 4, t);
  }

  method NewLinks(n: nat, ghost tag: map<object, nat>)
    returns (next: array<int>, prev: array<int>, nextFree: array<int>, idToIdx: array<int>,
             ghost tag': map<object, nat>)
    ensures next.Length == prev.Length == nextFree.Length == idToIdx.Length == n && fresh(tag'.Keys - tag.Keys)
    ensures Extends(tag, tag', next, 8) && Extends(tag, tag', prev, 9)
    ensures Extends(tag, tag', nextFree, 10) && Extends(tag, tag', idToIdx, 11)
  {
    next, tag' := Allocate(n, NIL, tag, 8);
    prev, tag' := Allocate(n, NIL, tag', 9);
    nextFree, tag' := Allocate(n, NIL, tag', 10);
    idToIdx, tag' := Allocate(n, NIL, tag', 11);
  }

  method NewOrders(n: nat, ghost tag: map<object, nat>)
    returns (id: array<int>, price: array<int>, qty: array<nat>, side: array<Side>, ghost tag': map<object, nat>)
    ensures id.Length == price.Length == qty.Length == side.Length == n && fresh(tag'.Keys - tag.Keys)
    ensures Extends(tag, tag', id, 12) && Extends(tag, tag', price, 13)
    ensures Extends(tag, tag', qty, 14) && Extends(tag, tag', side, 15)
  {
    id, tag' := Allocate(n, 0, tag, 12);
    price, tag' := Allocate(n, 0, tag', 13);
    qty, tag' := Allocate<nat>(n, 0, tag', 14);
    side, tag' := Allocate(n, Buy, tag', 15);
  }

  ghost predicate Numbered(tag: map<object, nat>, o: object, k: nat) {
    o in tag && tag[o] == k
  }

  /** All sixteen arrays of an engine, numbered from 0. */
  method NewArrays(levels: nat, n: nat)
    returns (b: BookSide, a: BookSide, next: array<int>, prev: array<int>, nextFree: array<int>, idToIdx: array<int>,
             id: array<int>, price: array<int>, qty: array<nat>, side: array<Side>, ghost tag: map<object, nat>)
    ensures b.Sized(levels) && a.Sized(levels) && fresh(tag.Keys)
    ensures next.Length == prev.Length == nextFree.Length == idToIdx.Length == n
    ensures id.Length == price.Length == qty.Length == side.Length == n
    ensures Numbered(tag, b.head, 0) && Numbered(tag, b.tail, 1)
    ensures Numbered(tag, b.levelQty, 2) && Numbered(tag, b.occ, 3)
    ensures Numbered(tag, a.head, 4) && Numbered(tag, a.tail, 5)
    ensures Numbered(tag, a.levelQty, 6) && Numbered(tag, a.occ, 7)
    ensures Numbered(tag, next, 8) && Numbered(tag, prev, 9)
    ensures Numbered(tag, nextFree, 10) && Numbered(tag, idToIdx, 11)
    ensures Numbered(tag, id, 12) && Numbered(tag, price, 13)
    ensures Numbered(tag, qty, 14) && Numbered(tag, side, 15)
  {
    hide BookSide.Sized;
    ghost var t: map<object, nat> := map[];
    b, a, t := NewSides(levels, t);
    assert fresh(t.Keys);
    next, prev, nextFree, idToIdx, t := NewLinks(n, t);
    assert fresh(t.Keys);
    id, price, qty, side, t := NewOrders(n, t);
    tag := t;
  }

  class LimitOrderBook {
    const priceLo: int
    const levels: nat
    const maxOrders: nat
    const qtyModulus: nat

    const bids: BookSide
    const asks: BookSide
    var bestBid: int
    var bestAsk: int

    const next: array<int>
    const prev: array<int>
    const orderId: array<int>
    const orderPrice: array<int>
    const orderQty: array<nat>
    const orderSide: array<Side>

    var freeHead: int
    const nextFree: array<int>
    const idToIdx: array<int>

    ghost var layout: Layout
    ghost var book: Book
    ghost var shown: Book

    ghost const tag: map<object, nat>

    ghost function TheView(): View
      reads this
    {
      View(book, shown)
    }

    ghost function Cfg(): Config {
      Config(priceLo, levels, maxOrders, qtyModulus)
    }

    function SideArrays(s: Side): BookSide {
      if s == Buy then bids else asks
    }

    ghost predicate Tagged(o: object, n: nat) {
      Numbered(tag, o, n)
    }

    /** No two members share an array. */
    ghost predicate Apart() {
      && Tagged(bids.head, 0) && Tagged(bids.tail, 1) && Tagged(bids.levelQty, 2) && Tagged(bids.occ, 3)
      && Tagged(asks.head, 4) && Tagged(asks.tail, 5) && Tagged(asks.levelQty, 6) && Tagged(asks.occ, 7)
      && Tagged(next, 8) && Tagged(prev, 9) && Tagged(nextFree, 10) && Tagged(idToIdx, 11)
      && Tagged(orderId, 12) && Tagged(orderPrice, 13) && Tagged(orderQty, 14) && Tagged(orderSide, 15)
    }

    ghost function Arrays(): set<object> {
      tag.Keys
    }

    ghost function Snapshot(): State
      reads this`bestBid, this`bestAsk, this`freeHead
      reads bids.head, bids.tail, bids.levelQty, bids.occ, asks.head, asks.tail, asks.levelQty, asks.occ
      reads next, prev, orderId, orderPrice, orderQty, orderSide, nextFree, idToIdx
    {
      State(bids.Snapshot(bestBid), asks.Snapshot(bestAsk),
            Pool(next[..], prev[..], orderId[..], orderPrice[..], orderQty[..], orderSide[..],
                 freeHead, nextFree[..], idToIdx[..]))
    }

    /** The arrays are distinct and have the sizes the template parameters give them. */
    ghost predicate Shape() {
      && Apart() && Cfg().Good() && bids.Sized(levels) && asks.Sized(levels)
      && next.Length == prev.Length == orderId.Length == orderPrice.Length == orderQty.Length == maxOrders
      && orderSide.Length == nextFree.Length == idToIdx.Length == maxOrders
    }

    /** The arrays encode the layout and the book, and the index agrees with what is shown of it. */
    ghost predicate Valid()
      reads this, Arrays()
    {
      Shape() && Indexed(Cfg(), Snapshot(), layout, TheView())
    }

    lemma ValidParts()
      requires Valid()
      ensures Shape() && Indexed(Cfg(), Snapshot(), layout, TheView())
    {
      hide *;
      ValidIs();
    }

    lemma ValidWhole()
      requires Shape() && Indexed(Cfg(), Snapshot(), layout, TheView())
      ensures Valid()
    {
      hide *;
      ValidIs();
    }

    lemma ValidIs()
      ensures Valid() <==> Shape() && Indexed(Cfg(), Snapshot(), layout, TheView())
    {
      hide Shape, Indexed, Cfg, Snapshot, TheView;
    }

    /** Record the layout and the view that the arrays now encode. */
    ghost method Adopt(g: Layout, v: View)
      requires Shape() && EngineState.Indexed(Cfg(), Snapshot(), g, v)
      modifies this`layout, this`book, this`shown
      ensures Valid() && TheView() == v && layout == g
    {
      hide Cfg, Shape, Indexed, Snapshot, Valid;
      layout, book, shown := g, v.book, v.shown;
      ValidWhole();
    }

    constructor (priceLo: int, levels: nat, maxOrders: nat, qtyModulus: nat)
      requires Config(priceLo, levels, maxOrders, qtyModulus).Good()
      ensures Cfg() == Config(priceLo, levels, maxOrders, qtyModulus)
      ensures fresh(Arrays()) && Valid() && book == shown == EmptyBook(priceLo, levels)
    {
      hide BookSide.Sized, BookSide.Snapshot, Config.Good, EmptyBook, Indexed, ResetHalf, Shape, Snapshot;
      hide Valid;
      this.priceLo, this.levels, this.maxOrders, this.qtyModulus := priceLo, levels, maxOrders, qtyModulus;
      hide Numbered;
      var b, a, n, p, nf, ix, id, px, q, s, t := NewArrays(levels, maxOrders);
      bids, asks, next, prev, orderId, orderPrice := b, a, n, p, id, px;
      orderQty, orderSide, nextFree, idToIdx, tag := q, s, nf, ix, t;
      new;
      ShapeBuilt();
      Reset();
    }

    lemma ShapeBuilt()
      requires Apart() && Cfg().Good() && bids.Sized(levels) && asks.Sized(levels)
      requires next.Length == prev.Length == orderId.Length == orderPrice.Length == orderQty.Length == maxOrders
      requires orderSide.Length == nextFree.Length == idToIdx.Length == maxOrders
      ensures Shape()
    {
      hide Apart, Config.Good, BookSide.Sized;
    }

    method Reset()
      requires Shape()
      modifies this, Arrays()
      ensures Valid() && book == shown == EmptyBook(priceLo, levels)
    {
      hide Arrays, BookSide.Sized, BookSide.Snapshot, Cfg, EmptyBook, EmptyLayout, FreeListIsReset, Indexed;
      hide ResetHalf, Shape, Snapshot, Valid;
      InArrays();
      ResetSides();
      bestBid := NIL;
      bestAsk := NIL;
      ResetFreeList();
      ResetLinks();
      ResetFacts();
      Adopt(EmptyLayout(Cfg()), EmptyView(priceLo, levels));
    }

    lemma InArrays()
      requires Shape()
      ensures {bids.head as object, bids.tail, bids.levelQty, bids.occ} <= Arrays()
      ensures {asks.head as object, asks.tail, asks.levelQty, asks.occ} <= Arrays()
      ensures {next as object, prev, orderId, orderPrice, orderQty, orderSide, nextFree, idToIdx} <= Arrays()
    {}

    method ResetSides()
      requires Shape()
      modifies bids.head, bids.tail, bids.levelQty, bids.occ, asks.head, asks.tail, asks.levelQty, asks.occ
      ensures ResetHalf(levels, bids.Snapshot(NIL)) && ResetHalf(levels, asks.Snapshot(NIL))
    {
      hide Arrays, BookSide.Sized, BookSide.Snapshot, Cfg, Config.Good, EmptyBook, ResetHalf, Snapshot;
      hide Valid;
      bids.Reset(levels);
      asks.Reset(levels);
    }

    /** The free list and the id index share no array with the sides. */
    lemma FreeListApart()
      requires Shape()
      ensures nextFree != idToIdx && nextFree.Length == idToIdx.Length == maxOrders
      ensures {bids.head as object, bids.tail, bids.levelQty, bids.occ} !! {nextFree as object, idToIdx}
      ensures {asks.head as object, asks.tail, asks.levelQty, asks.occ} !! {nextFree as object, idToIdx}
    {}

    lemma FreeListDone()
      requires Shape() && freeHead == 0 && nextFree.Length == idToIdx.Length == maxOrders
      requires forall i :: 0 <= i < maxOrders ==> nextFree[i] == (if i + 1 < maxOrders then i + 1 else NIL)
      requires forall i :: 0 <= i < maxOrders ==> idToIdx[i] == NIL
      ensures FreeListIsReset()
    {}

    /** The loop of reset: every slot free, in order, and no id active. */
    method ResetFreeList()
      requires Shape()
      modifies this`freeHead, nextFree, idToIdx
      ensures FreeListIsReset()
      ensures bids.Snapshot(NIL) == old(bids.Snapshot(NIL)) && asks.Snapshot(NIL) == old(asks.Snapshot(NIL))
    {
      hide *;
      FreeListApart();
      freeHead := 0;
      for i := 0 to maxOrders
        invariant freeHead == 0
        invariant forall j :: 0 <= j < i ==> nextFree[j] == (if j + 1 < maxOrders then j + 1 else NIL)
        invariant forall j :: 0 <= j < i ==> idToIdx[j] == NIL
        invariant bids.Snapshot(NIL) == old(bids.Snapshot(NIL)) && asks.Snapshot(NIL) == old(asks.Snapshot(NIL))
      {
        nextFree[i] := if i + 1 < maxOrders then i + 1 else NIL;
        idToIdx[i] := NIL;
      }
      FreeListDone();
    }

    method ResetLinks()
      requires Shape() && FreeListIsReset()
      modifies next, prev, orderQty
      ensures FreeListIsReset() && forall i :: 0 <= i < maxOrders ==> orderQty[i] == 0
      ensures bids.Snapshot(NIL) == old(bids.Snapshot(NIL)) && asks.Snapshot(NIL) == old(asks.Snapshot(NIL))
    {
      hide BookSide.Sized, Cfg, Config.Good, FreeListIsReset;
      forall i | 0 <= i < next.Length {
        next[i] := NIL;
      }
      forall i | 0 <= i < prev.Length {
        prev[i] := NIL;
      }
      forall i | 0 <= i < orderQty.Length {
        orderQty[i] := 0;
      }
    }

    ghost predicate FreeListIsReset()
      requires Shape()
      reads this`freeHead, nextFree, idToIdx
    {
      && freeHead == 0
      && (forall i :: 0 <= i < maxOrders ==> nextFree[i] == (if i + 1 < maxOrders then i + 1 else NIL))
      && (forall i :: 0 <= i < maxOrders ==> idToIdx[i] == NIL)
    }

    /** The state that reset leaves is the empty book. */
    lemma ResetFacts()
      requires Shape() && ResetHalf(levels, bids.Snapshot(NIL)) && ResetHalf(levels, asks.Snapshot(NIL))
      requires bestBid == NIL && bestAsk == NIL && FreeListIsReset()
      requires forall i :: 0 <= i < maxOrders ==> orderQty[i] == 0
      ensures Indexed(Cfg(), Snapshot(), EmptyLayout(Cfg()), EmptyView(priceLo, levels))
    {
      hide Indexed, EmptyLayout, EmptyBook, ResetHalf, Tagged;
      ResetIsIndexed(Cfg(), Snapshot());
    }

    // ---- Private helpers ------------------------------------------------------------------

    method SetOccupied(side: BookSide, level: nat, occupied: bool, ghost s: Side)
      requires Shape() && side == SideArrays(s) && level < levels
      modifies side.occ
      ensures level < 64 * |HalfOf(old(Snapshot()), s).occ|
        && Snapshot() == WithOcc(old(Snapshot()), s, level, occupied)
    {
      hide Cfg, ClearBit, Config.Good, SetBit;
      var w := level / 64;
      if occupied {
        side.occ[w] := SetBit(side.occ[w], level % 64);
      } else {
        side.occ[w] := ClearBit(side.occ[w], level % 64);
      }
    }

    method SetTotal(side: BookSide, level: nat, t: nat, ghost s: Side)
      requires Shape() && side == SideArrays(s) && level < levels
      modifies side.levelQty
      ensures level < |HalfOf(old(Snapshot()), s).total| && Snapshot() == WithTotal(old(Snapshot()), s, level, t)
    {
      hide Cfg, Config.Good, WordCount;
      side.levelQty[level] := t;
    }

    method SetQty(idx: int, q: nat)
      requires Shape() && 0 <= idx < maxOrders
      modifies orderQty
      ensures |old(Snapshot()).pool.qty| == maxOrders && Snapshot() == WithQty(old(Snapshot()), idx, q)
    {
      hide Cfg, Config.Good, WordCount;
      orderQty[idx] := q;
    }

    /** The highest occupied bid level. */
    method FindBestBid() returns (best: int)
      requires levels > 1 && bids.occ.Length == WordCount(levels) && NoStrayBits(bids.occ[..], levels)
      ensures best == BestOccupied(bids.occ[..], Buy, levels)
    {
      hide BestOccupied, Bit, CountlZero, NoStrayBits, Occupied, Pow2;
      if levels <= 64 {
        if bids.occ[0] == 0 {
          NoneOccupied(bids.occ[..], Buy, levels);
          return NIL;
        }
        HighestInWord(bids.occ[..], 0, levels);
        return 63 - CountlZero(bids.occ[0]);
      }
      var w := bids.occ.Length - 1;
      while w >= 0
        invariant -1 <= w < bids.occ.Length
        invariant forall v :: w < v < bids.occ.Length ==> bids.occ[v] == 0
      {
        var x := bids.occ[w];
        if x != 0 {
          var msb := 63 - CountlZero(x);
          var level := w * 64 + msb;
          HighestInWord(bids.occ[..], w, levels);
          if level < levels {
            return level;
          }
        }
        w := w - 1;
      }
      NoneOccupied(bids.occ[..], Buy, levels);
      return NIL;
    }

    /** The lowest occupied ask level. */
    method FindBestAsk() returns (best: int)
      requires levels > 1 && asks.occ.Length == WordCount(levels) && NoStrayBits(asks.occ[..], levels)
      ensures best == BestOccupied(asks.occ[..], Sell, levels)
    {
      hide BestOccupied, Bit, CountrZero, NoStrayBits, Occupied, Pow2;
      if levels <= 64 {
        if asks.occ[0] == 0 {
          NoneOccupied(asks.occ[..], Sell, levels);
          return NIL;
        }
        LowestInWord(asks.occ[..], 0, levels);
        return CountrZero(asks.occ[0]);
      }
      var w := 0;
      while w < asks.occ.Length
        invariant 0 <= w <= asks.occ.Length
        invariant forall v :: 0 <= v < w ==> asks.occ[v] == 0
      {
        var x := asks.occ[w];
        if x != 0 {
          var level := w * 64 + CountrZero(x);
          LowestInWord(asks.occ[..], w, levels);
          if level < levels {
            return level;
          }
        }
        w := w + 1;
      }
      NoneOccupied(asks.occ[..], Sell, levels);
      return NIL;
    }

    method AllocOrder(id: int) returns (idx: int)
      requires Shape() && (freeHead == NIL || 0 <= freeHead < maxOrders) && Dims(Cfg(), Snapshot())
      modifies this`freeHead, idToIdx
      ensures Cfg() == Config(priceLo, levels, maxOrders, qtyModulus)
      ensures idx == NIL <==> !(0 <= id < maxOrders) || old(idToIdx[..])[id] != NIL || old(freeHead) == NIL
      ensures idx == NIL ==> Snapshot() == old(Snapshot())
      ensures idx != NIL ==> idx == old(freeHead) && Snapshot() == Alloc(Cfg(), old(Snapshot()), id)
    {
      hide Config.Good, Dims, WordCount;
      if id < 0 || id >= maxOrders {
        return NIL;
      }
      if idToIdx[id] != NIL {
        return NIL;
      }
      if freeHead == NIL {
        return NIL;
      }
      idx := freeHead;
      freeHead := nextFree[idx];
      idToIdx[id] := idx;
    }

    method FreeOrder(id: int)
      requires Shape() && Dims(Cfg(), Snapshot()) && (0 <= id < maxOrders ==> -1 <= idToIdx[id] < maxOrders)
      modifies this`freeHead, idToIdx, nextFree
      ensures Cfg() == Config(priceLo, levels, maxOrders, qtyModulus)
      ensures if 0 <= id < maxOrders && old(idToIdx[..])[id] != NIL
              then Snapshot() == Release(Cfg(), old(Snapshot()), id)
              else Snapshot() == old(Snapshot())
    {
      hide Config.Good, Dims, WordCount;
      if id < 0 || id >= maxOrders {
        return;
      }
      var idx := idToIdx[id];
      if idx == NIL {
        return;
      }
      idToIdx[id] := NIL;
      nextFree[idx] := freeHead;
      freeHead := idx;
    }

    /** The links of link_new_order: put a slot behind the tail of a level. */
    method LinkBehind(head: array<int>, tail: array<int>, level: int, idx: int)
      requires head != tail && head != next && head != prev && tail != next && tail != prev && next != prev
      requires 0 <= level < head.Length == tail.Length && 0 <= idx < next.Length == prev.Length
      requires tail[level] == NIL || 0 <= tail[level] < next.Length
      modifies next, prev, head, tail
      ensures var t := old(tail[level]);
        && head[..] == (if t == NIL then old(head[..])[level := idx] else old(head[..]))
        && tail[..] == old(tail[..])[level := idx]
        && next[..] == (if t == NIL then old(next[..]) else old(next[..])[t := idx])[idx := NIL]
        && prev[..] == old(prev[..])[idx := t]
    {
      var t := tail[level];
      if t == NIL {
        head[level] := idx;
        tail[level] := idx;
        prev[idx] := NIL;
        next[idx] := NIL;
      } else {
        next[t] := idx;
        prev[idx] := t;
        next[idx] := NIL;
        tail[level] := idx;
      }
    }

    method Append(side: BookSide, level: int, idx: int, ghost s: Side)
      requires Shape() && side == SideArrays(s) && 0 <= level < levels && 0 <= idx < maxOrders
      requires side.tail[level] == NIL || 0 <= side.tail[level] < maxOrders
      modifies next, prev, side.head, side.tail
      ensures 0 <= level < |HalfOf(old(Snapshot()), s).head| == |HalfOf(old(Snapshot()), s).tail|
      ensures 0 <= idx < |old(Snapshot()).pool.next| == |old(Snapshot()).pool.prev|
      ensures var t := HalfOf(old(Snapshot()), s).tail[level]; t == NIL || 0 <= t < |old(Snapshot()).pool.next|
      ensures Snapshot() == Appended(old(Snapshot()), s, level, idx)
    {
      hide Cfg, Config.Good, WordCount;
      LinkBehind(side.head, side.tail, level, idx);
    }

    /** The links of unlink_order: join the neighbours of a slot, or the ends of its level. */
    method JoinNeighbours(head: array<int>, tail: array<int>, level: int, idx: int)
      requires head != tail && head != next && head != prev && tail != next && tail != prev && next != prev
      requires 0 <= level < head.Length == tail.Length && 0 <= idx < next.Length == prev.Length
      requires prev[idx] == NIL || 0 <= prev[idx] < next.Length
      requires next[idx] == NIL || 0 <= next[idx] < next.Length
      modifies next, prev, head, tail
      ensures var p, n := old(prev[idx]), old(next[idx]);
        && head[..] == (if p == NIL then old(head[..])[level := n] else old(head[..]))
        && tail[..] == (if n == NIL then old(tail[..])[level := p] else old(tail[..]))
        && next[..] == (if p == NIL then old(next[..]) else old(next[..])[p := n])
        && prev[..] == (if n == NIL then old(prev[..]) else old(prev[..])[n := p])
    {
      var p := prev[idx];
      var n := next[idx];
      if p != NIL {
        next[p] := n;
      } else {
        head[level] := n;
      }
      if n != NIL {
        prev[n] := p;
      } else {
        tail[level] := p;
      }
    }

    method Splice(side: BookSide, level: int, idx: int, ghost s: Side)
      requires Shape() && side == SideArrays(s) && 0 <= level < levels && 0 <= idx < maxOrders
      requires prev[idx] == NIL || 0 <= prev[idx] < maxOrders
      requires next[idx] == NIL || 0 <= next[idx] < maxOrders
      modifies next, prev, side.head, side.tail
      ensures 0 <= level < |HalfOf(old(Snapshot()), s).head| == |HalfOf(old(Snapshot()), s).tail|
      ensures var p := old(Snapshot()).pool;
        && 0 <= idx < |p.next| == |p.prev| && (p.prev[idx] == NIL || 0 <= p.prev[idx] < |p.next|)
        && (p.next[idx] == NIL || 0 <= p.next[idx] < |p.next|)
      ensures Snapshot() == Spliced(old(Snapshot()), s, level, idx)
    {
      hide Cfg, Config.Good, WordCount;
      JoinNeighbours(side.head, side.tail, level, idx);
    }

    lemma TotalIs(s: Side, level: int)
      requires Shape() && 0 <= level < levels
      ensures 0 <= level < |HalfOf(Snapshot(), s).total| && level < SideArrays(s).levelQty.Length
      ensures HalfOf(Snapshot(), s).total[level] == SideArrays(s).levelQty[level]
    {
      hide Apart;
    }

    /** The last part of link_new_order: a better level becomes the best. */
    method Improve(level: int, isBid: bool)
      requires Shape()
      modifies this`bestBid, this`bestAsk
      ensures var s := if isBid then Buy else Sell;
        var best := HalfOf(old(Snapshot()), s).best;
        Snapshot() == WithBest(old(Snapshot()), s, if Improves(s, level, best) then level else best)
    {
      hide Shape;
      if isBid {
        if bestBid == NIL || level > bestBid {
          bestBid := level;
        }
      } else {
        if bestAsk == NIL || level < bestAsk {
          bestAsk := level;
        }
      }
    }

    method LinkNewOrder(side: BookSide, level: int, idx: int, isBid: bool)
      requires Shape() && side == SideArrays(if isBid then Buy else Sell) && Dims(Cfg(), Snapshot())
      requires 0 <= level < levels && 0 <= idx < maxOrders
      requires side.tail[level] == NIL || 0 <= side.tail[level] < maxOrders
      modifies this`bestBid, this`bestAsk, next, prev, side.head, side.tail, side.levelQty, side.occ
      ensures Cfg().Good() && Cfg() == Config(priceLo, levels, maxOrders, qtyModulus)
      ensures var s := if isBid then Buy else Sell;
        && |HalfOf(old(Snapshot()), s).tail| == levels
        && (HalfOf(old(Snapshot()), s).tail[level] == NIL || 0 <= HalfOf(old(Snapshot()), s).tail[level] < maxOrders)
        && Snapshot() == Linked(Cfg(), old(Snapshot()), s, level, idx)
    {
      hide AddQty, Appended, BookSide.Sized, BookSide.Snapshot, Cfg, Config.Good, Dims, HalfOf, Improves;
      hide Linked, Shape, SideArrays, Snapshot, WithBest, WithOcc, WithTotal;
      ghost var s := if isBid then Buy else Sell;
      ghost var c := Snapshot();
      ShapeParts();
      TailIs(s, level);
      TotalIs(s, level);
      QtyIs(idx);
      LinkedParts(Cfg(), c, s, level, idx);
      Append(side, level, idx, s);
      TotalIs(s, level);
      QtyIs(idx);
      SetTotal(side, level, AddQty(side.levelQty[level], orderQty[idx], qtyModulus), s);
      SetOccupied(side, level, true, s);
      Improve(level, isBid);
    }

    lemma ShapeParts()
      requires Shape()
      ensures Cfg() == Config(priceLo, levels, maxOrders, qtyModulus) && Cfg().Good() && qtyModulus > 1 && levels > 1
      ensures bids.Sized(levels) && asks.Sized(levels)
      ensures orderQty.Length == orderId.Length == orderPrice.Length == orderSide.Length == maxOrders
      ensures next.Length == prev.Length == idToIdx.Length == nextFree.Length == maxOrders
    {}

    lemma TailIs(s: Side, level: int)
      requires Shape() && 0 <= level < levels
      ensures |HalfOf(Snapshot(), s).tail| == |HalfOf(Snapshot(), s).head| == levels
      ensures SideArrays(s).tail.Length == SideArrays(s).head.Length == levels
      ensures HalfOf(Snapshot(), s).tail[level] == SideArrays(s).tail[level]
      ensures HalfOf(Snapshot(), s).head[level] == SideArrays(s).head[level]
    {
      hide Apart;
    }

    lemma QtyIs(idx: int)
      requires Shape() && 0 <= idx < maxOrders
      ensures |Snapshot().pool.qty| == orderQty.Length == maxOrders && Snapshot().pool.qty[idx] == orderQty[idx]
    {
      hide Apart;
    }

    lemma LinksAre(idx: int)
      requires Shape() && 0 <= idx < maxOrders
      ensures |Snapshot().pool.next| == |Snapshot().pool.prev| == next.Length == prev.Length == maxOrders
      ensures Snapshot().pool.next[idx] == next[idx] && Snapshot().pool.prev[idx] == prev[idx]
    {
      hide Apart;
    }

    lemma OccIs(s: Side)
      requires Shape()
      ensures HalfOf(Snapshot(), s).occ == SideArrays(s).occ[..] && SideArrays(s).occ.Length == WordCount(levels)
      ensures HalfOf(Snapshot(), s).best == if s == Buy then bestBid else bestAsk
    {
      hide Apart;
    }

    /** Rescan for the best level if the one that emptied was the best. */
    method Rescan(level: int, isBid: bool)
      requires Shape() && NoStrayBits(SideArrays(if isBid then Buy else Sell).occ[..], levels)
      modifies this`bestBid, this`bestAsk
      ensures var s := if isBid then Buy else Sell;
        var h := HalfOf(old(Snapshot()), s);
        && levels <= 64 * |h.occ|
        && Snapshot() == WithBest(old(Snapshot()), s,
                                  if h.best == level then BestOccupied(h.occ, s, levels) else h.best)
    {
      hide BestOccupied, Cfg, Config.Good, NoStrayBits, Shape;
      ShapeParts();
      if isBid {
        if bestBid == level {
          bestBid := FindBestBid();
        }
      } else {
        if bestAsk == level {
          bestAsk := FindBestAsk();
        }
      }
    }

    /** The index part of unlink_order: clear an emptied level and rescan if it was the best. */
    method Vacate(side: BookSide, level: int, isBid: bool)
      requires Shape() && side == SideArrays(if isBid then Buy else Sell)
      requires 0 <= level < levels && NoStrayBits(side.occ[..], levels)
      modifies this`bestBid, this`bestAsk, side.occ
      ensures var s := if isBid then Buy else Sell;
        var h := HalfOf(old(Snapshot()), s);
        && 0 <= level < 64 * |h.occ| && levels <= 64 * |h.occ|
        && Snapshot() == WithBest(WithOcc(old(Snapshot()), s, level, false), s,
                                  if h.best == level
                                  then BestOccupied(WithLevel(h.occ, level, false), s, levels) else h.best)
    {
      hide BestOccupied, BookSide.Sized, BookSide.Snapshot, Cfg, Config.Good, HalfOf, NoStrayBits, Shape;
      hide SideArrays, Snapshot, WithBest, WithLevel, WithOcc;
      ghost var s := if isBid then Buy else Sell;
      ghost var c := Snapshot();
      ShapeParts();
      OccIs(s);
      NoStrayAfter(side.occ[..], level, levels);
      OccAfter(c, s, level);
      SetOccupied(side, level, false, s);
      OccIs(s);
      Rescan(level, isBid);
    }

    method UnlinkOrder(side: BookSide, level: int, idx: int, isBid: bool)
      requires Shape() && side == SideArrays(if isBid then Buy else Sell) && Dims(Cfg(), Snapshot())
      requires 0 <= level < levels && Neighbours(Cfg(), Snapshot().pool, idx) && NoStrayBits(side.occ[..], levels)
      modifies this`bestBid, this`bestAsk, next, prev, orderQty, side.head, side.tail, side.levelQty, side.occ
      ensures Cfg().Good() && Cfg() == Config(priceLo, levels, maxOrders, qtyModulus)
      ensures Snapshot() == Unlinked(Cfg(), old(Snapshot()), if isBid then Buy else Sell, level, idx)
    {
      hide *;
      ghost var s := if isBid then Buy else Sell;
      ghost var c := Snapshot();
      ShapeParts();
      IdxOk(idx);
      LinksAre(idx);
      TotalIs(s, level);
      QtyIs(idx);
      OccIs(s);
      UnlinkedParts(Cfg(), c, s, level, idx);
      Splice(side, level, idx, s);
      TotalIs(s, level);
      QtyIs(idx);
      SetTotal(side, level, SubQty(side.levelQty[level], orderQty[idx], qtyModulus), s);
      SetQty(idx, 0);
      OccIs(s);
      TotalIs(s, level);
      if side.levelQty[level] == 0 {
        Vacate(side, level, isBid);
      }
    }

    lemma IdxOk(idx: int)
      requires Shape() && Dims(Cfg(), Snapshot()) && Neighbours(Cfg(), Snapshot().pool, idx)
      ensures 0 <= idx < maxOrders
      ensures prev[idx] == NIL || 0 <= prev[idx] < maxOrders
      ensures next[idx] == NIL || 0 <= next[idx] < maxOrders
    {
      hide Apart;
    }

    /** `level_qty -= t; order_qty_ -= t`. */
    method Reduce(side: BookSide, level: int, idx: int, t: nat, isBid: bool)
      requires Shape() && side == SideArrays(if isBid then Buy else Sell) && Dims(Cfg(), Snapshot())
      requires 0 <= level < levels && 0 <= idx < maxOrders && t <= orderQty[idx]
      modifies orderQty, side.levelQty
      ensures Cfg().Good() && Cfg() == Config(priceLo, levels, maxOrders, qtyModulus)
      ensures |old(Snapshot()).pool.qty| == maxOrders && t <= old(Snapshot()).pool.qty[idx]
      ensures Snapshot() == Reduced(Cfg(), old(Snapshot()), if isBid then Buy else Sell, level, idx, t)
    {
      hide *;
      ghost var s := if isBid then Buy else Sell;
      ghost var c := Snapshot();
      ShapeParts();
      TotalIs(s, level);
      QtyIs(idx);
      ReducedParts(Cfg(), c, s, level, idx, t);
      SetTotal(side, level, SubQty(side.levelQty[level], t, qtyModulus), s);
      QtyIs(idx);
      TotalAfterQty(c, s, level, SubQty(HalfOf(c, s).total[level], t, qtyModulus));
      SetQty(idx, orderQty[idx] - t);
    }

    method UnlinkAndFree(side: BookSide, level: int, idx: int, isBid: bool, id: int)
      requires Shape() && side == SideArrays(if isBid then Buy else Sell) && Dims(Cfg(), Snapshot())
      requires 0 <= level < levels && Neighbours(Cfg(), Snapshot().pool, idx) && NoStrayBits(side.occ[..], levels)
      requires 0 <= id < maxOrders && idToIdx[id] == idx
      modifies this`bestBid, this`bestAsk, this`freeHead, Arrays()
      ensures Cfg().Good() && Cfg() == Config(priceLo, levels, maxOrders, qtyModulus)
      ensures Dims(Cfg(), Unlinked(Cfg(), old(Snapshot()), if isBid then Buy else Sell, level, idx))
      ensures var u := Unlinked(Cfg(), old(Snapshot()), if isBid then Buy else Sell, level, idx);
        && |u.pool.idToIdx| == maxOrders && u.pool.idToIdx[id] == idx && 0 <= idx < maxOrders
        && Snapshot() == Release(Cfg(), u, id)
    {
      hide Arrays, BookSide.Sized, BookSide.Snapshot, Cfg, Config.Good, Dims, Neighbours, NoStrayBits;
      hide Release, Removed, Shape, SideArrays, Snapshot, Unlinked;
      ghost var s := if isBid then Buy else Sell;
      ghost var c := Snapshot();
      ShapeParts();
      InArrays();
      SidesInArrays(s);
      IdxOk(idx);
      IdIs(id);
      RemovedSteps(Cfg(), c, s, level, idx, id);
      UnlinkedIds(Cfg(), c, s, level, idx);
      UnlinkOrder(side, level, idx, isBid);
      IdIs(id);
      FreeOrder(id);
    }

    lemma SidesInArrays(s: Side)
      requires Shape()
      ensures var side := SideArrays(s);
        {side.head as object, side.tail, side.levelQty, side.occ} <= Arrays()
    {
      hide Tagged;
      InArrays();
    }

    lemma IdIs(id: int)
      requires Shape() && 0 <= id < maxOrders
      ensures |Snapshot().pool.idToIdx| == |Snapshot().pool.orderId| == maxOrders == idToIdx.Length == orderId.Length
      ensures Snapshot().pool.idToIdx[id] == idToIdx[id]
    {
      hide Apart;
    }

    /** unlink_order and free_order of the emptied head of a level; c is the state before it was emptied. */
    method Retire(side: BookSide, level: int, idx: int, isBid: bool, id: int, ghost c: State)
      requires Shape() && side == SideArrays(if isBid then Buy else Sell)
      requires EngineState.Indexed(Cfg(), c, layout, TheView())
      requires var s := if isBid then Buy else Sell;
        && CanServe(TheView(), s, level, 0)
        && 0 <= level < levels && Line(layout, s, level) != [] && idx == Line(layout, s, level)[0]
        && 0 <= idx < |c.pool.qty| && idx < |c.pool.orderId| && id == c.pool.orderId[idx]
        && Cfg().Good() && Dims(Cfg(), c) && Snapshot() == Reduced(Cfg(), c, s, level, idx, c.pool.qty[idx])
      modifies this, Arrays()
      ensures Valid()
      ensures var s := if isBid then Buy else Sell;
        && CanServe(old(TheView()), s, level, Queue(old(book), s, level)[0].qty) && qtyModulus > 0
        && TheView() == Served(old(TheView()), s, level, Queue(old(book), s, level)[0].qty, qtyModulus)
    {
      hide Arrays, BookSide.Sized, BookSide.Snapshot, Config.Good, Dims, Dropped, HalfOf, Indexed, LadderOf;
      hide Line, LinesOf, Neighbours, NoStrayBits, Queue, Reduced, Release, Served, Shape, SideArrays;
      hide Snapshot, Unlinked, Valid, WordCount;
      ghost var s := if isBid then Buy else Sell;
      ShapeParts();
      FullFill(Cfg(), c, layout, TheView(), s, level);
      ghost var r := Snapshot();
      OccIs(s);
      IdIs(id);
      ReducedIds(Cfg(), c, s, level, idx, c.pool.qty[idx]);
      ghost var g, v := Dropped(layout, s, level, 0), Served(TheView(), s, level, c.pool.qty[idx], qtyModulus);
      UnlinkAndFree(side, level, idx, isBid, id);
      Adopt(g, v);
    }

    /** Trade t against the oldest order of a level; a filled order is unlinked and freed. */
    method FillHead(side: BookSide, level: int, idx: int, t: nat, isBid: bool)
      requires Valid() && side == SideArrays(if isBid then Buy else Sell)
      requires CanServe(TheView(), if isBid then Buy else Sell, level, t) && 0 < t
      requires 0 <= level < side.head.Length && idx == side.head[level] && qtyModulus > 0
      modifies this, Arrays()
      ensures Valid()
      ensures CanServe(old(TheView()), if isBid then Buy else Sell, level, t)
      ensures TheView() == Served(old(TheView()), if isBid then Buy else Sell, level, t, qtyModulus)
    {
      hide Arrays, Best, BookSide.Snapshot, Coherent, Config.Good, Dims, HalfOf, Indexed, LadderOf, Line;
      hide NoStrayBits, Queue, Reduced, Served, Shape, Snapshot, Sound, Structure, Valid, WellFormed, WordCount;
      ValidParts();
      ghost var c, s, v := Snapshot(), if isBid then Buy else Sell, TheView();
      ShapeParts();
      InArrays();
      SidesInArrays(s);
      IndexedFacts(Cfg(), c, layout, v);
      HeadOfLevel(Cfg(), c, layout, book, s, level);
      TailIs(s, level);
      IdxOk(idx);
      QtyIs(idx);
      OrderIs(idx);
      Reduce(side, level, idx, t, isBid);
      QtyIs(idx);
      OrderIs(idx);
      ReducedIds(Cfg(), c, s, level, idx, t);
      if orderQty[idx] == 0 {
        Retire(side, level, idx, isBid, orderId[idx], c);
      } else {
        PartialFill(Cfg(), c, layout, v, s, level, t);
        Adopt(layout, Served(v, s, level, t, qtyModulus));
      }
    }

    lemma OrderIs(idx: int)
      requires Shape() && 0 <= idx < maxOrders
      ensures var p := Snapshot().pool;
        && |p.orderId| == |p.price| == |p.side| == |p.qty| == maxOrders
        && orderId.Length == orderPrice.Length == orderSide.Length == orderQty.Length == maxOrders
        && p.orderId[idx] == orderId[idx] && p.price[idx] == orderPrice[idx]
        && p.side[idx] == orderSide[idx] && p.qty[idx] == orderQty[idx]
    {
      hide Apart;
    }

    method Store(idx: int, id: int, side: Side, price: int, qty: nat)
      requires Shape() && 0 <= idx < maxOrders && Dims(Cfg(), Snapshot())
      modifies orderId, orderSide, orderPrice, orderQty
      ensures Cfg() == Config(priceLo, levels, maxOrders, qtyModulus)
      ensures Snapshot() == Fill(Cfg(), old(Snapshot()), idx, side, id, price, qty)
    {
      hide Config.Good, Dims, WordCount;
      orderId[idx] := id;
      orderSide[idx] := side;
      orderPrice[idx] := price;
      orderQty[idx] := qty;
    }

    method Place(side: BookSide, level: int, idx: int, price: int, qty: nat, id: int, isBid: bool)
      requires Shape() && side == SideArrays(if isBid then Buy else Sell) && Dims(Cfg(), Snapshot())
      requires 0 <= level < levels && 0 <= idx < maxOrders && qty < qtyModulus
      requires side.tail[level] == NIL || 0 <= side.tail[level] < maxOrders
      modifies this`bestBid, this`bestAsk, Arrays()
      ensures Cfg().Good() && Cfg() == Config(priceLo, levels, maxOrders, qtyModulus)
      ensures var s := if isBid then Buy else Sell;
        var filled := Fill(Cfg(), old(Snapshot()), idx, s, id, price, qty);
        && Dims(Cfg(), filled) && |HalfOf(filled, s).tail| == levels
        && (HalfOf(filled, s).tail[level] == NIL || 0 <= HalfOf(filled, s).tail[level] < maxOrders)
        && Snapshot() == Linked(Cfg(), filled, s, level, idx)
    {
      hide Arrays, BookSide.Sized, BookSide.Snapshot, Cfg, Config.Good, Dims, Fill, HalfOf, Linked, Shape;
      hide SideArrays, Snapshot;
      ghost var c, s := Snapshot(), if isBid then Buy else Sell;
      ShapeParts();
      InArrays();
      SidesInArrays(s);
      TailIs(s, level);
      FillDims(Cfg(), c, idx, s, id, price, qty);
      Store(idx, id, if isBid then Buy else Sell, price, qty);
      TailIs(s, level);
      LinkNewOrder(side, level, idx, isBid);
    }

    /** Rest a remainder at the tail of its level, unless its id is already active. */
    method RestOrder(side: BookSide, level: int, price: int, qty: nat, id: int, isBid: bool) returns (ok: bool)
      requires Valid() && side == SideArrays(if isBid then Buy else Sell)
      requires 0 <= level < levels && price == priceLo + level && 0 <= id < maxOrders && 0 < qty < qtyModulus
      modifies this, Arrays()
      ensures Valid() && (ok <==> !Resting(old(book), id))
      ensures !ok ==> TheView() == old(TheView())
      ensures ok ==>
        var s := if isBid then Buy else Sell;
        && 0 <= level < |LadderOf(old(book), s)| == |LadderOf(old(shown), s)|
        && TheView() == Joined(old(TheView()), s, level, Entry(id, qty))
    {
      hide Alloc, Arrays, Best, BookSide.Sized, BookSide.Snapshot, Coherent, Config.Good, Dims, Fill, HalfOf;
      hide Indexed, Joined, LadderOf, LinesOf, Linked, NoStrayBits, Queued, Resting, Shape, SideArrays;
      hide Snapshot, Sound, Structure, Valid, WellFormed;
      ValidParts();
      ghost var c, s := Snapshot(), if isBid then Buy else Sell;
      ShapeParts();
      InArrays();
      FreeHeadIs();
      IndexedFacts(Cfg(), c, layout, TheView());
      IdIs(id);
      IdIndexIsResting(Cfg(), c, layout, book, id);
      if idToIdx[id] == NIL {
        RestNew(Cfg(), c, layout, TheView(), s, level, id, qty);
      }
      var idx := AllocOrder(id);
      if idx == NIL {
        ValidWhole();
        return false;
      }
      TailIs(s, level);
      AllocTails(Cfg(), c, id, s);
      ghost var g, v := Queued(layout, s, level, idx), Joined(TheView(), s, level, Entry(id, qty));
      Place(side, level, idx, price, qty, id, isBid);
      Adopt(g, v);
      return true;
    }

    lemma FreeHeadIs()
      requires Shape()
      ensures Snapshot().pool.freeHead == freeHead && Snapshot().pool.idToIdx == idToIdx[..]
      ensures Snapshot().bids.best == bestBid && Snapshot().asks.best == bestAsk
    {
      hide Apart;
    }

    // ---- Public operations --------------------------------------------------------------------

    /** What the arrays say of the abstract book. */
    lemma BookFacts()
      requires Valid()
      ensures Shape() && Coherent(TheView()) && WellFormed(book) && Positive(book) && Cfg().Good() && qtyModulus > 0
      ensures book.lo == shown.lo == priceLo && Hi(book) == priceLo + levels - 1
      ensures |book.bids| == |book.asks| == levels
      ensures bestBid == Best(shown, Buy) && bestAsk == Best(shown, Sell)
    {
      hide Apart, Indexed, Sound, Structure, Coherent, NoStrayBits, Dims, Best, WellFormed;
      FreeHeadIs();
      IndexedFacts(Cfg(), Snapshot(), layout, TheView());
      WellFormedPositive(book);
    }

    method BestBid() returns (price: Option<int>)
      requires Valid()
      ensures Valid() && price == if Best(shown, Buy) == -1 then None else Some(book.lo + Best(shown, Buy))
    {
      hide Valid, WellFormed;
      BookFacts();
      if bestBid == NIL {
        return None;
      }
      return Some(bestBid + priceLo);
    }

    method BestAsk() returns (price: Option<int>)
      requires Valid()
      ensures Valid() && price == if Best(shown, Sell) == -1 then None else Some(book.lo + Best(shown, Sell))
    {
      hide Valid, WellFormed;
      BookFacts();
      if bestAsk == NIL {
        return None;
      }
      return Some(bestAsk + priceLo);
    }

    method LevelQuantity(side: Side, price: int) returns (qty: nat)
      requires Valid()
      ensures Valid() && qtyModulus > 0 && qty == Total(Queue(book, side, price - book.lo)) % qtyModulus
    {
      hide Arrays, Best, BookSide.Sized, BookSide.Snapshot, Coherent, Config.Good, HalfOf, Hi, Indexed;
      hide Positive, Queue, Shape, Snapshot, Total, WellFormed;
      BookFacts();
      ShapeParts();
      if price < priceLo || price > priceLo + levels - 1 {
        NothingOutside(book, side, price - priceLo);
        return 0;
      }
      var level := price - priceLo;
      TotalIs(side, level);
      TotalOf(Cfg(), Snapshot(), layout, TheView(), side, level);
      return if side == Buy then bids.levelQty[level] else asks.levelQty[level];
    }

    /** The maker at the front of the best level of a side. */
    lemma MakerFacts(s: Side)
      requires Valid() && Best(shown, s) != -1
      ensures var l, side := Best(shown, s), SideArrays(s);
        && 0 <= l < side.head.Length
        && var idx := side.head[l];
        && 0 <= idx < maxOrders == orderId.Length == orderQty.Length && CanServe(TheView(), s, l, orderQty[idx])
        && Queue(book, s, l)[0] == Entry(orderId[idx], orderQty[idx]) && orderQty[idx] > 0
    {
      hide Arrays, Best, BookSide.Sized, BookSide.Snapshot, Coherent, Config.Good, Dims, HalfOf, Indexed;
      hide LadderOf, Levels, Line, NoStrayBits, Positive, Queue, Shape, SideArrays, Snapshot, Sound;
      hide Structure, UniqueIds, WellFormed;
      ShapeParts();
      IndexedFacts(Cfg(), Snapshot(), layout, TheView());
      WellFormedPositive(book);
      HeadShown(TheView(), s);
      HeadOfLevel(Cfg(), Snapshot(), layout, book, s, Best(shown, s));
      TailIs(s, Best(shown, s));
      OrderIs(SideArrays(s).head[Best(shown, s)]);
    }

    /** Match an incoming limit order, then rest what is left of it. */
    method ProcessOrder(side: Side, price: int, qty: nat, id: int) returns (ok: bool, executions: seq<Execution>)
      requires Valid() && qty < qtyModulus
      modifies this, Arrays()
      ensures Valid() && Coherent(old(TheView())) && WellFormed(old(book)) && qtyModulus > 0
      ensures Result(ok, TheView(), executions)
           == ProcessAt(old(TheView()), maxOrders, side, price, qty, id, qtyModulus)
    {
      hide Arrays, Best, Cfg, Coherent, Config.Good, Continues, Joined, LadderOf, MatchAt, Positive, Queue;
      hide Resting, Served, Shape, Valid, WellFormed;
      BookFacts();
      if qty == 0 {
        return false, [];
      }
      if price < priceLo || price > priceLo + levels - 1 {
        return false, [];
      }
      if id < 0 || id >= maxOrders {
        return false, [];
      }

      var level := price - priceLo;
      var remaining: nat := qty;
      executions := [];
      ghost var before := TheView();
      ghost var all := MatchAt(before, side, price, qty, id, qtyModulus);
      ContinuesFromStart(all);
      if side == Buy {
        while remaining > 0 && bestAsk != NIL
          invariant Valid() && Coherent(TheView()) && Positive(book) && remaining <= qty
          invariant Continues(all, executions, MatchAt(TheView(), Buy, price, remaining, id, qtyModulus))
          decreases remaining
        {
          BookFacts();
          MakerFacts(Sell);
          var askPrice := bestAsk + priceLo;
          if askPrice > price {
            break;
          }
          var makerIdx := asks.head[bestAsk];
          if makerIdx == NIL {
            assert false;
          }
          var makerQty := orderQty[makerIdx];
          var tradeQty := Min(remaining, makerQty);
          MatchStep(all, executions, TheView(), Buy, price, remaining, id, qtyModulus);
          executions := executions + [Execution(side, id, Sell, orderId[makerIdx], askPrice, tradeQty)];
          FillHead(asks, bestAsk, makerIdx, tradeQty, false);
          remaining := remaining - tradeQty;
        }
        BookFacts();
        ProcessEnds(before, maxOrders, Buy, price, qty, id, qtyModulus, TheView(), executions, remaining);
        if remaining > 0 {
          ok := RestOrder(bids, level, price, remaining, id, true);
          return ok, executions;
        }
        return true, executions;
      } else {
        while remaining > 0 && bestBid != NIL
          invariant Valid() && Coherent(TheView()) && Positive(book) && remaining <= qty
          invariant Continues(all, executions, MatchAt(TheView(), Sell, price, remaining, id, qtyModulus))
          decreases remaining
        {
          BookFacts();
          MakerFacts(Buy);
          var bidPrice := bestBid + priceLo;
          if bidPrice < price {
            break;
          }
          var makerIdx := bids.head[bestBid];
          if makerIdx == NIL {
            assert false;
          }
          var makerQty := orderQty[makerIdx];
          var tradeQty := Min(remaining, makerQty);
          MatchStep(all, executions, TheView(), Sell, price, remaining, id, qtyModulus);
          executions := executions + [Execution(side, id, Buy, orderId[makerIdx], bidPrice, tradeQty)];
          FillHead(bids, bestBid, makerIdx, tradeQty, true);
          remaining := remaining - tradeQty;
        }
        BookFacts();
        ProcessEnds(before, maxOrders, Sell, price, qty, id, qtyModulus, TheView(), executions, remaining);
        if remaining > 0 {
          ok := RestOrder(asks, level, price, remaining, id, false);
          return ok, executions;
        }
        return true, executions;
      }
    }

    /** Withdraw a resting order. */
    method Cancel(id: int) returns (ok: bool)
      requires Valid()
      modifies this, Arrays()
      ensures Valid() && Coherent(old(TheView())) && qtyModulus > 0
      ensures ok <==> 0 <= id < maxOrders && Resting(old(book), id)
      ensures TheView() == RemoveAt(old(TheView()), id, qtyModulus)
    {
      hide Arrays, Best, BookSide.Sized, BookSide.Snapshot, Coherent, Config.Good, Dims, Dropped, HalfOf;
      hide Indexed, Line, LinesOf, Neighbours, NoStrayBits, Release, RemoveAt, Resting, Shape, Snapshot;
      hide Sound, Structure, Unlinked, Valid, WellFormed, WordCount;
      ValidParts();
      ghost var v, c := TheView(), Snapshot();
      ShapeParts();
      IndexedFacts(Cfg(), c, layout, v);
      if !Resting(book, id) {
        RemoveAbsentAt(v, id, qtyModulus);
      }
      if id < 0 || id >= maxOrders {
        if Resting(book, id) {
          IdsInRange(Cfg(), c, layout, book, id);
        }
        return false;
      }
      IdIs(id);
      IdIndexIsResting(Cfg(), c, layout, book, id);
      var idx := idToIdx[id];
      if idx == NIL {
        return false;
      }
      ghost var s, l, k := CancelFacts(Cfg(), c, layout, v, id);
      ghost var g := Dropped(layout, s, l, k);
      OrderIs(idx);
      OccIs(s);
      v := RemoveAt(v, id, qtyModulus);
      var price := orderPrice[idx];
      var level := price - priceLo;
      if orderSide[idx] == Buy {
        UnlinkAndFree(bids, level, idx, true, id);
      } else {
        UnlinkAndFree(asks, level, idx, false, id);
      }
      Adopt(g, v);
      return true;
    }
  }

  lemma OccAfter(c: State, s: Side, l: int)
    requires 0 <= l < 64 * |HalfOf(c, s).occ|
    ensures HalfOf(WithOcc(c, s, l, false), s).occ == WithLevel(HalfOf(c, s).occ, l, false)
    ensures HalfOf(WithOcc(c, s, l, false), s).best == HalfOf(c, s).best
  {}

  lemma TotalAfterQty(c: State, s: Side, l: int, t: nat)
    requires 0 <= l < |HalfOf(c, s).total|
    ensures WithTotal(c, s, l, t).pool == c.pool
  {}

  lemma ReducedIds(cfg: Config, c: State, s: Side, l: int, i: int, t: nat)
    requires cfg.Good() && Dims(cfg, c) && 0 <= l < cfg.levels && 0 <= i < cfg.capacity && t <= c.pool.qty[i]
    ensures var r := Reduced(cfg, c, s, l, i, t);
      && r.pool.idToIdx == c.pool.idToIdx && r.pool.orderId == c.pool.orderId
      && |r.pool.qty| == cfg.capacity && r.pool.qty[i] == c.pool.qty[i] - t
      && HalfOf(r, s).occ == HalfOf(c, s).occ
  {
    hide SubQty;
  }

  lemma UnlinkedIds(cfg: Config, c: State, s: Side, l: int, i: int)
    requires cfg.Good() && Dims(cfg, c) && 0 <= l < cfg.levels && Neighbours(cfg, c.pool, i)
    ensures Unlinked(cfg, c, s, l, i).pool.idToIdx == c.pool.idToIdx
  {}

  lemma FillDims(cfg: Config, c: State, i: int, s: Side, id: int, price: int, qty: nat)
    requires Dims(cfg, c) && 0 <= i < cfg.capacity && qty < cfg.modulus
    ensures Dims(cfg, Fill(cfg, c, i, s, id, price, qty))
    ensures HalfOf(Fill(cfg, c, i, s, id, price, qty), s) == HalfOf(c, s)
  {}

  lemma AllocTails(cfg: Config, c: State, id: int, s: Side)
    requires Dims(cfg, c) && 0 <= id < cfg.capacity && 0 <= c.pool.freeHead < cfg.capacity
    ensures HalfOf(Alloc(cfg, c, id), s) == HalfOf(c, s)
  {}

  lemma NothingOutside(b: Book, s: Side, l: int)
    requires |b.bids| == |b.asks| && !(0 <= l < |b.bids|)
    ensures Queue(b, s, l) == [] && Total([]) == 0
  {}

  lemma TotalOf(cfg: Config, c: State, g: Layout, w: View, s: Side, l: int)
    requires Indexed(cfg, c, g, w) && 0 <= l < cfg.levels && 0 <= l < |HalfOf(c, s).total|
    ensures cfg.modulus > 0 && HalfOf(c, s).total[l] == Total(Queue(w.book, s, l)) % cfg.modulus
  {
    assert TotalOk(cfg, c, w.book, s, l);
  }
}
