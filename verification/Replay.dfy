/**
 * The replay of the engine's executions over the live-order table: although the
 * book has already moved past every trade, applying the executions in order keeps
 * table and book in step, so no execution is ever skipped.
 */
module Replay {
  import opened PriceTimeBook
  import opened BookLaws
  import opened IndexedBook
  import opened Ledger

  // ---- Table and book move together ------------------------------------------------------

  /** The execution that consuming t from the head of a level reports. */
  function HeadExecution(b: Book, side: Side, l: int, t: nat, taker: int): Execution
    requires Queue(b, side.Opposite(), l) != []
  {
    Execution(side, taker, side.Opposite(), Queue(b, side.Opposite(), l)[0].id, b.lo + l, t)
  }

  /** A taker of this side and limit with qty left, not itself in the book. */
  predicate Taking(orders: seq<LiveOrder>, taker: int, side: Side, limit: int, qty: nat) {
    0 <= taker < |orders| && SideOf(orders[taker]) == side && orders[taker].limitPrice == limit
      && orders[taker].remaining == qty
  }

  lemma HeadIsSensible(a: Accounts, b: Book, side: Side, limit: int, l: int, qty: nat, t: nat, taker: nat)
    requires AccountsOk(a) && Synced(a.orders, b, taker) && Taking(a.orders, taker, side, limit, qty)
    requires Queue(b, side.Opposite(), l) != [] && b.lo >= 0 && 0 <= l && Crosses(side, limit, b.lo + l)
    requires 0 < t <= qty && t <= Queue(b, side.Opposite(), l)[0].qty
    ensures Sensible(a, taker, HeadExecution(b, side, l, t, taker))
  {
    var e := Queue(b, side.Opposite(), l)[0];
    assert e in Queue(b, side.Opposite(), l);
    assert Backed(a.orders, b, side.Opposite(), l, e) && LocksOk(a.orders[taker], |a.users|);
  }

  lemma InShorter(q: seq<Entry>, t: nat, e: Entry)
    requires DistinctIds(q) && q != [] && t <= q[0].qty
    ensures e in (if t == q[0].qty then [] else [Entry(q[0].id, q[0].qty - t)]) + q[1..]
       <==> (e in q && e.id != q[0].id) || (t < q[0].qty && e == Entry(q[0].id, q[0].qty - t))
  {
    assert q == [q[0]] + q[1..];
    assert e in q[1..] ==> e.id != q[0].id;
  }

  /** An id of one queue is in no other. */
  lemma NotElsewhere(b: Book, s: Side, l: int, s': Side, l': int, e: Entry)
    requires UniqueIds(b) && Queue(b, s, l) != [] && !(s' == s && l' == l) && e in Queue(b, s', l')
    ensures e.id != Queue(b, s, l)[0].id
  {
    var k :| 0 <= k < |Queue(b, s', l')| && Queue(b, s', l')[k] == e;
    assert HasId(Queue(b, s', l'), e.id) && HasId(Queue(b, s, l), Queue(b, s, l)[0].id);
  }

  lemma AfterHead(b: Book, s: Side, l: int, t: nat, e: Entry, s': Side, l': int)
    requires UniqueIds(b) && Queue(b, s, l) != [] && t <= Queue(b, s, l)[0].qty
    ensures var h := Queue(b, s, l)[0];
      e in Queue(Consume(b, s, l, t), s', l')
      <==> (e in Queue(b, s', l') && e.id != h.id)
           || (s' == s && l' == l && t < h.qty && e == Entry(h.id, h.qty - t))
  {
    assert DistinctIds(Queue(b, s, l));
    hide Queue, Consume, UniqueIds, DistinctIds;
    ConsumeQueues(b, s, l, t, s', l');
    if s' == s && l' == l {
      InShorter(Queue(b, s, l), t, e);
    } else if e in Queue(b, s', l') {
      NotElsewhere(b, s, l, s', l', e);
    }
  }

  /** The maker of the next execution is the active order it should be. */
  lemma HeadIsBacked(orders: seq<LiveOrder>, b: Book, s: Side, l: int, taker: nat)
    requires Synced(orders, b, taker) && Queue(b, s, l) != []
    ensures Backed(orders, b, s, l, Queue(b, s, l)[0]) && Queue(b, s, l)[0].id != taker
  {
    assert Queue(b, s, l)[0] in Queue(b, s, l);
  }

  lemma BackedAfter(orders: seq<LiveOrder>, b: Book, s: Side, l: int, t: nat, taker: nat, takes: LiveOrder,
                    s': Side, l': int, e: Entry)
    requires UniqueIds(b) && Synced(orders, b, taker) && taker < |orders|
    requires Queue(b, s, l) != [] && 0 < t <= Queue(b, s, l)[0].qty
    requires Backed(orders, b, s, l, Queue(b, s, l)[0]) && e in Queue(Consume(b, s, l, t), s', l')
    ensures var m := Queue(b, s, l)[0].id;
      Backed(orders[m := Filled(orders[m], t)][taker := takes], Consume(b, s, l, t), s', l', e) && e.id != taker
  {
    hide *;
    var h := Queue(b, s, l)[0];
    HeadIsBacked(orders, b, s, l, taker);
    AfterHead(b, s, l, t, e, s', l');
    ConsumeShape(b, s, l, t);
    if e in Queue(b, s', l') && e.id != h.id {
      EntryIsBacked(orders, b, s', l', taker, e);
      BackedFrame(orders, b, Consume(b, s, l, t), s', l', e, h.id, Filled(orders[h.id], t), taker, takes);
    } else {
      HeadBackedAfter(orders, b, Consume(b, s, l, t), s, l, h, t, taker, takes);
    }
  }

  lemma EntryIsBacked(orders: seq<LiveOrder>, b: Book, s: Side, l: int, taker: nat, e: Entry)
    requires Synced(orders, b, taker) && e in Queue(b, s, l)
    ensures Backed(orders, b, s, l, e) && e.id != taker
  {}

  /** Changes of two other orders leave an entry backed. */
  lemma BackedFrame(orders: seq<LiveOrder>, b: Book, c: Book, s: Side, l: int, e: Entry,
                    i: int, o: LiveOrder, j: int, p: LiveOrder)
    requires Backed(orders, b, s, l, e) && c.lo == b.lo
    requires 0 <= i < |orders| && 0 <= j < |orders| && e.id != i && e.id != j
    ensures Backed(orders[i := o][j := p], c, s, l, e)
  {}

  /** A partly filled head is backed by its order with as much filled. */
  lemma HeadBackedAfter(orders: seq<LiveOrder>, b: Book, c: Book, s: Side, l: int, h: Entry, t: nat,
                        taker: nat, takes: LiveOrder)
    requires Backed(orders, b, s, l, h) && c.lo == b.lo && t < h.qty && taker < |orders| && h.id != taker
    ensures 0 <= h.id < |orders|
    ensures Backed(orders[h.id := Filled(orders[h.id], t)][taker := takes], c, s, l, Entry(h.id, h.qty - t))
  {}

  lemma HeadListedAfter(o: LiveOrder, b: Book, s: Side, l: int, t: nat)
    requires UniqueIds(b) && Queue(b, s, l) != [] && 0 < t <= Queue(b, s, l)[0].qty
    requires SideOf(o) == s && o.limitPrice == b.lo + l && o.remaining == Queue(b, s, l)[0].qty && Filled(o, t).active
    ensures Listed(Filled(o, t), Queue(b, s, l)[0].id, Consume(b, s, l, t))
  {
    hide UniqueIds, Queue, Consume;
    var h := Queue(b, s, l)[0];
    ConsumeShape(b, s, l, t);
    AfterHead(b, s, l, t, Entry(h.id, h.qty - t), s, l);
  }

  lemma OtherListedAfter(o: LiveOrder, i: nat, b: Book, s: Side, l: int, t: nat)
    requires UniqueIds(b) && Queue(b, s, l) != [] && 0 < t <= Queue(b, s, l)[0].qty
    requires Listed(o, i, b) && i != Queue(b, s, l)[0].id
    ensures Listed(o, i, Consume(b, s, l, t))
  {
    hide UniqueIds, Queue, Consume, SideOf;
    ConsumeShape(b, s, l, t);
    AfterHead(b, s, l, t, Entry(i, o.remaining), SideOf(o), o.limitPrice - b.lo);
  }

  lemma ListedAfter(orders: seq<LiveOrder>, b: Book, s: Side, l: int, t: nat, taker: nat, i: nat)
    requires UniqueIds(b) && Synced(orders, b, taker)
    requires Queue(b, s, l) != [] && 0 < t <= Queue(b, s, l)[0].qty
    requires Backed(orders, b, s, l, Queue(b, s, l)[0])
    requires var m := Queue(b, s, l)[0].id;
      i < |orders| && i != taker && orders[m := Filled(orders[m], t)][i].active
    ensures var m := Queue(b, s, l)[0].id;
      Listed(orders[m := Filled(orders[m], t)][i], i, Consume(b, s, l, t))
  {
    hide UniqueIds, Queue, Consume, Listed, SideOf, Filled;
    if i == Queue(b, s, l)[0].id {
      HeadListedAfter(orders[i], b, s, l, t);
    } else {
      OtherListedAfter(orders[i], i, b, s, l, t);
    }
  }

  /** Filling the head maker and the taker in the table mirrors consuming from the book. */
  lemma StepKeepsSync(orders: seq<LiveOrder>, b: Book, s: Side, l: int, t: nat, taker: nat, takes: LiveOrder)
    requires UniqueIds(b) && Synced(orders, b, taker) && taker < |orders|
    requires Queue(b, s, l) != [] && 0 < t <= Queue(b, s, l)[0].qty
    ensures 0 < Queue(b, s, l)[0].id < |orders|
    ensures var m := Queue(b, s, l)[0].id;
      Synced(orders[m := Filled(orders[m], t)][taker := takes], Consume(b, s, l, t), taker)
  {
    hide Backed, Consume, Filled, Listed, Queue, UniqueIds;
    HeadIsBacked(orders, b, s, l, taker);
    BackedRange(orders, b, s, l, Queue(b, s, l)[0]);
    var m, c := Queue(b, s, l)[0].id, Consume(b, s, l, t);
    var orders' := orders[m := Filled(orders[m], t)][taker := takes];
    forall s': Side, l': int, e: Entry | e in Queue(c, s', l')
      ensures Backed(orders', c, s', l', e) && e.id != taker
    {
      BackedAfter(orders, b, s, l, t, taker, takes, s', l', e);
    }
    forall i | 0 <= i < |orders'| && i != taker && orders'[i].active ensures Listed(orders'[i], i, c) {
      ListedAfter(orders, b, s, l, t, taker, i);
    }
  }

  lemma BackedRange(orders: seq<LiveOrder>, b: Book, s: Side, l: int, e: Entry)
    requires Backed(orders, b, s, l, e)
    ensures 0 < e.id < |orders|
  {}

  // ---- The whole replay --------------------------------------------------------------------

  function Improvements(takes: LiveOrder, es: seq<Execution>): int {
    if es == [] then 0 else Improvement(takes, es[0]) + Improvements(takes, es[1..])
  }

  /** No execution of the list is skipped when it is replayed. */
  predicate AllSettle(a: Accounts, taker: nat, es: seq<Execution>)
    requires Owned(a, taker)
    decreases |es|
  {
    es == [] || (Settles(a, es[0]) && AllSettle(ApplyOne(a, taker, es[0]), taker, es[1..]))
  }

  /** The same order, whatever has been filled of it. */
  predicate SameOrder(o: LiveOrder, o': LiveOrder) {
    o'.user == o.user && o'.isBid == o.isBid && o'.limitPrice == o.limitPrice
  }

  lemma ImprovementsSame(o: LiveOrder, o': LiveOrder, es: seq<Execution>)
    requires SameOrder(o, o')
    ensures Improvements(o, es) == Improvements(o', es)
  {}

  /** Filling an order changes what is left and locked, not what it is. */
  lemma FilledSame(o: LiveOrder, t: int)
    ensures SameOrder(o, Filled(o, t))
  {}

  lemma PaidSame(us: seq<User>, o: LiveOrder, o': LiveOrder, buys: bool, px: int, t: int)
    requires SameOrder(o, o') && o.user < |us|
    ensures Paid(us, o, buys, px, t) == Paid(us, o', buys, px, t)
  {}

  lemma RefundedSame(us: seq<User>, o: LiveOrder, o': LiveOrder, px: int, t: int)
    requires SameOrder(o, o') && o.user < |us|
    ensures Refunded(us, o, px, t) == Refunded(us, o', px, t)
  {}

  lemma AccountsOwned(a: Accounts, taker: nat)
    requires AccountsOk(a) && taker < |a.orders| && a.orders[taker].user < |a.users|
    ensures Owned(a, taker)
  {
    forall i | 0 <= i < |a.orders| && a.orders[i].active ensures a.orders[i].user < |a.users| {
      assert LocksOk(a.orders[i], |a.users|);
    }
  }

  /** What one replayed trade establishes, ready for the next. */
  lemma ReplayStep(a: Accounts, b: Book, side: Side, limit: int, l: int, qty: nat, t: nat, taker: nat)
    requires WellFormed(b) && b.lo >= 0 && AccountsOk(a) && Owned(a, taker)
    requires Synced(a.orders, b, taker) && Taking(a.orders, taker, side, limit, qty)
    requires Queue(b, side.Opposite(), l) != [] && 0 <= l && Crosses(side, limit, b.lo + l)
    requires 0 < t <= qty && t <= Queue(b, side.Opposite(), l)[0].qty
    ensures var e := HeadExecution(b, side, l, t, taker);
      var r := ApplyOne(a, taker, e);
      && Settles(a, e) && AccountsOk(r) && (QuoteSolvent(a) ==> QuoteSolvent(r))
      && Synced(r.orders, Consume(b, side.Opposite(), l, t), taker) && Taking(r.orders, taker, side, limit, qty - t)
      && SameOrder(a.orders[taker], r.orders[taker])
      && TotalBase(r.users) == TotalBase(a.users)
      && TotalQuote(r.users) == TotalQuote(a.users) + Improvement(a.orders[taker], e)
  {
    hide AccountsOk, Synced, WellFormed, QuoteSolvent, TotalBase, TotalQuote, ApplyOne;
    var e := HeadExecution(b, side, l, t, taker);
    HeadIsSensible(a, b, side, limit, l, qty, t, taker);
    LocksOf(a, e.makerId);
    LocksOf(a, taker);
    ApplyOneKeepsAccounts(a, taker, e);
    ApplyOneTotals(a, taker, e);
    ApplyOneLocks(a, taker, e, 0);
    FilledLocks(a.orders[taker], t, |a.users|);
    WellFormedPositive(b);
    StepKeepsSync(a.orders, b, side.Opposite(), l, t, taker, Filled(a.orders[taker], t));
  }

  lemma LocksOf(a: Accounts, i: nat)
    requires AccountsOk(a) && i < |a.orders|
    ensures LocksOk(a.orders[i], |a.users|)
  {}

  lemma ConsumeWellFormed(b: Book, s: Side, l: int, t: nat)
    requires WellFormed(b) && Queue(b, s, l) != [] && t <= Queue(b, s, l)[0].qty
    ensures WellFormed(Consume(b, s, l, t))
  {
    ConsumePositive(b, s, l, t);
    ConsumeShrinks(b, s, l, t);
    ShrinksUnique(b, Consume(b, s, l, t));
  }

  lemma ApplyNone(a: Accounts, taker: nat, o: LiveOrder)
    requires Owned(a, taker)
    ensures ApplyAll(a, taker, []) == a && AllSettle(a, taker, []) && Improvements(o, []) == 0 && SameOrder(o, o)
  {}

  lemma ApplyCons(a: Accounts, taker: nat, e: Execution, es: seq<Execution>, o: LiveOrder)
    requires Owned(a, taker)
    ensures var r := ApplyOne(a, taker, e);
      && ApplyAll(a, taker, [e] + es) == ApplyAll(r, taker, es)
      && (AllSettle(a, taker, [e] + es) <==> Settles(a, e) && AllSettle(r, taker, es))
      && Improvements(o, [e] + es) == Improvement(o, e) + Improvements(o, es)
  {
    hide ApplyOne;
    assert ([e] + es)[1..] == es;
  }

  lemma SameThrough(o: LiveOrder, p: LiveOrder, q: LiveOrder)
    requires SameOrder(o, p) && SameOrder(p, q)
    ensures SameOrder(o, q)
  {}

  /**
   * Replaying the executions of a whole matching run, at any width: locks, base solvency
   * and the agreement with the book all hold at the end, every execution settles, base is
   * conserved and quote grows by the taker's price improvements alone.
   */
  lemma {:induction false} ReplayAll(a: Accounts, w: View, side: Side, limit: int, qty: nat, taker: nat, m: nat)
    requires Coherent(w) && WellFormed(w.book) && Positive(w.book) && m > 0 && w.book.lo >= 0
    requires AccountsOk(a) && Owned(a, taker)
    requires Synced(a.orders, w.book, taker) && Taking(a.orders, taker, side, limit, qty)
    ensures var p := MatchAt(w, side, limit, qty, taker, m);
      var r := ApplyAll(a, taker, p.execs);
      && AllSettle(a, taker, p.execs) && AccountsOk(r) && (QuoteSolvent(a) ==> QuoteSolvent(r))
      && Synced(r.orders, p.view.book, taker) && Taking(r.orders, taker, side, limit, p.rest)
      && taker < |a.orders| && SameOrder(a.orders[taker], r.orders[taker])
      && TotalBase(r.users) == TotalBase(a.users)
      && TotalQuote(r.users) == TotalQuote(a.users) + Improvements(a.orders[taker], p.execs)
    decreases qty
  {
    hide AccountsOk, AllSettle, ApplyAll, ApplyOne, Best, Coherent, Consume, Crosses, Improvement;
    hide Improvements, LadderOf, Levels, MatchAt, MatchEnds, Min, Owned, Positive, Queue, QuoteSolvent;
    hide SameOrder, Served, Settles, Side.Opposite, Synced, Taking, TotalBase, TotalQuote, WellFormed;
    MatchAtUnfolds(w, side, limit, qty, taker, m);
    TakerExists(a, taker);
    if MatchEnds(w.shown, side, limit, qty) {
      ApplyNone(a, taker, a.orders[taker]);
    } else {
      var maker, l := side.Opposite(), Best(w.shown, side.Opposite());
      var t := Min(qty, Queue(w.book, maker, l)[0].qty);
      var v := Served(w, maker, l, t, m);
      var e := HeadExecution(w.book, side, l, t, taker);
      ReplayStep(a, w.book, side, limit, l, qty, t, taker);
      var r := ApplyOne(a, taker, e);
      ServedIs(w, maker, l, t, m);
      ConsumeShape(w.book, maker, l, t);
      ConsumeWellFormed(w.book, maker, l, t);
      ReplayAll(r, v, side, limit, qty - t, taker, m);
      var p := MatchAt(v, side, limit, qty - t, taker, m);
      ApplyCons(a, taker, e, p.execs, a.orders[taker]);
      ImprovementsSame(a.orders[taker], r.orders[taker], p.execs);
      SameThrough(a.orders[taker], r.orders[taker], ApplyAll(r, taker, p.execs).orders[taker]);
    }
  }

  lemma TakerExists(a: Accounts, taker: nat)
    requires Owned(a, taker)
    ensures taker < |a.orders| && a.orders[taker].user < |a.users|
  {}

  // ---- Who gains and pays what ---------------------------------------------------------------

  /** The user who owns the maker of an execution, or none. */
  predicate OwnsMaker(orders: seq<LiveOrder>, e: Execution, u: nat) {
    0 <= e.makerId < |orders| && orders[e.makerId].user == u
  }

  /**
   * What u's quote gains by an execution of a taker of this user, side and limit: the
   * owner of the maker is paid by a buy taker and pays a sell taker; a buy taker pays the
   * notional and is credited with what it had locked beyond it.
   */
  function QuoteGain(orders: seq<LiveOrder>, side: Side, taker: nat, limit: int, e: Execution, u: nat): int {
    var notional, locked := e.price * e.qty, limit * e.qty;
    (if OwnsMaker(orders, e, u) then (if side == Buy then notional else -notional) else 0)
    + (if taker == u then (if side == Buy then (locked - notional) - notional else notional) else 0)
  }

  /** What u's base gains: the seller's base goes to the buyer. */
  function BaseGain(orders: seq<LiveOrder>, side: Side, taker: nat, e: Execution, u: nat): int {
    var t: int := e.qty;
    (if OwnsMaker(orders, e, u) then (if side == Buy then -t else t) else 0)
    + (if taker == u then (if side == Buy then t else -t) else 0)
  }

  function QuoteGained(orders: seq<LiveOrder>, side: Side, taker: nat, limit: int, es: seq<Execution>, u: nat): int {
    if es == [] then 0
    else QuoteGain(orders, side, taker, limit, es[0], u) + QuoteGained(orders, side, taker, limit, es[1..], u)
  }

  function BaseGained(orders: seq<LiveOrder>, side: Side, taker: nat, es: seq<Execution>, u: nat): int {
    if es == [] then 0
    else BaseGain(orders, side, taker, es[0], u) + BaseGained(orders, side, taker, es[1..], u)
  }

  /** No maker of the executions belongs to u. */
  predicate NotMaker(orders: seq<LiveOrder>, es: seq<Execution>, u: nat) {
    forall k :: 0 <= k < |es| ==> !OwnsMaker(orders, es[k], u)
  }

  lemma GainedCons(orders: seq<LiveOrder>, side: Side, taker: nat, limit: int, e: Execution, es: seq<Execution>, u: nat)
    ensures QuoteGained(orders, side, taker, limit, [], u) == 0 && BaseGained(orders, side, taker, [], u) == 0
    ensures QuoteGained(orders, side, taker, limit, [e] + es, u)
         == QuoteGain(orders, side, taker, limit, e, u) + QuoteGained(orders, side, taker, limit, es, u)
    ensures BaseGained(orders, side, taker, [e] + es, u)
         == BaseGain(orders, side, taker, e, u) + BaseGained(orders, side, taker, es, u)
    ensures NotMaker(orders, [e] + es, u) ==> !OwnsMaker(orders, e, u) && NotMaker(orders, es, u)
  {
    var all := [e] + es;
    assert all[1..] == es && all[0] == e;
    assert forall k :: 0 <= k < |es| ==> es[k] == all[k + 1];
  }

  /** The same orders, whatever has been filled of them. */
  predicate SameOrders(os: seq<LiveOrder>, ps: seq<LiveOrder>) {
    |os| == |ps| && forall i :: 0 <= i < |os| ==> SameOrder(os[i], ps[i])
  }

  lemma {:induction false} GainedSame(os: seq<LiveOrder>, ps: seq<LiveOrder>, side: Side, taker: nat, limit: int,
                                      es: seq<Execution>, u: nat)
    requires SameOrders(os, ps)
    ensures QuoteGained(os, side, taker, limit, es, u) == QuoteGained(ps, side, taker, limit, es, u)
    ensures BaseGained(os, side, taker, es, u) == BaseGained(ps, side, taker, es, u)
    ensures NotMaker(os, es, u) == NotMaker(ps, es, u)
  {
    assert forall e: Execution :: OwnsMaker(os, e, u) == OwnsMaker(ps, e, u);
    hide SameOrders, OwnsMaker;
    assert es != [] ==> QuoteGain(os, side, taker, limit, es[0], u) == QuoteGain(ps, side, taker, limit, es[0], u);
    if es != [] {
      GainedSame(os, ps, side, taker, limit, es[1..], u);
    }
  }

  /** The balances of u after one execution. */
  lemma OneGain(a: Accounts, taker: nat, e: Execution, side: Side, limit: int, qty: nat, u: nat)
    requires Owned(a, taker) && Sensible(a, taker, e) && Taking(a.orders, taker, side, limit, qty) && u < |a.users|
    ensures var x, y, user := a.users[u], ApplyOne(a, taker, e).users[u], a.orders[taker].user;
      && y.quote == x.quote + QuoteGain(a.orders, side, user, limit, e, u)
      && y.base == x.base + BaseGain(a.orders, side, user, e, u)
      && (!OwnsMaker(a.orders, e, u) && user != u ==> y == x)
  {
    ApplyOneUsers(a, taker, e, u);
    hide ApplyOne;
    if side == Buy {
      NotionalCovered(limit, e.price, e.qty);
    }
    assert a.orders[e.makerId].limitPrice * e.qty == e.price * e.qty;
  }

  lemma OneSame(a: Accounts, taker: nat, e: Execution)
    requires Owned(a, taker) && Sensible(a, taker, e)
    ensures SameOrders(a.orders, ApplyOne(a, taker, e).orders)
  {}

  lemma SameOrdersThrough(os: seq<LiveOrder>, ps: seq<LiveOrder>, qs: seq<LiveOrder>)
    requires SameOrders(os, ps) && SameOrders(ps, qs)
    ensures SameOrders(os, qs)
  {}

  lemma SameOrdersSelf(os: seq<LiveOrder>)
    ensures SameOrders(os, os)
  {}

  /**
   * Replaying a matching moves to every user exactly what the executions say, leaves alone
   * who has no part in them, and changes no order's owner, side or limit.
   */
  lemma {:induction false} ReplayGains(a: Accounts, w: View, side: Side, limit: int, qty: nat, taker: nat, m: nat,
                                       u: nat)
    requires Coherent(w) && WellFormed(w.book) && Positive(w.book) && m > 0 && w.book.lo >= 0
    requires AccountsOk(a) && Owned(a, taker) && u < |a.users|
    requires Synced(a.orders, w.book, taker) && Taking(a.orders, taker, side, limit, qty)
    ensures taker < |a.orders|
    ensures var es, user := MatchAt(w, side, limit, qty, taker, m).execs, a.orders[taker].user;
      var r := ApplyAll(a, taker, es);
      && SameOrders(a.orders, r.orders)
      && r.users[u].quote == a.users[u].quote + QuoteGained(a.orders, side, user, limit, es, u)
      && r.users[u].base == a.users[u].base + BaseGained(a.orders, side, user, es, u)
      && (user != u && NotMaker(a.orders, es, u) ==> r.users[u] == a.users[u])
    decreases qty
  {
    hide *;
    MatchAtUnfolds(w, side, limit, qty, taker, m);
    TakerExists(a, taker);
    var user := a.orders[taker].user;
    if MatchEnds(w.shown, side, limit, qty) {
      ApplyNone(a, taker, a.orders[taker]);
      GainedCons(a.orders, side, user, limit, Execution(side, taker, side, 0, 0, 0), [], u);
      SameOrdersSelf(a.orders);
    } else {
      var maker, l := side.Opposite(), Best(w.shown, side.Opposite());
      var t := Min(qty, Queue(w.book, maker, l)[0].qty);
      MinBelow(qty, Queue(w.book, maker, l)[0].qty);
      var v := Served(w, maker, l, t, m);
      HeadIs(w.book, side, l, t, taker);
      var e := HeadExecution(w.book, side, l, t, taker);
      HeadIsSensible(a, w.book, side, limit, l, qty, t, taker);
      ReplayStep(a, w.book, side, limit, l, qty, t, taker);
      var r := ApplyOne(a, taker, e);
      ServedIs(w, maker, l, t, m);
      ConsumeShape(w.book, maker, l, t);
      ConsumeWellFormed(w.book, maker, l, t);
      ReplayGains(r, v, side, limit, qty - t, taker, m, u);
      var es := MatchAt(v, side, limit, qty - t, taker, m).execs;
      ApplyCons(a, taker, e, es, a.orders[taker]);
      OneGain(a, taker, e, side, limit, qty, u);
      OneSame(a, taker, e);
      GainedSame(a.orders, r.orders, side, user, limit, es, u);
      GainedCons(a.orders, side, user, limit, e, es, u);
      SameOrdersThrough(a.orders, r.orders, ApplyAll(r, taker, es).orders);
      SameOwner(a.orders, r.orders, taker);
    }
  }

  lemma MinBelow(x: nat, y: nat)
    ensures Min(x, y) <= x && Min(x, y) <= y
  {}

  lemma HeadIs(b: Book, side: Side, l: int, t: nat, taker: int)
    requires Queue(b, side.Opposite(), l) != []
    ensures HeadExecution(b, side, l, t, taker)
         == Execution(side, taker, side.Opposite(), Queue(b, side.Opposite(), l)[0].id, b.lo + l, t)
  {}

  lemma SameOwner(os: seq<LiveOrder>, ps: seq<LiveOrder>, i: nat)
    requires SameOrders(os, ps) && i < |os|
    ensures ps[i].user == os[i].user
  {}
}
