/**
 * The wrapper's operations on the pure ledger and abstract book, and their laws:
 * table and book agree, locks are exact, base is always covered, rejected orders
 * leave nothing behind, and totals move only by deposits and price improvement.
 */
module ExchangeSpec {
  import opened Wrappers
  import opened PriceTimeBook
  import opened BookLaws
  import opened IndexedBook
  import opened Widths
  import opened Ledger
  import opened Replay

  const PRICE_MIN := 10000
  const PRICE_MAX := 30000
  const MAX_ORDERS: nat := 1000000
  const QTY_MODULUS: nat := 0x1_0000_0000

  datatype World = World(accounts: Accounts, view: View)

  ghost predicate IdsBelow(b: Book, n: nat) {
    forall s: Side, l: int, id: int :: HasId(Queue(b, s, l), id) ==> id < n
  }

  ghost predicate ViewOk(v: View) {
    && Steady(v) && IdsBelow(v.book, MAX_ORDERS)
    && v.book.lo == PRICE_MIN && Levels(v.book) == PRICE_MAX - PRICE_MIN + 1
  }

  /** What every reachable state of the exchange satisfies, whether level totals have wrapped or not. */
  ghost predicate Good(w: World) {
    && ViewOk(w.view) && AccountsOk(w.accounts) && |w.accounts.orders| >= 1
    && Synced(w.accounts.orders, w.view.book, -1)
  }

  // ---- Operations -----------------------------------------------------------------------

  function Closed(o: LiveOrder): LiveOrder {
    o.(active := false, remaining := 0, lockedQuote := 0, lockedBase := 0)
  }

  function NewOrder(side: Side, user: nat, price: int, qty: nat): LiveOrder {
    if side == Buy then LiveOrder(true, user, true, price, qty, price * qty, 0)
    else LiveOrder(true, user, false, price, qty, 0, qty)
  }

  predicate Affordable(x: User, side: Side, price: int, qty: nat) {
    if side == Buy then x.quote - x.lockedQuote >= price * qty else x.base - x.lockedBase >= qty
  }

  /** The ledger with an order's funds locked and the order entered as active. */
  function Opened(a: Accounts, side: Side, user: nat, price: int, qty: nat): Accounts
    requires user < |a.users|
  {
    var o := NewOrder(side, user, price, qty);
    Accounts(Adjust(a.users, user, 0, 0, o.lockedQuote, o.lockedBase), a.orders + [o])
  }

  ghost function Cancel(w: World, user: nat, id: nat, expectBid: bool): (World, bool)
    requires Coherent(w.view)
  {
    var a := w.accounts;
    if user >= |a.users| || id == 0 || id >= |a.orders| then (w, false)
    else
      var o := a.orders[id];
      if !o.active || o.user != user || o.isBid != expectBid then (w, false)
      else if !(id < MAX_ORDERS && Resting(w.view.book, id)) then (w, false)
      else
        (World(Accounts(Adjust(a.users, user, 0, 0, if o.isBid then -o.lockedQuote else 0,
                               if o.isBid then 0 else -o.lockedBase),
                        a.orders[id := Closed(o)]),
               RemoveAt(w.view, id, QTY_MODULUS)), true)
  }

  ghost function Submit(w: World, side: Side, user: nat, price: int, qty: nat, discard: bool): (World, Option<nat>)
    requires Good(w)
  {
    var a := w.accounts;
    if user >= |a.users| || qty == 0 || !Affordable(a.users[user], side, price, qty) then (w, None)
    else
      var id := |a.orders|;
      ViewOkFacts(w.view);
      var o := ProcessAt(w.view, MAX_ORDERS, side, price, qty, id, QTY_MODULUS);
      if !o.accepted then
        (World(Accounts(a.users, a.orders + [Closed(NewOrder(side, user, price, qty))]), o.view), None)
      else
        OpenedOk(w, side, user, price, qty);
        SubmitCoherent(w, side, price, qty);
        var filled := World(ApplyAll(Opened(a, side, user, price, qty), id, o.execs), o.view);
        if discard && filled.accounts.orders[id].active
        then (Cancel(filled, user, id, side == Buy).0, Some(id))
        else (filled, Some(id))
  }

  /** Negative quote deltas are checked against the balance, whatever is locked; base only grows. */
  function Deposit(w: World, user: nat, quoteDelta: int, baseDelta: nat): (World, bool) {
    var a := w.accounts;
    if user >= |a.users| then (w, false)
    else if quoteDelta < 0 && a.users[user].quote + quoteDelta < 0 then (w, false)
    else (w.(accounts := a.(users := Adjust(a.users, user, quoteDelta, baseDelta, 0, 0))), true)
  }

  function MakeUser(w: World): World {
    w.(accounts := w.accounts.(users := w.accounts.users + [User(0, 0, 0, 0)]))
  }

  // ---- Opening an order ------------------------------------------------------------------

  lemma AdjustAt(users: seq<User>, u: nat, dq: int, db: int, dlq: int, dlb: int, v: nat)
    requires u < |users| && v < |users|
    ensures var x := users[v];
      Adjust(users, u, dq, db, dlq, dlb)[v]
      == if v == u then User(x.quote + dq, x.base + db, x.lockedQuote + dlq, x.lockedBase + dlb) else x
  {}

  lemma OpenedAccounts(a: Accounts, side: Side, user: nat, price: int, qty: nat)
    requires AccountsOk(a) && user < |a.users| && qty > 0 && Affordable(a.users[user], side, price, qty)
    ensures AccountsOk(Opened(a, side, user, price, qty))
    ensures QuoteSolvent(a) ==> QuoteSolvent(Opened(a, side, user, price, qty))
  {
    hide QuoteLocks, BaseLocks, Adjust;
    var r, o := Opened(a, side, user, price, qty), NewOrder(side, user, price, qty);
    forall i | 0 <= i < |r.orders| ensures LocksOk(r.orders[i], |r.users|) {
      assert i < |a.orders| ==> LocksOk(a.orders[i], |a.users|);
    }
    forall u: nat | u < |r.users| ensures UserOk(r.users[u], r.orders, u) {
      assert UserOk(a.users[u], a.orders, u);
      LocksAppend(a.orders, o, u);
      AdjustAt(a.users, user, 0, 0, o.lockedQuote, o.lockedBase, u);
    }
    if QuoteSolvent(a) {
      forall u: nat | u < |r.users| ensures r.users[u].lockedQuote <= r.users[u].quote {
        AdjustAt(a.users, user, 0, 0, o.lockedQuote, o.lockedBase, u);
      }
    }
  }

  lemma SyncedAppend(orders: seq<LiveOrder>, b: Book, o: LiveOrder)
    requires Synced(orders, b, -1)
    ensures Synced(orders + [o], b, |orders|)
  {
    var orders' := orders + [o];
    forall s: Side, l: int, e: Entry | e in Queue(b, s, l) ensures Backed(orders', b, s, l, e) && e.id != |orders| {
      assert Backed(orders, b, s, l, e);
    }
    forall i | 0 <= i < |orders'| && i != |orders| && orders'[i].active ensures Listed(orders'[i], i, b) {
      assert Listed(orders[i], i, b);
    }
  }

  lemma OpenedOk(w: World, side: Side, user: nat, price: int, qty: nat)
    requires Good(w) && user < |w.accounts.users| && qty > 0 && Affordable(w.accounts.users[user], side, price, qty)
    ensures var r, id := Opened(w.accounts, side, user, price, qty), |w.accounts.orders|;
      && AccountsOk(r) && Owned(r, id) && Synced(r.orders, w.view.book, id) && Taking(r.orders, id, side, price, qty)
      && (QuoteSolvent(w.accounts) ==> QuoteSolvent(r))
  {
    OpenedAccounts(w.accounts, side, user, price, qty);
    SyncedAppend(w.accounts.orders, w.view.book, NewOrder(side, user, price, qty));
    AccountsOwned(Opened(w.accounts, side, user, price, qty), |w.accounts.orders|);
  }

  // ---- Cancelling -----------------------------------------------------------------------------

  lemma InWithout(q: seq<Entry>, id: int, e: Entry)
    ensures e in Without(q, id) <==> e in q && e.id != id
  {
    if q != [] {
      InWithout(q[1..], id, e);
      assert q == [q[0]] + q[1..];
    }
  }

  lemma InRemove(b: Book, id: int, s: Side, l: int, e: Entry)
    ensures e in Queue(Remove(b, id), s, l) <==> e in Queue(b, s, l) && e.id != id
  {
    assert Queue(Remove(b, id), s, l) == Without(Queue(b, s, l), id);
    InWithout(Queue(b, s, l), id, e);
  }

  lemma RemoveLo(b: Book, id: int)
    ensures Remove(b, id).lo == b.lo
  {}

  lemma RemoveKeepsSync(orders: seq<LiveOrder>, b: Book, id: nat, o: LiveOrder)
    requires Synced(orders, b, -1) && id < |orders| && !o.active
    ensures Synced(orders[id := o], Remove(b, id), -1)
  {
    hide Queue, Remove;
    var c := Remove(b, id);
    assert c.lo == b.lo by {
      RemoveLo(b, id);
    }
    forall s: Side, l: int, e: Entry | e in Queue(c, s, l)
      ensures Backed(orders[id := o], c, s, l, e) && e.id != -1
    {
      InRemove(b, id, s, l, e);
      assert Backed(orders, b, s, l, e);
    }
    forall i | 0 <= i < |orders| && orders[id := o][i].active ensures Listed(orders[i], i, c) {
      assert Listed(orders[i], i, b);
      InRemove(b, id, SideOf(orders[i]), orders[i].limitPrice - b.lo, Entry(i, orders[i].remaining));
    }
  }

  lemma RemoveKeepsViewOk(v: View, id: int)
    requires ViewOk(v)
    ensures Coherent(v) && ViewOk(RemoveAt(v, id, QTY_MODULUS))
      && RemoveAt(v, id, QTY_MODULUS).book == Remove(v.book, id)
  {
    RemoveAtKeeps(v, id, QTY_MODULUS);
    hide RemoveAt, Steady;
    SteadyParts(v);
    RemoveAtShape(v, id, QTY_MODULUS);
    PositiveLevels(v.book);
    RemoveShrinks(v.book, id);
    ShrinksIds(v.book, Remove(v.book, id), MAX_ORDERS);
  }

  /** An active order rests under its id, so the engine's cancel cannot fail. */
  lemma ActiveIsResting(w: World, id: nat)
    requires Good(w) && id < |w.accounts.orders| && w.accounts.orders[id].active
    ensures 0 < id < MAX_ORDERS && Resting(w.view.book, id)
  {
    var o := w.accounts.orders[id];
    assert Listed(o, id, w.view.book);
    var s, l, e := SideOf(o), o.limitPrice - w.view.book.lo, Entry(id, o.remaining);
    assert Backed(w.accounts.orders, w.view.book, s, l, e);
    var k :| 0 <= k < |Queue(w.view.book, s, l)| && Queue(w.view.book, s, l)[k] == e;
    assert HasId(Queue(w.view.book, s, l), id);
  }

  predicate OwnActive(a: Accounts, user: nat, id: nat, expectBid: bool) {
    && user < |a.users| && id < |a.orders| && a.orders[id].active
    && a.orders[id].user == user && a.orders[id].isBid == expectBid
  }

  /** The ledger with an order closed and its lock released. */
  function Released(a: Accounts, user: nat, id: nat): Accounts
    requires user < |a.users| && id < |a.orders|
  {
    var o := a.orders[id];
    Accounts(Adjust(a.users, user, 0, 0, if o.isBid then -o.lockedQuote else 0, if o.isBid then 0 else -o.lockedBase),
             a.orders[id := Closed(o)])
  }

  /** Nobody's balance changes, and only this user's locks, by what was locked for the order. */
  ghost predicate OnlyUnlocked(us: seq<User>, vs: seq<User>, user: nat, o: LiveOrder) {
    && |vs| == |us|
    && forall u :: 0 <= u < |us| ==>
         && vs[u].quote == us[u].quote && vs[u].base == us[u].base
         && vs[u].lockedQuote == us[u].lockedQuote - (if u == user then o.lockedQuote else 0)
         && vs[u].lockedBase == us[u].lockedBase - (if u == user then o.lockedBase else 0)
  }

  lemma OnlyLocksAdjusted(us: seq<User>, user: nat, o: LiveOrder, dq: int, db: int)
    requires user < |us| && dq == -o.lockedQuote && db == -o.lockedBase
    ensures OnlyUnlocked(us, Adjust(us, user, 0, 0, dq, db), user, o)
  {}

  lemma CancelAccounts(a: Accounts, user: nat, id: nat)
    requires AccountsOk(a) && user < |a.users| && id < |a.orders| && a.orders[id].user == user
    ensures var o, r := a.orders[id], Released(a, user, id);
      && AccountsOk(r) && r.orders == a.orders[id := Closed(o)] && OnlyUnlocked(a.users, r.users, user, o)
      && (QuoteSolvent(a) ==> o.limitPrice < 0 || QuoteSolvent(r))
      && TotalBase(r.users) == TotalBase(a.users) && TotalQuote(r.users) == TotalQuote(a.users)
  {
    hide QuoteLocks, BaseLocks, Adjust, TotalBase, TotalQuote;
    var o := a.orders[id];
    assert LocksOk(o, |a.users|);
    var dq, db := if o.isBid then -o.lockedQuote else 0, if o.isBid then 0 else -o.lockedBase;
    var r := Released(a, user, id);
    AdjustTotals(a.users, user, 0, 0, dq, db);
    forall i | 0 <= i < |r.orders| ensures LocksOk(r.orders[i], |r.users|) {
      assert LocksOk(a.orders[i], |a.users|);
    }
    forall u: nat | u < |r.users| ensures UserOk(r.users[u], r.orders, u) {
      assert UserOk(a.users[u], a.orders, u);
      LocksUpdate(a.orders, id, Closed(o), u);
      AdjustAt(a.users, user, 0, 0, dq, db, u);
    }
    assert OnlyUnlocked(a.users, r.users, user, o) by {
      forall u: nat | u < |a.users| ensures r.users[u] == Adjust(a.users, user, 0, 0, dq, db)[u] {
        AdjustAt(a.users, user, 0, 0, dq, db, u);
      }
      OnlyLocksAdjusted(a.users, user, o, dq, db);
    }
    if QuoteSolvent(a) && o.limitPrice >= 0 {
      NotionalCovered(o.limitPrice, 0, o.remaining);
      forall u: nat | u < |r.users| ensures r.users[u].lockedQuote <= r.users[u].quote {
        AdjustAt(a.users, user, 0, 0, dq, db, u);
      }
    }
  }

  lemma CancelCases(w: World, user: nat, id: nat, expectBid: bool)
    requires Good(w)
    ensures Coherent(w.view)
    ensures Cancel(w, user, id, expectBid)
         == if OwnActive(w.accounts, user, id, expectBid)
            then (World(Released(w.accounts, user, id), RemoveAt(w.view, id, QTY_MODULUS)), true) else (w, false)
  {
    hide AccountsOk, Adjust, Closed, Coherent, Good, Hi, Levels, Positive, RemoveAt, Resting, Steady, Synced;
    hide ViewOk, WellFormed;
    GoodParts(w);
    ViewOkFacts(w.view);
    if OwnActive(w.accounts, user, id, expectBid) {
      ActiveIsResting(w, id);
    }
  }

  lemma CloseIsInactive(o: LiveOrder)
    ensures !Closed(o).active && WithdrawnFrom(o, Closed(o))
  {}

  /** What a cancel leaves of its order: the same owner, side and limit, nothing open and nothing locked. */
  predicate WithdrawnFrom(o: LiveOrder, o': LiveOrder) {
    && SameOrder(o, o') && !o'.active && o'.remaining == 0 && o'.lockedQuote == 0 && o'.lockedBase == 0
  }

  /**
   * A cancel succeeds exactly on the caller's own active order of that side. It then takes
   * that order out of table and book and releases its lock; no balance, no other user's
   * lock and no other order changes. A cancel that fails changes nothing.
   */
  lemma CancelKeepsGood(w: World, user: nat, id: nat, expectBid: bool)
    requires Good(w)
    ensures Coherent(w.view)
    ensures var a, (w', ok) := w.accounts, Cancel(w, user, id, expectBid);
      && (ok <==> user < |a.users| && id < |a.orders| && a.orders[id].active
                  && a.orders[id].user == user && a.orders[id].isBid == expectBid)
      && Good(w') && (!ok ==> w' == w)
      && (ok ==> OnlyUnlocked(a.users, w'.accounts.users, user, a.orders[id]))
      && (ok ==> var os := w'.accounts.orders;
                 && |os| == |a.orders| && WithdrawnFrom(a.orders[id], os[id])
                 && os == a.orders[id := os[id]])
      && (ok ==> w'.view == RemoveAt(w.view, id, QTY_MODULUS) && w'.view.book == Remove(w.view.book, id))
      && (QuoteSolvent(a) ==> QuoteSolvent(w'.accounts))
      && TotalBase(w'.accounts.users) == TotalBase(a.users)
      && TotalQuote(w'.accounts.users) == TotalQuote(a.users)
  {
    hide AccountsOk, Cancel, Closed, Coherent, Good, QuoteSolvent, Released, Remove, RemoveAt, Synced;
    hide OnlyUnlocked, TotalBase, TotalQuote, ViewOk, WithdrawnFrom;
    CancelCases(w, user, id, expectBid);
    GoodParts(w);
    var a := w.accounts;
    if OwnActive(a, user, id, expectBid) {
      ActivePrice(w, id);
      PricesPositive();
      CancelAccounts(a, user, id);
      CloseIsInactive(a.orders[id]);
      RemoveKeepsSync(a.orders, w.view.book, id, Closed(a.orders[id]));
      RemoveKeepsViewOk(w.view, id);
      GoodWhole(World(Released(a, user, id), RemoveAt(w.view, id, QTY_MODULUS)));
    }
  }

  lemma PricesPositive()
    ensures PRICE_MIN > 0
  {}

  lemma ActivePrice(w: World, id: nat)
    requires Good(w) && id < |w.accounts.orders| && w.accounts.orders[id].active
    ensures PRICE_MIN <= w.accounts.orders[id].limitPrice <= PRICE_MAX
  {
    assert Listed(w.accounts.orders[id], id, w.view.book);
  }

  lemma {:induction false} LocksNonNegative(orders: seq<LiveOrder>, u: nat)
    requires forall i :: 0 <= i < |orders| ==> orders[i].lockedQuote >= 0 && orders[i].lockedBase >= 0
    ensures QuoteLocks(orders, u) >= 0 && BaseLocks(orders, u) >= 0
  {
    if orders != [] {
      LocksNonNegative(orders[..|orders| - 1], u);
    }
  }

  /**
   * Base is always solvent: every user's locked base is between zero and the balance; locked
   * quote is never negative.
   */
  lemma Solvent(w: World, u: nat)
    requires Good(w) && u < |w.accounts.users|
    ensures var x := w.accounts.users[u];
      0 <= x.lockedBase <= x.base && 0 <= x.lockedQuote
  {
    hide QuoteLocks, BaseLocks, Synced, ViewOk;
    var orders := w.accounts.orders;
    forall i | 0 <= i < |orders| ensures orders[i].lockedQuote >= 0 && orders[i].lockedBase >= 0 {
      assert LocksOk(orders[i], |w.accounts.users|);
      if orders[i].active {
        ActivePrice(w, i);
        NotionalCovered(orders[i].limitPrice, 0, orders[i].remaining);
      }
    }
    LocksNonNegative(orders, u);
    assert UserOk(w.accounts.users[u], orders, u);
  }

  // ---- Submitting ----------------------------------------------------------------------------

  lemma NextIdIsFresh(w: World)
    requires Good(w)
    ensures !Resting(w.view.book, |w.accounts.orders|)
  {
    forall s: Side, l: int, k: int | 0 <= k < |Queue(w.view.book, s, l)|
      ensures Queue(w.view.book, s, l)[k].id < |w.accounts.orders|
    {
      assert Backed(w.accounts.orders, w.view.book, s, l, Queue(w.view.book, s, l)[k]);
    }
  }

  lemma ShrinksIds(b: Book, c: Book, n: nat)
    requires Shrinks(b, c) && IdsBelow(b, n)
    ensures IdsBelow(c, n)
  {}

  lemma RestIds(b: Book, s: Side, l: int, e: Entry, n: nat)
    requires 0 <= l < |LadderOf(b, s)| && IdsBelow(b, n) && e.id < n
    ensures IdsBelow(Rest(b, s, l, e), n)
  {
    var c := Rest(b, s, l, e);
    forall s': Side, l': int, x: int | HasId(Queue(c, s', l'), x) ensures x < n {
      RestQueues(b, s, l, e, s', l');
      HasIdAppend(Queue(b, s', l'), e, x);
      assert Queue(b, s', l') + [] == Queue(b, s', l');
      assert x == e.id || HasId(Queue(b, s', l'), x);
    }
  }

  /** What process_order does under an inactive id. */
  lemma ProcessFresh(v: View, side: Side, price: int, qty: nat, id: int)
    requires Steady(v) && !Resting(v.book, id)
    ensures Coherent(v) && WellFormed(v.book) && Positive(v.book)
    ensures var r, o := MatchAt(v, side, price, qty, id, QTY_MODULUS),
      ProcessAt(v, MAX_ORDERS, side, price, qty, id, QTY_MODULUS);
      && (o.accepted <==> GoodArguments(v.book, MAX_ORDERS, price, qty, id))
      && (!o.accepted ==> o.view == v && o.execs == [])
      && Shrinks(v.book, r.view.book) && Coherent(r.view) && r.view.book.lo == v.book.lo && !Resting(r.view.book, id)
      && (o.accepted ==>
            && o.execs == r.execs
            && 0 <= price - v.book.lo < |LadderOf(r.view.book, side)| == |LadderOf(r.view.shown, side)|
            && o.view == if r.rest == 0 then r.view else Joined(r.view, side, price - v.book.lo, Entry(id, r.rest)))
  {
    hide Coherent, GoodArguments, Joined, LadderOf, Levels, MatchAt, MatchEnds, Positive, Resting, ShowsLess;
    hide Shrinks, Steady, Uncrossed, UniqueIds, Volume, WellFormed;
    SteadyParts(v);
    MatchAtLeaves(v, side, price, qty, id, QTY_MODULUS);
    MatchAtShape(v, side, price, qty, id, QTY_MODULUS);
    if GoodArguments(v.book, MAX_ORDERS, price, qty, id) {
      PriceOnLadder(v.book, MAX_ORDERS, side, price, qty, id);
    }
    if Resting(MatchAt(v, side, price, qty, id, QTY_MODULUS).view.book, id) {
      ShrinksResting(v.book, MatchAt(v, side, price, qty, id, QTY_MODULUS).view.book, id);
    }
  }

  lemma ProcessKeepsViewOk(v: View, side: Side, price: int, qty: nat, id: int)
    requires ViewOk(v) && !Resting(v.book, id) && GoodArguments(v.book, MAX_ORDERS, price, qty, id)
    ensures Coherent(v) && WellFormed(v.book)
    ensures ViewOk(ProcessAt(v, MAX_ORDERS, side, price, qty, id, QTY_MODULUS).view)
  {
    hide ProcessAt, MatchAt, Steady, Resting, IdsBelow, Shrinks, Joined, Coherent;
    ProcessAtKeeps(v, MAX_ORDERS, side, price, qty, id, QTY_MODULUS);
    ProcessFresh(v, side, price, qty, id);
    var r := MatchAt(v, side, price, qty, id, QTY_MODULUS);
    ShrinksIds(v.book, r.view.book, MAX_ORDERS);
    if r.rest > 0 {
      JoinedQueues(r.view, side, price - v.book.lo, Entry(id, r.rest), side, 0);
      RestIds(r.view.book, side, price - v.book.lo, Entry(id, r.rest), MAX_ORDERS);
    }
  }

  lemma ViewOkFacts(v: View)
    requires ViewOk(v)
    ensures Coherent(v) && WellFormed(v.book) && Positive(v.book) && Steady(v)
    ensures v.book.lo == v.shown.lo == PRICE_MIN >= 0 && Levels(v.book) == PRICE_MAX - PRICE_MIN + 1
      && Hi(v.book) == PRICE_MAX
  {}

  lemma SubmitCoherent(w: World, side: Side, price: int, qty: nat)
    requires Good(w)
    ensures Coherent(w.view) && WellFormed(w.view.book)
    ensures Coherent(ProcessAt(w.view, MAX_ORDERS, side, price, qty, |w.accounts.orders|, QTY_MODULUS).view)
  {
    ViewOkFacts(w.view);
    ProcessAtKeeps(w.view, MAX_ORDERS, side, price, qty, |w.accounts.orders|, QTY_MODULUS);
    hide ProcessAt;
  }

  /** A filled taker leaves table and book in full agreement. */
  lemma SyncFilled(orders: seq<LiveOrder>, b: Book, taker: nat)
    requires Synced(orders, b, taker) && taker < |orders| && !orders[taker].active
    ensures Synced(orders, b, -1)
  {
    forall s: Side, l: int, e: Entry | e in Queue(b, s, l) ensures Backed(orders, b, s, l, e) && e.id != -1 {
      assert Backed(orders, b, s, l, e);
    }
  }

  /** A taker whose remainder has been rested is in the book like any other order. */
  lemma SyncRested(orders: seq<LiveOrder>, b: Book, taker: nat, side: Side, price: int, rest: nat)
    requires Synced(orders, b, taker) && Taking(orders, taker, side, price, rest) && orders[taker].active && taker > 0
    requires 0 <= price - b.lo < |LadderOf(b, side)|
    ensures Synced(orders, Rest(b, side, price - b.lo, Entry(taker, rest)), -1)
  {
    hide Backed, LadderOf, Listed, Queue, Rest, Taking;
    var x := Entry(taker, rest);
    var c := Rest(b, side, price - b.lo, x);
    forall s: Side, l: int, e: Entry | e in Queue(c, s, l) ensures Backed(orders, c, s, l, e) && e.id != -1 {
      InRest(b, side, price - b.lo, x, s, l, e);
      if e in Queue(b, s, l) {
        assert Backed(orders, b, s, l, e);
        BackedRange(orders, b, s, l, e);
        BackedRest(orders, b, side, price - b.lo, x, s, l, e);
      } else {
        BackedTaker(orders, b, side, price, x);
      }
    }
    forall i | 0 <= i < |orders| && orders[i].active ensures Listed(orders[i], i, c) {
      ListedRest(orders, b, taker, side, price, rest, i);
    }
  }

  lemma InRest(b: Book, side: Side, level: int, x: Entry, s: Side, l: int, e: Entry)
    requires 0 <= level < |LadderOf(b, side)|
    ensures e in Queue(Rest(b, side, level, x), s, l) <==> e in Queue(b, s, l) || (s == side && l == level && e == x)
  {
    RestQueues(b, side, level, x, s, l);
    hide Rest, Queue;
  }

  lemma BackedRest(orders: seq<LiveOrder>, b: Book, side: Side, level: int, x: Entry, s: Side, l: int, e: Entry)
    requires 0 <= level < |LadderOf(b, side)| && Backed(orders, b, s, l, e)
    ensures Backed(orders, Rest(b, side, level, x), s, l, e)
  {
    RestShape(b, side, level, x);
    hide Rest;
  }

  lemma BackedTaker(orders: seq<LiveOrder>, b: Book, side: Side, price: int, x: Entry)
    requires 0 <= price - b.lo < |LadderOf(b, side)| && x.id > 0
    requires Taking(orders, x.id, side, price, x.qty) && orders[x.id].active
    ensures Backed(orders, Rest(b, side, price - b.lo, x), side, price - b.lo, x)
  {
    RestShape(b, side, price - b.lo, x);
    hide Rest;
  }

  lemma ListedRest(orders: seq<LiveOrder>, b: Book, taker: nat, side: Side, price: int, rest: nat, i: nat)
    requires Taking(orders, taker, side, price, rest) && 0 <= price - b.lo < |LadderOf(b, side)|
    requires i < |orders| && (i != taker ==> Listed(orders[i], i, b))
    ensures Listed(orders[i], i, Rest(b, side, price - b.lo, Entry(taker, rest)))
  {
    hide Rest, Queue, LadderOf;
    var o, x := orders[i], Entry(taker, rest);
    RestShape(b, side, price - b.lo, x);
    InRest(b, side, price - b.lo, x, SideOf(o), o.limitPrice - b.lo,
      Entry(i, if o.remaining >= 0 then o.remaining else 0));
  }

  /** The state of the exchange once an accepted order's executions have been replayed. */
  ghost function Replayed(w: World, side: Side, user: nat, price: int, qty: nat): World
    requires Good(w) && user < |w.accounts.users| && qty > 0 && Affordable(w.accounts.users[user], side, price, qty)
  {
    OpenedOk(w, side, user, price, qty);
    ViewOkFacts(w.view);
    var id := |w.accounts.orders|;
    var o := ProcessAt(w.view, MAX_ORDERS, side, price, qty, id, QTY_MODULUS);
    World(ApplyAll(Opened(w.accounts, side, user, price, qty), id, o.execs), o.view)
  }

  /** The matching of the submission that the exchange would make next. */
  ghost function Matching(w: World, side: Side, price: int, qty: nat): Settled
    requires Good(w)
  {
    ViewOkFacts(w.view);
    MatchAt(w.view, side, price, qty, |w.accounts.orders|, QTY_MODULUS)
  }

  lemma OpenedTotals(a: Accounts, side: Side, user: nat, price: int, qty: nat)
    requires user < |a.users|
    ensures TotalBase(Opened(a, side, user, price, qty).users) == TotalBase(a.users)
    ensures TotalQuote(Opened(a, side, user, price, qty).users) == TotalQuote(a.users)
  {
    hide TotalBase, TotalQuote, Adjust;
    var o := NewOrder(side, user, price, qty);
    AdjustTotals(a.users, user, 0, 0, o.lockedQuote, o.lockedBase);
  }

  /** The replay against the live table, for an order the wrapper has just opened. */
  lemma AcceptedReplay(w: World, side: Side, user: nat, price: int, qty: nat)
    requires Good(w) && user < |w.accounts.users| && qty > 0 && Affordable(w.accounts.users[user], side, price, qty)
    requires GoodArguments(w.view.book, MAX_ORDERS, price, qty, |w.accounts.orders|)
    ensures Coherent(w.view) && WellFormed(w.view.book)
    ensures var a, id, w' := w.accounts, |w.accounts.orders|, Replayed(w, side, user, price, qty);
      var p, o := Matching(w, side, price, qty), ProcessAt(w.view, MAX_ORDERS, side, price, qty, id, QTY_MODULUS);
      && o.accepted && o.execs == p.execs
      && Owned(Opened(a, side, user, price, qty), id)
      && AllSettle(Opened(a, side, user, price, qty), id, p.execs)
      && Good(w') && w'.view == o.view && (QuoteSolvent(a) ==> QuoteSolvent(w'.accounts))
      && Taking(w'.accounts.orders, id, side, price, p.rest) && w'.accounts.orders[id].user == user
      && |w'.accounts.users| == |a.users| && |w'.accounts.orders| == id + 1
      && TotalBase(w'.accounts.users) == TotalBase(a.users)
      && TotalQuote(w'.accounts.users)
         == TotalQuote(a.users) + Improvements(NewOrder(side, user, price, qty), p.execs)
  {
    hide AccountsOk, Affordable, AllSettle, ApplyAll, Coherent, Good, GoodArguments, Hi, Improvements;
    hide Joined, LadderOf, Levels, MatchAt, NewOrder, Opened, Owned, Positive, ProcessAt, Queue;
    hide QuoteSolvent, Replayed, Rest, Resting, Shrinks, Steady, Synced, Taking, TotalBase, TotalQuote;
    hide ViewOk, WellFormed;
    var a, id := w.accounts, |w.accounts.orders|;
    GoodParts(w);
    ViewOkFacts(w.view);
    var p, o := Matching(w, side, price, qty), ProcessAt(w.view, MAX_ORDERS, side, price, qty, id, QTY_MODULUS);
    NextIdIsFresh(w);
    ProcessFresh(w.view, side, price, qty, id);
    OpenedOk(w, side, user, price, qty);
    OpenedTotals(a, side, user, price, qty);
    OpenedShape(a, side, user, price, qty);
    ReplayAll(Opened(a, side, user, price, qty), w.view, side, price, qty, id, QTY_MODULUS);
    ProcessKeepsViewOk(w.view, side, price, qty, id);
    var r := ApplyAll(Opened(a, side, user, price, qty), id, p.execs);
    ReplayedIs(w, side, user, price, qty);
    if p.rest > 0 {
      JoinedQueues(p.view, side, price - w.view.book.lo, Entry(id, p.rest), side, 0);
    }
    TakerSynced(r, p.view.book, side, price, p.rest, id);
    GoodWhole(World(r, o.view));
    SameImprovements(a, side, user, price, qty, p.execs);
  }

  lemma GoodParts(w: World)
    requires Good(w)
    ensures ViewOk(w.view) && AccountsOk(w.accounts) && |w.accounts.orders| >= 1
      && Synced(w.accounts.orders, w.view.book, -1)
  {}

  lemma GoodWhole(w: World)
    requires ViewOk(w.view) && AccountsOk(w.accounts) && |w.accounts.orders| >= 1
      && Synced(w.accounts.orders, w.view.book, -1)
    ensures Good(w)
  {}

  lemma OpenedShape(a: Accounts, side: Side, user: nat, price: int, qty: nat)
    requires user < |a.users|
    ensures var r, id := Opened(a, side, user, price, qty), |a.orders|;
      && |r.orders| == id + 1 && |r.users| == |a.users|
      && r.orders[id] == NewOrder(side, user, price, qty) && r.orders[id].user == user
  {
    hide Adjust;
  }

  lemma SameImprovements(a: Accounts, side: Side, user: nat, price: int, qty: nat, es: seq<Execution>)
    requires user < |a.users|
    ensures |Opened(a, side, user, price, qty).orders| > |a.orders|
    ensures Improvements(Opened(a, side, user, price, qty).orders[|a.orders|], es)
         == Improvements(NewOrder(side, user, price, qty), es)
  {
    hide Improvements;
    OpenedShape(a, side, user, price, qty);
  }

  lemma ReplayedIs(w: World, side: Side, user: nat, price: int, qty: nat)
    requires Good(w) && user < |w.accounts.users| && qty > 0 && Affordable(w.accounts.users[user], side, price, qty)
    requires var id := |w.accounts.orders|;
      Coherent(w.view) && WellFormed(w.view.book) && Owned(Opened(w.accounts, side, user, price, qty), id)
    ensures var id := |w.accounts.orders|;
      var o := ProcessAt(w.view, MAX_ORDERS, side, price, qty, id, QTY_MODULUS);
      Replayed(w, side, user, price, qty)
        == World(ApplyAll(Opened(w.accounts, side, user, price, qty), id, o.execs), o.view)
  {
    hide ProcessAt, ApplyAll, Opened, Good, Coherent, WellFormed;
  }

  /** Once its remainder has been rested, or there is none, the taker agrees with the book too. */
  lemma TakerSynced(a: Accounts, b: Book, side: Side, price: int, rest: nat, id: nat)
    requires AccountsOk(a) && Synced(a.orders, b, id) && Taking(a.orders, id, side, price, rest) && id > 0
    requires 0 <= price - b.lo < |LadderOf(b, side)|
    ensures Synced(a.orders, if rest == 0 then b else Rest(b, side, price - b.lo, Entry(id, rest)), -1)
  {
    hide Synced, Rest, LadderOf;
    LocksOf(a, id);
    if rest == 0 {
      SyncFilled(a.orders, b, id);
    } else {
      SyncRested(a.orders, b, id, side, price, rest);
    }
  }

  /**
   * A rejected order: the user's funds, every other order and the book are as before. A
   * rejection by the engine uses up one id, an earlier one none.
   */
  lemma RejectedLeavesNothing(w: World, side: Side, user: nat, price: int, qty: nat, discard: bool)
    requires Good(w) && Submit(w, side, user, price, qty, discard).1.None?
    ensures var w' := Submit(w, side, user, price, qty, discard).0;
      && Good(w') && w'.view == w.view && w'.accounts.users == w.accounts.users
      && (QuoteSolvent(w.accounts) ==> QuoteSolvent(w'.accounts))
      && w.accounts.orders <= w'.accounts.orders
      && |w'.accounts.orders| == |w.accounts.orders|
           + (if user < |w.accounts.users| && qty > 0 && Affordable(w.accounts.users[user], side, price, qty)
              then 1 else 0)
      && forall i :: |w.accounts.orders| <= i < |w'.accounts.orders| ==> !w'.accounts.orders[i].active
  {
    var a := w.accounts;
    hide ProcessAt, ViewOk, QuoteLocks, BaseLocks, Resting, Cancel, ApplyAll, Opened;
    if user < |a.users| && qty > 0 && Affordable(a.users[user], side, price, qty) {
      ViewOkFacts(w.view);
      NextIdIsFresh(w);
      ProcessFresh(w.view, side, price, qty, |a.orders|);
      var o := Closed(NewOrder(side, user, price, qty));
      SyncedAppend(a.orders, w.view.book, o);
      SyncFilled(a.orders + [o], w.view.book, |a.orders|);
      AppendClosed(a, o);
    }
  }

  lemma AppendClosed(a: Accounts, o: LiveOrder)
    requires AccountsOk(a) && !o.active && o.remaining == 0 && o.lockedQuote == 0 && o.lockedBase == 0
    ensures AccountsOk(Accounts(a.users, a.orders + [o]))
  {
    hide QuoteLocks, BaseLocks;
    forall i | 0 <= i < |a.orders| + 1 ensures LocksOk((a.orders + [o])[i], |a.users|) {
      assert i < |a.orders| ==> LocksOk(a.orders[i], |a.users|);
    }
    forall u: nat | u < |a.users| ensures UserOk(a.users[u], a.orders + [o], u) {
      assert UserOk(a.users[u], a.orders, u);
      LocksAppend(a.orders, o, u);
    }
  }

  /** When a submission is accepted: the caller can check all of it beforehand. */
  predicate Accepts(w: World, side: Side, user: nat, price: int, qty: nat) {
    && user < |w.accounts.users| && qty > 0
    && (side == Buy ==> price * qty <= w.accounts.users[user].quote - w.accounts.users[user].lockedQuote)
    && (side == Sell ==> qty <= w.accounts.users[user].base - w.accounts.users[user].lockedBase)
    && PRICE_MIN <= price <= PRICE_MAX && |w.accounts.orders| < MAX_ORDERS
  }

  /** The quote a submission creates: the price improvement of what it trades. */
  ghost function Created(w: World, side: Side, user: nat, price: int, qty: nat): int
    requires Good(w)
  {
    if !Accepts(w, side, user, price, qty) then 0
    else Improvements(NewOrder(side, user, price, qty), Matching(w, side, price, qty).execs)
  }

  /** What a submission comes to: accepted exactly when Accepts says so, then replayed, then perhaps discarded. */
  lemma SubmitCases(w: World, side: Side, user: nat, price: int, qty: nat, discard: bool)
    requires Good(w)
    ensures var (w', id) := Submit(w, side, user, price, qty, discard);
      && (id.Some? <==> Accepts(w, side, user, price, qty))
      && (id.Some? ==> id.value == |w.accounts.orders|)
      && (id.Some? ==>
            var r := Replayed(w, side, user, price, qty);
            Coherent(r.view)
            && w' == if discard && id.value < |r.accounts.orders| && r.accounts.orders[id.value].active
                     then Cancel(r, user, id.value, side == Buy).0 else r)
  {
    hide AccountsOk, Synced, MatchAt, ApplyAll, Resting, Positive, UniqueIds, Cancel, Uncrossed, IdsBelow, ProcessAt;
    hide Coherent;
    if user < |w.accounts.users| && qty > 0 && Affordable(w.accounts.users[user], side, price, qty) {
      ViewOkFacts(w.view);
      NextIdIsFresh(w);
      ProcessFresh(w.view, side, price, qty, |w.accounts.orders|);
      SubmitCoherent(w, side, price, qty);
      OpenedOk(w, side, user, price, qty);
    }
  }

  /**
   * Every submission, accepted or not, keeps the exchange consistent: table and book
   * agree, locks are exact, base is conserved and covered, quote stays solvent and
   * grows by exactly the price improvement created.
   */
  lemma SubmitKeepsGood(w: World, side: Side, user: nat, price: int, qty: nat, discard: bool)
    requires Good(w)
    ensures var w' := Submit(w, side, user, price, qty, discard).0;
      && Good(w') && (QuoteSolvent(w.accounts) ==> QuoteSolvent(w'.accounts))
      && TotalBase(w'.accounts.users) == TotalBase(w.accounts.users)
      && TotalQuote(w'.accounts.users) == TotalQuote(w.accounts.users) + Created(w, side, user, price, qty)
  {
    hide Good, Submit, Replayed, QuoteSolvent, TotalBase, TotalQuote, Cancel;
    SubmitCases(w, side, user, price, qty, discard);
    if Accepts(w, side, user, price, qty) {
      GoodBook(w);
      AcceptedReplay(w, side, user, price, qty);
      CancelKeepsGood(Replayed(w, side, user, price, qty), user, |w.accounts.orders|, side == Buy);
    } else {
      RejectedLeavesNothing(w, side, user, price, qty, discard);
    }
  }

  lemma GoodBook(w: World)
    requires Good(w)
    ensures Coherent(w.view) && WellFormed(w.view.book) && Positive(w.view.book)
    ensures w.view.book.lo == PRICE_MIN && Hi(w.view.book) == PRICE_MAX
  {
    ViewOkFacts(w.view);
  }

  /**
   * Immediate-or-cancel and market orders: the book is left as matching alone leaves
   * it and the order is inactive with nothing locked; a limit order stays active
   * exactly for what did not trade.
   */
  lemma SubmittedOrder(w: World, side: Side, user: nat, price: int, qty: nat, discard: bool)
    requires Good(w) && Accepts(w, side, user, price, qty)
    ensures var w', id := Submit(w, side, user, price, qty, discard).0, |w.accounts.orders|;
      var p := Matching(w, side, price, qty);
      && id < |w'.accounts.orders|
      && var o := w'.accounts.orders[id];
      && (discard ==> w'.view.book == p.view.book && !o.active && o.remaining == 0
                      && o.lockedQuote == 0 && o.lockedBase == 0)
      && (!discard ==> o.remaining == p.rest && (o.active <==> p.rest > 0))
  {
    hide AccountsOk, AllSettle, Cancel, Coherent, Good, Hi, Improvements, Joined, LadderOf;
    hide Levels, MatchAt, NewOrder, Opened, Owned, Positive, ProcessAt, Queue, QuoteSolvent, Remove;
    hide RemoveAt, Replayed, Rest, Resting, Shrinks, Steady, Submit, Synced, TotalBase, TotalQuote, ViewOk;
    hide WellFormed;
    var id := |w.accounts.orders|;
    SubmitCases(w, side, user, price, qty, discard);
    GoodParts(w);
    ViewOkFacts(w.view);
    AcceptedReplay(w, side, user, price, qty);
    NextIdIsFresh(w);
    ProcessFresh(w.view, side, price, qty, id);
    var r, p := Replayed(w, side, user, price, qty), Matching(w, side, price, qty);
    GoodLocks(r, id);
    CancelKeepsGood(r, user, id, side == Buy);
    if p.rest > 0 {
      JoinedQueues(p.view, side, price - w.view.book.lo, Entry(id, p.rest), side, 0);
      RestThenRemove(p.view.book, side, price - w.view.book.lo, Entry(id, p.rest));
    }
  }

  /** The executions of a submission. */
  ghost function Executed(w: World, side: Side, user: nat, price: int, qty: nat): seq<Execution>
    requires Good(w)
  {
    if Accepts(w, side, user, price, qty) then Matching(w, side, price, qty).execs else []
  }

  /** Every earlier order keeps its owner, side and limit. */
  ghost predicate KeepsOrders(os: seq<LiveOrder>, ps: seq<LiveOrder>) {
    |os| <= |ps| && forall i :: 0 <= i < |os| ==> SameOrder(os[i], ps[i])
  }

  /**
   * A submission moves to every user exactly what its executions say, as maker's owner or
   * as taker, whether or not a remainder is discarded. Who has no part in it keeps
   * balances and locks.
   */
  lemma SubmitGains(w: World, side: Side, user: nat, price: int, qty: nat, discard: bool, u: nat)
    requires Good(w) && u < |w.accounts.users|
    ensures var a, b := w.accounts, Submit(w, side, user, price, qty, discard).0.accounts;
      var es := Executed(w, side, user, price, qty);
      && |b.users| == |a.users| && KeepsOrders(a.orders, b.orders)
      && b.users[u].quote == a.users[u].quote + QuoteGained(a.orders, side, user, price, es, u)
      && b.users[u].base == a.users[u].base + BaseGained(a.orders, side, user, es, u)
      && (u != user && NotMaker(a.orders, es, u) ==> b.users[u] == a.users[u])
  {
    hide *;
    GainedNone(w.accounts.orders, side, user, price, u);
    if Accepts(w, side, user, price, qty) {
      ExecutedIs(w, side, user, price, qty);
      SubmitCases(w, side, user, price, qty, discard);
      AcceptedGood(w, side, user, price, qty);
      ReplayedGains(w, side, user, price, qty, u);
      var r := Replayed(w, side, user, price, qty);
      if discard && |w.accounts.orders| < |r.accounts.orders| && r.accounts.orders[|w.accounts.orders|].active {
        CancelKeepsGood(r, user, |w.accounts.orders|, side == Buy);
        CancelLeaves(w.accounts, r.accounts, Cancel(r, user, |w.accounts.orders|, side == Buy).0.accounts,
                     user, |w.accounts.orders|, u);
      }
    } else {
      SubmitCases(w, side, user, price, qty, discard);
      ExecutedIs(w, side, user, price, qty);
      RejectedLeavesNothing(w, side, user, price, qty, discard);
      PrefixKeeps(w.accounts.orders, Submit(w, side, user, price, qty, discard).0.accounts.orders);
    }
  }

  lemma GainedNone(orders: seq<LiveOrder>, side: Side, user: nat, price: int, u: nat)
    ensures QuoteGained(orders, side, user, price, [], u) == 0 && BaseGained(orders, side, user, [], u) == 0
  {}

  lemma ExecutedIs(w: World, side: Side, user: nat, price: int, qty: nat)
    requires Good(w)
    ensures Executed(w, side, user, price, qty)
         == if Accepts(w, side, user, price, qty) then Matching(w, side, price, qty).execs else []
  {
    hide Good, Matching, Accepts;
  }

  lemma PrefixKeeps(os: seq<LiveOrder>, ps: seq<LiveOrder>)
    requires os <= ps
    ensures KeepsOrders(os, ps)
  {}

  lemma AcceptedGood(w: World, side: Side, user: nat, price: int, qty: nat)
    requires Good(w) && Accepts(w, side, user, price, qty)
    ensures user < |w.accounts.users| && qty > 0 && Affordable(w.accounts.users[user], side, price, qty)
    ensures Good(Replayed(w, side, user, price, qty))
  {
    hide Good, Replayed, Coherent, WellFormed, AccountsOk, Opened, ProcessAt, Matching, ApplyAll, QuoteSolvent;
    GoodBook(w);
    AcceptedReplay(w, side, user, price, qty);
  }

  /** A cancel after the replay takes nothing from anyone's balance, nor from others' locks. */
  lemma CancelLeaves(a: Accounts, r: Accounts, c: Accounts, user: nat, id: nat, u: nat)
    requires id < |r.orders| && |a.users| == |r.users| && u < |a.users| && KeepsOrders(a.orders, r.orders)
    requires c == r || (OnlyUnlocked(r.users, c.users, user, r.orders[id])
                        && |c.orders| == |r.orders| && WithdrawnFrom(r.orders[id], c.orders[id])
                        && c.orders == r.orders[id := c.orders[id]])
    ensures |c.users| == |a.users| && KeepsOrders(a.orders, c.orders)
    ensures c.users[u].quote == r.users[u].quote && c.users[u].base == r.users[u].base
    ensures u != user ==> c.users[u] == r.users[u]
  {}

  /** The makers of a submission are earlier orders. */
  lemma MakersAreEarlier(w: World, side: Side, price: int, qty: nat)
    requires Good(w)
    ensures forall k :: 0 <= k < |Matching(w, side, price, qty).execs| ==>
              Matching(w, side, price, qty).execs[k].makerId != |w.accounts.orders|
  {
    GoodBook(w);
    NextIdIsFresh(w);
    hide Good, Resting, MatchAt;
    MakersRested(w.view, side, price, qty, |w.accounts.orders|, QTY_MODULUS);
  }

  lemma {:induction false} GainedBefore(orders: seq<LiveOrder>, o: LiveOrder, side: Side, taker: nat, limit: int,
                                        es: seq<Execution>, u: nat)
    requires forall k :: 0 <= k < |es| ==> es[k].makerId != |orders|
    ensures QuoteGained(orders + [o], side, taker, limit, es, u) == QuoteGained(orders, side, taker, limit, es, u)
    ensures BaseGained(orders + [o], side, taker, es, u) == BaseGained(orders, side, taker, es, u)
    ensures NotMaker(orders + [o], es, u) == NotMaker(orders, es, u)
  {
    assert forall k :: 0 <= k < |es| ==> OwnsMaker(orders + [o], es[k], u) == OwnsMaker(orders, es[k], u);
    hide OwnsMaker;
    if es != [] {
      GainedBefore(orders, o, side, taker, limit, es[1..], u);
    }
  }

  lemma ReplayedGains(w: World, side: Side, user: nat, price: int, qty: nat, u: nat)
    requires Good(w) && Accepts(w, side, user, price, qty) && u < |w.accounts.users|
    ensures user < |w.accounts.users| && qty > 0 && Affordable(w.accounts.users[user], side, price, qty)
    ensures var a, b, es := w.accounts, Replayed(w, side, user, price, qty).accounts,
                        Matching(w, side, price, qty).execs;
      && |b.users| == |a.users| && KeepsOrders(a.orders, b.orders) && |b.orders| == |a.orders| + 1
      && b.users[u].quote == a.users[u].quote + QuoteGained(a.orders, side, user, price, es, u)
      && b.users[u].base == a.users[u].base + BaseGained(a.orders, side, user, es, u)
      && (u != user && NotMaker(a.orders, es, u) ==> b.users[u] == a.users[u])
  {
    hide AccountsOk, ApplyAll, BaseGained, Coherent, Good, MatchAt, NotMaker, Opened, Owned, ProcessAt, QuoteGained;
    hide QuoteSolvent, SameOrder, Synced, Taking, WellFormed;
    var a, id := w.accounts, |w.accounts.orders|;
    GoodBook(w);
    GoodParts(w);
    PricesPositive();
    AcceptedReplay(w, side, user, price, qty);
    OpenedOk(w, side, user, price, qty);
    OpenedFrame(a, side, user, price, qty, u);
    ReplayedIs(w, side, user, price, qty);
    MatchingIs(w, side, price, qty);
    var o := Opened(a, side, user, price, qty);
    var es := Matching(w, side, price, qty).execs;
    ReplayGains(o, w.view, side, price, qty, id, QTY_MODULUS, u);
    MakersAreEarlier(w, side, price, qty);
    GainedBefore(a.orders, NewOrder(side, user, price, qty), side, user, price, es, u);
    var b := ApplyAll(o, id, es);
    EarlierSame(a.orders, o.orders, b.orders);
  }

  lemma OpenedFrame(a: Accounts, side: Side, user: nat, price: int, qty: nat, u: nat)
    requires user < |a.users| && u < |a.users|
    ensures var r := Opened(a, side, user, price, qty);
      && |r.users| == |a.users| && r.orders == a.orders + [NewOrder(side, user, price, qty)]
      && r.orders[|a.orders|].user == user
      && r.users[u].quote == a.users[u].quote && r.users[u].base == a.users[u].base
      && (u != user ==> r.users[u] == a.users[u])
  {}

  lemma EarlierSame(os: seq<LiveOrder>, ps: seq<LiveOrder>, qs: seq<LiveOrder>)
    requires os <= ps && SameOrders(ps, qs)
    ensures KeepsOrders(os, qs) && |qs| == |ps|
  {}

  lemma GoodLocks(w: World, id: nat)
    requires Good(w) && id < |w.accounts.orders|
    ensures LocksOk(w.accounts.orders[id], |w.accounts.users|)
  {}

  /** The engine's view after an accepted submission: what process_order leaves, less the order if discarded. */
  lemma SubmittedView(w: World, side: Side, user: nat, price: int, qty: nat, discard: bool)
    requires Good(w) && Accepts(w, side, user, price, qty)
    ensures Coherent(w.view) && WellFormed(w.view.book)
    ensures var id := |w.accounts.orders|;
      var o := ProcessAt(w.view, MAX_ORDERS, side, price, qty, id, QTY_MODULUS);
      && Coherent(o.view)
      && Submit(w, side, user, price, qty, discard).0.view
         == if discard then RemoveAt(o.view, id, QTY_MODULUS) else o.view
  {
    hide AccountsOk, AllSettle, Cancel, Closed, Coherent, Good, Hi, Improvements, Joined, LadderOf;
    hide Levels, MatchAt, NewOrder, Opened, Owned, Positive, ProcessAt, Queue, QuoteSolvent, Remove, RemoveAt;
    hide Replayed, Resting, Shrinks, Steady, Submit, Synced, Taking, TotalBase, TotalQuote, ViewOk, WellFormed;
    var id := |w.accounts.orders|;
    GoodParts(w);
    ViewOkFacts(w.view);
    SubmitCases(w, side, user, price, qty, discard);
    AcceptedReplay(w, side, user, price, qty);
    NextIdIsFresh(w);
    ProcessFresh(w.view, side, price, qty, id);
    var r, p := Replayed(w, side, user, price, qty), Matching(w, side, price, qty);
    ViewOkSizes(r);
    TakerIsOpen(r, id, side, price, p.rest);
    if p.rest > 0 {
      CancelKeepsGood(r, user, id, side == Buy);
    } else {
      RemoveAbsentAt(p.view, id, QTY_MODULUS);
    }
  }

  /**
   * A submission on a fully shown book leaves it fully shown exactly when no order it
   * fills leaves its level at a total reading zero and, if a remainder is discarded, the
   * orders at its own price do not total zero either; it then trades in price-time
   * priority. Totals that fit are enough, and a discarded remainder leaves them fitting.
   */
  lemma CleanSubmission(w: World, side: Side, user: nat, price: int, qty: nat, discard: bool)
    requires Good(w) && Accepts(w, side, user, price, qty) && w.view.shown == w.view.book
    ensures Positive(w.view.book)
    ensures var v, b := Submit(w, side, user, price, qty, discard).0.view, w.view.book;
      v.shown == v.book
      <==> CleanMatch(b, side, price, qty, QTY_MODULUS)
           && (discard && Matching(w, side, price, qty).rest > 0 ==>
                 NoFalseZero(b, side, price - b.lo, QTY_MODULUS))
    ensures CleanMatch(w.view.book, side, price, qty, QTY_MODULUS) ==>
      var m := Match(w.view.book, side, price, qty, |w.accounts.orders|);
      Matching(w, side, price, qty) == Settled(View(m.book, m.book), m.execs, m.rest)
    ensures Fits(w.view.book, QTY_MODULUS) ==>
      var v := Submit(w, side, user, price, qty, discard).0.view;
      && CleanMatch(w.view.book, side, price, qty, QTY_MODULUS) && v.shown == v.book
      && (discard ==> Fits(v.book, QTY_MODULUS))
  {
    hide *;
    var id, b := |w.accounts.orders|, w.view.book;
    GoodBook(w);
    NextIdIsFresh(w);
    AcceptsArguments(w, side, user, price, qty);
    SubmittedView(w, side, user, price, qty, discard);
    assert w.view == View(b, b);
    MatchingIs(w, side, price, qty);
    QtyModulusPositive();
    ProcessExact(b, MAX_ORDERS, side, price, qty, id, QTY_MODULUS);
    CleanProcessIs(b, side, price, qty, id);
    DiscardExactly(b, MAX_ORDERS, side, price, qty, id, QTY_MODULUS);
    var _ := MatchExact(b, side, price, qty, id, QTY_MODULUS);
    if Fits(b, QTY_MODULUS) {
      EachSideFits(b, QTY_MODULUS);
      EitherSide(side);
      FitsIsCleanMatch(b, side, price, qty, QTY_MODULUS);
      FittedLevelIsClean(b, side, price - b.lo, QTY_MODULUS);
      SubmittedOrder(w, side, user, price, qty, discard);
      MatchFits(b, side, price, qty, id, Buy, QTY_MODULUS);
      MatchFits(b, side, price, qty, id, Sell, QTY_MODULUS);
      BothSidesFit(Match(b, side, price, qty, id).book, QTY_MODULUS);
    }
  }

  lemma AcceptsArguments(w: World, side: Side, user: nat, price: int, qty: nat)
    requires Good(w) && Accepts(w, side, user, price, qty)
    ensures GoodArguments(w.view.book, MAX_ORDERS, price, qty, |w.accounts.orders|)
  {
    GoodBook(w);
    hide Good;
  }

  lemma MatchingIs(w: World, side: Side, price: int, qty: nat)
    requires Good(w)
    ensures Coherent(w.view) && Positive(w.view.book) && QTY_MODULUS > 0
    ensures Matching(w, side, price, qty) == MatchAt(w.view, side, price, qty, |w.accounts.orders|, QTY_MODULUS)
  {
    GoodBook(w);
    hide Good, MatchAt;
  }

  lemma QtyModulusPositive()
    ensures QTY_MODULUS > 0
  {}

  lemma EitherSide(s: Side)
    ensures s == Buy || s == Sell
    ensures s.Opposite() == if s == Buy then Sell else Buy
  {}

  lemma CleanProcessIs(b: Book, side: Side, price: int, qty: nat, id: int)
    requires Positive(b) && GoodArguments(b, MAX_ORDERS, price, qty, id)
    ensures CleanProcess(b, MAX_ORDERS, side, price, qty, id, QTY_MODULUS)
       <==> CleanMatch(b, side, price, qty, QTY_MODULUS)
  {}

  lemma ViewOkSizes(w: World)
    requires Good(w)
    ensures |w.view.book.bids| == |w.view.book.asks| && Coherent(w.view)
  {}

  lemma TakerIsOpen(w: World, id: nat, side: Side, price: int, rest: nat)
    requires Good(w) && Taking(w.accounts.orders, id, side, price, rest)
    ensures w.accounts.orders[id].active <==> rest > 0
    ensures w.accounts.orders[id].isBid <==> side == Buy
  {
    GoodLocks(w, id);
  }

  /** A taker filled in full leaves totals that fit. */
  /** An accepted order that crosses nothing shown rests in full behind its level and moves no balance. */
  lemma NonCrossingRests(w: World, side: Side, user: nat, price: int, qty: nat)
    requires Good(w) && Accepts(w, side, user, price, qty) && MatchEnds(w.view.shown, side, price, qty)
    ensures var id := |w.accounts.orders|;
      && 0 <= price - PRICE_MIN < |LadderOf(w.view.book, side)| == |LadderOf(w.view.shown, side)|
      && Submit(w, side, user, price, qty, false)
         == (World(Opened(w.accounts, side, user, price, qty),
                   Joined(w.view, side, price - PRICE_MIN, Entry(id, qty))), Some(id))
  {
    hide AccountsOk, ApplyAll, Best, CanServe, Cancel, Coherent, Crosses, Good, Hi, Joined;
    hide LadderOf, Levels, MatchAt, MatchEnds, Min, Opened, Owned, Positive, ProcessAt, Queue, QuoteSolvent;
    hide Replayed, Resting, Served, Shrinks, Side.Opposite, Steady, Submit, Synced, Taking, ViewOk;
    hide WellFormed;
    var id := |w.accounts.orders|;
    GoodParts(w);
    ViewOkFacts(w.view);
    NextIdIsFresh(w);
    SubmitCases(w, side, user, price, qty, false);
    ProcessFresh(w.view, side, price, qty, id);
    MatchAtUnfolds(w.view, side, price, qty, id, QTY_MODULUS);
    OpenedOk(w, side, user, price, qty);
    ReplayedIs(w, side, user, price, qty);
    ReplayNothing(Opened(w.accounts, side, user, price, qty), id);
  }

  lemma ReplayNothing(a: Accounts, taker: nat)
    requires Owned(a, taker)
    ensures ApplyAll(a, taker, []) == a
  {}

  // ---- Price improvement -------------------------------------------------------------------------

  function Notional(es: seq<Execution>): int {
    if es == [] then 0 else es[0].price * es[0].qty + Notional(es[1..])
  }

  /** A sell taker creates no quote; a buy taker creates its limit value less what it paid. */
  lemma {:induction false} ImprovementIsDrift(o: LiveOrder, es: seq<Execution>)
    ensures Improvements(o, es) == if o.isBid then o.limitPrice * Volume(es) - Notional(es) else 0
  {
    if es != [] {
      ImprovementIsDrift(o, es[1..]);
      DriftStep(o.limitPrice, es[0].price, es[0].qty, Volume(es[1..]));
    }
  }

  lemma DriftStep(limit: int, px: int, t: int, v: int)
    ensures (limit - px) * t + limit * v == limit * (t + v) - px * t
  {}

  lemma {:induction false} NoImprovementAtLimit(o: LiveOrder, es: seq<Execution>)
    requires o.isBid && forall k :: 0 <= k < |es| ==> es[k].price <= o.limitPrice && es[k].qty > 0
    ensures Improvements(o, es) >= 0
    ensures Improvements(o, es) == 0 <==> forall k :: 0 <= k < |es| ==> es[k].price == o.limitPrice
  {
    if es != [] {
      assert forall k :: 0 <= k < |es[1..]| ==> es[1..][k] == es[k + 1];
      NoImprovementAtLimit(o, es[1..]);
      PositiveProduct(o.limitPrice - es[0].price, es[0].qty);
      if forall k :: 0 <= k < |es[1..]| ==> es[1..][k].price == o.limitPrice {
        forall k | 0 < k < |es| ensures es[k].price == o.limitPrice {
          assert es[k] == es[1..][k - 1];
        }
      }
    }
  }

  lemma PositiveProduct(d: int, t: int)
    requires d >= 0 && t > 0
    ensures d * t >= 0 && (d * t == 0 <==> d == 0)
  {}

  /** Matching never improves the best shown price of the makers. */
  lemma BestShownRises(w: View, v: View)
    requires Coherent(w) && Coherent(v) && ShowsLess(w, v) && Best(v.shown, Sell) != -1
    ensures Best(w.shown, Sell) != -1 && Best(w.shown, Sell) <= Best(v.shown, Sell)
  {
    BestIsBest(w.shown, Sell);
    BestIsBest(v.shown, Sell);
  }

  /** A buy taker's executions: the first at the best shown ask, none below it, none above the limit. */
  lemma {:induction false} BuyPrices(w: View, limit: int, qty: nat, id: int, m: nat)
    requires Coherent(w) && Positive(w.book) && m > 0
    ensures var es := MatchAt(w, Buy, limit, qty, id, m).execs;
      && (forall k :: 0 <= k < |es| ==> w.book.lo + Best(w.shown, Sell) <= es[k].price <= limit && es[k].qty > 0)
      && (es != [] ==> es[0].price == w.book.lo + Best(w.shown, Sell))
      && (es == [] <==> MatchEnds(w.shown, Buy, limit, qty))
    decreases qty
  {
    hide Best, Coherent, Consume, LadderOf, Levels, MatchAt, MatchEnds, Min, Positive, Queue, Served;
    hide ShowsLess;
    MatchAtUnfolds(w, Buy, limit, qty, id, m);
    if !MatchEnds(w.shown, Buy, limit, qty) {
      var l := Best(w.shown, Sell);
      var t := Min(qty, Queue(w.book, Sell, l)[0].qty);
      var v := Served(w, Sell, l, t, m);
      BuyPrices(v, limit, qty - t, id, m);
      ServedShowsLess(w, Sell, l, t, m);
      ServedIs(w, Sell, l, t, m);
      ConsumeShape(w.book, Sell, l, t);
      if MatchAt(v, Buy, limit, qty - t, id, m).execs != [] {
        EndsWithoutBest(v.shown, limit, qty - t);
        BestShownRises(w, v);
      }
    }
  }

  lemma EndsWithoutBest(b: Book, limit: int, qty: nat)
    requires !MatchEnds(b, Buy, limit, qty)
    ensures Best(b, Sell) != -1
  {}

  /**
   * Quote is not conserved in general: the refund pays a buy taker again for what was
   * never debited. It is conserved by a submission exactly when nothing can trade below
   * the limit: a sell, a rejection, or a bid no higher than the best ask.
   */
  lemma QuoteConservedExactly(w: World, side: Side, user: nat, price: int, qty: nat, discard: bool)
    requires Good(w)
    ensures TotalQuote(Submit(w, side, user, price, qty, discard).0.accounts.users) >= TotalQuote(w.accounts.users)
    ensures TotalQuote(Submit(w, side, user, price, qty, discard).0.accounts.users) == TotalQuote(w.accounts.users)
       <==> !Accepts(w, side, user, price, qty) || side == Sell || Best(w.view.shown, Sell) == -1
            || price <= w.view.book.lo + Best(w.view.shown, Sell)
  {
    SubmitKeepsGood(w, side, user, price, qty, discard);
    GoodBook(w);
    ShownPrices(w);
    hide Good, Submit, TotalQuote, MatchAt, Positive, UniqueIds, Best, Coherent, WellFormed;
    if Accepts(w, side, user, price, qty) {
      var o, es := NewOrder(side, user, price, qty), Matching(w, side, price, qty).execs;
      if side == Sell {
        ImprovementIsDrift(o, es);
      } else {
        BuyPrices(w.view, price, qty, |w.accounts.orders|, QTY_MODULUS);
        NoImprovementAtLimit(o, es);
      }
    }
  }

  lemma ShownPrices(w: World)
    requires Good(w)
    ensures w.view.shown.lo == w.view.book.lo
  {}

  /** Without the refund an execution would conserve quote, whatever its price. */
  lemma SettlementAloneConserves(a: Accounts, taker: nat, e: Execution)
    requires Owned(a, taker) && Settles(a, e)
    ensures var maker, takes := a.orders[e.makerId], a.orders[taker];
      TotalQuote(Paid(Paid(a.users, maker, maker.isBid, e.price, e.qty), takes, !maker.isBid, e.price, e.qty))
      == TotalQuote(a.users)
  {
    hide TotalQuote, Paid;
    var maker, takes := a.orders[e.makerId], a.orders[taker];
    PaidTotals(a.users, maker, maker.isBid, e.price, e.qty);
    PaidTotals(Paid(a.users, maker, maker.isBid, e.price, e.qty), takes, !maker.isBid, e.price, e.qty);
  }

  /** A market order leaves a remainder only once nothing is shown on the other side. */
  lemma MarketSweeps(w: World, side: Side, qty: nat)
    requires Good(w)
    ensures var p := Matching(w, side, if side == Buy then PRICE_MAX else PRICE_MIN, qty);
      p.rest > 0 ==> forall l: int :: Queue(p.view.shown, side.Opposite(), l) == []
  {
    var limit := if side == Buy then PRICE_MAX else PRICE_MIN;
    GoodBook(w);
    MatchAtLeaves(w.view, side, limit, qty, |w.accounts.orders|, QTY_MODULUS);
    MatchAtShape(w.view, side, limit, qty, |w.accounts.orders|, QTY_MODULUS);
    hide MatchAt, WellFormed, Positive, Good;
    BestIsBest(Matching(w, side, limit, qty).view.shown, side.Opposite());
  }

  // ---- Deposits and users -----------------------------------------------------------------------------

  /** Exactly these deltas reach exactly this user, and nobody's locks change. */
  ghost predicate OnlyFunded(us: seq<User>, vs: seq<User>, user: nat, quoteDelta: int, baseDelta: int) {
    && |vs| == |us|
    && forall u :: 0 <= u < |us| ==>
         && vs[u].quote == us[u].quote + (if u == user then quoteDelta else 0)
         && vs[u].base == us[u].base + (if u == user then baseDelta else 0)
         && vs[u].lockedQuote == us[u].lockedQuote && vs[u].lockedBase == us[u].lockedBase
  }

  lemma OnlyBalancesAdjusted(us: seq<User>, user: nat, quoteDelta: int, baseDelta: int)
    requires user < |us|
    ensures OnlyFunded(us, Adjust(us, user, quoteDelta, baseDelta, 0, 0), user, quoteDelta, baseDelta)
  {}

  /**
   * A deposit is refused exactly for an unknown user or for a withdrawal beyond the
   * balance, and then nothing changes; otherwise it reaches its user alone. It keeps the
   * ledger, and quote solvent exactly when it leaves the locked funds untouched.
   */
  lemma DepositKeepsGood(w: World, user: nat, quoteDelta: int, baseDelta: nat)
    requires Good(w)
    ensures var a, (w', ok) := w.accounts, Deposit(w, user, quoteDelta, baseDelta);
      && (ok <==> user < |a.users| && (quoteDelta < 0 ==> a.users[user].quote + quoteDelta >= 0))
      && (!ok ==> w' == w)
      && (ok ==> OnlyFunded(a.users, w'.accounts.users, user, quoteDelta, baseDelta))
      && w'.view == w.view && w'.accounts.orders == a.orders && Good(w')
      && TotalBase(w'.accounts.users) == TotalBase(a.users) + (if ok then baseDelta else 0)
      && TotalQuote(w'.accounts.users) == TotalQuote(a.users) + (if ok then quoteDelta else 0)
      && (QuoteSolvent(a) ==>
            (QuoteSolvent(w'.accounts)
             <==> !ok || a.users[user].quote + quoteDelta >= a.users[user].lockedQuote))
  {
    hide QuoteLocks, BaseLocks, Adjust, TotalBase, TotalQuote, Synced, ViewOk;
    var a := w.accounts;
    var (w', ok) := Deposit(w, user, quoteDelta, baseDelta);
    if ok {
      OnlyBalancesAdjusted(a.users, user, quoteDelta, baseDelta);
      hide OnlyFunded;
      AdjustTotals(a.users, user, quoteDelta, baseDelta, 0, 0);
      forall i | 0 <= i < |a.orders| ensures LocksOk(a.orders[i], |w'.accounts.users|) {
        assert LocksOk(a.orders[i], |a.users|);
      }
      forall u: nat | u < |a.users| ensures UserOk(w'.accounts.users[u], a.orders, u) {
        assert UserOk(a.users[u], a.orders, u);
        AdjustAt(a.users, user, quoteDelta, baseDelta, 0, 0, u);
      }
      if QuoteSolvent(a) && a.users[user].quote + quoteDelta >= a.users[user].lockedQuote {
        forall u: nat | u < |a.users| ensures w'.accounts.users[u].lockedQuote <= w'.accounts.users[u].quote {
          AdjustAt(a.users, user, quoteDelta, baseDelta, 0, 0, u);
        }
      }
      AdjustAt(a.users, user, quoteDelta, baseDelta, 0, 0, user);
    }
  }

  lemma {:induction false} NoLocks(orders: seq<LiveOrder>, u: nat)
    requires forall i :: 0 <= i < |orders| && orders[i].user == u ==>
      orders[i].lockedQuote == 0 && orders[i].lockedBase == 0
    ensures QuoteLocks(orders, u) == 0 && BaseLocks(orders, u) == 0
  {
    if orders != [] {
      NoLocks(orders[..|orders| - 1], u);
    }
  }

  /** A new user comes last with empty balances; nothing else changes. */
  lemma MakeUserKeepsGood(w: World)
    requires Good(w)
    ensures var us, vs := w.accounts.users, MakeUser(w).accounts.users;
      && |vs| == |us| + 1 && (forall u :: 0 <= u < |us| ==> vs[u] == us[u])
      && vs[|us|].quote == 0 && vs[|us|].base == 0 && vs[|us|].lockedQuote == 0 && vs[|us|].lockedBase == 0
    ensures MakeUser(w).accounts.orders == w.accounts.orders && MakeUser(w).view == w.view
    ensures Good(MakeUser(w)) && (QuoteSolvent(w.accounts) ==> QuoteSolvent(MakeUser(w).accounts))
    ensures TotalBase(MakeUser(w).accounts.users) == TotalBase(w.accounts.users)
    ensures TotalQuote(MakeUser(w).accounts.users) == TotalQuote(w.accounts.users)
  {
    hide QuoteLocks, BaseLocks, Synced, ViewOk;
    var a, r := w.accounts, MakeUser(w).accounts;
    forall i | 0 <= i < |a.orders|
      ensures LocksOk(a.orders[i], |r.users|)
      ensures a.orders[i].user == |a.users| ==> a.orders[i].lockedQuote == 0 && a.orders[i].lockedBase == 0
    {
      assert LocksOk(a.orders[i], |a.users|);
    }
    NoLocks(a.orders, |a.users|);
    forall u: nat | u < |r.users| ensures UserOk(r.users[u], a.orders, u) {
      assert u < |a.users| ==> UserOk(a.users[u], a.orders, u);
    }
    assert r.users[..|a.users|] == a.users;
  }

  // ---- Runs --------------------------------------------------------------------------------------------

  datatype Command =
    | NewUser
    | Fund(user: nat, quoteDelta: int, baseDelta: nat)
    | Enter(side: Side, user: nat, price: int, qty: nat, discard: bool)
    | Withdraw(user: nat, id: nat, expectBid: bool)

  ghost function Step(w: World, c: Command): World
    requires Good(w)
  {
    ViewOkFacts(w.view);
    match c
    case NewUser => MakeUser(w)
    case Fund(user, dq, db) => Deposit(w, user, dq, db).0
    case Enter(side, user, price, qty, discard) => Submit(w, side, user, price, qty, discard).0
    case Withdraw(user, id, expectBid) => Cancel(w, user, id, expectBid).0
  }

  /** Base enters by funding alone. */
  function BaseIn(w: World, c: Command): int {
    if c.Fund? && Deposit(w, c.user, c.quoteDelta, c.baseDelta).1 then c.baseDelta else 0
  }

  /** Quote enters by funding and by the price improvement of buy takers. */
  ghost function QuoteIn(w: World, c: Command): int
    requires Good(w)
  {
    match c
    case Fund(user, dq, db) => if Deposit(w, user, dq, db).1 then dq else 0
    case Enter(side, user, price, qty, _) => Created(w, side, user, price, qty)
    case _ => 0
  }

  /** Funding, if it is not refused, takes nothing out of locked funds. */
  predicate RespectsLocks(w: World, c: Command) {
    c.Fund? && Deposit(w, c.user, c.quoteDelta, c.baseDelta).1 && c.user < |w.accounts.users| ==>
      w.accounts.users[c.user].quote + c.quoteDelta >= w.accounts.users[c.user].lockedQuote
  }

  lemma StepLaws(w: World, c: Command)
    requires Good(w)
    ensures var w' := Step(w, c);
      && Good(w')
      && TotalBase(w'.accounts.users) == TotalBase(w.accounts.users) + BaseIn(w, c)
      && TotalQuote(w'.accounts.users) == TotalQuote(w.accounts.users) + QuoteIn(w, c)
      && (QuoteSolvent(w.accounts) ==> (QuoteSolvent(w'.accounts) <==> RespectsLocks(w, c)))
  {
    hide Cancel, Created, Deposit, Good, MakeUser, QuoteSolvent, Submit, TotalBase, TotalQuote;
    match c
    case NewUser => MakeUserKeepsGood(w);
    case Fund(user, dq, db) => DepositKeepsGood(w, user, dq, db);
    case Enter(side, user, price, qty, discard) => SubmitKeepsGood(w, side, user, price, qty, discard);
    case Withdraw(user, id, expectBid) => CancelKeepsGood(w, user, id, expectBid);
  }

  ghost predicate IsHistory(ws: seq<World>, cs: seq<Command>) {
    && |ws| == |cs| + 1 && Good(ws[0])
    && forall i :: 0 <= i < |cs| && Good(ws[i]) ==> ws[i + 1] == Step(ws[i], cs[i])
  }

  ghost function BaseFlow(ws: seq<World>, cs: seq<Command>, n: nat): int
    requires n <= |ws| && n <= |cs|
  {
    if n == 0 then 0 else BaseFlow(ws, cs, n - 1) + BaseIn(ws[n - 1], cs[n - 1])
  }

  ghost function QuoteFlow(ws: seq<World>, cs: seq<Command>, n: nat): int
    requires n <= |ws| && n <= |cs| && forall i :: 0 <= i < n ==> Good(ws[i])
  {
    if n == 0 then 0 else QuoteFlow(ws, cs, n - 1) + QuoteIn(ws[n - 1], cs[n - 1])
  }

  lemma {:induction false} AllGood(ws: seq<World>, cs: seq<Command>, n: nat)
    requires IsHistory(ws, cs) && n <= |cs|
    ensures forall i :: 0 <= i <= n ==> Good(ws[i])
  {
    hide Good, Step;
    if n > 0 {
      AllGood(ws, cs, n - 1);
      StepLaws(ws[n - 1], cs[n - 1]);
    }
  }

  /**
   * Over every run: the exchange stays consistent, base in all accounts is what was
   * funded, and quote is what was funded plus all price improvement. From a state where
   * quote is solvent it is so all along exactly when every funding respects locks.
   */
  lemma {:induction false} RunLaws(ws: seq<World>, cs: seq<Command>, n: nat)
    requires IsHistory(ws, cs) && n <= |cs|
    ensures forall i :: 0 <= i <= n ==> Good(ws[i])
    ensures TotalBase(ws[n].accounts.users) == TotalBase(ws[0].accounts.users) + BaseFlow(ws, cs, n)
    ensures TotalQuote(ws[n].accounts.users) == TotalQuote(ws[0].accounts.users) + QuoteFlow(ws, cs, n)
    ensures QuoteSolvent(ws[0].accounts) ==>
      ((forall i :: 0 <= i <= n ==> QuoteSolvent(ws[i].accounts))
       <==> forall i :: 0 <= i < n ==> RespectsLocks(ws[i], cs[i]))
  {
    hide Good, Step, TotalBase, TotalQuote, QuoteSolvent, RespectsLocks, BaseIn, QuoteIn;
    AllGood(ws, cs, n);
    if n > 0 {
      RunLaws(ws, cs, n - 1);
      StepLaws(ws[n - 1], cs[n - 1]);
    }
  }

  /** What a command moves to the quote of u: funding that is not refused, or what a submission's executions say. */
  ghost function QuoteMoved(w: World, c: Command, u: nat): int
    requires Good(w)
  {
    match c
    case Fund(user, dq, _) =>
      if user == u < |w.accounts.users| && (dq < 0 ==> w.accounts.users[u].quote + dq >= 0) then dq else 0
    case Enter(side, user, price, qty, _) =>
      QuoteGained(w.accounts.orders, side, user, price, Executed(w, side, user, price, qty), u)
    case _ => 0
  }

  ghost function BaseMoved(w: World, c: Command, u: nat): int
    requires Good(w)
  {
    match c
    case Fund(user, dq, db) =>
      if user == u < |w.accounts.users| && (dq < 0 ==> w.accounts.users[u].quote + dq >= 0) then db else 0
    case Enter(side, user, price, qty, _) =>
      BaseGained(w.accounts.orders, side, user, Executed(w, side, user, price, qty), u)
    case _ => 0
  }

  lemma StepBalances(w: World, c: Command, u: nat)
    requires Good(w) && u < |w.accounts.users|
    ensures var us, vs := w.accounts.users, Step(w, c).accounts.users;
      && |us| <= |vs| && vs[u].quote == us[u].quote + QuoteMoved(w, c, u)
      && vs[u].base == us[u].base + BaseMoved(w, c, u)
  {
    hide BaseGained, Cancel, Created, Deposit, Executed, Good, MakeUser, QuoteGained, QuoteSolvent, Submit;
    hide TotalBase, TotalQuote, WithdrawnFrom;
    match c
    case NewUser => MakeUserKeepsGood(w);
    case Fund(user, dq, db) => DepositKeepsGood(w, user, dq, db);
    case Enter(side, user, price, qty, discard) => SubmitGains(w, side, user, price, qty, discard, u);
    case Withdraw(user, id, expectBid) => CancelKeepsGood(w, user, id, expectBid);
  }

  ghost function QuoteMovedBy(ws: seq<World>, cs: seq<Command>, k: nat, n: nat, u: nat): int
    requires n <= |cs| && n <= |ws| && forall i :: 0 <= i < n ==> Good(ws[i])
  {
    if n <= k then 0 else QuoteMovedBy(ws, cs, k, n - 1, u) + QuoteMoved(ws[n - 1], cs[n - 1], u)
  }

  ghost function BaseMovedBy(ws: seq<World>, cs: seq<Command>, k: nat, n: nat, u: nat): int
    requires n <= |cs| && n <= |ws| && forall i :: 0 <= i < n ==> Good(ws[i])
  {
    if n <= k then 0 else BaseMovedBy(ws, cs, k, n - 1, u) + BaseMoved(ws[n - 1], cs[n - 1], u)
  }

  /**
   * Over every run, from any point at which a user exists: the user's quote and base are
   * what they were then, plus the funding that was accepted and what the executions of all
   * submissions since say.
   */
  lemma {:induction false} RunBalances(ws: seq<World>, cs: seq<Command>, k: nat, n: nat, u: nat)
    requires IsHistory(ws, cs) && k <= n <= |cs| && u < |ws[k].accounts.users|
    ensures forall i :: 0 <= i <= n ==> Good(ws[i])
    ensures u < |ws[n].accounts.users|
    ensures ws[n].accounts.users[u].quote == ws[k].accounts.users[u].quote + QuoteMovedBy(ws, cs, k, n, u)
    ensures ws[n].accounts.users[u].base == ws[k].accounts.users[u].base + BaseMovedBy(ws, cs, k, n, u)
  {
    hide BaseMoved, Good, QuoteMoved, Step;
    AllGood(ws, cs, n);
    if n > k {
      RunBalances(ws, cs, k, n - 1, u);
      StepBalances(ws[n - 1], cs[n - 1], u);
    }
  }
}
