/**
 * The account wrapper as a pure machine over user balances, locked funds, the
 * live-order table and the abstract book. Executions are replayed one by one
 * after the book has already moved on.
 */
module Ledger {
  import opened PriceTimeBook

  datatype User = User(quote: int, base: int, lockedQuote: int, lockedBase: int)

  datatype LiveOrder = LiveOrder(active: bool, user: nat, isBid: bool, limitPrice: int,
                                 remaining: int, lockedQuote: int, lockedBase: int)

  datatype Accounts = Accounts(users: seq<User>, orders: seq<LiveOrder>)

  const NO_ORDER := LiveOrder(false, 0, false, 0, 0, 0, 0)

  // ---- Settling one execution -----------------------------------------------------------

  function Adjust(users: seq<User>, u: nat, quote: int, base: int, lockedQuote: int, lockedBase: int): (r: seq<User>)
    requires u < |users|
    ensures |r| == |users|
  {
    var x := users[u];
    users[u := User(x.quote + quote, x.base + base, x.lockedQuote + lockedQuote, x.lockedBase + lockedBase)]
  }

  /** An order with t more filled: what is locked for it shrinks, and a filled order is inactive. */
  function Filled(o: LiveOrder, t: int): LiveOrder {
    var o' := if o.isBid
              then o.(remaining := o.remaining - t, lockedQuote := o.lockedQuote - o.limitPrice * t)
              else o.(remaining := o.remaining - t, lockedBase := o.lockedBase - t);
    if o'.remaining == 0 then o'.(active := false) else o'
  }

  function Unlocked(users: seq<User>, o: LiveOrder, t: int): (r: seq<User>)
    requires o.user < |users|
    ensures |r| == |users|
  {
    if o.isBid then Adjust(users, o.user, 0, 0, -(o.limitPrice * t), 0) else Adjust(users, o.user, 0, 0, 0, -t)
  }

  /** The buyer of t at price px pays the notional; the seller receives it. */
  function Paid(users: seq<User>, o: LiveOrder, buys: bool, px: int, t: int): (r: seq<User>)
    requires o.user < |users|
    ensures |r| == |users|
  {
    if buys then Adjust(users, o.user, -(px * t), t, 0, 0) else Adjust(users, o.user, px * t, -t, 0, 0)
  }

  /** The refund of a bid filled below its limit. */
  function Refund(o: LiveOrder, px: int, t: int): int {
    if o.isBid && o.limitPrice * t - px * t > 0 then o.limitPrice * t - px * t else 0
  }

  function Refunded(users: seq<User>, o: LiveOrder, px: int, t: int): (r: seq<User>)
    requires o.user < |users|
    ensures |r| == |users|
  {
    Adjust(users, o.user, Refund(o, px, t), 0, 0, 0)
  }

  /** Whether the replay settles this execution or skips it. */
  predicate Settles(a: Accounts, e: Execution) {
    0 < e.makerId < |a.orders| && a.orders[e.makerId].active
  }

  predicate Owned(a: Accounts, taker: nat) {
    && taker < |a.orders| && a.orders[taker].user < |a.users|
    && forall i :: 0 <= i < |a.orders| && a.orders[i].active ==> a.orders[i].user < |a.users|
  }

  function ApplyOne(a: Accounts, taker: nat, e: Execution): (r: Accounts)
    requires Owned(a, taker)
    ensures Owned(r, taker) && |r.users| == |a.users| && |r.orders| == |a.orders|
  {
    if !Settles(a, e) then a
    else
      var maker, t, px := a.orders[e.makerId], e.qty, e.price;
      var orders := a.orders[e.makerId := Filled(maker, t)];
      var takes := orders[taker];
      var users := Unlocked(Unlocked(a.users, maker, t), takes, t);
      var settled := Paid(Paid(users, maker, maker.isBid, px, t), takes, !maker.isBid, px, t);
      Accounts(Refunded(Refunded(settled, takes, px, t), maker, px, t), orders[taker := Filled(takes, t)])
  }

  function ApplyAll(a: Accounts, taker: nat, es: seq<Execution>): (r: Accounts)
    requires Owned(a, taker)
    ensures Owned(r, taker) && |r.users| == |a.users| && |r.orders| == |a.orders|
    decreases |es|
  {
    if es == [] then a else ApplyAll(ApplyOne(a, taker, es[0]), taker, es[1..])
  }

  // ---- The ledger invariant --------------------------------------------------------------------

  function SideOf(o: LiveOrder): Side {
    if o.isBid then Buy else Sell
  }

  /** What is locked for an order is what its remainder can still cost. */
  predicate LocksOk(o: LiveOrder, users: nat) {
    && o.remaining >= 0 && (o.active <==> o.remaining > 0) && (o.active ==> o.user < users)
    && o.lockedQuote == (if o.isBid then o.limitPrice * o.remaining else 0)
    && o.lockedBase == (if o.isBid then 0 else o.remaining)
  }

  function QuoteLocks(orders: seq<LiveOrder>, u: nat): int {
    if orders == [] then 0
    else QuoteLocks(orders[..|orders| - 1], u)
         + (var o := orders[|orders| - 1]; if o.user == u then o.lockedQuote else 0)
  }

  function BaseLocks(orders: seq<LiveOrder>, u: nat): int {
    if orders == [] then 0
    else BaseLocks(orders[..|orders| - 1], u)
         + (var o := orders[|orders| - 1]; if o.user == u then o.lockedBase else 0)
  }

  /** Every user's locks are the sums over their orders, and their base covers their asks. */
  predicate UserOk(x: User, orders: seq<LiveOrder>, u: nat) {
    && x.lockedQuote == QuoteLocks(orders, u) && x.lockedBase == BaseLocks(orders, u)
    && x.lockedBase <= x.base
  }

  ghost predicate AccountsOk(a: Accounts) {
    && (forall i :: 0 <= i < |a.orders| ==> LocksOk(a.orders[i], |a.users|))
    && (forall u: nat :: u < |a.users| ==> UserOk(a.users[u], a.orders, u))
  }

  predicate QuoteSolvent(a: Accounts) {
    forall u :: 0 <= u < |a.users| ==> a.users[u].lockedQuote <= a.users[u].quote
  }

  /** A book entry is an active order with the same side, price and remaining quantity. */
  predicate Backed(orders: seq<LiveOrder>, b: Book, s: Side, l: int, e: Entry) {
    && 0 < e.id < |orders|
    && var o := orders[e.id];
    && o.active && SideOf(o) == s && o.limitPrice == b.lo + l && o.remaining == e.qty
  }

  /** An order rests in the book with its side, price and remaining quantity. */
  predicate Listed(o: LiveOrder, id: int, b: Book) {
    o.remaining >= 0 && Entry(id, o.remaining) in Queue(b, SideOf(o), o.limitPrice - b.lo)
  }

  /** The table and the book agree on every order except the taker being processed. */
  ghost predicate Synced(orders: seq<LiveOrder>, b: Book, taker: int) {
    && (forall s: Side, l: int, e: Entry :: e in Queue(b, s, l) ==> Backed(orders, b, s, l, e) && e.id != taker)
    && (forall i :: 0 <= i < |orders| && i != taker && orders[i].active ==> Listed(orders[i], i, b))
  }

  function TotalBase(users: seq<User>): int {
    if users == [] then 0 else TotalBase(users[..|users| - 1]) + users[|users| - 1].base
  }

  function TotalQuote(users: seq<User>): int {
    if users == [] then 0 else TotalQuote(users[..|users| - 1]) + users[|users| - 1].quote
  }

  // ---- Sums under point updates --------------------------------------------------------------------

  lemma {:induction false} LocksUpdate(orders: seq<LiveOrder>, i: nat, o: LiveOrder, u: nat)
    requires i < |orders| && o.user == orders[i].user
    ensures QuoteLocks(orders[i := o], u)
         == QuoteLocks(orders, u) + if o.user == u then o.lockedQuote - orders[i].lockedQuote else 0
    ensures BaseLocks(orders[i := o], u)
         == BaseLocks(orders, u) + if o.user == u then o.lockedBase - orders[i].lockedBase else 0
  {
    var n := |orders| - 1;
    if i == n {
      assert orders[i := o][..n] == orders[..n];
    } else {
      assert orders[i := o][..n] == orders[..n][i := o];
      LocksUpdate(orders[..n], i, o, u);
    }
  }

  lemma LocksAppend(orders: seq<LiveOrder>, o: LiveOrder, u: nat)
    ensures QuoteLocks(orders + [o], u) == QuoteLocks(orders, u) + if o.user == u then o.lockedQuote else 0
    ensures BaseLocks(orders + [o], u) == BaseLocks(orders, u) + if o.user == u then o.lockedBase else 0
  {
    assert (orders + [o])[..|orders|] == orders;
  }

  lemma {:induction false} TotalsUpdate(users: seq<User>, i: nat, x: User)
    requires i < |users|
    ensures TotalBase(users[i := x]) == TotalBase(users) + x.base - users[i].base
    ensures TotalQuote(users[i := x]) == TotalQuote(users) + x.quote - users[i].quote
  {
    var n := |users| - 1;
    if i == n {
      assert users[i := x][..n] == users[..n];
    } else {
      assert users[i := x][..n] == users[..n][i := x];
      TotalsUpdate(users[..n], i, x);
    }
  }

  lemma AdjustTotals(users: seq<User>, u: nat, quote: int, base: int, lockedQuote: int, lockedBase: int)
    requires u < |users|
    ensures TotalBase(Adjust(users, u, quote, base, lockedQuote, lockedBase)) == TotalBase(users) + base
    ensures TotalQuote(Adjust(users, u, quote, base, lockedQuote, lockedBase)) == TotalQuote(users) + quote
  {
    TotalsUpdate(users, u, Adjust(users, u, quote, base, lockedQuote, lockedBase)[u]);
    AdjustOne(users, u, quote, base, lockedQuote, lockedBase);
    hide *;
  }

  lemma AdjustOne(users: seq<User>, u: nat, quote: int, base: int, lockedQuote: int, lockedBase: int)
    requires u < |users|
    ensures var r := Adjust(users, u, quote, base, lockedQuote, lockedBase);
      r == users[u := r[u]] && r[u].base == users[u].base + base && r[u].quote == users[u].quote + quote
  {}

  // ---- One execution keeps the ledger ---------------------------------------------------------------

  /** What the engine promises of each execution it reports against the live table. */
  predicate Sensible(a: Accounts, taker: nat, e: Execution) {
    && Settles(a, e) && taker < |a.orders| && e.makerId != taker && a.orders[taker].active
    && var maker, takes := a.orders[e.makerId], a.orders[taker];
    && maker.isBid != takes.isBid && e.price == maker.limitPrice && e.price >= 0
    && 0 < e.qty <= maker.remaining && e.qty <= takes.remaining
    && (takes.isBid ==> e.price <= takes.limitPrice)
  }

  /** The change one execution makes to the account of a user, summed over both sides of the trade. */
  function QuoteChange(o: LiveOrder, buys: bool, px: int, t: int): int {
    (if buys then -(px * t) else px * t) + Refund(o, px, t)
  }

  lemma ApplyOneUsers(a: Accounts, taker: nat, e: Execution, u: nat)
    requires Owned(a, taker) && Sensible(a, taker, e) && u < |a.users|
    ensures var x, y := a.users[u], ApplyOne(a, taker, e).users[u];
      var maker, takes, t: int, px := a.orders[e.makerId], a.orders[taker], e.qty, e.price;
      && y.quote == x.quote + (if u == maker.user then QuoteChange(maker, maker.isBid, px, t) else 0)
                            + (if u == takes.user then QuoteChange(takes, takes.isBid, px, t) else 0)
      && y.base == x.base + (if u == maker.user then (if maker.isBid then t else -t) else 0)
                          + (if u == takes.user then (if takes.isBid then t else -t) else 0)
      && y.lockedQuote == x.lockedQuote - (if u == maker.user && maker.isBid then maker.limitPrice * t else 0)
                                        - (if u == takes.user && takes.isBid then takes.limitPrice * t else 0)
      && y.lockedBase == x.lockedBase - (if u == maker.user && !maker.isBid then t else 0)
                                      - (if u == takes.user && !takes.isBid then t else 0)
  {}

  lemma FilledLocks(o: LiveOrder, t: int, users: nat)
    requires LocksOk(o, users) && o.active && 0 < t <= o.remaining
    ensures LocksOk(Filled(o, t), users) && Filled(o, t).user == o.user && SideOf(Filled(o, t)) == SideOf(o)
    ensures Filled(o, t).remaining == o.remaining - t && Filled(o, t).limitPrice == o.limitPrice
    ensures Filled(o, t).lockedQuote == o.lockedQuote - if o.isBid then o.limitPrice * t else 0
    ensures Filled(o, t).lockedBase == o.lockedBase - if o.isBid then 0 else t
  {
    assert o.limitPrice * (o.remaining - t) == o.limitPrice * o.remaining - o.limitPrice * t;
  }

  /** The notional at the execution price is covered by what the buyer locked. */
  lemma NotionalCovered(limit: int, px: int, t: int)
    requires px <= limit && t >= 0
    ensures px * t <= limit * t
  {}

  lemma ApplyOneLocks(a: Accounts, taker: nat, e: Execution, u: nat)
    requires Owned(a, taker) && Sensible(a, taker, e)
    requires LocksOk(a.orders[e.makerId], |a.users|) && LocksOk(a.orders[taker], |a.users|)
    ensures var maker, takes, t := a.orders[e.makerId], a.orders[taker], e.qty;
      var orders := ApplyOne(a, taker, e).orders;
      && orders == a.orders[e.makerId := Filled(maker, t)][taker := Filled(takes, t)]
      && QuoteLocks(orders, u) == QuoteLocks(a.orders, u)
           - (if u == maker.user && maker.isBid then maker.limitPrice * t else 0)
           - (if u == takes.user && takes.isBid then takes.limitPrice * t else 0)
      && BaseLocks(orders, u) == BaseLocks(a.orders, u)
           - (if u == maker.user && !maker.isBid then t as int else 0)
           - (if u == takes.user && !takes.isBid then t as int else 0)
  {
    hide QuoteLocks, BaseLocks;
    var maker, takes, t := a.orders[e.makerId], a.orders[taker], e.qty;
    FilledLocks(maker, t, |a.users|);
    FilledLocks(takes, t, |a.users|);
    LocksUpdate(a.orders, e.makerId, Filled(maker, t), u);
    LocksUpdate(a.orders[e.makerId := Filled(maker, t)], taker, Filled(takes, t), u);
  }

  /** Lock identity and base solvency survive an execution, self-trades included. */
  lemma ApplyOneKeepsAccounts(a: Accounts, taker: nat, e: Execution)
    requires AccountsOk(a) && Owned(a, taker) && Sensible(a, taker, e)
    ensures AccountsOk(ApplyOne(a, taker, e))
    ensures QuoteSolvent(a) ==> QuoteSolvent(ApplyOne(a, taker, e))
  {
    hide QuoteLocks, BaseLocks, ApplyOne, LocksOk;
    var r := ApplyOne(a, taker, e);
    var maker, takes, t := a.orders[e.makerId], a.orders[taker], e.qty;
    FilledLocks(maker, t, |a.users|);
    FilledLocks(takes, t, |a.users|);
    forall u: nat | u < |a.users| ensures UserOk(r.users[u], r.orders, u) {
      assert UserOk(a.users[u], a.orders, u);
      ApplyOneLocks(a, taker, e, u);
      ApplyOneUsers(a, taker, e, u);
    }
    ApplyOneLocks(a, taker, e, 0);
    if QuoteSolvent(a) {
      forall u: nat | u < |a.users| ensures r.users[u].lockedQuote <= r.users[u].quote {
        ApplyOneUsers(a, taker, e, u);
        NotionalCovered(e.price, 0, t);
        if takes.isBid {
          NotionalCovered(takes.limitPrice, e.price, t);
        }
      }
    }
  }

  /** What a buy taker is credited beyond what the trade moves: the improvement over its limit. */
  function Improvement(takes: LiveOrder, e: Execution): int {
    if takes.isBid then (takes.limitPrice - e.price) * e.qty else 0
  }

  /** An execution moves base between users and creates quote only as a buy taker's price improvement. */
  lemma ApplyOneTotals(a: Accounts, taker: nat, e: Execution)
    requires Owned(a, taker) && Sensible(a, taker, e)
    ensures TotalBase(ApplyOne(a, taker, e).users) == TotalBase(a.users)
    ensures TotalQuote(ApplyOne(a, taker, e).users) == TotalQuote(a.users) + Improvement(a.orders[taker], e)
  {
    hide TotalBase, TotalQuote;
    var maker, takes, t, px := a.orders[e.makerId], a.orders[taker], e.qty, e.price;
    var u0 := Unlocked(a.users, maker, t);
    var u1 := Unlocked(u0, takes, t);
    var u2 := Paid(u1, maker, maker.isBid, px, t);
    var u3 := Paid(u2, takes, !maker.isBid, px, t);
    UnlockedTotals(a.users, maker, t);
    UnlockedTotals(u0, takes, t);
    PaidTotals(u1, maker, maker.isBid, px, t);
    PaidTotals(u2, takes, !maker.isBid, px, t);
    AdjustTotals(u3, takes.user, Refund(takes, px, t), 0, 0, 0);
    AdjustTotals(Refunded(u3, takes, px, t), maker.user, Refund(maker, px, t), 0, 0, 0);
    if takes.isBid {
      NotionalCovered(takes.limitPrice, px, t);
      assert (takes.limitPrice - px) * t == takes.limitPrice * t - px * t;
    }
  }

  lemma UnlockedTotals(users: seq<User>, o: LiveOrder, t: int)
    requires o.user < |users|
    ensures TotalBase(Unlocked(users, o, t)) == TotalBase(users)
    ensures TotalQuote(Unlocked(users, o, t)) == TotalQuote(users)
  {
    hide TotalBase, TotalQuote, Adjust;
    AdjustTotals(users, o.user, 0, 0, -(o.limitPrice * t), 0);
    AdjustTotals(users, o.user, 0, 0, 0, -t);
  }

  lemma PaidTotals(users: seq<User>, o: LiveOrder, buys: bool, px: int, t: int)
    requires o.user < |users|
    ensures TotalBase(Paid(users, o, buys, px, t)) == TotalBase(users) + if buys then t else -t
    ensures TotalQuote(Paid(users, o, buys, px, t)) == TotalQuote(users) + if buys then -(px * t) else px * t
  {
    hide TotalBase, TotalQuote, Adjust;
    AdjustTotals(users, o.user, -(px * t), t, 0, 0);
    AdjustTotals(users, o.user, px * t, -t, 0, 0);
  }
}
