/**
 * The account wrapper: balances, locked funds and the live-order table updated in
 * place around the matching engine, proved against the ledger specification.
 */
module Exchange {
  import opened Wrappers
  import opened PriceTimeBook
  import opened BookLaws
  import opened IndexedBook
  import opened Widths
  import opened Beforehand
  import opened EngineState
  import opened Ledger
  import opened Replay
  import opened ExchangeSpec
  import opened Depth
  import Engine
  import TradeLog

  /** The trades a replay logs: the executions it settles, in order. */
  function Logged(a: Accounts, taker: nat, es: seq<Execution>): seq<TradeLog.Trade>
    requires Owned(a, taker)
    decreases |es|
  {
    if es == [] then []
    else (if Settles(a, es[0]) then [TradeLog.TradeOf(es[0])] else [])
         + Logged(ApplyOne(a, taker, es[0]), taker, es[1..])
  }

  function Trades(es: seq<Execution>): seq<TradeLog.Trade> {
    if es == [] then [] else [TradeLog.TradeOf(es[0])] + Trades(es[1..])
  }

  /** One trade is logged for every execution, in order. */
  lemma {:induction false} TradesRecord(es: seq<Execution>)
    ensures |Trades(es)| == |es| && forall k :: 0 <= k < |es| ==> TradeLog.Records(Trades(es)[k], es[k])
  {
    hide TradeLog.TradeOf, TradeLog.Records;
    if es != [] {
      TradesRecord(es[1..]);
      TradeLog.RecordsIt(es[0]);
    }
  }

  /**
   * What the log says of a submission: trade k is between the new order and the k-th
   * maker of the line it meets, at that maker's price, and in full but for the last one.
   */
  lemma LoggedTrades(w: World, side: Side, price: int, qty: nat)
    requires Good(w)
    ensures var ts := Trades(Matching(w, side, price, qty).execs);
      var line := Priority(Cut(w.view.shown, QTY_MODULUS), side.Opposite());
      && |ts| <= |line|
      && forall k :: 0 <= k < |ts| ==>
           && ts[k].takerId == |w.accounts.orders| && ts[k].makerId == line[k].id
           && ts[k].price == PRICE_MIN + line[k].level && 0 < ts[k].qty <= line[k].qty
           && (k + 1 < |ts| ==> ts[k].qty == line[k].qty)
           && (ts[k].takerIsBid <==> side == Buy) && (ts[k].makerIsBid <==> side == Sell)
  {
    var b, id, maker := Cut(w.view.shown, QTY_MODULUS), |w.accounts.orders|, side.Opposite();
    assert maker == Buy <==> side == Sell;
    CutShape(w.view.shown, QTY_MODULUS);
    GoodBook(w);
    MatchingIs(w, side, price, qty);
    CoherentSides(w.view);
    hide Good, Trades, Cut, Match, MatchAt, Matching, Positive, Coherent, Priority, Crosses, Volume, Side.Opposite;
    MatchAtIsCutMatch(w.view, side, price, qty, id, QTY_MODULUS);
    MatchFollowsPriority(b, side, price, qty, id);
    TradesRecord(Matching(w, side, price, qty).execs);
  }

  /** When nothing is skipped, the log receives every execution. */
  lemma {:induction false} AllLogged(a: Accounts, taker: nat, es: seq<Execution>)
    requires Owned(a, taker) && AllSettle(a, taker, es)
    ensures Logged(a, taker, es) == Trades(es)
    decreases |es|
  {
    if es != [] {
      AllLogged(ApplyOne(a, taker, es[0]), taker, es[1..]);
    }
  }

  /** One step of the replay, in the ledger and in the log. */
  lemma ReplayUnfolds(a: Accounts, taker: nat, es: seq<Execution>, k: nat)
    requires Owned(a, taker) && k < |es|
    ensures var b := ApplyOne(a, taker, es[k]);
      && ApplyAll(a, taker, es[k..]) == ApplyAll(b, taker, es[k + 1..])
      && Logged(a, taker, es[k..])
         == (if Settles(a, es[k]) then [TradeLog.TradeOf(es[k])] else []) + Logged(b, taker, es[k + 1..])
      && (!Settles(a, es[k]) ==> b == a)
  {
    assert es[k..][0] == es[k] && es[k..][1..] == es[k + 1..];
  }

  lemma ReplayEnds(a: Accounts, taker: nat)
    requires Owned(a, taker)
    ensures ApplyAll(a, taker, []) == a && Logged(a, taker, []) == []
  {}

  /** The state the exchange is constructed in. */
  ghost function Start(): World {
    World(Accounts([], [NO_ORDER]), EmptyView(PRICE_MIN, PRICE_MAX - PRICE_MIN + 1))
  }

  lemma StartGood()
    ensures Good(Start()) && QuoteSolvent(Start().accounts) && Fits(Start().view.book, QTY_MODULUS)
    ensures forall s: Side, l: int :: Queue(Start().view.shown, s, l) == []
  {
    var b := EmptyBook(PRICE_MIN, PRICE_MAX - PRICE_MIN + 1);
    assert forall s: Side, l: int :: Queue(b, s, l) == [];
  }

  /** What a submission needs to know of the ledger before it runs. */
  lemma SubmitFacts(w: World, side: Side, user: nat, price: int, qty: nat, discard: bool)
    requires Good(w)
    ensures Coherent(w.view) && WellFormed(w.view.book)
    ensures user < |w.accounts.users| && qty > 0 && Affordable(w.accounts.users[user], side, price, qty) ==>
      var a, id := w.accounts, |w.accounts.orders|;
      var o := ProcessAt(w.view, MAX_ORDERS, side, price, qty, id, QTY_MODULUS);
      && Owned(Opened(a, side, user, price, qty), id)
      && (o.accepted ==> Good(Replayed(w, side, user, price, qty)) && o.execs == Matching(w, side, price, qty).execs
                         && Logged(Opened(a, side, user, price, qty), id, o.execs) == Trades(o.execs))
      && (!o.accepted ==> o.view == w.view)
    ensures Good(Submit(w, side, user, price, qty, discard).0)
  {
    hide AccountsOk, Affordable, AllSettle, Coherent, Created, GoodArguments, Hi, Improvements, Joined;
    hide LadderOf, Levels, Logged, MatchAt, Matching, NewOrder, Opened, Owned, Positive, ProcessAt;
    hide QuoteSolvent, Replayed, Resting, Shrinks, Steady, Submit, Synced, Taking, TotalBase, TotalQuote;
    hide Trades, ViewOk, WellFormed;
    ViewOkFacts(w.view);
    SubmitKeepsGood(w, side, user, price, qty, discard);
    if user < |w.accounts.users| && qty > 0 && Affordable(w.accounts.users[user], side, price, qty) {
      OpenedOk(w, side, user, price, qty);
      NextIdIsFresh(w);
      ProcessFresh(w.view, side, price, qty, |w.accounts.orders|);
      if GoodArguments(w.view.book, MAX_ORDERS, price, qty, |w.accounts.orders|) {
        AcceptedReplay(w, side, user, price, qty);
        AllLogged(Opened(w.accounts, side, user, price, qty), |w.accounts.orders|, Matching(w, side, price, qty).execs);
      }
    }
  }

  // ---- Reading depth through the engine ------------------------------------------------------

  /** The rank of a price: its distance from the best possible one. */
  function RankAt(s: Side, price: int): int {
    LevelAt(s, price - PRICE_MIN, PRICE_MAX - PRICE_MIN + 1)
  }

  /** The price after this one whose total does not read zero, or none. */
  ghost predicate IsNext(b: Book, s: Side, price: int, next: Option<int>)
    requires 0 <= RankAt(s, price) < Levels(b)
  {
    match next
    case None => ReadFrom(b, s, RankAt(s, price) + 1, QTY_MODULUS) == []
    case Some(p) =>
      && RankAt(s, price) < RankAt(s, p) < Levels(b)
      && ReadFrom(b, s, RankAt(s, price) + 1, QTY_MODULUS) == ReadFrom(b, s, RankAt(s, p), QTY_MODULUS)
  }

  /** The scan starts at the best shown price. */
  lemma ScanStarts(v: View, s: Side)
    requires ViewOk(v)
    ensures |v.shown.bids| == |v.shown.asks| == Levels(v.book)
    ensures Best(v.shown, s) == -1 ==> Scan(v, s, QTY_MODULUS) == []
    ensures Best(v.shown, s) != -1 ==>
      var price := v.book.lo + Best(v.shown, s);
      && 0 <= RankAt(s, price) < Levels(v.book) && PRICE_MIN <= price <= PRICE_MAX
      && Scan(v, s, QTY_MODULUS) == ReadFrom(v.book, s, RankAt(s, price), QTY_MODULUS)
  {
    BestIsBest(v.shown, s);
  }

  lemma ScanReturned(v: View, s: Side, max: nat)
    requires ViewOk(v)
    ensures |v.shown.bids| == |v.shown.asks| == Levels(v.book)
    ensures FirstLevels(Scan(v, s, QTY_MODULUS), max) == FirstLevels(DepthFrom(v.book, s, 0), max)
       <==> ReadsFirst(v, s, QTY_MODULUS, max)
  {
    hide Steady, ReadsFirst, DepthFrom, FirstLevels;
    SteadyParts(v);
    FirstOfScan(v, s, QTY_MODULUS, max);
  }

  lemma ScanStep(all: seq<DepthLevel>, out: seq<DepthLevel>, x: DepthLevel, listed: bool,
                 rest: seq<DepthLevel>, tail: seq<DepthLevel>)
    requires all == out + rest && rest == (if listed then [x] else []) + tail
    ensures all == (if listed then out + [x] else out) + tail
  {}

  /** A scan that has stopped has listed what was asked for, or everything. */
  lemma ScanStopped(all: seq<DepthLevel>, out: seq<DepthLevel>, rest: seq<DepthLevel>, max: nat)
    requires all == out + rest && |out| <= max && (rest == [] || |out| == max)
    ensures out == FirstLevels(all, max)
  {}

  /** User i is the one entered under names[i], and no name is entered twice. */
  ghost predicate NamesOk(names: seq<string>, nameToId: map<string, nat>, users: nat) {
    && |names| == users
    && (forall i :: 0 <= i < |names| ==> names[i] in nameToId && nameToId[names[i]] == i)
    && (forall n :: n in nameToId ==> nameToId[n] < |names| && names[nameToId[n]] == n)
  }

  lemma NameAdded(names: seq<string>, nameToId: map<string, nat>, users: nat, name: string)
    requires NamesOk(names, nameToId, users) && name !in nameToId
    ensures NamesOk(names + [name], nameToId[name := users], users + 1) && |names| == users
  {}

  lemma NameFound(names: seq<string>, nameToId: map<string, nat>, users: nat, name: string)
    requires NamesOk(names, nameToId, users) && name in nameToId
    ensures nameToId[name := nameToId[name]] == nameToId
    ensures nameToId[name] < |names| && names[nameToId[name]] == name
  {}

  lemma NoNames()
    ensures NamesOk([], map[], 0)
  {}

  class OrderBook {
    const engine: Engine.LimitOrderBook
    const tradeLog: TradeLog.Ring
    var names: seq<string>
    var nameToId: map<string, nat>
    var users: seq<User>
    var orders: seq<LiveOrder>
    var nextOrderId: nat

    ghost function Books(): Accounts
      reads this
    {
      Accounts(users, orders)
    }

    ghost function TheWorld(): World
      reads this, engine
    {
      World(Books(), engine.TheView())
    }

    /** The engine and the log are in valid states. */
    ghost predicate Ready()
      reads this, engine, engine.Arrays(), tradeLog, tradeLog.slots
    {
      && engine.Cfg() == Config(PRICE_MIN, PRICE_MAX - PRICE_MIN + 1, MAX_ORDERS, QTY_MODULUS)
      && engine.Valid() && tradeLog.Valid()
      && {this as object, tradeLog, tradeLog.slots} !! engine.Arrays()
      && nextOrderId == |orders| && NamesOk(names, nameToId, |users|)
    }

    ghost predicate Valid()
      reads this, engine, engine.Arrays(), tradeLog, tradeLog.slots
    {
      Ready() && Good(TheWorld())
    }

    constructor ()
      ensures Valid() && TheWorld() == Start() && names == [] && Fits(engine.book, QTY_MODULUS)
      ensures fresh(engine) && fresh(engine.Arrays()) && fresh(tradeLog) && fresh(tradeLog.slots)
    {
      hide AccountsOk, EmptyBook, Engine.LimitOrderBook.Shape;
      hide Engine.LimitOrderBook.Snapshot, Engine.LimitOrderBook.Valid, Fits, Good, NamesOk, Synced;
      hide TradeLog.Ring.Valid, ViewOk;
      engine := new Engine.LimitOrderBook(PRICE_MIN, PRICE_MAX - PRICE_MIN + 1, MAX_ORDERS, QTY_MODULUS);
      tradeLog := new TradeLog.Ring();
      names, nameToId := [], map[];
      users := [];
      orders := [NO_ORDER];
      nextOrderId := 1;
      new;
      NoNames();
      StartGood();
    }

    /** The user of that name, entered with empty balances if the name is new. */
    method MakeUser(name: string) returns (id: nat)
      requires Valid()
      modifies this`names, this`nameToId, this`users
      ensures Valid() && nameToId == old(nameToId)[name := id] && id < |names| && names[id] == name
      ensures name in old(nameToId) ==> TheWorld() == old(TheWorld()) && names == old(names)
      ensures name !in old(nameToId) ==>
                && id == old(|users|) && names == old(names) + [name] && users == old(users) + [User(0, 0, 0, 0)]
                && TheWorld() == ExchangeSpec.MakeUser(old(TheWorld()))
    {
      hide AccountsOk, Config.Good, Engine.LimitOrderBook.Arrays, Engine.LimitOrderBook.Cfg;
      hide Engine.LimitOrderBook.Shape, Engine.LimitOrderBook.Snapshot, Engine.LimitOrderBook.TheView;
      hide Engine.LimitOrderBook.Valid, Good, NamesOk, Synced, TradeLog.Ring.Valid, ViewOk;
      if name in nameToId {
        id := nameToId[name];
        NameFound(names, nameToId, |users|, name);
        return;
      }
      MakeUserKeepsGood(TheWorld());
      NameAdded(names, nameToId, |users|, name);
      id := |users|;
      users := users + [User(0, 0, 0, 0)];
      names := names + [name];
      nameToId := nameToId[name := id];
    }

    method AddBalance(user: nat, quoteDelta: int, baseDelta: nat) returns (ok: bool)
      requires Valid()
      modifies this`users
      ensures Valid() && (TheWorld(), ok) == Deposit(old(TheWorld()), user, quoteDelta, baseDelta)
      ensures ok <==> user < |users| && (quoteDelta < 0 ==> old(users)[user].quote + quoteDelta >= 0)
      ensures if ok then OnlyFunded(old(users), users, user, quoteDelta, baseDelta) else users == old(users)
      ensures old(QuoteSolvent(Books())) ==>
                (QuoteSolvent(Books()) <==> !ok || old(users)[user].quote + quoteDelta >= old(users)[user].lockedQuote)
    {
      hide AccountsOk, NamesOk, OnlyFunded, Synced, ViewOk, Engine.LimitOrderBook.Valid, QuoteSolvent;
      DepositKeepsGood(TheWorld(), user, quoteDelta, baseDelta);
      if user >= |users| {
        return false;
      }
      if quoteDelta < 0 && users[user].quote + quoteDelta < 0 {
        return false;
      }
      if baseDelta > 0 {
        users := users[user := users[user].(base := users[user].base + baseDelta)];
      }
      if quoteDelta != 0 {
        users := users[user := users[user].(quote := users[user].quote + quoteDelta)];
      }
      assert users == Adjust(old(users), user, quoteDelta, baseDelta, 0, 0);
      return true;
    }

    /** Withdraw a user's own active order. */
    method Cancel(user: nat, id: nat, expectBid: bool) returns (ok: bool)
      requires Valid()
      modifies this`users, this`orders, engine, engine.Arrays()
      ensures Valid() && Coherent(old(engine.TheView()))
      ensures (TheWorld(), ok) == ExchangeSpec.Cancel(old(TheWorld()), user, id, expectBid)
      ensures ok <==> OwnActive(old(Books()), user, id, expectBid)
      ensures if ok then OnlyUnlocked(old(users), users, user, old(orders)[id]) else TheWorld() == old(TheWorld())
    {
      hide AccountsOk, Coherent, NamesOk, OnlyUnlocked, RemoveAt, Resting, Synced, ViewOk, WithdrawnFrom;
      hide Engine.LimitOrderBook.Valid;
      CancelKeepsGood(TheWorld(), user, id, expectBid);
      if user >= |users| {
        return false;
      }
      if id == 0 || id >= |orders| {
        return false;
      }
      var o := orders[id];
      if !o.active {
        return false;
      }
      if o.user != user {
        return false;
      }
      if o.isBid != expectBid {
        return false;
      }
      ok := engine.Cancel(id);
      if !ok {
        return false;
      }
      if o.isBid {
        users := Adjust(users, user, 0, 0, -o.lockedQuote, 0);
      } else {
        users := Adjust(users, user, 0, 0, 0, -o.lockedBase);
      }
      orders := orders[id := o.(active := false, remaining := 0, lockedQuote := 0, lockedBase := 0)];
    }

    /** Replay the executions of one call over the table and the balances. */
    method ApplyExecutions(taker: nat, es: seq<Execution>)
      requires tradeLog.Valid() && Owned(Books(), taker)
      modifies this`users, this`orders, tradeLog`size, tradeLog`head, tradeLog`log, tradeLog.slots
      ensures tradeLog.Valid()
      ensures Books() == if old(orders)[taker].active then ApplyAll(old(Books()), taker, es) else old(Books())
      ensures tradeLog.log == if old(orders)[taker].active && tradeLog.enabled
                              then old(tradeLog.log) + Logged(old(Books()), taker, es) else old(tradeLog.log)
    {
      hide ApplyAll, ApplyOne, Engine.LimitOrderBook.Arrays, Engine.LimitOrderBook.Valid, Logged, Owned;
      hide TradeLog.Ring.Valid, TradeLog.TradeOf, Valid;
      TakerExists(Books(), taker);
      if taker >= |orders| || !orders[taker].active {
        return;
      }
      assert es[0..] == es;
      ghost var before := Books();
      ghost var logged := [];
      for k := 0 to |es|
        invariant tradeLog.Valid() && tradeLog.enabled == old(tradeLog.enabled) && Owned(Books(), taker)
        invariant ApplyAll(before, taker, es) == ApplyAll(Books(), taker, es[k..])
        invariant Logged(before, taker, es) == logged + Logged(Books(), taker, es[k..])
        invariant tradeLog.log == if tradeLog.enabled then old(tradeLog.log) + logged else old(tradeLog.log)
      {
        var e := es[k];
        ReplayUnfolds(Books(), taker, es, k);
        if 0 < e.makerId < |orders| && orders[e.makerId].active {
          tradeLog.Push(e);
          logged := logged + [TradeLog.TradeOf(e)];
          Settle(taker, e);
        }
      }
      assert es[|es|..] == [];
      ReplayEnds(Books(), taker);
    }

    /** Fill t of an order: reduce its remainder and release what was locked for it. */
    method FillOrder(i: nat, t: nat) returns (o: LiveOrder)
      requires i < |orders| && orders[i].user < |users|
      modifies this`users, this`orders
      ensures o == Filled(old(orders)[i], t) && orders == old(orders)[i := o]
      ensures users == Unlocked(old(users), old(orders)[i], t)
    {
      o := orders[i];
      o := o.(remaining := o.remaining - t);
      if o.isBid {
        var deltaLock := o.limitPrice * t;
        o := o.(lockedQuote := o.lockedQuote - deltaLock);
        users := Adjust(users, o.user, 0, 0, -deltaLock, 0);
      } else {
        o := o.(lockedBase := o.lockedBase - t);
        users := Adjust(users, o.user, 0, 0, 0, -(t as int));
      }
      if o.remaining == 0 {
        o := o.(active := false);
      }
      orders := orders[i := o];
    }

    /** Move base and notional between the two sides of a trade. */
    method Pay(maker: LiveOrder, takes: LiveOrder, px: int, t: int)
      requires maker.user < |users| && takes.user < |users|
      modifies this`users
      ensures users == Paid(Paid(old(users), maker, maker.isBid, px, t), takes, !maker.isBid, px, t)
    {
      var notional := px * t;
      if maker.isBid {
        users := Adjust(users, maker.user, -notional, t, 0, 0);
        users := Adjust(users, takes.user, notional, -t, 0, 0);
      } else {
        users := Adjust(users, maker.user, notional, -t, 0, 0);
        users := Adjust(users, takes.user, -notional, t, 0, 0);
      }
    }

    /** Credit a bid with what it locked beyond the notional. */
    method PayRefund(o: LiveOrder, px: int, t: int)
      requires o.user < |users|
      modifies this`users
      ensures users == Refunded(old(users), o, px, t)
    {
      if o.isBid {
        var refund := o.limitPrice * t - px * t;
        if refund > 0 {
          users := Adjust(users, o.user, refund, 0, 0, 0);
        }
      }
    }

    /** One execution: fill both orders, settle, then refund price improvement. */
    method Settle(taker: nat, e: Execution)
      requires Owned(Books(), taker) && Settles(Books(), e)
      modifies this`users, this`orders
      ensures Books() == ApplyOne(old(Books()), taker, e)
    {
      hide Filled, Unlocked, Paid, Refunded;
      ghost var m, t := orders[e.makerId], orders[e.makerId := Filled(orders[e.makerId], e.qty)][taker];
      FilledSame(m, e.qty);
      FilledSame(t, e.qty);
      var maker := FillOrder(e.makerId, e.qty);
      var takes := FillOrder(taker, e.qty);
      PaidSame(users, m, maker, maker.isBid, e.price, e.qty);
      PaidSame(Paid(users, maker, maker.isBid, e.price, e.qty), t, takes, !maker.isBid, e.price, e.qty);
      Pay(maker, takes, e.price, e.qty);
      RefundedSame(users, t, takes, e.price, e.qty);
      PayRefund(takes, e.price, e.qty);
      RefundedSame(users, m, maker, e.price, e.qty);
      PayRefund(maker, e.price, e.qty);
    }

    /** Enter a bid: lock limit * qty of quote, match, replay, and discard the rest if asked to. */
    method SubmitBid(user: nat, price: int, qty: nat, discard: bool) returns (result: Option<nat>)
      requires Valid() && qty < QTY_MODULUS
      modifies this`users, this`orders, this`nextOrderId, engine, engine.Arrays(), tradeLog, tradeLog.slots
      ensures Valid() && Good(old(TheWorld()))
      ensures (TheWorld(), result) == Submit(old(TheWorld()), Buy, user, price, qty, discard)
      ensures tradeLog.enabled == old(tradeLog.enabled)
      ensures tradeLog.log == old(tradeLog.log)
                + if tradeLog.enabled && result.Some?
                  then Trades(Matching(old(TheWorld()), Buy, price, qty).execs) else []
    {
      hide AccountsOk, NamesOk, Synced, ViewOk, Engine.LimitOrderBook.Valid, Resting, ProcessAt, Matching, MatchAt;
      hide Coherent, WellFormed;
      hide ApplyAll, Owned, TradeLog.Ring.Valid, Logged, Trades;
      ghost var w := TheWorld();
      SubmitFacts(w, Buy, user, price, qty, discard);
      if user >= |users| {
        return None;
      }
      if qty == 0 {
        return None;
      }
      var u := users[user];
      var need := price * qty;
      if u.quote - u.lockedQuote < need {
        return None;
      }

      var id := nextOrderId;
      nextOrderId := nextOrderId + 1;
      orders := orders + [LiveOrder(true, user, true, price, qty, need, 0)];
      users := users[user := u.(lockedQuote := u.lockedQuote + need)];
      assert Books() == Opened(w.accounts, Buy, user, price, qty);

      var ok, executions := engine.ProcessOrder(Buy, price, qty, id);
      if !ok {
        users := users[user := users[user].(lockedQuote := users[user].lockedQuote - need)];
        orders := orders[id := orders[id].(active := false, remaining := 0, lockedQuote := 0)];
        assert users == w.accounts.users;
        assert orders == w.accounts.orders + [Closed(NewOrder(Buy, user, price, qty))];
        return None;
      }

      ApplyExecutions(id, executions);
      if discard && orders[id].active {
        var _ := Cancel(user, id, true);
      }
      return Some(id);
    }

    /** Enter an ask: lock qty of base, match, replay, and discard the rest if asked to. */
    method SubmitAsk(user: nat, price: int, qty: nat, discard: bool) returns (result: Option<nat>)
      requires Valid() && qty < QTY_MODULUS
      modifies this`users, this`orders, this`nextOrderId, engine, engine.Arrays(), tradeLog, tradeLog.slots
      ensures Valid() && Good(old(TheWorld()))
      ensures (TheWorld(), result) == Submit(old(TheWorld()), Sell, user, price, qty, discard)
      ensures tradeLog.enabled == old(tradeLog.enabled)
      ensures tradeLog.log == old(tradeLog.log)
                + if tradeLog.enabled && result.Some?
                  then Trades(Matching(old(TheWorld()), Sell, price, qty).execs) else []
    {
      hide AccountsOk, NamesOk, Synced, ViewOk, Engine.LimitOrderBook.Valid, Resting, ProcessAt, Matching, MatchAt;
      hide Coherent, WellFormed;
      hide ApplyAll, Owned, TradeLog.Ring.Valid, Logged, Trades;
      ghost var w := TheWorld();
      SubmitFacts(w, Sell, user, price, qty, discard);
      if user >= |users| {
        return None;
      }
      if qty == 0 {
        return None;
      }
      var u := users[user];
      if u.base - u.lockedBase < qty {
        return None;
      }

      var id := nextOrderId;
      nextOrderId := nextOrderId + 1;
      orders := orders + [LiveOrder(true, user, false, price, qty, 0, qty)];
      users := users[user := u.(lockedBase := u.lockedBase + qty)];
      assert Books() == Opened(w.accounts, Sell, user, price, qty);

      var ok, executions := engine.ProcessOrder(Sell, price, qty, id);
      if !ok {
        users := users[user := users[user].(lockedBase := users[user].lockedBase - qty)];
        orders := orders[id := orders[id].(active := false, remaining := 0, lockedBase := 0)];
        assert users == w.accounts.users;
        assert orders == w.accounts.orders + [Closed(NewOrder(Sell, user, price, qty))];
        return None;
      }

      ApplyExecutions(id, executions);
      if discard && orders[id].active {
        var _ := Cancel(user, id, false);
      }
      return Some(id);
    }

    /** Buy at any price up to the highest one, discarding what finds no ask. */
    method AddMarketBid(user: nat, qty: nat) returns (result: Option<nat>)
      requires Valid() && qty < QTY_MODULUS
      modifies this`users, this`orders, this`nextOrderId, engine, engine.Arrays(), tradeLog, tradeLog.slots
      ensures Valid() && Good(old(TheWorld()))
      ensures (TheWorld(), result) == Submit(old(TheWorld()), Buy, user, PRICE_MAX, qty, true)
    {
      result := SubmitBid(user, PRICE_MAX, qty, true);
    }

    method AddMarketAsk(user: nat, qty: nat) returns (result: Option<nat>)
      requires Valid() && qty < QTY_MODULUS
      modifies this`users, this`orders, this`nextOrderId, engine, engine.Arrays(), tradeLog, tradeLog.slots
      ensures Valid() && Good(old(TheWorld()))
      ensures (TheWorld(), result) == Submit(old(TheWorld()), Sell, user, PRICE_MIN, qty, true)
    {
      result := SubmitAsk(user, PRICE_MIN, qty, true);
    }

    // ---- Depth -----------------------------------------------------------------------------------

    lemma BookRange()
      requires Valid()
      ensures ViewOk(engine.TheView()) && engine.Valid() && Levels(engine.book) == PRICE_MAX - PRICE_MIN + 1
      ensures engine.book.lo == PRICE_MIN && engine.qtyModulus == QTY_MODULUS > 0
    {}

    /** The next lower price with a total that does not read zero. */
    method NextBid(price: int) returns (found: Option<int>)
      requires Valid() && PRICE_MIN <= price <= PRICE_MAX && 0 <= RankAt(Buy, price) < Levels(engine.book)
      ensures Valid() && IsNext(engine.book, Buy, price, found)
    {
      hide Config.Good, DepthFrom, Engine.BookSide.Snapshot, Engine.LimitOrderBook.Arrays;
      hide Engine.LimitOrderBook.Cfg, Engine.LimitOrderBook.Shape, Engine.LimitOrderBook.Snapshot;
      hide Engine.LimitOrderBook.TheView, Good, Indexed, Levels, Min, Queue, ReadFrom, TheWorld, Total;
      hide ViewOk;
      BookRange();
      ghost var b, n := engine.book, Levels(engine.book);
      var next := price - 1;
      while next >= PRICE_MIN
        invariant Valid() && PRICE_MIN - 1 <= next < price
        invariant forall i :: RankAt(Buy, price) < i < RankAt(Buy, next) ==>
                    Total(Queue(b, Buy, LevelAt(Buy, i, n))) % QTY_MODULUS == 0
      {
        var qty := engine.LevelQuantity(Buy, next);
        if qty != 0 {
          SkipZero(b, Buy, RankAt(Buy, price) + 1, RankAt(Buy, next), QTY_MODULUS);
          return Some(next);
        }
        next := next - 1;
      }
      SkipZero(b, Buy, RankAt(Buy, price) + 1, n, QTY_MODULUS);
      NothingDeeper(b, Buy, QTY_MODULUS);
      return None;
    }

    /** The next higher price with a total that does not read zero. */
    method NextAsk(price: int) returns (found: Option<int>)
      requires Valid() && PRICE_MIN <= price <= PRICE_MAX && 0 <= RankAt(Sell, price) < Levels(engine.book)
      ensures Valid() && IsNext(engine.book, Sell, price, found)
    {
      hide Config.Good, DepthFrom, Engine.BookSide.Snapshot, Engine.LimitOrderBook.Arrays;
      hide Engine.LimitOrderBook.Cfg, Engine.LimitOrderBook.Shape, Engine.LimitOrderBook.Snapshot;
      hide Engine.LimitOrderBook.TheView, Good, Indexed, Levels, Min, Queue, ReadFrom, TheWorld, Total;
      hide ViewOk;
      BookRange();
      ghost var b, n := engine.book, Levels(engine.book);
      var next := price + 1;
      while next <= PRICE_MAX
        invariant Valid() && price < next <= PRICE_MAX + 1
        invariant forall i :: RankAt(Sell, price) < i < RankAt(Sell, next) ==>
                    Total(Queue(b, Sell, LevelAt(Sell, i, n))) % QTY_MODULUS == 0
      {
        var qty := engine.LevelQuantity(Sell, next);
        if qty != 0 {
          SkipZero(b, Sell, RankAt(Sell, price) + 1, RankAt(Sell, next), QTY_MODULUS);
          return Some(next);
        }
        next := next + 1;
      }
      SkipZero(b, Sell, RankAt(Sell, price) + 1, n, QTY_MODULUS);
      NothingDeeper(b, Sell, QTY_MODULUS);
      return None;
    }

    /** What is read at a price, and how the list goes on from there. */
    lemma DepthAt(s: Side, price: int)
      requires Valid() && 0 <= RankAt(s, price) < Levels(engine.book)
      ensures var b := engine.book;
        var qty := Total(Queue(b, s, price - b.lo)) % QTY_MODULUS;
        ReadFrom(b, s, RankAt(s, price), QTY_MODULUS)
        == (if qty == 0 then [] else [DepthLevel(price, qty)]) + ReadFrom(b, s, RankAt(s, price) + 1, QTY_MODULUS)
    {
      hide Engine.LimitOrderBook.Arrays, Engine.LimitOrderBook.TheView, Engine.LimitOrderBook.Valid, Levels;
      hide Queue, ReadFrom, Total, TradeLog.Ring.Valid, Valid, ViewOk;
      BookRange();
      ReadUnfolds(engine.book, s, RankAt(s, price), QTY_MODULUS);
    }

    /** The best levels of a side with their totals, scanning prices away from the best. */
    method GetDepth(bids: bool, maxLevels: nat) returns (out: seq<DepthLevel>)
      requires Valid()
      ensures Valid() && |engine.shown.bids| == |engine.shown.asks| == Levels(engine.book)
      ensures out == FirstLevels(Scan(engine.TheView(), if bids then Buy else Sell, QTY_MODULUS), maxLevels)
      ensures var side := if bids then Buy else Sell;
        out == FirstLevels(DepthFrom(engine.book, side, 0), maxLevels)
        <==> ReadsFirst(engine.TheView(), side, QTY_MODULUS, maxLevels)
    {
      hide Best, Config.Good, Engine.BookSide.Snapshot, Engine.LimitOrderBook.Arrays;
      hide Engine.LimitOrderBook.Cfg, Engine.LimitOrderBook.Shape, Engine.LimitOrderBook.Snapshot;
      hide DepthFrom, FirstLevels, Good, Indexed, Levels, Min, Queue, ReadFrom, ReadsFirst, Scan, TheWorld;
      hide Total, ViewOk;
      var side := if bids then Buy else Sell;
      ghost var b := engine.book;
      BookRange();
      ScanStarts(engine.TheView(), side);
      ghost var all, rest := Scan(engine.TheView(), side, QTY_MODULUS), Scan(engine.TheView(), side, QTY_MODULUS);
      var p;
      if bids {
        p := engine.BestBid();
      } else {
        p := engine.BestAsk();
      }
      out := [];
      while p.Some? && |out| < maxLevels
        invariant Valid()
        invariant p.Some? ==> PRICE_MIN <= p.value <= PRICE_MAX && 0 <= RankAt(side, p.value) < Levels(b)
        invariant all == out + rest && |out| <= maxLevels
        invariant rest == if p.Some? then ReadFrom(b, side, RankAt(side, p.value), QTY_MODULUS) else []
        decreases if p.Some? then Levels(b) - RankAt(side, p.value) else 0
      {
        DepthAt(side, p.value);
        var qty := engine.LevelQuantity(side, p.value);
        ghost var tail := ReadFrom(b, side, RankAt(side, p.value) + 1, QTY_MODULUS);
        ScanStep(all, out, DepthLevel(p.value, qty), qty != 0, rest, tail);
        if qty != 0 {
          out := out + [DepthLevel(p.value, qty)];
        }
        rest := tail;
        if bids {
          p := NextBid(p.value);
        } else {
          p := NextAsk(p.value);
        }
      }
      ScanStopped(all, out, rest, maxLevels);
      ScanReturned(engine.TheView(), side, maxLevels);
    }
  }
}
