/**
 * Short runs from the initial state that show three expected laws to fail: total quote
 * is not conserved, a withdrawal can take out locked quote, and a call that returns
 * false can have traded.
 */
module Witnesses {
  import opened PriceTimeBook
  import opened BookLaws
  import opened IndexedBook
  import opened Widths
  import opened Beforehand
  import opened Ledger
  import opened ExchangeSpec
  import opened Exchange

  /** Nothing to trade with on the other side. */
  lemma NothingOpposite(b: Book, side: Side, limit: int, qty: nat)
    requires |b.bids| == |b.asks| && forall l: int :: Queue(b, side.Opposite(), l) == []
    ensures MatchEnds(b, side, limit, qty)
  {
    BestIsBest(b, side.Opposite());
  }

  /** One command of a run, from a consistent state. */
  ghost predicate Goes(w: World, c: Command, w': World) {
    Good(w) && w' == Step(w, c) && Good(w')
  }

  lemma UserGoes(w: World, w': World)
    requires Good(w) && w' == World(Accounts(w.accounts.users + [User(0, 0, 0, 0)], w.accounts.orders), w.view)
    ensures Goes(w, NewUser, w')
  {
    hide Good;
    StepLaws(w, NewUser);
  }

  lemma FundGoes(w: World, user: nat, dq: int, db: nat, w': World)
    requires Good(w) && user < |w.accounts.users| && w.accounts.users[user].quote + dq >= 0
    requires w' == World(Accounts(Adjust(w.accounts.users, user, dq, db, 0, 0), w.accounts.orders), w.view)
    ensures Goes(w, Fund(user, dq, db), w')
  {
    hide Good;
    StepLaws(w, Fund(user, dq, db));
  }

  /** A limit order with nothing opposite it. */
  lemma EnterGoes(w: World, side: Side, user: nat, price: int, qty: nat, w': World)
    requires Good(w) && Accepts(w, side, user, price, qty)
    requires forall l: int :: Queue(w.view.shown, side.Opposite(), l) == []
    requires 0 <= price - PRICE_MIN < |LadderOf(w.view.book, side)| == |LadderOf(w.view.shown, side)|
    requires w' == World(Opened(w.accounts, side, user, price, qty),
                         Joined(w.view, side, price - PRICE_MIN, Entry(|w.accounts.orders|, qty)))
    ensures Goes(w, Enter(side, user, price, qty, false), w')
  {
    SidesEqual(w);
    NothingOpposite(w.view.shown, side, price, qty);
    hide Good, Submit, Opened;
    NonCrossingRests(w, side, user, price, qty);
    StepLaws(w, Enter(side, user, price, qty, false));
  }

  lemma SidesEqual(w: World)
    requires Good(w)
    ensures |w.view.book.bids| == |w.view.book.asks| == |w.view.shown.bids| == |w.view.shown.asks|
      == PRICE_MAX - PRICE_MIN + 1
  {}

  /** An ask resting alone at the lowest price is the best ask. */
  lemma LoneAskIsBest(v: View, e: Entry)
    requires |v.book.bids| == |v.book.asks| == |v.shown.bids| == |v.shown.asks| > 0
    requires forall l: int :: Queue(v.shown, Sell, l) == []
    ensures Best(Joined(v, Sell, 0, e).shown, Sell) == 0
  {
    var c := Joined(v, Sell, 0, e);
    JoinedShape(v, Sell, 0, e);
    forall l: int ensures Queue(c.shown, Sell, l) != [] <==> l == 0 {
      JoinedQueues(v, Sell, 0, e, Sell, l);
    }
    hide Joined;
    BestUnique(c.shown, Sell, 0);
  }

  /**
   * A seller offers one unit at the lowest price and a buyer takes it with a limit one
   * higher: all balances hold PRICE_MIN + 1 quote before the trade and more after it.
   */
  lemma QuoteFromNothing() returns (ws: seq<World>, cs: seq<Command>)
    ensures IsHistory(ws, cs) && ws[0] == Start()
    ensures cs == [NewUser, NewUser, Fund(0, 0, 1), Fund(1, PRICE_MIN + 1, 0),
                   Enter(Sell, 0, PRICE_MIN, 1, false), Enter(Buy, 1, PRICE_MIN + 1, 1, false)]
    ensures TotalQuote(ws[5].accounts.users) == PRICE_MIN + 1
    ensures TotalQuote(ws[6].accounts.users) > PRICE_MIN + 1
  {
    hide Good, Step, Goes, Best, Submit;
    var w0, none := Start(), User(0, 0, 0, 0);
    var seller, buyer := User(0, 1, 0, 0), User(PRICE_MIN + 1, 0, 0, 0);
    StartGood();
    SidesEqual(w0);
    var w1 := w0.(accounts := Accounts([none], [NO_ORDER]));
    UserGoes(w0, w1);
    GoesOn(w0, NewUser, w1);
    var w2 := w0.(accounts := Accounts([none, none], [NO_ORDER]));
    UserGoes(w1, w2);
    GoesOn(w1, NewUser, w2);
    var w3 := w0.(accounts := Accounts([seller, none], [NO_ORDER]));
    FundGoes(w2, 0, 0, 1, w3);
    GoesOn(w2, Fund(0, 0, 1), w3);
    var w4 := w0.(accounts := Accounts([seller, buyer], [NO_ORDER]));
    FundGoes(w3, 1, PRICE_MIN + 1, 0, w4);
    GoesOn(w3, Fund(1, PRICE_MIN + 1, 0), w4);
    var w5 := World(Opened(w4.accounts, Sell, 0, PRICE_MIN, 1), Joined(w0.view, Sell, 0, Entry(1, 1)));
    EnterGoes(w4, Sell, 0, PRICE_MIN, 1, w5);
    GoesOn(w4, Enter(Sell, 0, PRICE_MIN, 1, false), w5);
    assert w5.accounts.users == [User(0, 1, 0, 1), buyer];
    TotalOfTwo(User(0, 1, 0, 1), buyer);
    LoneAskIsBest(w0.view, Entry(1, 1));
    QuoteConservedExactly(w5, Buy, 1, PRICE_MIN + 1, 1, false);
    var w6 := Submit(w5, Buy, 1, PRICE_MIN + 1, 1, false).0;
    EnterIsSubmit(w5, Buy, 1, PRICE_MIN + 1, 1);
    ws := [w0, w1, w2, w3, w4, w5, w6];
    cs := [NewUser, NewUser, Fund(0, 0, 1), Fund(1, PRICE_MIN + 1, 0),
           Enter(Sell, 0, PRICE_MIN, 1, false), Enter(Buy, 1, PRICE_MIN + 1, 1, false)];
  }

  lemma EnterIsSubmit(w: World, side: Side, user: nat, price: int, qty: nat)
    requires Good(w)
    ensures Step(w, Enter(side, user, price, qty, false)) == Submit(w, side, user, price, qty, false).0
  {
    hide Good, Submit;
  }

  lemma GoesOn(w: World, c: Command, w': World)
    requires Goes(w, c, w')
    ensures Good(w) && w' == Step(w, c) && Good(w')
  {}

  lemma TotalOfTwo(x: User, y: User)
    ensures TotalQuote([x, y]) == x.quote + y.quote
  {
    assert [x, y][..1] == [x];
    assert TotalQuote([x]) == x.quote;
  }

  /** A withdrawal after a bid has locked the whole balance leaves less quote than is locked. */
  lemma WithdrawalOfLockedQuote() returns (ws: seq<World>, cs: seq<Command>)
    ensures IsHistory(ws, cs) && ws[0] == Start()
    ensures cs == [NewUser, Fund(0, PRICE_MIN, 0), Enter(Buy, 0, PRICE_MIN, 1, false), Fund(0, -1, 0)]
    ensures QuoteSolvent(ws[3].accounts) && !QuoteSolvent(ws[4].accounts)
    ensures ws[4].accounts.users == [User(PRICE_MIN - 1, 0, PRICE_MIN, 0)]
  {
    hide Good, Step, Goes;
    var w0 := Start();
    StartGood();
    SidesEqual(w0);
    var w1 := w0.(accounts := Accounts([User(0, 0, 0, 0)], [NO_ORDER]));
    UserGoes(w0, w1);
    GoesOn(w0, NewUser, w1);
    var w2 := w0.(accounts := Accounts([User(PRICE_MIN, 0, 0, 0)], [NO_ORDER]));
    FundGoes(w1, 0, PRICE_MIN, 0, w2);
    GoesOn(w1, Fund(0, PRICE_MIN, 0), w2);
    var w3 := World(Opened(w2.accounts, Buy, 0, PRICE_MIN, 1), Joined(w0.view, Buy, 0, Entry(1, 1)));
    EnterGoes(w2, Buy, 0, PRICE_MIN, 1, w3);
    GoesOn(w2, Enter(Buy, 0, PRICE_MIN, 1, false), w3);
    assert w3.accounts.users == [User(PRICE_MIN, 0, PRICE_MIN, 0)];
    var w4 := w3.(accounts := Accounts([User(PRICE_MIN - 1, 0, PRICE_MIN, 0)], w3.accounts.orders));
    FundGoes(w3, 0, -1, 0, w4);
    GoesOn(w3, Fund(0, -1, 0), w4);
    assert !(w4.accounts.users[0].lockedQuote <= w4.accounts.users[0].quote);
    ws := [w0, w1, w2, w3, w4];
    cs := [NewUser, Fund(0, PRICE_MIN, 0), Enter(Buy, 0, PRICE_MIN, 1, false), Fund(0, -1, 0)];
  }

  // ---- A rejection that trades -------------------------------------------------------------------

  /** A fully shown book that holds bids at its lowest price, asks at the next, and nothing else. */
  ghost predicate Holds(w: View, lo: int, levels: nat, bids: seq<Entry>, asks: seq<Entry>) {
    && Steady(w) && w.shown == w.book && w.book.lo == lo && Levels(w.book) == levels
    && forall s: Side, l: int ::
         Queue(w.book, s, l) == if s == Buy && l == 0 then bids else if s == Sell && l == 1 then asks else []
  }

  lemma HoldsParts(w: View, lo: int, levels: nat, bids: seq<Entry>, asks: seq<Entry>)
    requires Holds(w, lo, levels, bids, asks)
    ensures Steady(w) && Coherent(w) && WellFormed(w.book) && Positive(w.book) && w.shown == w.book
    ensures w.book.lo == lo && Levels(w.book) == levels && |w.book.bids| == |w.book.asks| == levels
    ensures forall s: Side, l: int ::
      Queue(w.book, s, l) == if s == Buy && l == 0 then bids else if s == Sell && l == 1 then asks else []
  {}

  lemma HoldsWhole(w: View, lo: int, levels: nat, bids: seq<Entry>, asks: seq<Entry>)
    requires Steady(w) && w.shown == w.book && w.book.lo == lo && Levels(w.book) == levels
    requires forall s: Side, l: int ::
      Queue(w.book, s, l) == if s == Buy && l == 0 then bids else if s == Sell && l == 1 then asks else []
    ensures Holds(w, lo, levels, bids, asks)
  {}

  /** An order under a fresh id that crosses nothing joins its level. */
  lemma PlaceJoins(w: View, capacity: nat, side: Side, price: int, qty: nat, id: int, m: nat)
    requires Steady(w) && m > 0 && GoodArguments(w.book, capacity, price, qty, id)
    requires MatchEnds(w.shown, side, price, qty) && !Resting(w.book, id)
    ensures 0 <= price - w.book.lo < |LadderOf(w.book, side)| == |LadderOf(w.shown, side)|
    ensures ApplyAt(w, capacity, Place(side, price, qty, id), m) == Joined(w, side, price - w.book.lo, Entry(id, qty))
  {
    hide Best, Joined, LadderOf, Levels, MatchEnds, Positive, Queue, Resting, Uncrossed, UniqueIds;
    hide ShownAt;
    MatchAtUnfolds(w, side, price, qty, id, m);
    LaddersFit(w, side);
    PriceOnLadder(w.book, capacity, side, price, qty, id);
  }

  /** Order 0 bids one unit at the lowest price of an empty book. */
  lemma FirstBid(w: View, lo: int, levels: nat, capacity: nat, m: nat)
    requires Holds(w, lo, levels, [], []) && levels > 1 && capacity > 0 && m > 0
    ensures Steady(w) && Holds(ApplyAt(w, capacity, Place(Buy, lo, 1, 0), m), lo, levels, [Entry(0, 1)], [])
  {
    hide *;
    HoldsParts(w, lo, levels, [], []);
    NothingOpposite(w.shown, Buy, lo, 1);
    OppositeOf();
    NothingRests(w.book, 0);
    InRange(w.book, capacity, lo, 1, 0);
    PlaceJoins(w, capacity, Buy, lo, 1, 0, m);
    JoinsWhole(w, lo, levels, [], [], capacity, Buy, lo, 0, m);
    assert [] + [Entry(0, 1)] == [Entry(0, 1)];
  }

  /** Order 1 asks one unit at the next price. */
  lemma FirstAsk(w: View, lo: int, levels: nat, capacity: nat, m: nat)
    requires Holds(w, lo, levels, [Entry(0, 1)], []) && levels > 1 && capacity > 1 && m > 0
    ensures Steady(w)
    ensures Holds(ApplyAt(w, capacity, Place(Sell, lo + 1, 1, 1), m), lo, levels, [Entry(0, 1)], [Entry(1, 1)])
  {
    hide *;
    HoldsParts(w, lo, levels, [Entry(0, 1)], []);
    BidTooLow(w, lo);
    OnlyZeroRests(w.book);
    InRange(w.book, capacity, lo + 1, 1, 1);
    PlaceJoins(w, capacity, Sell, lo + 1, 1, 1, m);
    JoinsWhole(w, lo, levels, [Entry(0, 1)], [], capacity, Sell, lo + 1, 1, m);
    assert [] + [Entry(1, 1)] == [Entry(1, 1)];
  }

  lemma OppositeOf()
    ensures Buy.Opposite() == Sell && Sell.Opposite() == Buy
  {}

  lemma InRange(b: Book, capacity: nat, price: int, qty: nat, id: int)
    requires qty > 0 && 0 <= price - b.lo < Levels(b) && 0 <= id < capacity
    ensures GoodArguments(b, capacity, price, qty, id)
  {}

  lemma NothingRests(b: Book, id: int)
    requires forall s: Side, l: int :: Queue(b, s, l) == []
    ensures !Resting(b, id)
  {}

  lemma OnlyZeroRests(b: Book)
    requires forall s: Side, l: int :: Queue(b, s, l) == if s == Buy && l == 0 then [Entry(0, 1)] else []
    ensures !Resting(b, 1)
  {}

  lemma BidTooLow(w: View, lo: int)
    requires |w.shown.bids| == |w.shown.asks| && w.shown.lo == lo
    requires forall l: int :: Queue(w.shown, Buy, l) == if l == 0 then [Entry(0, 1)] else []
    ensures MatchEnds(w.shown, Sell, lo + 1, 1)
  {
    assert Queue(w.shown, Buy, 0) != [];
    BestIsBest(w.shown, Buy);
  }

  /** A fully shown book is fully shown after an order has joined one of the two levels. */
  lemma JoinsWhole(w: View, lo: int, levels: nat, bids: seq<Entry>, asks: seq<Entry>, capacity: nat,
                   side: Side, price: int, id: int, m: nat)
    requires Holds(w, lo, levels, bids, asks) && Steady(w) && m > 0 && price == if side == Buy then lo else lo + 1
    requires 0 <= price - lo < |LadderOf(w.book, side)| == |LadderOf(w.shown, side)|
    requires ApplyAt(w, capacity, Place(side, price, 1, id), m) == Joined(w, side, price - lo, Entry(id, 1))
    ensures Holds(ApplyAt(w, capacity, Place(side, price, 1, id), m), lo, levels,
                  if side == Buy then bids + [Entry(id, 1)] else bids,
                  if side == Sell then asks + [Entry(id, 1)] else asks)
  {
    hide *;
    var e, v := Entry(id, 1), Joined(w, side, price - lo, Entry(id, 1));
    HoldsParts(w, lo, levels, bids, asks);
    ApplyAtKeeps(w, capacity, Place(side, price, 1, id), m);
    JoinedWhole(w.book, side, price - lo, e);
    JoinedShape(w, side, price - lo, e);
    forall s: Side, l: int
      ensures Queue(v.book, s, l) == Queue(w.book, s, l) + if s == side && l == price - lo then [e] else []
    {
      JoinedQueues(w, side, price - lo, e, s, l);
    }
    assert w == View(w.book, w.book);
    HoldsWhole(v, lo, levels, if side == Buy then bids + [e] else bids, if side == Sell then asks + [e] else asks);
  }

  /**
   * A run from the empty book after which a second buy under the active id 0 takes the
   * only ask and is then refused: process_order returns false with a trade made.
   */
  lemma RefusedAfterTrading(lo: int, levels: nat, capacity: nat, m: nat) returns (views: seq<View>, ops: seq<Op>)
    requires levels > 1 && capacity > 1 && m > 0
    ensures IsRunAt(views, ops, capacity, m) && views[0] == EmptyView(lo, levels)
    ensures ops == [Place(Buy, lo, 1, 0), Place(Sell, lo + 1, 1, 1)]
    ensures Coherent(views[2]) && WellFormed(views[2].book)
    ensures var o := ProcessAt(views[2], capacity, Buy, lo + 1, 2, 0, m);
      !o.accepted && o.execs == [Execution(Buy, 0, Sell, 1, lo + 1, 1)]
  {
    hide *;
    var v0 := EmptyView(lo, levels);
    EmptyHolds(lo, levels);
    FirstBid(v0, lo, levels, capacity, m);
    var v1 := ApplyAt(v0, capacity, Place(Buy, lo, 1, 0), m);
    FirstAsk(v1, lo, levels, capacity, m);
    var v2 := ApplyAt(v1, capacity, Place(Sell, lo + 1, 1, 1), m);
    HoldsParts(v2, lo, levels, [Entry(0, 1)], [Entry(1, 1)]);
    TakesThenFails(v2, lo, levels, capacity, m);
    views, ops := [v0, v1, v2], [Place(Buy, lo, 1, 0), Place(Sell, lo + 1, 1, 1)];
    TwoStepRun(v0, v1, v2, ops[0], ops[1], capacity, m);
  }

  lemma EmptyHolds(lo: int, levels: nat)
    ensures Holds(EmptyView(lo, levels), lo, levels, [], [])
  {
    EmptySteady(lo, levels);
  }

  lemma TwoStepRun(v0: View, v1: View, v2: View, o0: Op, o1: Op, capacity: nat, m: nat)
    requires m > 0 && Steady(v0) && Steady(v1)
    requires v1 == ApplyAt(v0, capacity, o0, m) && v2 == ApplyAt(v1, capacity, o1, m)
    ensures IsRunAt([v0, v1, v2], [o0, o1], capacity, m)
  {
    hide Steady, ApplyAt;
  }

  lemma TakesThenFails(w: View, lo: int, levels: nat, capacity: nat, m: nat)
    requires Holds(w, lo, levels, [Entry(0, 1)], [Entry(1, 1)]) && levels > 1 && capacity > 1 && m > 0
    ensures Coherent(w) && WellFormed(w.book)
    ensures var o := ProcessAt(w, capacity, Buy, lo + 1, 2, 0, m);
      !o.accepted && o.execs == [Execution(Buy, 0, Sell, 1, lo + 1, 1)]
  {
    hide *;
    HoldsParts(w, lo, levels, [Entry(0, 1)], [Entry(1, 1)]);
    OppositeOf();
    InRange(w.book, capacity, lo + 1, 2, 0);
    AskCrosses(w.shown, lo);
    MatchAtUnfolds(w, Buy, lo + 1, 2, 0, m);
    MinIs(2, 1);
    var v := Served(w, Sell, 1, 1, m);
    TakenAsk(w, lo, m);
    MatchAtUnfolds(v, Buy, lo + 1, 1, 0, m);
    RejectedAfterMatching(w, capacity, Buy, lo + 1, 2, 0, m);
    VolumeCons(Execution(Buy, 0, Sell, 1, lo + 1, 1), []);
    NoVolume();
  }

  lemma NoVolume()
    ensures Volume([]) == 0
  {}

  lemma AskCrosses(b: Book, lo: int)
    requires |b.bids| == |b.asks| && b.lo == lo
    requires forall l: int :: Queue(b, Sell, l) == if l == 1 then [Entry(1, 1)] else []
    ensures Best(b, Sell) == 1 && !MatchEnds(b, Buy, lo + 1, 2)
  {
    assert Queue(b, Sell, 1) != [];
    BestUnique(b, Sell, 1);
  }

  /** Once the only ask is taken nothing crosses, and order 0 is still active. */
  lemma TakenAsk(w: View, lo: int, m: nat)
    requires Coherent(w) && m > 0 && CanServe(w, Sell, 1, 1)
    requires forall s: Side, l: int ::
      Queue(w.book, s, l)
      == if s == Buy && l == 0 then [Entry(0, 1)] else if s == Sell && l == 1 then [Entry(1, 1)] else []
    requires w.shown == w.book
    ensures var v := Served(w, Sell, 1, 1, m);
      MatchEnds(v.shown, Buy, lo + 1, 1) && Resting(v.book, 0)
  {
    var v := Served(w, Sell, 1, 1, m);
    ServedIs(w, Sell, 1, 1, m);
    ServedShape(w, Sell, 1, 1, m);
    ConsumeQueues(w.book, Sell, 1, 1, Buy, 0);
    hide Served, Consume, Queue;
    assert Queue(v.book, Buy, 0)[0].id == 0 && HasId(Queue(v.book, Buy, 0), 0);
    forall l: int ensures Queue(v.shown, Sell, l) == [] {
      ServedShown(w, Sell, 1, 1, m, Sell, l);
      ConsumeQueues(w.book, Sell, 1, 1, Sell, l);
    }
    hide Resting;
    NothingOpposite(v.shown, Buy, lo + 1, 1);
  }
}
