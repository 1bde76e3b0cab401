/**
 * The single-producer single-consumer ring, one step per atomic access or buffer
 * access. Each atomic keeps its modification order, and a load of the other side's
 * index may return any value not older than the last one that side has seen.
 */
module SpscRing {
  import opened Bits
  import opened Wrappers

  datatype Producer<T> =
    | PIdle
    | PTail(value: T, tail: nat)
    | PBoth(value: T, tail: nat, head: nat)
    | PWritten(value: T, tail: nat)

  datatype Consumer<T> =
    | CIdle
    | CHead(head: nat)
    | CBoth(head: nat, tail: nat)
    | CRead(head: nat, out: T)

  /** heads and tails are the values ever stored in head_ and tail_, oldest first. */
  datatype State<T> = State(
    capacity: nat, buffer: seq<T>, heads: seq<nat>, tails: seq<nat>,
    headSeen: nat, tailSeen: nat, producer: Producer<T>, consumer: Consumer<T>,
    pushed: seq<T>, popped: seq<T>)

  datatype Event<T> =
    | PushLoadTail(value: T) | PushLoadHead(i: nat) | PushFail | PushWrite | PushStore
    | PopLoadHead | PopLoadTail(i: nat) | PopFail | PopRead | PopStore

  /** `(i + 1) & kMask`. */
  function Next(i: nat, capacity: nat): nat
    requires capacity > 0
  {
    And(i + 1, capacity - 1)
  }

  /** The class's static assertions on Capacity. */
  predicate GoodCapacity(c: nat) {
    c >= 2 && And(c, c - 1) == 0
  }

  ghost predicate Enabled<T>(s: State<T>, e: Event<T>) {
    && s.capacity > 0 && s.heads != [] && s.tails != []
    && match e
       case PushLoadTail(_) => s.producer.PIdle?
       case PushLoadHead(i) => s.producer.PTail? && s.headSeen <= i < |s.heads|
       case PushFail => s.producer.PBoth? && Next(s.producer.tail, s.capacity) == s.producer.head
       case PushWrite => s.producer.PBoth? && Next(s.producer.tail, s.capacity) != s.producer.head
                         && s.producer.tail < |s.buffer|
       case PushStore => s.producer.PWritten?
       case PopLoadHead => s.consumer.CIdle?
       case PopLoadTail(i) => s.consumer.CHead? && s.tailSeen <= i < |s.tails|
       case PopFail => s.consumer.CBoth? && s.consumer.head == s.consumer.tail
       case PopRead => s.consumer.CBoth? && s.consumer.head != s.consumer.tail && s.consumer.head < |s.buffer|
       case PopStore => s.consumer.CRead?
  }

  function Last(xs: seq<nat>): nat
    requires xs != []
  {
    xs[|xs| - 1]
  }

  ghost function Step<T>(s: State<T>, e: Event<T>): State<T>
    requires Enabled(s, e)
  {
    match e
    case PushLoadTail(v) => s.(producer := PTail(v, Last(s.tails)))
    case PushLoadHead(i) => s.(producer := PBoth(s.producer.value, s.producer.tail, s.heads[i]), headSeen := i)
    case PushFail => s.(producer := PIdle)
    case PushWrite => s.(buffer := s.buffer[s.producer.tail := s.producer.value],
                         producer := PWritten(s.producer.value, s.producer.tail))
    case PushStore => s.(tails := s.tails + [Next(s.producer.tail, s.capacity)],
                         pushed := s.pushed + [s.producer.value], producer := PIdle)
    case PopLoadHead => s.(consumer := CHead(Last(s.heads)))
    case PopLoadTail(i) => s.(consumer := CBoth(s.consumer.head, s.tails[i]), tailSeen := i)
    case PopFail => s.(consumer := CIdle)
    case PopRead => s.(consumer := CRead(s.consumer.head, s.buffer[s.consumer.head]))
    case PopStore => s.(heads := s.heads + [Next(s.consumer.head, s.capacity)],
                        popped := s.popped + [s.consumer.out], consumer := CIdle)
  }

  ghost predicate Initial<T>(s: State<T>) {
    && GoodCapacity(s.capacity) && |s.buffer| == s.capacity
    && s.heads == [0] && s.tails == [0] && s.headSeen == 0 && s.tailSeen == 0
    && s.producer == PIdle && s.consumer == CIdle && s.pushed == [] && s.popped == []
  }

  // ---- Index arithmetic ----------------------------------------------------------------

  /** The masked increment of an index is its successor modulo the capacity. */
  lemma NextIsModulo(n: nat, c: nat)
    requires GoodCapacity(c)
    ensures Next(n % c, c) == (n + 1) % c
  {
    var k := PowerOfTwoCheck(c);
    hide And, Pow2;
    MaskIsModulo(n % c + 1, k);
    SuccessorModulo(n, c);
  }

  lemma SuccessorModulo(n: nat, c: nat)
    requires c > 1
    ensures (n % c + 1) % c == (n + 1) % c
  {
    var q, r := n / c, n % c;
    assert n == c * q + r;
    if r + 1 < c {
      DivModUnique(n + 1, c, q, r + 1);
      DivModUnique(r + 1, c, 0, r + 1);
    } else {
      assert n + 1 == c * (q + 1);
      DivModUnique(n + 1, c, q + 1, 0);
      DivModUnique(c, c, 1, 0);
    }
  }

  /** Positions closer than the capacity use different slots. */
  lemma SlotsApart(a: nat, b: nat, c: nat)
    requires c > 0 && a <= b < a + c && a % c == b % c
    ensures a == b
  {
    var d := b / c - a / c;
    assert b - a == c * d by {
      assert a == c * (a / c) + a % c && b == c * (b / c) + b % c;
    }
    SmallMultiple(c, d);
  }

  /** The next index of b meets a exactly when capacity - 1 positions lie between them. */
  lemma NextMeets(a: nat, b: nat, c: nat)
    requires c > 1 && a <= b <= a + c - 1
    ensures (b + 1) % c == a % c <==> b == a + c - 1
  {
    if b == a + c - 1 {
      assert a + c == c * (a / c + 1) + a % c by {
        assert a == c * (a / c) + a % c;
      }
      DivModUnique(a + c, c, a / c + 1, a % c);
    } else if (b + 1) % c == a % c {
      SlotsApart(a, b + 1, c);
    }
  }

  // ---- The invariant -----------------------------------------------------------------------

  ghost predicate Indices(xs: seq<nat>, n: nat, c: nat) {
    && c > 0 && |xs| == n + 1
    && forall i :: 0 <= i < |xs| ==> xs[i] == i % c
  }

  /** Every value pushed and not yet popped is in its slot. */
  ghost predicate InFlight<T>(s: State<T>) {
    forall k :: |s.popped| <= k < |s.pushed| ==> s.capacity > 0 && k % s.capacity < |s.buffer|
                                                  && s.buffer[k % s.capacity] == s.pushed[k]
  }

  ghost predicate ProducerOk<T>(s: State<T>) {
    s.capacity > 0 &&
    match s.producer
    case PIdle => true
    case PTail(_, t) => t == |s.pushed| % s.capacity
    case PBoth(_, t, h) => t == |s.pushed| % s.capacity && h == s.headSeen % s.capacity
    case PWritten(v, t) => t == |s.pushed| % s.capacity && t < |s.buffer| && s.buffer[t] == v
                           && |s.pushed| + 1 <= s.headSeen + s.capacity - 1
  }

  ghost predicate ConsumerOk<T>(s: State<T>) {
    s.capacity > 0 &&
    match s.consumer
    case CIdle => true
    case CHead(h) => h == |s.popped| % s.capacity
    case CBoth(h, t) => h == |s.popped| % s.capacity && t == s.tailSeen % s.capacity
    case CRead(h, out) => h == |s.popped| % s.capacity && |s.popped| < s.tailSeen
                          && |s.popped| < |s.pushed| && out == s.pushed[|s.popped|]
  }

  ghost predicate Inv<T>(s: State<T>) {
    && GoodCapacity(s.capacity) && |s.buffer| == s.capacity
    && Indices(s.heads, |s.popped|, s.capacity) && Indices(s.tails, |s.pushed|, s.capacity)
    && s.headSeen <= |s.popped| <= s.tailSeen <= |s.pushed| <= s.headSeen + s.capacity - 1
    && s.popped <= s.pushed
    && InFlight(s) && ProducerOk(s) && ConsumerOk(s)
  }

  lemma InitialInv<T>(s: State<T>)
    requires Initial(s)
    ensures Inv(s)
  {}

  /** Every step of either side keeps the invariant, however stale its load. */
  lemma StepKeepsInv<T>(s: State<T>, e: Event<T>)
    requires Inv(s) && Enabled(s, e)
    ensures Inv(Step(s, e))
  {
    match e
    case PushLoadTail(_) => LoadKeepsInv(s, e);
    case PushLoadHead(_) => LoadKeepsInv(s, e);
    case PushFail => LoadKeepsInv(s, e);
    case PushWrite => WriteKeepsInv(s);
    case PushStore => PublishKeepsInv(s);
    case PopLoadHead => LoadKeepsInv(s, e);
    case PopLoadTail(_) => LoadKeepsInv(s, e);
    case PopFail => LoadKeepsInv(s, e);
    case PopRead => ReadKeepsInv(s);
    case PopStore => ReleaseKeepsInv(s);
  }

  /** Loads and failures move one side's local state only. */
  lemma LoadKeepsInv<T>(s: State<T>, e: Event<T>)
    requires Inv(s) && Enabled(s, e)
    requires !e.PushWrite? && !e.PushStore? && !e.PopRead? && !e.PopStore?
    ensures Inv(Step(s, e))
  {
    hide GoodCapacity, Next;
    var t := Step(s, e);
    assert InFlight(t);
    hide InFlight;
    assert Indices(t.heads, |t.popped|, t.capacity) && Indices(t.tails, |t.pushed|, t.capacity);
  }

  /** The slot written is not one that holds a value in flight. */
  lemma WriteKeepsInv<T>(s: State<T>)
    requires Inv(s) && Enabled(s, PushWrite)
    ensures Inv(Step(s, PushWrite))
  {
    ProducerHasRoom(s);
    hide GoodCapacity, Next, Indices;
    var c := s.capacity;
    forall k | |s.popped| <= k < |s.pushed| ensures k % c != |s.pushed| % c {
      if k % c == |s.pushed| % c {
        SlotsApart(k, |s.pushed|, c);
      }
    }
  }

  lemma PublishKeepsInv<T>(s: State<T>)
    requires Inv(s) && Enabled(s, PushStore)
    ensures Inv(Step(s, PushStore))
  {
    NextIsModulo(|s.pushed|, s.capacity);
    hide GoodCapacity, Next;
  }

  lemma ReadKeepsInv<T>(s: State<T>)
    requires Inv(s) && Enabled(s, PopRead)
    ensures Inv(Step(s, PopRead))
  {
    ConsumerHasValue(s);
    hide GoodCapacity, Next, Indices;
  }

  lemma ReleaseKeepsInv<T>(s: State<T>)
    requires Inv(s) && Enabled(s, PopStore)
    ensures Inv(Step(s, PopStore))
  {
    NextIsModulo(|s.popped|, s.capacity);
    hide GoodCapacity, Next;
  }

  /** A push fails exactly when capacity - 1 values lie between the head it has seen and its own tail. */
  lemma FullExactly<T>(s: State<T>)
    requires Inv(s) && s.producer.PBoth?
    ensures Enabled(s, PushFail) <==> |s.pushed| - s.headSeen == s.capacity - 1
    ensures s.headSeen == |s.popped| ==> (Enabled(s, PushFail) <==> |s.pushed| - |s.popped| == s.capacity - 1)
  {
    NextIsModulo(|s.pushed|, s.capacity);
    NextMeets(s.headSeen, |s.pushed|, s.capacity);
    hide GoodCapacity, Next, InFlight, ConsumerOk;
  }

  /** A pop fails exactly when it has taken all values up to the tail it has seen. */
  lemma EmptyExactly<T>(s: State<T>)
    requires Inv(s) && s.consumer.CBoth?
    ensures Enabled(s, PopFail) <==> |s.popped| == s.tailSeen
  {
    hide GoodCapacity, Next, InFlight, ProducerOk;
    if Enabled(s, PopFail) {
      SlotsApart(|s.popped|, s.tailSeen, s.capacity);
    }
  }

  /** Whatever head the producer saw, if it goes on then there is room. */
  lemma ProducerHasRoom<T>(s: State<T>)
    requires Inv(s) && s.producer.PBoth? && Next(s.producer.tail, s.capacity) != s.producer.head
    ensures |s.pushed| + 1 <= s.headSeen + s.capacity - 1
  {
    NextIsModulo(|s.pushed|, s.capacity);
    NextMeets(s.headSeen, |s.pushed|, s.capacity);
    hide *;
  }

  /** Whatever tail the consumer saw, if it goes on then there is a value. */
  lemma ConsumerHasValue<T>(s: State<T>)
    requires Inv(s) && s.consumer.CBoth? && s.consumer.head != s.consumer.tail
    ensures |s.popped| < s.tailSeen && s.popped <= s.pushed
    ensures s.buffer[s.consumer.head] == s.pushed[|s.popped|]
  {}

  // ---- Runs ------------------------------------------------------------------------------------

  ghost predicate IsRun<T>(states: seq<State<T>>, events: seq<Event<T>>) {
    && |states| == |events| + 1 && Initial(states[0])
    && forall i :: 0 <= i < |events| ==> Enabled(states[i], events[i]) && states[i + 1] == Step(states[i], events[i])
  }

  lemma {:induction false} RunInv<T>(states: seq<State<T>>, events: seq<Event<T>>, n: nat)
    requires IsRun(states, events) && n < |states|
    ensures Inv(states[n])
  {
    if n == 0 {
      InitialInv(states[0]);
    } else {
      RunInv(states, events, n - 1);
      StepKeepsInv(states[n - 1], events[n - 1]);
    }
  }

  /**
   * In every interleaving, with loads as stale as coherence allows: what has been
   * popped is a prefix of what has been pushed, at most capacity - 1 values are in
   * flight, and a value about to be handed to the consumer is the next in line.
   */
  lemma FifoSafety<T>(states: seq<State<T>>, events: seq<Event<T>>, n: nat)
    requires IsRun(states, events) && n < |states|
    ensures var s := states[n];
      && s.popped <= s.pushed && |s.pushed| - |s.popped| <= s.capacity - 1
      && (s.consumer.CRead? ==> |s.popped| < |s.pushed| && s.consumer.out == s.pushed[|s.popped|])
  {
    RunInv(states, events, n);
  }

  /** A pending write and a pending read never target the same slot. */
  lemma SlotExclusivity<T>(states: seq<State<T>>, events: seq<Event<T>>, n: nat)
    requires IsRun(states, events) && n < |states|
    ensures Enabled(states[n], PushWrite) && Enabled(states[n], PopRead) ==>
              states[n].producer.tail != states[n].consumer.head
  {
    RunInv(states, events, n);
    var s := states[n];
    if Enabled(s, PushWrite) && Enabled(s, PopRead) {
      ProducerHasRoom(s);
      ConsumerHasValue(s);
      if s.producer.tail == s.consumer.head {
        SlotsApart(|s.popped|, |s.pushed|, s.capacity);
      }
    }
  }

  /**
   * Buffer accesses are ordered by the indices that each side has acquired: every earlier
   * value of the slot that the producer is about to write was released by a store of
   * head_ it has seen, and the value that the consumer is about to read was published
   * by a store of tail_ it has seen.
   */
  lemma AccessesOrdered<T>(states: seq<State<T>>, events: seq<Event<T>>, n: nat)
    requires IsRun(states, events) && n < |states|
    ensures var s := states[n];
      && (Enabled(s, PushWrite) ==>
            && |s.pushed| < s.headSeen + s.capacity - 1
            && forall k :: 0 <= k < |s.pushed| && k % s.capacity == s.producer.tail ==> k < s.headSeen)
      && (Enabled(s, PopRead) ==> |s.popped| < s.tailSeen && s.consumer.head == |s.popped| % s.capacity)
  {
    RunInv(states, events, n);
    hide IsRun;
    var s := states[n];
    if Enabled(s, PushWrite) {
      ProducerHasRoom(s);
      forall k | 0 <= k < |s.pushed| && k % s.capacity == s.producer.tail ensures k < s.headSeen {
        EarlierUse(k, |s.pushed|, s.headSeen, s.capacity);
      }
    }
    if Enabled(s, PopRead) {
      ConsumerHasValue(s);
    }
  }

  lemma EarlierUse(k: nat, b: nat, seen: nat, c: nat)
    requires c > 0 && k < b < seen + c && k % c == b % c
    ensures k < seen
  {
    if k + c > b {
      SlotsApart(k, b, c);
    }
  }

  // ---- The steps of a call ------------------------------------------------------------------------------

  predicate ByProducer<T>(e: Event<T>) {
    e.PushLoadTail? || e.PushLoadHead? || e.PushFail? || e.PushWrite? || e.PushStore?
  }

  /**
   * A step that its side can take next: a call loads both indices, then fails, or moves a
   * value and stores its index.
   */
  predicate Follows<T>(e: Event<T>, next: Event<T>) {
    match e
    case PushLoadTail(_) => next.PushLoadHead?
    case PushLoadHead(_) => next.PushFail? || next.PushWrite?
    case PushWrite => next.PushStore?
    case PushFail => next.PushLoadTail?
    case PushStore => next.PushLoadTail?
    case PopLoadHead => next.PopLoadTail?
    case PopLoadTail(_) => next.PopFail? || next.PopRead?
    case PopRead => next.PopStore?
    case PopFail => next.PopLoadHead?
    case PopStore => next.PopLoadHead?
  }

  /** Steps of the other side leave this side where it is. */
  lemma OtherSideMoves<T>(s: State<T>, e: Event<T>)
    requires Enabled(s, e)
    ensures ByProducer(e) ==> Step(s, e).consumer == s.consumer
    ensures !ByProducer(e) ==> Step(s, e).producer == s.producer
  {}

  lemma {:induction false} SideWaits<T>(states: seq<State<T>>, events: seq<Event<T>>, i: nat, j: nat, producer: bool)
    requires IsRun(states, events) && i <= j < |states|
    requires forall k :: i <= k < j && k < |events| ==> ByProducer(events[k]) != producer
    ensures if producer then states[j].producer == states[i].producer else states[j].consumer == states[i].consumer
  {
    RunUnfolds(states, events, j);
    hide ByProducer, Enabled, IsRun, Step;
    if i < j {
      SideWaits(states, events, i, j - 1, producer);
      OtherSideMoves(states[j - 1], events[j - 1]);
    }
  }

  lemma FollowsFrom<T>(s: State<T>, e: Event<T>, s': State<T>, next: Event<T>)
    requires Enabled(s, e) && Enabled(s', next) && ByProducer(e) == ByProducer(next)
    requires if ByProducer(e) then s'.producer == Step(s, e).producer else s'.consumer == Step(s, e).consumer
    ensures Follows(e, next)
  {
    hide Next;
  }

  /** In every run, two steps that one side takes one after the other are consecutive steps of its calls. */
  lemma CallsInSteps<T>(states: seq<State<T>>, events: seq<Event<T>>, i: nat, j: nat)
    requires IsRun(states, events) && i < j < |events| && ByProducer(events[i]) == ByProducer(events[j])
    requires forall k :: i < k < j ==> ByProducer(events[k]) != ByProducer(events[i])
    ensures Follows(events[i], events[j])
  {
    RunLong(states, events);
    RunUnfolds(states, events, i + 1);
    RunUnfolds(states, events, j + 1);
    hide ByProducer, Enabled, Follows, IsRun, Step;
    SideWaits(states, events, i + 1, j, ByProducer(events[i]));
    FollowsFrom(states[i], events[i], states[j], events[j]);
  }

  lemma RunLong<T>(states: seq<State<T>>, events: seq<Event<T>>)
    requires IsRun(states, events)
    ensures |states| == |events| + 1
  {
    hide Enabled, Step;
  }

  // ---- What is pushed are the arguments of push ------------------------------------------------------

  /** The argument of the push last begun. */
  function Argument<T>(events: seq<Event<T>>, n: nat): Option<T>
    requires n <= |events|
  {
    if n == 0 then None
    else if events[n - 1].PushLoadTail? then Some(events[n - 1].value)
    else Argument(events, n - 1)
  }

  /** The arguments of the pushes that have returned true, in order. */
  function Stored<T>(events: seq<Event<T>>, n: nat): seq<T>
    requires n <= |events|
  {
    if n == 0 then []
    else
      var x := Argument(events, n - 1);
      Stored(events, n - 1) + if events[n - 1].PushStore? && x.Some? then [x.value] else []
  }

  /** Under way, a push carries its argument. */
  predicate Carries<T(==)>(p: Producer<T>, x: Option<T>) {
    !p.PIdle? ==> x == Some(p.value)
  }

  lemma StepCarries<T>(s: State<T>, e: Event<T>, x: Option<T>)
    requires Enabled(s, e) && Carries(s.producer, x)
    ensures Carries(Step(s, e).producer, if e.PushLoadTail? then Some(e.value) else x)
    ensures e.PushStore? ==> x.Some?
    ensures Step(s, e).pushed == s.pushed + if e.PushStore? && x.Some? then [x.value] else []
  {}

  lemma RunUnfolds<T>(states: seq<State<T>>, events: seq<Event<T>>, n: nat)
    requires IsRun(states, events) && n < |states|
    ensures n <= |events|
    ensures n == 0 ==> states[n].producer.PIdle? && states[n].pushed == []
    ensures n > 0 ==> Enabled(states[n - 1], events[n - 1]) && states[n] == Step(states[n - 1], events[n - 1])
  {
    hide Enabled, Step;
  }

  /** What has been pushed are the arguments of the calls that stored, in the order of the calls. */
  lemma {:induction false} PushedAreArguments<T>(states: seq<State<T>>, events: seq<Event<T>>, n: nat)
    requires IsRun(states, events) && n < |states|
    ensures n <= |events| && states[n].pushed == Stored(events, n) && Carries(states[n].producer, Argument(events, n))
  {
    hide *;
    RunUnfolds(states, events, n);
    if n > 0 {
      StoredUnfolds(events, n);
      PushedAreArguments(states, events, n - 1);
      StepCarries(states[n - 1], events[n - 1], Argument(events, n - 1));
    } else {
      NothingStored(states[0], events);
    }
  }

  lemma StoredUnfolds<T>(events: seq<Event<T>>, n: nat)
    requires 0 < n <= |events|
    ensures var e, x := events[n - 1], Argument(events, n - 1);
      && Argument(events, n) == (if e.PushLoadTail? then Some(e.value) else x)
      && Stored(events, n) == Stored(events, n - 1) + if e.PushStore? && x.Some? then [x.value] else []
  {}

  lemma NothingStored<T>(s: State<T>, events: seq<Event<T>>)
    requires s.producer.PIdle? && s.pushed == []
    ensures s.pushed == Stored(events, 0) && Carries(s.producer, Argument(events, 0))
  {}

  /** The number of pushes that have returned true. */
  function Completed<T>(events: seq<Event<T>>, n: nat): nat
    requires n <= |events|
  {
    if n == 0 then 0 else Completed(events, n - 1) + if events[n - 1].PushStore? then 1 else 0
  }

  /** A client that offers the number of pushes completed so far pushes 0, 1, 2, ... */
  ghost predicate Counts(events: seq<Event<nat>>) {
    forall i :: 0 <= i < |events| && events[i].PushLoadTail? ==> events[i].value == Completed(events, i)
  }

  /** 0, 1, ..., c - 1 have been pushed, and a push under way carries c. */
  predicate Counted(s: State<nat>, c: nat) {
    && |s.pushed| == c && (forall i :: 0 <= i < |s.pushed| ==> s.pushed[i] == i)
    && (!s.producer.PIdle? ==> s.producer.value == c)
  }

  lemma CountStep(s: State<nat>, e: Event<nat>, c: nat)
    requires Enabled(s, e) && Counted(s, c) && (e.PushLoadTail? ==> e.value == c)
    ensures Counted(Step(s, e), c + if e.PushStore? then 1 else 0)
  {
    hide Next;
  }

  lemma {:induction false} CountedSoFar(states: seq<State<nat>>, events: seq<Event<nat>>, n: nat)
    requires IsRun(states, events) && n < |states| && Counts(events)
    ensures n <= |events| && Counted(states[n], Completed(events, n))
  {
    hide *;
    RunUnfolds(states, events, n);
    CompletedUnfolds(events, n);
    if n > 0 {
      CountedSoFar(states, events, n - 1);
      CountStep(states[n - 1], events[n - 1], Completed(events, n - 1));
    } else {
      NothingCounted(states[0]);
    }
  }

  lemma CompletedUnfolds(events: seq<Event<nat>>, n: nat)
    requires n <= |events| && Counts(events)
    ensures Completed(events, n)
         == if n == 0 then 0 else Completed(events, n - 1) + if events[n - 1].PushStore? then 1 else 0
    ensures n > 0 && events[n - 1].PushLoadTail? ==> events[n - 1].value == Completed(events, n - 1)
  {}

  lemma NothingCounted(s: State<nat>)
    requires s.producer.PIdle? && s.pushed == []
    ensures Counted(s, 0)
  {}

  /** The client's check: offering 0, 1, 2, ... until each is taken, every popped value is the expected one. */
  lemma CountingClient(states: seq<State<nat>>, events: seq<Event<nat>>, n: nat)
    requires IsRun(states, events) && n < |states| && Counts(events)
    ensures forall i :: 0 <= i < |states[n].popped| ==> states[n].popped[i] == i
    ensures states[n].consumer.CRead? ==> states[n].consumer.out == |states[n].popped|
  {
    CountedSoFar(states, events, n);
    FifoSafety(states, events, n);
  }

  // ---- Refinement of a bounded queue ----------------------------------------------------------------

  /** The queue the ring implements. */
  function Contents<T>(s: State<T>): seq<T>
    requires s.popped <= s.pushed
  {
    s.pushed[|s.popped|..]
  }

  /** Each step enqueues at a publish, dequeues the front at a release, and otherwise leaves the queue alone. */
  lemma {:induction false} StepRefinesQueue<T>(s: State<T>, e: Event<T>)
    requires Inv(s) && Enabled(s, e)
    ensures Inv(Step(s, e))
    ensures var q, q' := Contents(s), Contents(Step(s, e));
      match e
      case PushStore => |q| < s.capacity - 1 && q' == q + [s.producer.value]
      case PopStore => q != [] && q == [s.consumer.out] + q'
      case _ => q' == q
  {
    StepKeepsInv(s, e);
    hide GoodCapacity, InFlight, Indices, Next;
    match e
    case PopStore => assert Contents(s) == [s.consumer.out] + Contents(Step(s, e));
    case _ =>
  }

  /** A push that fails after a fresh load of head_ found the queue full at that load, and only then. */
  lemma FreshPushFailure<T>(s: State<T>)
    requires Inv(s) && s.producer.PTail?
    ensures Enabled(s, PushLoadHead(|s.heads| - 1))
    ensures Enabled(Step(s, PushLoadHead(|s.heads| - 1)), PushFail) <==> |Contents(s)| == s.capacity - 1
  {
    StepKeepsInv(s, PushLoadHead(|s.heads| - 1));
    FullExactly(Step(s, PushLoadHead(|s.heads| - 1)));
    hide Inv, Next, Indices;
  }

  /** A pop that fails after a fresh load of tail_ found the queue empty at that load, and only then. */
  lemma FreshPopFailure<T>(s: State<T>)
    requires Inv(s) && s.consumer.CHead?
    ensures Enabled(s, PopLoadTail(|s.tails| - 1))
    ensures Enabled(Step(s, PopLoadTail(|s.tails| - 1)), PopFail) <==> Contents(s) == []
  {
    var t := Step(s, PopLoadTail(|s.tails| - 1));
    StepKeepsInv(s, PopLoadTail(|s.tails| - 1));
    hide GoodCapacity, Next, InFlight, ProducerOk;
    if Enabled(t, PopFail) {
      SlotsApart(|s.popped|, |s.pushed|, s.capacity);
    }
  }

  // ---- Linearization ---------------------------------------------------------------------------------

  /** A call on the bounded queue. */
  datatype Call<T> = Enqueued(value: T) | FoundFull | Dequeued(value: T) | FoundEmpty

  /**
   * The call that takes effect at a step: a push or pop that succeeds at its store, and one
   * that fails on a fresh load at that load. A failure on a stale load takes effect nowhere.
   * x is the argument of the push under way.
   */
  ghost function TakesEffect<T>(s: State<T>, e: Event<T>, x: Option<T>): seq<Call<T>>
    requires Enabled(s, e)
  {
    match e
    case PushStore => if x.Some? then [Enqueued(x.value)] else []
    case PopStore => [Dequeued(s.consumer.out)]
    case PushLoadHead(i) => if i == |s.heads| - 1 && Enabled(Step(s, e), PushFail) then [FoundFull] else []
    case PopLoadTail(i) => if i == |s.tails| - 1 && Enabled(Step(s, e), PopFail) then [FoundEmpty] else []
    case _ => []
  }

  /** What a call leaves of the values held. */
  function After<T>(q: seq<T>, call: Call<T>): seq<T> {
    match call
    case Enqueued(v) => q + [v]
    case Dequeued(_) => if q == [] then [] else q[1..]
    case _ => q
  }

  /** The answers of a queue that holds q and has room for this many values. */
  ghost predicate Answers<T>(q: seq<T>, room: int, call: Call<T>) {
    match call
    case Enqueued(_) => |q| < room
    case FoundFull => |q| == room
    case Dequeued(v) => q != [] && v == q[0]
    case FoundEmpty => q == []
  }

  /** What a queue that starts empty holds after a sequence of calls. */
  function Held<T>(calls: seq<Call<T>>): seq<T> {
    if calls == [] then [] else After(Held(calls[..|calls| - 1]), calls[|calls| - 1])
  }

  /** Every call is answered as a bounded FIFO queue answers it. */
  ghost predicate IsHistory<T>(calls: seq<Call<T>>, room: int) {
    calls == []
    || var before := calls[..|calls| - 1];
       IsHistory(before, room) && Answers(Held(before), room, calls[|calls| - 1])
  }

  lemma HistoryGrows<T>(calls: seq<Call<T>>, room: int, call: Call<T>)
    requires IsHistory(calls, room) && Answers(Held(calls), room, call)
    ensures IsHistory(calls + [call], room) && Held(calls + [call]) == After(Held(calls), call)
  {
    var all := calls + [call];
    assert all[..|all| - 1] == calls && all[|all| - 1] == call;
  }

  ghost function CallsOf<T>(states: seq<State<T>>, events: seq<Event<T>>, n: nat): seq<Call<T>>
    requires IsRun(states, events) && n < |states|
  {
    if n == 0 then []
    else CallsOf(states, events, n - 1) + TakesEffect(states[n - 1], events[n - 1], Argument(events, n - 1))
  }

  lemma EffectAnswers<T>(s: State<T>, e: Event<T>, x: Option<T>)
    requires Inv(s) && Enabled(s, e) && Carries(s.producer, x)
    ensures Inv(Step(s, e))
    ensures var calls, q, q' := TakesEffect(s, e, x), Contents(s), Contents(Step(s, e));
      || (calls == [] && q' == q)
      || (|calls| == 1 && Answers(q, s.capacity - 1, calls[0]) && q' == After(q, calls[0]))
  {
    hide *;
    StepRefinesQueue(s, e);
    match e
    case PushLoadHead(i) => EffectOfPushLoad(s, i, x);
    case PopLoadTail(i) => EffectOfPopLoad(s, i, x);
    case _ => EffectOfOther(s, e, x);
  }

  lemma EffectOfOther<T>(s: State<T>, e: Event<T>, x: Option<T>)
    requires Inv(s) && Enabled(s, e) && Carries(s.producer, x) && !e.PushLoadHead? && !e.PopLoadTail?
    ensures Inv(Step(s, e))
    ensures var calls, q, q' := TakesEffect(s, e, x), Contents(s), Contents(Step(s, e));
      || (calls == [] && q' == q)
      || (|calls| == 1 && Answers(q, s.capacity - 1, calls[0]) && q' == After(q, calls[0]))
  {
    StepRefinesQueue(s, e);
    hide Contents, Inv, Next;
  }

  lemma EffectOfPushLoad<T>(s: State<T>, i: nat, x: Option<T>)
    requires Inv(s) && Enabled(s, PushLoadHead(i))
    requires Contents(Step(s, PushLoadHead(i))) == Contents(s)
    ensures var calls, q := TakesEffect(s, PushLoadHead(i), x), Contents(s);
      calls == [] || (|calls| == 1 && Answers(q, s.capacity - 1, calls[0]) && After(q, calls[0]) == q)
  {
    if i == |s.heads| - 1 {
      FreshPushFailure(s);
    }
    hide Contents, Inv, Next;
  }

  lemma EffectOfPopLoad<T>(s: State<T>, i: nat, x: Option<T>)
    requires Inv(s) && Enabled(s, PopLoadTail(i))
    requires Contents(Step(s, PopLoadTail(i))) == Contents(s)
    ensures var calls, q := TakesEffect(s, PopLoadTail(i), x), Contents(s);
      calls == [] || (|calls| == 1 && Answers(q, s.capacity - 1, calls[0]) && After(q, calls[0]) == q)
  {
    if i == |s.tails| - 1 {
      FreshPopFailure(s);
    }
    hide Contents, Inv, Next;
  }

  lemma NoneYet<T>(s: State<T>)
    requires Initial(s)
    ensures s.popped <= s.pushed && Contents(s) == [] == Held<T>([]) && IsHistory<T>([], s.capacity - 1)
  {}

  /** The calls up to a step, extended by what takes effect at the step. */
  lemma HistoryStep<T>(s: State<T>, e: Event<T>, x: Option<T>, calls: seq<Call<T>>)
    requires Inv(s) && Enabled(s, e) && Carries(s.producer, x)
    requires IsHistory(calls, s.capacity - 1) && Held(calls) == Contents(s)
    ensures Inv(Step(s, e)) && Step(s, e).capacity == s.capacity
    ensures var more := TakesEffect(s, e, x);
      IsHistory(calls + more, s.capacity - 1) && Held(calls + more) == Contents(Step(s, e))
  {
    CapacityStays(s, e);
    hide *;
    EffectAnswers(s, e, x);
    var more := TakesEffect(s, e, x);
    if more == [] {
      assert calls + more == calls;
    } else {
      HistoryGrows(calls, s.capacity - 1, more[0]);
      assert more == [more[0]];
    }
  }

  lemma CapacityStays<T>(s: State<T>, e: Event<T>)
    requires Enabled(s, e)
    ensures Step(s, e).capacity == s.capacity
  {}

  lemma CallsUnfold<T>(states: seq<State<T>>, events: seq<Event<T>>, n: nat)
    requires IsRun(states, events) && n < |states|
    ensures n == 0 ==> CallsOf(states, events, n) == [] && Initial(states[0])
    ensures n > 0 ==>
      && n <= |events| && Enabled(states[n - 1], events[n - 1]) && states[n] == Step(states[n - 1], events[n - 1])
      && CallsOf(states, events, n)
         == CallsOf(states, events, n - 1) + TakesEffect(states[n - 1], events[n - 1], Argument(events, n - 1))
  {
    hide Enabled, Step, TakesEffect, Initial;
  }

  /**
   * Every run is linearizable: in the order in which they take effect, its calls, with the
   * arguments they were made with and those that failed on a fresh load included, are a
   * history of the bounded queue of capacity Capacity - 1, and leave it with what the ring
   * holds.
   */
  lemma {:induction false} RunsLinearize<T>(states: seq<State<T>>, events: seq<Event<T>>, n: nat)
    requires IsRun(states, events) && n < |states|
    ensures Inv(states[n]) && states[n].capacity == states[0].capacity && states[n].popped <= states[n].pushed
    ensures var calls := CallsOf(states, events, n);
      IsHistory(calls, states[0].capacity - 1) && Held(calls) == Contents(states[n])
  {
    hide *;
    CallsUnfold(states, events, n);
    if n == 0 {
      InitialInv(states[0]);
      NoneYet(states[0]);
    } else {
      RunsLinearize(states, events, n - 1);
      PushedAreArguments(states, events, n - 1);
      HistoryStep(states[n - 1], events[n - 1], Argument(events, n - 1), CallsOf(states, events, n - 1));
      InvPrefix(states[n]);
    }
  }

  lemma InvPrefix<T>(s: State<T>)
    requires Inv(s)
    ensures s.popped <= s.pushed
  {}
}
