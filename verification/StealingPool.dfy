/**
 * The work-stealing pool as a transition system: any number of submitters, one
 * deque per worker, thieves whose try-lock may fail at any time, and a pending
 * counter that a submit raises only after its task is already visible.
 */
module StealingPool {
  import opened Bits

  /** std::size_t is 64 bits wide. */
  const SIZE_MODULUS: nat := 0x1_0000_0000_0000_0000

  function Wrap(n: int): nat {
    n % SIZE_MODULUS
  }

  /** A queued task and its position in the order of all pushes. */
  datatype Item = Item(task: nat, stamp: nat)

  datatype Worker =
    | Top
    | Looking
    | Stealing(offset: nat)
    | Holding(task: nat)
    | Finished(task: nat)
    | Waiting
    | Exited

  /**
   * choosing holds the submits that have picked a deque but not pushed yet, window
   * those that have pushed but not counted yet. The last three are history: all tasks
   * pushed and run, in order, and the number of decrements of pending.
   */
  datatype State = State(
    queues: seq<seq<Item>>, workers: seq<Worker>, pending: nat, rr: nat,
    closing: bool, stop: bool, choosing: map<nat, nat>, window: set<nat>,
    pushed: seq<nat>, ran: seq<nat>, retired: nat)

  datatype Event =
    | Choose(task: nat) | Push(task: nat) | Count(task: nat)
    | SeeStop(w: nat) | Begin(w: nat) | PopLocal(w: nat) | PopNothing(w: nat)
    | StealSkip(w: nat, victim: nat) | StealTake(w: nat, victim: nat) | StealNothing(w: nat) | Wake(w: nat)
    | Run(w: nat) | Done(w: nat)
    | SeeIdle | Stop

  /** The worker whose deque thief w of n tries at this offset of its sweep. */
  function VictimAt(n: nat, w: nat, offset: nat): (v: nat)
    requires n > 0
    ensures v < n
  {
    (w + offset) % n
  }

  function Victim(s: State, w: nat): (v: nat)
    requires |s.queues| > 0 && w < |s.workers| && s.workers[w].Stealing?
    ensures v < |s.queues|
  {
    VictimAt(|s.queues|, w, s.workers[w].offset)
  }

  predicate At(s: State, w: nat) {
    w < |s.workers| == |s.queues|
  }

  predicate Enabled(s: State, e: Event) {
    match e
    case Choose(t) => |s.queues| > 0 && t !in s.choosing && t !in s.pushed
    case Push(t) => t in s.choosing && s.choosing[t] < |s.queues|
    case Count(t) => t in s.window
    case SeeStop(w) => At(s, w) && s.workers[w].Top? && s.stop
    case Begin(w) => At(s, w) && s.workers[w].Top? && !s.stop
    case PopLocal(w) => At(s, w) && s.workers[w].Looking? && s.queues[w] != []
    case PopNothing(w) => At(s, w) && s.workers[w].Looking? && s.queues[w] == []
    case StealSkip(w, v) => At(s, w) && s.workers[w].Stealing? && s.workers[w].offset < |s.queues|
                            && v == Victim(s, w)
    case StealTake(w, v) => At(s, w) && s.workers[w].Stealing? && s.workers[w].offset < |s.queues|
                            && v == Victim(s, w) && s.queues[v] != []
    case StealNothing(w) => At(s, w) && s.workers[w].Stealing? && s.workers[w].offset >= |s.queues|
    case Wake(w) => At(s, w) && s.workers[w].Waiting? && (s.stop || s.pending > 0)
    case Run(w) => At(s, w) && s.workers[w].Holding?
    case Done(w) => At(s, w) && s.workers[w].Finished?
    case SeeIdle => s.pending == 0
    case Stop => s.closing
  }

  function Become(s: State, w: nat, x: Worker): State
    requires w < |s.workers|
  {
    s.(workers := s.workers[w := x])
  }

  function Step(s: State, e: Event): State
    requires Enabled(s, e)
  {
    match e
    case Choose(t) => s.(choosing := s.choosing[t := s.rr % |s.queues|], rr := Wrap(s.rr + 1))
    case Push(t) =>
      var i := s.choosing[t];
      s.(queues := s.queues[i := [Item(t, |s.pushed|)] + s.queues[i]], choosing := s.choosing - {t},
         window := s.window + {t}, pushed := s.pushed + [t])
    case Count(t) => s.(pending := Wrap(s.pending + 1), window := s.window - {t})
    case SeeStop(w) => Become(s, w, Exited)
    case Begin(w) => Become(s, w, Looking)
    case PopLocal(w) =>
      Become(s, w, Holding(s.queues[w][0].task)).(queues := s.queues[w := s.queues[w][1..]])
    case PopNothing(w) => Become(s, w, Stealing(1))
    case StealSkip(w, _) => Become(s, w, Stealing(s.workers[w].offset + 1))
    case StealTake(w, v) =>
      var q := s.queues[v];
      Become(s, w, Holding(q[|q| - 1].task)).(queues := s.queues[v := q[..|q| - 1]])
    case StealNothing(w) => Become(s, w, Waiting)
    case Wake(w) => Become(s, w, Top)
    case Run(w) => Become(s, w, Finished(s.workers[w].task)).(ran := s.ran + [s.workers[w].task])
    case Done(w) =>
      Become(s, w, Top).(pending := Wrap(s.pending - 1), retired := s.retired + 1)
    case SeeIdle => s.(closing := true)
    case Stop => s.(stop := true)
  }

  /** A fully constructed pool with nothing submitted. */
  predicate Initial(s: State) {
    && |s.queues| == |s.workers| > 0 && s.pending == 0 && s.rr == 0 && !s.closing && !s.stop
    && (forall i :: 0 <= i < |s.queues| ==> s.queues[i] == [])
    && (forall w :: 0 <= w < |s.workers| ==> s.workers[w] == Top)
    && s.choosing == map[] && s.window == {} && s.pushed == [] && s.ran == [] && s.retired == 0
  }

  // ---- Counting and collecting tasks -------------------------------------------------------

  function Queued(queues: seq<seq<Item>>): nat {
    if queues == [] then 0 else Queued(queues[..|queues| - 1]) + |queues[|queues| - 1]|
  }

  function Busy(x: Worker): nat {
    if x.Holding? || x.Finished? then 1 else 0
  }

  /** Tasks taken off a deque whose completion has not been counted. */
  function Taken(workers: seq<Worker>): nat {
    if workers == [] then 0 else Taken(workers[..|workers| - 1]) + Busy(workers[|workers| - 1])
  }

  function Tasks(q: seq<Item>): multiset<nat> {
    if q == [] then multiset{} else multiset{q[0].task} + Tasks(q[1..])
  }

  function QueuedTasks(queues: seq<seq<Item>>): multiset<nat> {
    if queues == [] then multiset{} else QueuedTasks(queues[..|queues| - 1]) + Tasks(queues[|queues| - 1])
  }

  function HeldBy(x: Worker): multiset<nat> {
    if x.Holding? then multiset{x.task} else multiset{}
  }

  function HeldTasks(workers: seq<Worker>): multiset<nat> {
    if workers == [] then multiset{} else HeldTasks(workers[..|workers| - 1]) + HeldBy(workers[|workers| - 1])
  }

  /** Exchanging one part of a sum for another. */
  lemma Exchange(a: multiset<nat>, b: multiset<nat>, rest: multiset<nat>, x: multiset<nat>, y: multiset<nat>)
    requires a + x == b + y
    ensures (a + rest) + x == (b + rest) + y
  {
    assert (a + rest) + x == (a + x) + rest;
  }

  lemma Cancel(a: multiset<nat>, b: multiset<nat>, x: multiset<nat>, y: multiset<nat>)
    requires a + x == b + (y + x)
    ensures a == b + y
  {
    assert a == (a + x) - x;
  }

  lemma {:induction false} QueueCount(queues: seq<seq<Item>>, i: nat, q: seq<Item>)
    requires i < |queues|
    ensures Queued(queues[i := q]) == Queued(queues) - |queues[i]| + |q|
  {
    var n, after := |queues| - 1, queues[i := q];
    if i == n {
      assert after[..n] == queues[..n];
    } else {
      assert after[..n] == queues[..n][i := q];
      QueueCount(queues[..n], i, q);
    }
  }

  lemma {:induction false} QueueUpdate(queues: seq<seq<Item>>, i: nat, q: seq<Item>)
    requires i < |queues|
    ensures QueuedTasks(queues[i := q]) + Tasks(queues[i]) == QueuedTasks(queues) + Tasks(q)
  {
    hide Tasks;
    var n, after := |queues| - 1, queues[i := q];
    if i == n {
      assert after[..n] == queues[..n];
    } else {
      assert after[..n] == queues[..n][i := q];
      QueueUpdate(queues[..n], i, q);
      Exchange(QueuedTasks(after[..n]), QueuedTasks(queues[..n]), Tasks(queues[n]), Tasks(queues[i]), Tasks(q));
    }
  }

  lemma {:induction false} WorkerCount(workers: seq<Worker>, w: nat, x: Worker)
    requires w < |workers|
    ensures Taken(workers[w := x]) == Taken(workers) - Busy(workers[w]) + Busy(x)
  {
    hide Busy;
    var n, after := |workers| - 1, workers[w := x];
    if w == n {
      assert after[..n] == workers[..n];
    } else {
      assert after[..n] == workers[..n][w := x];
      WorkerCount(workers[..n], w, x);
    }
  }

  lemma {:induction false} WorkerUpdate(workers: seq<Worker>, w: nat, x: Worker)
    requires w < |workers|
    ensures HeldTasks(workers[w := x]) + HeldBy(workers[w]) == HeldTasks(workers) + HeldBy(x)
  {
    hide HeldBy;
    var n, after := |workers| - 1, workers[w := x];
    if w == n {
      assert after[..n] == workers[..n];
    } else {
      assert after[..n] == workers[..n][w := x];
      WorkerUpdate(workers[..n], w, x);
      Exchange(HeldTasks(after[..n]), HeldTasks(workers[..n]), HeldBy(workers[n]), HeldBy(workers[w]), HeldBy(x));
    }
  }

  /** What a worker's change of position does to what is held. */
  lemma HeldMove(workers: seq<Worker>, w: nat, x: Worker)
    requires w < |workers|
    ensures var before, after := HeldTasks(workers), HeldTasks(workers[w := x]);
      && (!workers[w].Holding? && !x.Holding? ==> after == before)
      && (!workers[w].Holding? && x.Holding? ==> after == before + multiset{x.task})
      && (workers[w].Holding? && !x.Holding? ==> before == after + multiset{workers[w].task})
  {
    WorkerUpdate(workers, w, x);
    hide HeldTasks;
    assert forall m: multiset<nat> :: m + multiset{} == m;
  }

  lemma {:induction false} TasksConcat(p: seq<Item>, q: seq<Item>)
    ensures Tasks(p + q) == Tasks(p) + Tasks(q)
  {
    if p == [] {
      assert p + q == q;
    } else {
      assert (p + q)[1..] == p[1..] + q;
      TasksConcat(p[1..], q);
    }
  }

  lemma TasksEnds(q: seq<Item>)
    requires q != []
    ensures Tasks(q) == multiset{q[0].task} + Tasks(q[1..])
    ensures Tasks(q) == Tasks(q[..|q| - 1]) + multiset{q[|q| - 1].task}
  {
    var n := |q| - 1;
    assert q == q[..n] + [q[n]];
    TasksConcat(q[..n], [q[n]]);
    assert [q[n]][1..] == [];
  }

  // ---- The invariant ---------------------------------------------------------------------------

  /** Tasks whose completion has not been counted yet. */
  function Unfinished(s: State): nat {
    Queued(s.queues) + Taken(s.workers)
  }

  /** The counter is increments minus decrements at its width; every push is unfinished or retired. */
  ghost predicate PendingLaw(s: State) {
    && s.pending == Wrap(|s.pushed| - |s.window| - s.retired)
    && Unfinished(s) + s.retired == |s.pushed|
  }

  /** Every pushed task is queued, held or has run, exactly once. */
  ghost predicate Conserved(s: State) {
    multiset(s.pushed) == QueuedTasks(s.queues) + HeldTasks(s.workers) + multiset(s.ran)
  }

  /** A deque lists its tasks from the newest push to the oldest. */
  ghost predicate NewestFirst(q: seq<Item>, pushed: seq<nat>) {
    && (forall i, j :: 0 <= i < j < |q| ==> q[i].stamp > q[j].stamp)
    && (forall i :: 0 <= i < |q| ==> q[i].stamp < |pushed| && pushed[q[i].stamp] == q[i].task)
  }

  ghost predicate Ordered(s: State) {
    forall i :: 0 <= i < |s.queues| ==> NewestFirst(s.queues[i], s.pushed)
  }

  ghost predicate Submits(s: State) {
    && (forall i, j :: 0 <= i < j < |s.pushed| ==> s.pushed[i] != s.pushed[j])
    && (forall t :: t in s.choosing ==> t !in s.pushed && s.choosing[t] < |s.queues|)
    && (forall t :: t in s.window ==> t in s.pushed)
  }

  ghost predicate Placed(x: Worker) {
    x.Stealing? ==> x.offset > 0
  }

  ghost predicate Shape(s: State) {
    && |s.queues| == |s.workers| > 0
    && (forall w :: 0 <= w < |s.workers| ==> Placed(s.workers[w]))
  }

  ghost predicate Inv(s: State) {
    Shape(s) && PendingLaw(s) && Conserved(s) && Ordered(s) && Submits(s)
  }

  lemma {:induction false} NothingYet(queues: seq<seq<Item>>, workers: seq<Worker>)
    requires forall i :: 0 <= i < |queues| ==> queues[i] == []
    requires forall w :: 0 <= w < |workers| ==> workers[w] == Top
    ensures Queued(queues) == 0 && QueuedTasks(queues) == multiset{}
    ensures Taken(workers) == 0 && HeldTasks(workers) == multiset{}
    decreases |queues| + |workers|
  {
    if queues != [] {
      NothingYet(queues[..|queues| - 1], workers);
    } else if workers != [] {
      NothingYet(queues, workers[..|workers| - 1]);
    }
  }

  lemma InitialInv(s: State)
    requires Initial(s)
    ensures Inv(s)
  {
    NothingYet(s.queues, s.workers);
    assert multiset(s.pushed) == multiset{} == multiset(s.ran);
  }

  /** Counting one up or down at the counter's width. */
  lemma CounterStep(n: int)
    ensures Wrap(Wrap(n) + 1) == Wrap(n + 1)
    ensures Wrap(Wrap(n) - 1) == Wrap(n - 1)
  {
    ModNext(n, SIZE_MODULUS);
    ModPrevious(n, SIZE_MODULUS);
  }

  lemma ModNext(n: int, m: nat)
    requires m > 1
    ensures (n % m + 1) % m == (n + 1) % m
  {
    var q, r := n / m, n % m;
    assert n == m * q + r;
    if r + 1 < m {
      DivModUnique(n + 1, m, q, r + 1);
      DivModUnique(r + 1, m, 0, r + 1);
    } else {
      assert n + 1 == m * (q + 1);
      DivModUnique(n + 1, m, q + 1, 0);
      DivModUnique(m, m, 1, 0);
    }
  }

  lemma ModPrevious(n: int, m: nat)
    requires m > 1
    ensures (n % m - 1) % m == (n - 1) % m
  {
    var q, r := n / m, n % m;
    assert n == m * q + r;
    if r > 0 {
      DivModUnique(n - 1, m, q, r - 1);
      DivModUnique(r - 1, m, 0, r - 1);
    } else {
      assert n - 1 == m * (q - 1) + (m - 1);
      DivModUnique(n - 1, m, q - 1, m - 1);
      DivModUnique(-1, m, -1, m - 1);
    }
  }

  // ---- Submitting ---------------------------------------------------------------------------------

  lemma PushCounts(s: State, t: nat)
    requires Inv(s) && Enabled(s, Push(t))
    ensures PendingLaw(Step(s, Push(t)))
  {
    var i, s' := s.choosing[t], Step(s, Push(t));
    QueueCount(s.queues, i, [Item(t, |s.pushed|)] + s.queues[i]);
    hide Wrap, Conserved, Ordered, Placed, Queued;
    assert |s'.window| == |s.window| + 1;
    assert |s'.pushed| - |s'.window| - s'.retired == |s.pushed| - |s.window| - s.retired;
  }

  lemma PushConserves(s: State, t: nat)
    requires Inv(s) && Enabled(s, Push(t))
    ensures Conserved(Step(s, Push(t)))
  {
    hide Ordered, PendingLaw, Queued, QueuedTasks;
    var i, s' := s.choosing[t], Step(s, Push(t));
    var q := [Item(t, |s.pushed|)] + s.queues[i];
    assert Tasks(q) == multiset{t} + Tasks(s.queues[i]) by {
      assert q[1..] == s.queues[i];
    }
    hide Tasks;
    QueueUpdate(s.queues, i, q);
    Cancel(QueuedTasks(s'.queues), QueuedTasks(s.queues), Tasks(s.queues[i]), multiset{t});
    assert multiset(s'.pushed) == multiset(s.pushed) + multiset{t};
  }

  lemma PushKeepsOrder(s: State, t: nat)
    requires Inv(s) && Enabled(s, Push(t))
    ensures Ordered(Step(s, Push(t)))
  {
    hide PendingLaw, Conserved, Queued, Tasks, QueuedTasks;
    var s' := Step(s, Push(t));
    forall k | 0 <= k < |s'.queues| ensures NewestFirst(s'.queues[k], s'.pushed) {
      assert NewestFirst(s.queues[k], s.pushed);
    }
  }

  lemma PushKeepsInv(s: State, t: nat)
    requires Inv(s) && Enabled(s, Push(t))
    ensures Inv(Step(s, Push(t)))
  {
    hide PendingLaw, Conserved, Ordered, Placed;
    var s' := Step(s, Push(t));
    assert Shape(s') && Submits(s');
    PushCounts(s, t);
    PushConserves(s, t);
    PushKeepsOrder(s, t);
  }

  lemma CountKeepsInv(s: State, t: nat)
    requires Inv(s) && Enabled(s, Count(t))
    ensures Inv(Step(s, Count(t)))
  {
    hide Conserved;
    CountConserves(s, t);
    var s' := Step(s, Count(t));
    assert |s'.window| == |s.window| - 1;
    CounterStep(|s.pushed| - |s.window| - s.retired);
  }

  lemma CountConserves(s: State, t: nat)
    requires Inv(s) && Enabled(s, Count(t))
    ensures Conserved(Step(s, Count(t)))
  {}

  // ---- Workers ------------------------------------------------------------------------------------

  /** Moves that touch neither deques nor submits leave the orderings as they were. */
  lemma SameOrder(s: State, s': State)
    requires Inv(s) && s'.queues == s.queues && s'.pushed == s.pushed
    requires s'.choosing == s.choosing && s'.window == s.window
    ensures Ordered(s') && Submits(s')
  {
    hide PendingLaw, Conserved, NewestFirst;
  }

  /** A worker goes from one position without a task to another. */
  lemma MoveKeepsInv(s: State, w: nat, x: Worker)
    requires Inv(s) && w < |s.workers| && Placed(x)
    requires Busy(s.workers[w]) == Busy(x) == 0
    ensures Inv(Become(s, w, x))
  {
    hide HeldTasks, NewestFirst, Ordered, Queued, QueuedTasks, Submits, Taken, Wrap;
    SameOrder(s, Become(s, w, x));
    WorkerCount(s.workers, w, x);
    HeldMove(s.workers, w, x);
  }

  /** q is what a deque is left with once one of its items has been taken. */
  ghost predicate Takes(before: seq<Item>, task: nat, after: seq<Item>) {
    && |before| == |after| + 1 && Tasks(before) == multiset{task} + Tasks(after)
    && forall pushed :: NewestFirst(before, pushed) ==> NewestFirst(after, pushed)
  }

  lemma FrontTakes(q: seq<Item>)
    requires q != []
    ensures Takes(q, q[0].task, q[1..])
  {}

  lemma BackTakes(q: seq<Item>)
    requires q != []
    ensures Takes(q, q[|q| - 1].task, q[..|q| - 1])
  {
    hide Tasks;
    TasksEnds(q);
    forall pushed | NewestFirst(q, pushed) ensures NewestFirst(q[..|q| - 1], pushed) {}
  }

  lemma TakeCounts(s: State, w: nat, v: nat, task: nat, q: seq<Item>)
    requires Inv(s) && w < |s.workers| && v < |s.queues| && Busy(s.workers[w]) == 0
    requires Takes(s.queues[v], task, q)
    ensures PendingLaw(Become(s, w, Holding(task)).(queues := s.queues[v := q]))
  {
    hide Conserved, NewestFirst, Ordered, Placed, Queued, Shape, Submits, Taken, Tasks, Wrap;
    QueueCount(s.queues, v, q);
    WorkerCount(s.workers, w, Holding(task));
  }

  lemma TakeConserves(s: State, w: nat, v: nat, task: nat, q: seq<Item>)
    requires Inv(s) && w < |s.workers| && v < |s.queues| && Busy(s.workers[w]) == 0
    requires Takes(s.queues[v], task, q)
    ensures Conserved(Become(s, w, Holding(task)).(queues := s.queues[v := q]))
  {
    hide PendingLaw, Ordered, Submits, QueuedTasks, HeldTasks, Tasks;
    var s' := Become(s, w, Holding(task)).(queues := s.queues[v := q]);
    QueueUpdate(s.queues, v, q);
    Cancel(QueuedTasks(s.queues), QueuedTasks(s'.queues), Tasks(q), multiset{task});
    HeldMove(s.workers, w, Holding(task));
  }

  lemma TakeKeepsInv(s: State, w: nat, v: nat, task: nat, q: seq<Item>)
    requires Inv(s) && w < |s.workers| && v < |s.queues| && Busy(s.workers[w]) == 0
    requires Takes(s.queues[v], task, q)
    ensures Inv(Become(s, w, Holding(task)).(queues := s.queues[v := q]))
  {
    hide Busy, Conserved, NewestFirst, PendingLaw, Tasks;
    TakeCounts(s, w, v, task, q);
    TakeConserves(s, w, v, task, q);
    TakeKeepsOrder(s, w, v, task, q);
    hide Ordered, Takes;
  }

  lemma TakeKeepsOrder(s: State, w: nat, v: nat, task: nat, q: seq<Item>)
    requires Ordered(s) && w < |s.workers| && v < |s.queues| && Takes(s.queues[v], task, q)
    ensures Ordered(Become(s, w, Holding(task)).(queues := s.queues[v := q]))
  {
    hide NewestFirst, Tasks;
    var s' := Become(s, w, Holding(task)).(queues := s.queues[v := q]);
    forall i | 0 <= i < |s'.queues| ensures NewestFirst(s'.queues[i], s'.pushed) {
      assert NewestFirst(s.queues[i], s.pushed);
    }
  }

  lemma Regroup(a: multiset<nat>, b: multiset<nat>, c: multiset<nat>, x: multiset<nat>)
    ensures a + (b + x) + c == a + b + (c + x)
  {}

  lemma RunConserves(s: State, w: nat)
    requires Inv(s) && Enabled(s, Run(w))
    ensures Conserved(Step(s, Run(w)))
  {
    var s', t := Step(s, Run(w)), s.workers[w].task;
    HeldMove(s.workers, w, Finished(t));
    hide Ordered, Submits, PendingLaw, HeldTasks, QueuedTasks;
    assert multiset(s'.ran) == multiset(s.ran) + multiset{t};
    Regroup(QueuedTasks(s.queues), HeldTasks(s'.workers), multiset(s.ran), multiset{t});
  }

  lemma RunKeepsInv(s: State, w: nat)
    requires Inv(s) && Enabled(s, Run(w))
    ensures Inv(Step(s, Run(w)))
  {
    hide Conserved, HeldTasks, NewestFirst, Ordered, Queued, QueuedTasks, Submits, Taken, Wrap;
    SameOrder(s, Step(s, Run(w)));
    WorkerCount(s.workers, w, Finished(s.workers[w].task));
    RunConserves(s, w);
  }

  lemma DoneCounts(s: State, w: nat)
    requires Inv(s) && Enabled(s, Done(w))
    ensures PendingLaw(Step(s, Done(w)))
  {
    var s' := Step(s, Done(w));
    WorkerCount(s.workers, w, Top);
    CounterStep(|s.pushed| - |s.window| - s.retired);
    hide Ordered, Submits, Wrap, Conserved, Taken, Queued;
    assert |s'.pushed| - |s'.window| - s'.retired == |s.pushed| - |s.window| - s.retired - 1;
  }

  lemma DoneKeepsInv(s: State, w: nat)
    requires Inv(s) && Enabled(s, Done(w))
    ensures Inv(Step(s, Done(w)))
  {
    hide Ordered, Submits, PendingLaw, HeldTasks, QueuedTasks;
    DoneCounts(s, w);
    SameOrder(s, Step(s, Done(w)));
    HeldMove(s.workers, w, Top);
  }

  lemma OtherKeepsInv(s: State, e: Event)
    requires Inv(s) && Enabled(s, e) && (e.Choose? || e.SeeIdle? || e.Stop?)
    ensures Inv(Step(s, e))
  {
    hide Wrap, NewestFirst, Placed, Tasks, Queued, Taken, QueuedTasks, HeldTasks;
  }

  lemma StepKeepsInv(s: State, e: Event)
    requires Inv(s) && Enabled(s, e)
    ensures Inv(Step(s, e))
  {
    hide Become, Conserved, Ordered, PendingLaw, Shape, Submits, Takes, Victim, Wrap;
    assert Shape(s);
    match e
    case Push(t) => PushKeepsInv(s, t);
    case Count(t) => CountKeepsInv(s, t);
    case SeeStop(w) => MoveKeepsInv(s, w, Exited);
    case Begin(w) => MoveKeepsInv(s, w, Looking);
    case PopLocal(w) =>
      FrontTakes(s.queues[w]);
      TakeKeepsInv(s, w, w, s.queues[w][0].task, s.queues[w][1..]);
    case PopNothing(w) => MoveKeepsInv(s, w, Stealing(1));
    case StealSkip(w, _) => MoveKeepsInv(s, w, Stealing(s.workers[w].offset + 1));
    case StealTake(w, v) =>
      var q := s.queues[v];
      BackTakes(q);
      TakeKeepsInv(s, w, v, q[|q| - 1].task, q[..|q| - 1]);
    case StealNothing(w) => MoveKeepsInv(s, w, Waiting);
    case Wake(w) => MoveKeepsInv(s, w, Top);
    case Run(w) => RunKeepsInv(s, w);
    case Done(w) => DoneKeepsInv(s, w);
    case _ => OtherKeepsInv(s, e);
  }

  // ---- Runs ---------------------------------------------------------------------------------------

  predicate Goes(s: State, e: Event, s': State) {
    Enabled(s, e) && s' == Step(s, e)
  }

  ghost predicate IsRun(states: seq<State>, events: seq<Event>) {
    && |states| == |events| + 1 && Initial(states[0])
    && forall i :: 0 <= i < |events| ==> Goes(states[i], events[i], states[i + 1])
  }

  lemma {:induction false} RunInv(states: seq<State>, events: seq<Event>, n: nat)
    requires IsRun(states, events) && n < |states|
    ensures Inv(states[n])
  {
    hide Enabled, Initial, Inv, Step;
    if n == 0 {
      InitialInv(states[0]);
    } else {
      RunInv(states, events, n - 1);
      assert Goes(states[n - 1], events[n - 1], states[n - 1 + 1]);
      StepKeepsInv(states[n - 1], events[n - 1]);
    }
  }

  lemma {:induction false} DistinctOnce(xs: seq<nat>, x: nat)
    requires forall i, j :: 0 <= i < j < |xs| ==> xs[i] != xs[j]
    ensures multiset(xs)[x] == if x in xs then 1 else 0
  {
    if xs != [] {
      var n := |xs| - 1;
      DistinctOnce(xs[..n], x);
      assert xs == xs[..n] + [xs[n]];
    }
  }

  /**
   * In every interleaving each submitted task is in exactly one place: queued, held by a
   * worker, or run. So none is lost and none runs twice.
   */
  lemma TasksConserved(states: seq<State>, events: seq<Event>, n: nat, t: nat)
    requires IsRun(states, events) && n < |states|
    ensures var s := states[n];
      QueuedTasks(s.queues)[t] + HeldTasks(s.workers)[t] + multiset(s.ran)[t] == if t in s.pushed then 1 else 0
  {
    RunInv(states, events, n);
    var s := states[n];
    DistinctOnce(s.pushed, t);
    assert multiset(s.pushed)[t] == (QueuedTasks(s.queues) + HeldTasks(s.workers) + multiset(s.ran))[t];
  }

  /** An owner takes the newest task of its deque; a thief takes the oldest of another worker's. */
  lemma TakenByAge(states: seq<State>, events: seq<Event>, n: nat, w: nat, v: nat)
    requires IsRun(states, events) && n < |states|
    ensures Enabled(states[n], PopLocal(w)) ==>
      var s := states[n];
      var q := s.queues[w];
      && q[0].stamp < |s.pushed| && Step(s, PopLocal(w)).workers[w] == Holding(s.pushed[q[0].stamp])
      && forall i :: 1 <= i < |q| ==> q[i].stamp < q[0].stamp
    ensures Enabled(states[n], StealTake(w, v)) ==>
      var s := states[n];
      var q := s.queues[v];
      var last := |q| - 1;
      && v != w
      && q[last].stamp < |s.pushed| && Step(s, StealTake(w, v)).workers[w] == Holding(s.pushed[q[last].stamp])
      && forall i :: 0 <= i < last ==> q[last].stamp < q[i].stamp
  {
    RunInv(states, events, n);
    var s := states[n];
    hide PendingLaw, Conserved, Submits, Initial, Tasks;
    if Enabled(s, PopLocal(w)) {
      assert NewestFirst(s.queues[w], s.pushed);
    } else if Enabled(s, StealTake(w, v)) {
      assert NewestFirst(s.queues[v], s.pushed);
      assert Placed(s.workers[w]);
      VictimOffset(|s.queues|, w, w, s.workers[w].offset);
    }
  }

  /** Offset o of w's sweep tries v exactly if o is the distance from w round to v. */
  lemma VictimOffset(n: nat, w: nat, v: nat, o: nat)
    requires w < n && v < n && 1 <= o < n
    ensures VictimAt(n, w, o) == v <==> v != w && o == if v > w then v - w else v + n - w
  {
    if w + o < n {
      DivModUnique(w + o, n, 0, w + o);
    } else {
      DivModUnique(w + o, n, 1, w + o - n);
    }
  }

  // ---- Sweeps of steal ----------------------------------------------------------------------------

  /** A step of worker w. */
  predicate ByWorker(e: Event, w: nat) {
    (e.SeeStop? || e.Begin? || e.PopLocal? || e.PopNothing? || e.StealSkip? || e.StealTake? || e.StealNothing?
     || e.Wake? || e.Run? || e.Done?) && e.w == w
  }

  /** The deques that worker w has tried and left in the events from i to j, in order. */
  function Tried(events: seq<Event>, i: nat, j: nat, w: nat): seq<nat>
    requires j <= |events|
    decreases j
  {
    if j <= i then []
    else
      var e := events[j - 1];
      Tried(events, i, j - 1, w) + if e.StealSkip? && e.w == w then [e.victim] else []
  }

  /** From its failed pop at i on, worker w has done nothing but try other deques before j. */
  ghost predicate Sweeping(events: seq<Event>, i: nat, j: nat, w: nat) {
    && i < j <= |events| && events[i] == PopNothing(w)
    && forall k :: i < k < j && ByWorker(events[k], w) ==> events[k].StealSkip?
  }

  /** The deques of a sweep in order: the worker after the thief, and round. */
  ghost predicate InOrder(tried: seq<nat>, n: nat, w: nat) {
    n > 0 && |tried| < n && forall k :: 0 <= k < |tried| ==> tried[k] == (w + 1 + k) % n
  }

  lemma SweepStep(s: State, e: Event, w: nat, o: nat)
    requires Inv(s) && Enabled(s, e) && (ByWorker(e, w) ==> e.StealSkip?)
    requires w < |s.workers| && s.workers[w] == Stealing(o)
    ensures |Step(s, e).workers| == |s.workers|
    ensures var skips := e.StealSkip? && e.w == w;
      && Step(s, e).workers[w] == Stealing(if skips then o + 1 else o)
      && (skips ==> o < |s.workers| && e.victim == (w + o) % |s.workers|)
  {
    hide Conserved, Ordered, PendingLaw, Submits, Wrap;
  }

  lemma StepOfRun(states: seq<State>, events: seq<Event>, n: nat)
    requires IsRun(states, events) && n < |events|
    ensures |states| == |events| + 1 && Enabled(states[n], events[n]) && states[n + 1] == Step(states[n], events[n])
  {
    hide Enabled, Step;
    assert Goes(states[n], events[n], states[n + 1]);
  }

  lemma {:induction false} SweepOffset(states: seq<State>, events: seq<Event>, i: nat, j: nat, w: nat)
    requires IsRun(states, events) && Sweeping(events, i, j, w)
    ensures |states| == |events| + 1 && w < |states[j].workers| == |states[j].queues| == |states[i].queues|
    ensures states[i].queues[w] == []
    ensures states[j].workers[w] == Stealing(1 + |Tried(events, i + 1, j, w)|)
    ensures InOrder(Tried(events, i + 1, j, w), |states[i].queues|, w)
    decreases j
  {
    hide *;
    SweepingParts(events, i, j, w);
    StepOfRun(states, events, j - 1);
    RunInv(states, events, j - 1);
    RunInv(states, events, j);
    ShapeOf(states[j - 1]);
    ShapeOf(states[j]);
    if j == i + 1 {
      StartsSweep(states[i], w);
      TriedNone(events, j, w);
    } else {
      var n, e, t := |states[i].queues|, events[j - 1], Tried(events, i + 1, j - 1, w);
      SweepOffset(states, events, i, j - 1, w);
      SweepStep(states[j - 1], e, w, 1 + |t|);
      TriedUnfolds(events, i + 1, j, w);
      if e.StealSkip? && e.w == w {
        OrderGrows(t, n, w, e.victim);
      } else {
        assert t + [] == t;
      }
    }
  }

  lemma ShapeOf(s: State)
    requires Inv(s)
    ensures |s.queues| == |s.workers| > 0
  {}

  lemma StartsSweep(s: State, w: nat)
    requires Enabled(s, PopNothing(w)) && Inv(s)
    ensures var s' := Step(s, PopNothing(w));
      && w < |s.queues| == |s'.queues| == |s'.workers| && s.queues[w] == [] && s'.workers[w] == Stealing(1)
      && InOrder([], |s.queues|, w)
  {}

  lemma SweepingParts(events: seq<Event>, i: nat, j: nat, w: nat)
    requires Sweeping(events, i, j, w)
    ensures i < j <= |events| && events[i] == PopNothing(w)
    ensures j > i + 1 ==> Sweeping(events, i, j - 1, w) && (ByWorker(events[j - 1], w) ==> events[j - 1].StealSkip?)
  {
    hide ByWorker;
  }

  lemma TriedNone(events: seq<Event>, j: nat, w: nat)
    requires j <= |events|
    ensures Tried(events, j, j, w) == []
  {}

  lemma TriedUnfolds(events: seq<Event>, i: nat, j: nat, w: nat)
    requires i < j <= |events|
    ensures var e := events[j - 1];
      Tried(events, i, j, w) == Tried(events, i, j - 1, w) + if e.StealSkip? && e.w == w then [e.victim] else []
  {}

  lemma OrderGrows(t: seq<nat>, n: nat, w: nat, v: nat)
    requires InOrder(t, n, w) && 1 + |t| < n && v == (w + (1 + |t|)) % n
    ensures InOrder(t + [v], n, w)
  {
    assert w + (1 + |t|) == w + 1 + |t|;
  }

  /**
   * Over every run: a sweep starts only once the worker's own deque was seen empty, and
   * goes through the deques of the others in cyclic order from the next worker. One that
   * ends in nothing has tried all of them; one that ends with a theft steals from the
   * first deque it has not tried.
   */
  lemma SweepsInOrder(states: seq<State>, events: seq<Event>, i: nat, j: nat, w: nat)
    requires IsRun(states, events) && Sweeping(events, i, j, w) && j < |events|
    ensures |states| == |events| + 1 && w < |states[i].queues| && states[i].queues[w] == []
    ensures var n, tried := |states[i].queues|, Tried(events, i + 1, j, w);
      && InOrder(tried, n, w)
      && (events[j] == StealNothing(w) ==> |tried| == n - 1)
      && (events[j].StealTake? && events[j].w == w ==>
            |tried| < n - 1 && events[j].victim == (w + 1 + |tried|) % n)
  {
    hide *;
    SweepingParts(events, i, j, w);
    SweepOffset(states, events, i, j, w);
    StepOfRun(states, events, j);
    InOrderShort(Tried(events, i + 1, j, w), |states[i].queues|, w);
    SweepEnds(states[j], events[j], w, 1 + |Tried(events, i + 1, j, w)|);
  }

  lemma InOrderShort(t: seq<nat>, n: nat, w: nat)
    requires InOrder(t, n, w)
    ensures |t| < n
  {}

  lemma SweepEnds(s: State, e: Event, w: nat, o: nat)
    requires Enabled(s, e) && w < |s.workers| && s.workers[w] == Stealing(o)
    ensures e == StealNothing(w) ==> o >= |s.queues|
    ensures e.StealTake? && e.w == w ==> o < |s.queues| && e.victim == (w + o) % |s.queues|
  {}

  /** A sweep that ends in nothing has tried every other worker exactly once, and never the thief. */
  lemma SweepTriesEachOnce(states: seq<State>, events: seq<Event>, i: nat, j: nat, w: nat, v: nat)
    requires IsRun(states, events) && Sweeping(events, i, j, w) && j < |events| && events[j] == StealNothing(w)
    requires |states[i].queues| > v
    ensures var tried := Tried(events, i + 1, j, w);
      && (v != w <==> exists k :: 0 <= k < |tried| && tried[k] == v)
      && (forall a, b :: 0 <= a < |tried| && 0 <= b < |tried| && tried[a] == tried[b] == v ==> a == b)
  {
    SweepsInOrder(states, events, i, j, w);
    var n, tried := |states[i].queues|, Tried(events, i + 1, j, w);
    hide IsRun, Sweeping, Tried;
    forall k | 0 <= k < |tried| ensures tried[k] == v <==> v != w && k + 1 == if v > w then v - w else v + n - w {
      VictimOffset(n, w, v, k + 1);
      assert w + (k + 1) == w + 1 + k;
    }
    hide InOrder;
    if v != w {
      var o := if v > w then v - w else v + n - w;
      assert tried[o - 1] == v;
    }
  }

  // ---- The worker loop ------------------------------------------------------------------------------

  /** A step that the loop of a worker can take next. */
  predicate Follows(e: Event, next: Event) {
    match e
    case SeeStop(_) => false
    case Begin(_) => next.PopLocal? || next.PopNothing?
    case PopNothing(_) => next.StealSkip? || next.StealTake? || next.StealNothing?
    case StealSkip(_, _) => next.StealSkip? || next.StealTake? || next.StealNothing?
    case PopLocal(_) => next.Run?
    case StealTake(_, _) => next.Run?
    case Run(_) => next.Done?
    case StealNothing(_) => next.Wake?
    case _ => next.SeeStop? || next.Begin?
  }

  /** What must hold for the step: stop is seen set or not, a wait ends with cause, and a deque is found empty. */
  predicate HasCause(s: State, e: Event) {
    && (e.SeeStop? ==> s.stop) && (e.Begin? ==> !s.stop) && (e.Wake? ==> s.stop || s.pending > 0)
    && (e.PopNothing? ==> e.w < |s.queues| && s.queues[e.w] == [])
    && (e.StealNothing? ==> e.w < |s.workers| && s.workers[e.w].Stealing? && s.workers[e.w].offset >= |s.queues|)
  }

  lemma OthersMove(s: State, e: Event, w: nat)
    requires Enabled(s, e) && !ByWorker(e, w) && w < |s.workers|
    ensures |Step(s, e).workers| == |s.workers| && Step(s, e).workers[w] == s.workers[w]
  {
    hide VictimAt, Wrap;
  }

  lemma {:induction false} Undisturbed(states: seq<State>, events: seq<Event>, i: nat, j: nat, w: nat)
    requires IsRun(states, events) && i <= j <= |events| && |states| == |events| + 1 && w < |states[i].workers|
    requires forall k :: i <= k < j ==> !ByWorker(events[k], w)
    ensures w < |states[j].workers| && states[j].workers[w] == states[i].workers[w]
  {
    hide ByWorker, Enabled, IsRun, Step;
    if i < j {
      Undisturbed(states, events, i, j - 1, w);
      StepOfRun(states, events, j - 1);
      OthersMove(states[j - 1], events[j - 1], w);
    }
  }

  lemma FollowsFrom(s: State, e: Event, s': State, next: Event, w: nat)
    requires Enabled(s, e) && ByWorker(e, w) && Enabled(s', next) && ByWorker(next, w)
    requires w < |s.workers| && w < |Step(s, e).workers| && w < |s'.workers|
    requires s'.workers[w] == Step(s, e).workers[w]
    ensures Follows(e, next) && HasCause(s', next)
  {
    hide VictimAt, Wrap;
  }

  lemma ActorExists(s: State, e: Event, w: nat)
    requires Enabled(s, e) && ByWorker(e, w)
    ensures w < |s.workers| && w < |Step(s, e).workers|
  {
    hide VictimAt, Wrap;
  }

  /** In every run, two steps that a worker takes one after the other follow its loop, each with its cause. */
  lemma WorkerLoop(states: seq<State>, events: seq<Event>, i: nat, j: nat, w: nat)
    requires IsRun(states, events) && i < j < |events| && ByWorker(events[i], w) && ByWorker(events[j], w)
    requires forall k :: i < k < j ==> !ByWorker(events[k], w)
    ensures Follows(events[i], events[j])
    ensures |states| == |events| + 1 && HasCause(states[j], events[j])
  {
    StepOfRun(states, events, i);
    StepOfRun(states, events, j);
    hide ByWorker, Enabled, Follows, HasCause, IsRun, Step;
    ActorExists(states[i], events[i], w);
    Undisturbed(states, events, i + 1, j, w);
    FollowsFrom(states[i], events[i], states[j], events[j], w);
  }

  // ---- Submitting in turn ---------------------------------------------------------------------------

  /** The number of submits that have picked a deque. */
  function Chosen(events: seq<Event>, n: nat): nat
    requires n <= |events|
  {
    if n == 0 then 0 else Chosen(events, n - 1) + if events[n - 1].Choose? then 1 else 0
  }

  lemma {:induction false} RoundRobin(states: seq<State>, events: seq<Event>, n: nat)
    requires IsRun(states, events) && n <= |events|
    ensures |states| == |events| + 1 && states[n].rr == Chosen(events, n) % SIZE_MODULUS
    ensures |states[n].queues| == |states[0].queues| > 0
  {
    hide Chosen, Enabled, Goes, Initial, IsRun, Step;
    RunStart(states, events);
    ChosenUnfolds(events, n);
    if n > 0 {
      RoundRobin(states, events, n - 1);
      StepOfRun(states, events, n - 1);
      TurnStep(states[n - 1], events[n - 1], Chosen(events, n - 1));
    }
  }

  lemma ChosenUnfolds(events: seq<Event>, n: nat)
    requires n <= |events|
    ensures Chosen(events, n) == if n == 0 then 0 else Chosen(events, n - 1) + if events[n - 1].Choose? then 1 else 0
  {}

  lemma RunStart(states: seq<State>, events: seq<Event>)
    requires IsRun(states, events)
    ensures |states| == |events| + 1 && states[0].rr == 0 && |states[0].queues| > 0
  {
    hide Goes;
  }

  lemma TurnStep(s: State, e: Event, c: nat)
    requires Enabled(s, e) && s.rr == c % SIZE_MODULUS
    ensures Step(s, e).rr == (c + if e.Choose? then 1 else 0) % SIZE_MODULUS
    ensures |Step(s, e).queues| == |s.queues|
  {
    hide VictimAt;
    CounterStep(c);
  }

  /** A task that has been given a deque keeps it until it is pushed. */
  ghost predicate KeepsDeque(s: State, t: nat, d: nat) {
    t in s.pushed || (t in s.choosing && s.choosing[t] == d)
  }

  lemma KeepsDequeStep(s: State, e: Event, t: nat, d: nat)
    requires Enabled(s, e) && KeepsDeque(s, t, d)
    ensures KeepsDeque(Step(s, e), t, d)
  {
    hide Wrap, VictimAt;
  }

  lemma {:induction false} DequeKept(states: seq<State>, events: seq<Event>, j: nat, n: nat, t: nat, d: nat)
    requires IsRun(states, events) && j <= n < |states| && KeepsDeque(states[j], t, d)
    ensures KeepsDeque(states[n], t, d)
  {
    hide Enabled, KeepsDeque, Step;
    if j < n {
      DequeKept(states, events, j, n - 1, t, d);
      StepOfRun(states, events, n - 1);
      KeepsDequeStep(states[n - 1], events[n - 1], t, d);
    }
  }

  /**
   * Submits go to the deques in turn: a task that was the k-th to pick a deque, counted at
   * the counter's width, is pushed at the front of deque k modulo the number of workers,
   * and no other deque changes.
   */
  lemma SubmitsInTurn(states: seq<State>, events: seq<Event>, j: nat, i: nat, t: nat)
    requires IsRun(states, events) && j < i < |events| && events[j] == Choose(t) && events[i] == Push(t)
    ensures |states| == |events| + 1 && |states[i].queues| == |states[i + 1].queues| > 0
    ensures var n := |states[i].queues|;
      var d := (Chosen(events, j) % SIZE_MODULUS) % n;
      var before, after := states[i].queues, states[i + 1].queues;
      && |after[d]| == |before[d]| + 1 && after[d][0].task == t && after[d][1..] == before[d]
      && forall k :: 0 <= k < n && k != d ==> after[k] == before[k]
  {
    hide Chosen, Enabled, Goes, Initial, Inv, IsRun, KeepsDeque, Step;
    RoundRobin(states, events, j);
    RoundRobin(states, events, i);
    var d := (Chosen(events, j) % SIZE_MODULUS) % |states[0].queues|;
    StepOfRun(states, events, j);
    StepOfRun(states, events, i);
    RunInv(states, events, i);
    ChoosesDeque(states[j], t);
    DequeKept(states, events, j + 1, i, t, d);
    PushesThere(states[i], t, d);
  }

  lemma ChoosesDeque(s: State, t: nat)
    requires Enabled(s, Choose(t))
    ensures |s.queues| > 0 && KeepsDeque(Step(s, Choose(t)), t, s.rr % |s.queues|)
  {}

  lemma PushesThere(s: State, t: nat, d: nat)
    requires Inv(s) && Enabled(s, Push(t)) && KeepsDeque(s, t, d)
    ensures var before, after := s.queues, Step(s, Push(t)).queues;
      && d < |before| == |after| && |after[d]| == |before[d]| + 1
      && after[d][0].task == t && after[d][1..] == before[d]
      && forall k :: 0 <= k < |before| && k != d ==> after[k] == before[k]
  {
    hide Conserved, Ordered, PendingLaw, Wrap;
  }

  // ---- Waiting for the pool to be idle ------------------------------------------------------------

  lemma {:induction false} NothingQueued(queues: seq<seq<Item>>)
    ensures Queued(queues) == 0 <==> forall i :: 0 <= i < |queues| ==> queues[i] == []
    ensures Queued(queues) == 0 ==> QueuedTasks(queues) == multiset{}
  {
    if queues != [] {
      NothingQueued(queues[..|queues| - 1]);
    }
  }

  lemma {:induction false} NothingTaken(workers: seq<Worker>)
    ensures Taken(workers) == 0 <==> forall w :: 0 <= w < |workers| ==> Busy(workers[w]) == 0
    ensures Taken(workers) == 0 ==> HeldTasks(workers) == multiset{}
  {
    if workers != [] {
      NothingTaken(workers[..|workers| - 1]);
    }
  }

  /**
   * pending is the number of unfinished tasks less the submits that have pushed but not
   * counted; when the difference is negative the counter shows it wrapped around.
   */
  lemma PendingExact(states: seq<State>, events: seq<Event>, n: nat)
    requires IsRun(states, events) && n < |states| && |states[n].pushed| < SIZE_MODULUS
    ensures var s := states[n];
      |s.window| < SIZE_MODULUS &&
      s.pending + |s.window| == Unfinished(s) + if Unfinished(s) < |s.window| then SIZE_MODULUS else 0
  {
    RunInv(states, events, n);
    var s := states[n];
    WindowBound(s.window, s.pushed);
  }

  /** Submits between push and increment are among the pushed ones. */
  lemma {:induction false} WindowBound(window: set<nat>, pushed: seq<nat>)
    requires forall t :: t in window ==> t in pushed
    ensures |window| <= |pushed|
  {
    if pushed == [] {
      assert window == {};
    } else {
      var n := |pushed| - 1;
      WindowBound(window - {pushed[n]}, pushed[..n]);
    }
  }

  /**
   * When wait_idle sees zero, the pool is idle exactly if no submit is between its push
   * and its increment; and then every deque is empty, no worker has a task, and all tasks
   * have run.
   */
  lemma IdleExactly(states: seq<State>, events: seq<Event>, n: nat)
    requires IsRun(states, events) && n < |states| && |states[n].pushed| < SIZE_MODULUS
    requires states[n].pending == 0
    ensures var s := states[n];
      && (Unfinished(s) == 0 <==> s.window == {})
      && (s.window == {} ==> && AllRun(s)
                             && (forall i :: 0 <= i < |s.queues| ==> s.queues[i] == [])
                             && (forall w :: 0 <= w < |s.workers| ==> Busy(s.workers[w]) == 0))
  {
    PendingExact(states, events, n);
    RunInv(states, events, n);
    var s := states[n];
    NothingQueued(s.queues);
    NothingTaken(s.workers);
  }

  ghost predicate AllRun(s: State) {
    multiset(s.ran) == multiset(s.pushed)
  }

  /** Conversely a pool with no unfinished task and no submit in flight shows zero. */
  lemma IdleShowsZero(states: seq<State>, events: seq<Event>, n: nat)
    requires IsRun(states, events) && n < |states|
    requires Unfinished(states[n]) == 0 && states[n].window == {}
    ensures states[n].pending == 0
  {
    RunInv(states, events, n);
  }

  // ---- The destructor -------------------------------------------------------------------------------

  /** Nothing queued, nothing in a worker's hands, no submit under way. */
  ghost predicate Quiet(s: State) {
    Unfinished(s) == 0 && s.window == {} && s.choosing == map[]
  }

  lemma QuietStep(s: State, e: Event)
    requires Inv(s) && Quiet(s) && Enabled(s, e) && !e.Choose?
    ensures Quiet(Step(s, e)) && Step(s, e).ran == s.ran && Step(s, e).pushed == s.pushed
  {
    hide *;
    QuietParts(s);
    NothingQueued(s.queues);
    NothingTaken(s.workers);
    IdleStep(s, e);
    NothingTaken(Step(s, e).workers);
    QuietParts(Step(s, e));
  }

  lemma QuietParts(s: State)
    ensures Quiet(s) <==> Queued(s.queues) == 0 && Taken(s.workers) == 0 && s.window == {} && s.choosing == map[]
  {
    hide Queued, Taken;
  }

  /** With nothing queued or held, a step moves workers between positions without a task. */
  lemma IdleStep(s: State, e: Event)
    requires Enabled(s, e) && !e.Choose? && s.window == {} && s.choosing == map[]
    requires forall i :: 0 <= i < |s.queues| ==> s.queues[i] == []
    requires forall w :: 0 <= w < |s.workers| ==> Busy(s.workers[w]) == 0
    ensures var s' := Step(s, e);
      && s'.queues == s.queues && s'.ran == s.ran && s'.pushed == s.pushed
      && s'.window == {} && s'.choosing == map[]
      && forall w :: 0 <= w < |s'.workers| ==> Busy(s'.workers[w]) == 0
  {
    hide VictimAt, Wrap;
  }

  lemma {:induction false} StaysQuiet(states: seq<State>, events: seq<Event>, k: nat, n: nat)
    requires IsRun(states, events) && k <= n < |states| && Quiet(states[k])
    requires forall i :: k <= i < n ==> !events[i].Choose?
    ensures Quiet(states[n]) && states[n].ran == states[k].ran && states[n].pushed == states[k].pushed
  {
    hide Enabled, Initial, Inv, Quiet, Step;
    if k < n {
      StaysQuiet(states, events, k, n - 1);
      RunInv(states, events, n - 1);
      assert Goes(states[n - 1], events[n - 1], states[n - 1 + 1]);
      QuietStep(states[n - 1], events[n - 1]);
    }
  }

  /**
   * A destructor whose wait_idle returns at step k, with no submit under way then or
   * later: at every later step, so whenever a worker exits, all deques are empty and
   * every submitted task has run.
   */
  lemma DestructorDrains(states: seq<State>, events: seq<Event>, k: nat, n: nat)
    requires IsRun(states, events) && k < n < |states| && events[k].SeeIdle?
    requires |states[k].pushed| < SIZE_MODULUS
    requires states[k].window == {} && states[k].choosing == map[]
    requires forall i :: k <= i < n ==> !events[i].Choose?
    ensures var s := states[n];
      && AllRun(s) && s.ran == states[k].ran
      && (forall i :: 0 <= i < |s.queues| ==> s.queues[i] == [])
      && (forall w :: 0 <= w < |s.workers| ==> Busy(s.workers[w]) == 0)
  {
    assert Goes(states[k], events[k], states[k + 1]);
    IdleExactly(states, events, k);
    StaysQuiet(states, events, k, n);
    NothingQueued(states[n].queues);
    NothingTaken(states[n].workers);
  }

  /** Workers exit only once stop is set, stop is set only once the destructor's wait has returned. */
  ghost predicate ExitsInOrder(s: State) {
    && (forall w :: 0 <= w < |s.workers| && s.workers[w].Exited? ==> s.stop)
    && (s.stop ==> s.closing)
  }

  lemma ExitStep(s: State, e: Event)
    requires Enabled(s, e) && ExitsInOrder(s)
    ensures ExitsInOrder(Step(s, e)) && (Step(s, e).closing ==> s.closing || e.SeeIdle?)
  {
    hide VictimAt, Wrap;
  }

  /** The step at which the destructor's wait returned, if it has. */
  lemma {:induction false} ClosedBy(states: seq<State>, events: seq<Event>, n: nat) returns (k: nat)
    requires IsRun(states, events) && n <= |events|
    ensures |states| == |events| + 1 && ExitsInOrder(states[n])
    ensures states[n].closing ==> k < n && events[k].SeeIdle? && states[k].pending == 0
  {
    hide *;
    k := 0;
    NotClosing(states, events);
    if n > 0 {
      k := ClosedBy(states, events, n - 1);
      StepOfRun(states, events, n - 1);
      ExitStep(states[n - 1], events[n - 1]);
      if !states[n - 1].closing {
        k := n - 1;
        if states[n].closing {
          SeesZero(states[n - 1], events[n - 1]);
        }
      }
    }
  }

  lemma NotClosing(states: seq<State>, events: seq<Event>)
    requires IsRun(states, events)
    ensures |states| == |events| + 1 && !states[0].closing && ExitsInOrder(states[0])
  {
    hide Goes;
  }

  lemma SeesZero(s: State, e: Event)
    requires Enabled(s, e) && e.SeeIdle?
    ensures s.pending == 0
  {}

  /**
   * Whenever a worker has exited, the destructor's wait has returned at some step k that
   * saw zero; and if no submit was under way then or since, all deques are empty, no
   * worker has a task and every submitted task has run.
   */
  lemma ExitedAfterDraining(states: seq<State>, events: seq<Event>, n: nat, w: nat) returns (k: nat)
    requires IsRun(states, events) && n < |states| && w < |states[n].workers| && states[n].workers[w].Exited?
    ensures k < n && events[k].SeeIdle? && states[k].pending == 0
    ensures && |states[k].pushed| < SIZE_MODULUS && states[k].window == {} && states[k].choosing == map[]
            && (forall i :: k <= i < n ==> !events[i].Choose?)
      ==> && AllRun(states[n])
          && (forall i :: 0 <= i < |states[n].queues| ==> states[n].queues[i] == [])
          && (forall x :: 0 <= x < |states[n].workers| ==> Busy(states[n].workers[x]) == 0)
  {
    k := ClosedBy(states, events, n);
    hide AllRun, Busy, IsRun;
    if |states[k].pushed| < SIZE_MODULUS && states[k].window == {} && states[k].choosing == map[]
       && forall i :: k <= i < n ==> !events[i].Choose? {
      DestructorDrains(states, events, k, n);
    }
  }

  /** A lone worker's empty deque after t has been pushed on it. */
  lemma PushAlone(s: State, s1: State, s2: State, t: nat)
    requires s.queues == [[]] && s.choosing == map[] && t !in s.pushed
    requires s1 == s.(choosing := map[t := 0], rr := Wrap(s.rr + 1))
    requires s2 == s.(queues := [[Item(t, |s.pushed|)]], rr := Wrap(s.rr + 1),
                      window := s.window + {t}, pushed := s.pushed + [t])
    ensures Goes(s, Choose(t), s1) && Goes(s1, Push(t), s2)
  {
    assert map[t := 0] - {t} == map[];
    assert [Item(t, |s.pushed|)] + [] == [Item(t, |s.pushed|)];
  }

  lemma CountAlone(s: State, s': State, t: nat)
    requires t in s.window && s' == s.(pending := Wrap(s.pending + 1), window := s.window - {t})
    ensures Goes(s, Count(t), s')
  {}

  /** A lone worker takes, runs and retires the only queued task. */
  lemma RunAlone(s: State, s1: State, s2: State, s3: State, s4: State, t: nat)
    requires s.queues == [[Item(t, 0)]] && s.workers == [Top] && !s.stop
    requires s1 == s.(workers := [Looking])
    requires s2 == s.(workers := [Holding(t)], queues := [[]])
    requires s3 == s2.(workers := [Finished(t)], ran := s.ran + [t])
    requires s4 == s3.(workers := [Top], pending := Wrap(s.pending - 1), retired := s.retired + 1)
    ensures Goes(s, Begin(0), s1) && Goes(s1, PopLocal(0), s2) && Goes(s2, Run(0), s3) && Goes(s3, Done(0), s4)
  {
    hide Wrap;
    assert [Item(t, 0)][1..] == [];
    assert Goes(s, Begin(0), s1);
    assert Goes(s1, PopLocal(0), s2);
  }

  /**
   * With a submit under way the law fails: the first task's decrement can come before its
   * increment and cancel the increment of a second submit, which has returned while its
   * task is still queued and pending is zero.
   */
  lemma ZeroWithReturnedSubmit() returns (states: seq<State>, events: seq<Event>)
    ensures IsRun(states, events)
    ensures var s := states[|events|];
      && s.pending == 0 && 1 in s.pushed && 1 !in s.window && 1 !in s.ran
      && s.queues == [[Item(1, 1)]]
  {
    hide Goes;
    var s0 := State([[]], [Top], 0, 0, false, false, map[], {}, [], [], 0);
    var s1 := s0.(choosing := map[0 := 0], rr := 1);
    var s2 := s0.(queues := [[Item(0, 0)]], rr := 1, window := {0}, pushed := [0]);
    var s3 := s2.(workers := [Looking]);
    var s4 := s2.(workers := [Holding(0)], queues := [[]]);
    var s5 := s4.(workers := [Finished(0)], ran := [0]);
    var s6 := s5.(workers := [Top], pending := Wrap(-1), retired := 1);
    var s7 := s6.(choosing := map[1 := 0], rr := 2);
    var s8 := s6.(queues := [[Item(1, 1)]], rr := 2, window := {0, 1}, pushed := [0, 1]);
    var s9 := s8.(pending := 0, window := {0});
    PushAlone(s0, s1, s2, 0);
    RunAlone(s2, s3, s4, s5, s6, 0);
    PushAlone(s6, s7, s8, 1);
    CountAlone(s8, s9, 1);
    states := [s0, s1, s2, s3, s4, s5, s6, s7, s8, s9];
    events := [Choose(0), Push(0), Begin(0), PopLocal(0), Run(0), Done(0), Choose(1), Push(1), Count(1)];
  }
}
