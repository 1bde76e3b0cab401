/** The bounded trade log: a ring of the last 4096 trades, read newest first. */
module TradeLog {
  import opened PriceTimeBook

  datatype Trade = Trade(takerId: int, makerId: int, price: int, qty: nat, takerIsBid: bool, makerIsBid: bool)

  const CAP: nat := 4096

  function TradeOf(e: Execution): Trade {
    Trade(e.takerId, e.makerId, e.price, e.qty, e.takerSide == Buy, e.makerSide == Buy)
  }

  /** A trade names both orders and their sides, and the price and quantity of the execution. */
  predicate Records(t: Trade, e: Execution) {
    && t.takerId == e.takerId && t.makerId == e.makerId && t.price == e.price && t.qty == e.qty
    && (t.takerIsBid <==> e.takerSide == Buy) && (t.makerIsBid <==> e.makerSide == Buy)
  }

  lemma RecordsIt(e: Execution)
    ensures Records(TradeOf(e), e)
  {}

  /** The last n trades of a log, newest first. */
  function Newest(log: seq<Trade>, n: nat): (r: seq<Trade>)
    requires n <= |log|
    ensures |r| == n && forall i :: 0 <= i < n ==> r[i] == log[|log| - 1 - i]
  {
    seq(n, i requires 0 <= i < n => log[|log| - 1 - i])
  }

  /** The slot of the next trade holds none of the CAP - 1 trades before it. */
  lemma NewSlot(n: nat)
    ensures (n % CAP + 1) % CAP == (n + 1) % CAP
    ensures forall j :: n - CAP < j < n ==> j % CAP != n % CAP
  {}

  class Ring {
    const slots: array<Trade>
    var enabled: bool
    var size: nat
    var head: nat

    /** Every trade logged since the last clear. */
    ghost var log: seq<Trade>

    ghost predicate Valid()
      reads this, slots
    {
      && slots.Length == CAP
      && size == Min(|log|, CAP) && head == |log| % CAP
      && forall j :: |log| - size <= j < |log| ==> slots[j % CAP] == log[j]
    }

    constructor ()
      ensures Valid() && fresh(slots) && log == [] && !enabled
    {
      slots := new Trade[CAP](i => Trade(0, 0, 0, 0, false, false));
      enabled, size, head, log := false, 0, 0, [];
    }

    method SetEnabled(on: bool)
      requires Valid()
      modifies this`enabled
      ensures Valid() && enabled == on && log == old(log)
    {
      enabled := on;
    }

    method Clear()
      requires Valid()
      modifies this`size, this`head, this`log
      ensures Valid() && log == []
    {
      size := 0;
      head := 0;
      log := [];
    }

    method Push(e: Execution)
      requires Valid()
      modifies this`size, this`head, this`log, slots
      ensures Valid() && log == if enabled then old(log) + [TradeOf(e)] else old(log)
      ensures enabled ==> |log| == |old(log)| + 1 && Records(log[|old(log)|], e)
    {
      RecordsIt(e);
      hide Records;
      if !enabled {
        return;
      }
      hide TradeOf;
      NewSlot(|log|);
      slots[head] := TradeOf(e);
      head := (head + 1) % CAP;
      size := Min(size + 1, CAP);
      log := log + [TradeOf(e)];
    }

    /** The newest trades first: as many as asked for, logged and still held. */
    method Recent(max: nat) returns (out: seq<Trade>)
      requires Valid()
      ensures out == Newest(log, Min(max, Min(|log|, CAP)))
    {
      if size == 0 || max == 0 {
        return [];
      }
      var n := Min(max, size);
      out := [];
      for i := 0 to n
        invariant |out| == i && forall j :: 0 <= j < i ==> out[j] == log[|log| - 1 - j]
      {
        var idx := (head + CAP - 1 - i) % CAP;
        assert idx == (|log| - 1 - i) % CAP;
        out := out + [slots[idx]];
      }
    }
  }
}
