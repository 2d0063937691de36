/** The hybrid logical clock (src/cluster/tempo/clock.rs): one atomic cell, advanced by compare-and-swap
    retry loops from any number of threads, under a physical time that may run backwards. */
module LogicalClock {

  function Max(a: nat, b: nat): nat {
    if a < b then b else a
  }

  /** The value `tick` tries to install. */
  function TickOf(clock: nat, physical: nat): nat {
    Max(clock + 1, physical)
  }

  /** The value `update` tries to install; it does not add one. */
  function UpdateOf(clock: nat, received: nat, physical: nat): nat {
    Max(Max(clock, received), physical)
  }

  // ----- every interleaving -----

  /** One call in progress. `Swap` states sit between the load and the compare-and-swap. */
  datatype Call =
    | TickLoad
    | TickSwap(current: nat, next: nat)
    | TickDone(ticked: nat)
    | UpdateLoad(received: nat)
    | UpdateSwap(received: nat, current: nat, next: nat)
    | UpdateDone(received: nat)

  /** `ticks` records the results handed out, in the order of their successful swaps. */
  datatype Cell = Cell(value: nat, calls: map<nat, Call>, ticks: seq<(nat, nat)>)

  datatype Move = StartTick(id: nat) | StartUpdate(id: nat, received: nat) | Advance(id: nat, physical: nat)

  predicate CanMove(s: Cell, m: Move) {
    match m
    case StartTick(id) => id !in s.calls
    case StartUpdate(id, _) => id !in s.calls
    case Advance(id, _) => id in s.calls
  }

  /** One atomic action of one thread: a load together with reading the time, or a compare-and-swap. */
  function After(s: Cell, m: Move): Cell
    requires CanMove(s, m)
  {
    match m
    case StartTick(id) => s.(calls := s.calls[id := TickLoad])
    case StartUpdate(id, received) => s.(calls := s.calls[id := UpdateLoad(received)])
    case Advance(id, physical) =>
      match s.calls[id]
      case TickLoad => s.(calls := s.calls[id := TickSwap(s.value, TickOf(s.value, physical))])
      case TickSwap(current, next) =>
        if s.value == current
        then Cell(next, s.calls[id := TickDone(next)], s.ticks + [(id, next)])
        else s.(calls := s.calls[id := TickLoad])
      case UpdateLoad(received) =>
        var next := UpdateOf(s.value, received, physical);
        s.(calls := s.calls[id := if next <= s.value then UpdateDone(received) else UpdateSwap(received, s.value, next)])
      case UpdateSwap(received, current, next) =>
        if s.value == current
        then s.(value := next, calls := s.calls[id := UpdateDone(received)])
        else s.(calls := s.calls[id := UpdateLoad(received)])
      case _ => s
  }

  predicate CallOk(s: Cell, id: nat)
    requires id in s.calls
  {
    match s.calls[id]
    case TickSwap(current, next) => current < next
    case TickDone(ticked) => (id, ticked) in s.ticks
    case UpdateSwap(received, current, next) => current < next && received <= next
    case UpdateDone(received) => received <= s.value
    case _ => true
  }

  ghost predicate CellInv(s: Cell) {
    && (forall i, j :: 0 <= i < j < |s.ticks| ==> s.ticks[i].1 < s.ticks[j].1 && s.ticks[i].0 != s.ticks[j].0)
    && (forall i :: 0 <= i < |s.ticks| ==>
          s.ticks[i].1 <= s.value && s.ticks[i].0 in s.calls && s.calls[s.ticks[i].0] == TickDone(s.ticks[i].1))
    && (forall id :: id in s.calls ==> CallOk(s, id))
  }

  lemma TicksGrow(s: Cell, m: Move)
    requires CellInv(s) && CanMove(s, m)
    ensures s.value <= After(s, m).value
    ensures forall t :: t in s.ticks ==> t in After(s, m).ticks
  {
  }

  lemma CallKeeps(s: Cell, m: Move, id: nat)
    requires CellInv(s) && CanMove(s, m) && id in After(s, m).calls
    ensures CallOk(After(s, m), id)
  {
    TicksGrow(s, m);
    if id in s.calls {
      assert CallOk(s, id);
    }
  }

  /** Every atomic action keeps the order of the results and never moves the clock back. */
  lemma MoveKeeps(s: Cell, m: Move)
    requires CellInv(s) && CanMove(s, m)
    ensures CellInv(After(s, m)) && s.value <= After(s, m).value
  {
    var s' := After(s, m);
    TicksGrow(s, m);
    forall id | id in s'.calls ensures CallOk(s', id) {
      CallKeeps(s, m, id);
    }
    if m.Advance? && s.calls[m.id].TickSwap? && s.value == s.calls[m.id].current {
      assert CallOk(s, m.id);
    } else {
      assert s'.ticks == s.ticks;
    }
  }

  /** `trace` lists the states of a run, each one atomic action after the one before. */
  ghost predicate IsTrace(trace: seq<Cell>, moves: seq<Move>) {
    && |trace| == |moves| + 1 && trace[0].calls == map[] && trace[0].ticks == []
    && forall k :: 0 <= k < |moves| ==> CanMove(trace[k], moves[k]) && trace[k + 1] == After(trace[k], moves[k])
  }

  lemma {:induction false} TraceInv(trace: seq<Cell>, moves: seq<Move>, k: nat)
    requires IsTrace(trace, moves) && k < |trace|
    ensures CellInv(trace[k])
  {
    if k > 0 {
      TraceInv(trace, moves, k - 1);
      MoveKeeps(trace[k - 1], moves[k - 1]);
    }
  }

  /** The clock never decreases. */
  lemma {:induction false} NeverDecreases(trace: seq<Cell>, moves: seq<Move>, j: nat, k: nat)
    requires IsTrace(trace, moves) && j <= k < |trace|
    ensures trace[j].value <= trace[k].value
    decreases k - j
  {
    if j < k {
      NeverDecreases(trace, moves, j, k - 1);
      TraceInv(trace, moves, k - 1);
      MoveKeeps(trace[k - 1], moves[k - 1]);
    }
  }

  /** In every interleaving all results of `tick` are distinct, none is ahead of the clock, and after
      `update(received)` has returned the clock has reached `received`. */
  lemma ClockGuarantees(trace: seq<Cell>, moves: seq<Move>, k: nat)
    requires IsTrace(trace, moves) && k < |trace|
    ensures var s := trace[k];
            && (forall a, b | a in s.calls && b in s.calls && a != b && s.calls[a].TickDone? && s.calls[b].TickDone? ::
                  s.calls[a].ticked != s.calls[b].ticked)
            && (forall a | a in s.calls && s.calls[a].TickDone? :: s.calls[a].ticked <= s.value)
            && (forall a | a in s.calls && s.calls[a].UpdateDone? :: s.calls[a].received <= s.value)
  {
    TraceInv(trace, moves, k);
    var s := trace[k];
    forall a, b | a in s.calls && b in s.calls && a != b && s.calls[a].TickDone? && s.calls[b].TickDone?
      ensures s.calls[a].ticked != s.calls[b].ticked
    {
      var i :| 0 <= i < |s.ticks| && s.ticks[i] == (a, s.calls[a].ticked);
      var j :| 0 <= j < |s.ticks| && s.ticks[j] == (b, s.calls[b].ticked);
      assert i < j || j < i;
    }
    forall a | a in s.calls && s.calls[a].TickDone? ensures s.calls[a].ticked <= s.value {
      var i :| 0 <= i < |s.ticks| && s.ticks[i] == (a, s.calls[a].ticked);
    }
  }

  // ----- the retry loops -----

  /** One turn of a retry loop: the physical time read, and how far other threads push the cell between
      the load and the swap. */
  datatype Turn = Turn(physical: nat, rivals: nat)

  /** What `tick` installs when it goes through these turns; the last one is undisturbed. */
  function TickResult(clock: nat, turns: seq<Turn>, physical: nat): (r: nat)
    ensures r > clock
    decreases |turns|
  {
    if turns == [] then TickOf(clock, physical)
    else if turns[0].rivals > clock then TickResult(turns[0].rivals, turns[1..], physical)
    else TickOf(clock, turns[0].physical)
  }

  function UpdateResult(clock: nat, received: nat, turns: seq<Turn>, physical: nat): (r: nat)
    ensures r >= clock && r >= received
    decreases |turns|
  {
    if turns == [] then UpdateOf(clock, received, physical)
    else if UpdateOf(clock, received, turns[0].physical) <= clock then clock
    else if turns[0].rivals > clock then UpdateResult(turns[0].rivals, received, turns[1..], physical)
    else UpdateOf(clock, received, turns[0].physical)
  }

  class Clock {
    var value: nat

    constructor (physical: nat)
      ensures value == physical
    {
      value := physical;
    }

    /** What other threads do to the cell. */
    method Interfere(to: nat)
      modifies this
      ensures value == Max(old(value), to)
    {
      if value < to {
        value := to;
      }
    }

    method CompareExchange(current: nat, next: nat) returns (ok: bool)
      modifies this
      ensures ok == (old(value) == current)
      ensures value == if ok then next else old(value)
    {
      ok := value == current;
      if ok {
        value := next;
      }
    }

    method Tick(turns: seq<Turn>, physical: nat) returns (now: nat)
      modifies this
      ensures value == now == TickResult(old(value), turns, physical)
    {
      var i := 0;
      while i < |turns|
        invariant 0 <= i <= |turns|
        invariant TickResult(value, turns[i..], physical) == TickResult(old(value), turns, physical)
      {
        var current := value;
        var next := TickOf(current, turns[i].physical);
        Interfere(turns[i].rivals);
        var ok := CompareExchange(current, next);
        if ok {
          return next;
        }
        assert turns[i..][1..] == turns[i + 1..];
        i := i + 1;
      }
      now := TickOf(value, physical);
      value := now;
    }

    method Update(received: nat, turns: seq<Turn>, physical: nat)
      modifies this
      ensures value >= old(value) && value >= received
      ensures value == UpdateResult(old(value), received, turns, physical)
    {
      var i := 0;
      while i < |turns|
        invariant 0 <= i <= |turns| && old(value) <= value
        invariant UpdateResult(value, received, turns[i..], physical) == UpdateResult(old(value), received, turns, physical)
      {
        var current := value;
        var next := UpdateOf(current, received, turns[i].physical);
        if next <= current {
          return;
        }
        Interfere(turns[i].rivals);
        var ok := CompareExchange(current, next);
        if ok {
          return;
        }
        assert turns[i..][1..] == turns[i + 1..];
        i := i + 1;
      }
      var next := UpdateOf(value, received, physical);
      if next > value {
        value := next;
      }
    }
  }

  // ----- physical time -----

  /** A tick is the least value above the clock that is not behind the physical time. */
  lemma TickIsLeast(clock: nat, physical: nat, v: nat)
    ensures TickOf(clock, physical) > clock && TickOf(clock, physical) >= physical
    ensures v > clock && v >= physical ==> TickOf(clock, physical) <= v
  {
  }

  /** An update is the least value that is behind none of the clock, the value received and the physical time. */
  lemma UpdateIsLeast(clock: nat, received: nat, physical: nat, v: nat)
    ensures var u := UpdateOf(clock, received, physical); u >= clock && u >= received && u >= physical
    ensures v >= clock && v >= received && v >= physical ==> UpdateOf(clock, received, physical) <= v
  {
  }

  /** Whatever other threads do, a tick is not behind a time that every reading of the physical clock has passed, and
      neither is the clock after an update. */
  lemma {:induction false} ResultsKeepTime(clock: nat, received: nat, turns: seq<Turn>, physical: nat, time: nat)
    requires time <= physical && forall t :: t in turns ==> time <= t.physical
    ensures TickResult(clock, turns, physical) >= time && UpdateResult(clock, received, turns, physical) >= time
    decreases |turns|
  {
    if turns != [] {
      assert turns[0] in turns;
      if turns[0].rivals > clock {
        ResultsKeepTime(turns[0].rivals, received, turns[1..], physical, time);
      }
    }
  }
}
