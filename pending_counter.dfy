/** The pending-action counter as a trace of write events. Each dispatched write
    raises the count by one and is later settled exactly once, on success or on
    failure, lowering it by one. A write whose reference the library refuses
    synchronously raises the count but never settles: that raise is never undone. */
module PendingCounter {
  import opened Sequences

  /** `count` is `pendingActions`; `outstanding` are the writes not yet settled,
      named by the token the model gives each dispatch; `next` is the next such
      token; `leaked` counts the raises that no settlement will undo. */
  datatype CounterState = CounterState(count: nat, outstanding: set<nat>, next: nat, leaked: nat)

  /** The count is exactly the unsettled writes plus the leaked raises. */
  predicate Balanced(c: CounterState)
  {
    && c.count == |c.outstanding| + c.leaked
    && forall t :: t in c.outstanding ==> t < c.next
  }

  const Initial: CounterState := CounterState(0, {}, 0, 0)

  datatype WriteEvent =
    | Dispatched                         // `pendingActions++`, the write handed to the library
    | DispatchThrew                      // `pendingActions++`, then resolving the reference threw
    | Settled(token: nat, succeeded: bool) // `.then` or `.catch` ran: `pendingActions--`

  function Step(c: CounterState, e: WriteEvent): (c': CounterState)
    requires Balanced(c)
    ensures Balanced(c')
  {
    match e
    case Dispatched => CounterState(c.count + 1, c.outstanding + {c.next}, c.next + 1, c.leaked)
    case DispatchThrew => CounterState(c.count + 1, c.outstanding, c.next, c.leaked + 1)
    case Settled(t, _) =>
      // a promise settles once; a token that is not outstanding changes nothing
      if t in c.outstanding then CounterState(c.count - 1, c.outstanding - {t}, c.next, c.leaked) else c
  }

  function Run(c: CounterState, evs: seq<WriteEvent>): (c': CounterState)
    requires Balanced(c)
    ensures Balanced(c')
    decreases |evs|
  {
    if evs == [] then c else Run(Step(c, evs[0]), evs[1..])
  }

  lemma {:induction false} RunAppend(c: CounterState, a: seq<WriteEvent>, b: seq<WriteEvent>)
    requires Balanced(c)
    ensures Run(c, a + b) == Run(Run(c, a), b)
    decreases |a|
  {
    if a == [] {
      assert a + b == b;
    } else {
      assert (a + b)[0] == a[0] && (a + b)[1..] == a[1..] + b;
      RunAppend(Step(c, a[0]), a[1..], b);
      assert Run(c, a + b) == Run(Step(c, a[0]), a[1..] + b);
    }
  }

  function Dispatches(n: nat): (evs: seq<WriteEvent>)
  {
    if n == 0 then [] else [Dispatched] + Dispatches(n - 1)
  }

  function Settlements(tokens: seq<nat>, outcomes: seq<bool>): (evs: seq<WriteEvent>)
    requires |tokens| == |outcomes|
  {
    seq(|tokens|, i requires 0 <= i < |tokens| => Settled(tokens[i], outcomes[i]))
  }

  /** `n` dispatches raise the count by `n` and leave the next `n` tokens outstanding. */
  lemma {:induction false} DispatchesEffect(c: CounterState, n: nat)
    requires Balanced(c)
    ensures var r := Run(c, Dispatches(n));
      && r.count == c.count + n && r.next == c.next + n && r.leaked == c.leaked
      && forall t :: t in r.outstanding <==> t in c.outstanding || c.next <= t < c.next + n
    decreases n
  {
    if n > 0 {
      var c1 := Step(c, Dispatched);
      var evs := Dispatches(n);
      assert evs[0] == Dispatched && evs[1..] == Dispatches(n - 1);
      assert Run(c, evs) == Run(c1, Dispatches(n - 1));
      DispatchesEffect(c1, n - 1);
    }
  }

  /** Settling outstanding writes, each once, lowers the count by their number,
      whichever of them succeed and whichever fail. */
  lemma {:induction false} SettlementsEffect(c: CounterState, tokens: seq<nat>, outcomes: seq<bool>)
    requires Balanced(c)
    requires |tokens| == |outcomes|
    requires NoDup(tokens)
    requires forall t :: t in tokens ==> t in c.outstanding
    ensures |tokens| <= c.count
    ensures Run(c, Settlements(tokens, outcomes)) == CounterState(c.count - |tokens|, c.outstanding - (set t | t in tokens), c.next, c.leaked)
    decreases |tokens|
  {
    var evs := Settlements(tokens, outcomes);
    if tokens == [] {
      assert evs == [];
    } else {
      var c1 := Step(c, evs[0]);
      assert evs[0] == Settled(tokens[0], outcomes[0]);
      assert evs[1..] == Settlements(tokens[1..], outcomes[1..]);
      forall t | t in tokens[1..] ensures t in c1.outstanding {
        NoDupTail(tokens, t);
      }
      NoDupSuffix(tokens);
      SettlementsEffect(c1, tokens[1..], outcomes[1..]);
      assert c1.outstanding - (set t | t in tokens[1..]) == c.outstanding - (set t | t in tokens);
    }
  }

  /** Dispatching `n` writes and then settling all of them, in any order and with
      any mix of success and failure, returns the count to its value before. */
  lemma WritesSettleRestoreCount(c: CounterState, n: nat, tokens: seq<nat>, outcomes: seq<bool>)
    requires Balanced(c)
    requires |tokens| == n && |outcomes| == n && NoDup(tokens)
    requires forall t :: t in tokens <==> c.next <= t < c.next + n
    ensures Run(c, Dispatches(n) + Settlements(tokens, outcomes)).count == c.count
    ensures Run(c, Dispatches(n) + Settlements(tokens, outcomes)).outstanding == c.outstanding
  {
    var mid := Run(c, Dispatches(n));
    RunAppend(c, Dispatches(n), Settlements(tokens, outcomes));
    DispatchesEffect(c, n);
    assert forall t :: t in tokens ==> t in mid.outstanding;
    SettlementsEffect(mid, tokens, outcomes);
    assert mid.outstanding - (set t | t in tokens) == c.outstanding;
  }

  function Throws(evs: seq<WriteEvent>): nat
  {
    if evs == [] then 0 else (if evs[0].DispatchThrew? then 1 else 0) + Throws(evs[1..])
  }

  /** A raise whose write threw before it was handed to the library is never
      undone: whatever happens afterwards, the count stays at or above the
      number of such raises. */
  lemma {:induction false} LeakIsPermanent(c: CounterState, evs: seq<WriteEvent>)
    requires Balanced(c)
    ensures Run(c, evs).leaked == c.leaked + Throws(evs)
    ensures Run(c, evs).count >= c.leaked + Throws(evs)
    decreases |evs|
  {
    if evs != [] {
      LeakIsPermanent(Step(c, evs[0]), evs[1..]);
    }
  }
}
