/** The round-robin ring of RPC channels behind one service name
    (scaffold/src/suiRpc.cpp, class Channels).

    A list node has an identity of its own: removing an address and inserting it
    again makes a new node. The list iterator is a node, or None for end(). */
module ChannelRing {
  import opened Base

  type Node = nat

  datatype Ring = Ring(nodes: seq<Node>, cursor: Option<Node>, addrs: map<string, Node>, next: Node)

  const EMPTY_RING := Ring([], None, map[], 0)

  ghost predicate Named(addrs: map<string, Node>, n: Node) {
    exists a :: a in addrs && addrs[a] == n
  }

  /** Every address names one list node and every node one address; the cursor
      stands on a live node, and at end() exactly when the list is empty. */
  ghost predicate Valid(r: Ring) {
    && NoDup(r.nodes)
    && (forall a :: a in r.addrs ==> r.addrs[a] in r.nodes)
    && (forall a, b :: a in r.addrs && b in r.addrs && r.addrs[a] == r.addrs[b] ==> a == b)
    && (forall n :: n in r.nodes ==> Named(r.addrs, n))
    && (forall n :: n in r.nodes ==> n < r.next)
    && (r.cursor == None <==> r.nodes == [])
    && (r.cursor.Some? ==> r.cursor.value in r.nodes)
  }

  // ------------------------------------------------ std::list, as node sequences

  function Begin(nodes: seq<Node>): Option<Node> {
    if nodes == [] then None else Some(nodes[0])
  }

  /** The iterator after x, end() after the last node. */
  function After(nodes: seq<Node>, x: Node): Option<Node>
    requires x in nodes
  {
    var i := IndexOf(nodes, x) + 1;
    if i < |nodes| then Some(nodes[i]) else None
  }

  /** end() wraps round to begin(). */
  function Wrap(nodes: seq<Node>, it: Option<Node>): Option<Node> {
    if it == None then Begin(nodes) else it
  }

  // -------------------------------------------------------------- the operations

  function Inserted(r: Ring, addr: string): Ring {
    if addr in r.addrs then r
    else
      var nodes := r.nodes + [r.next];
      Ring(nodes, Wrap(nodes, r.cursor), r.addrs[addr := r.next], r.next + 1)
  }

  function Removed(r: Ring, addr: string): Ring
    requires addr in r.addrs ==> r.addrs[addr] in r.nodes
  {
    if addr !in r.addrs then r
    else
      var x := r.addrs[addr];
      var nodes := Without(r.nodes, x);
      var cursor := if r.cursor == Some(x) then Wrap(nodes, After(r.nodes, x)) else r.cursor;
      Ring(nodes, cursor, r.addrs - {addr}, r.next)
  }

  function Selected(r: Ring): (Ring, Option<Node>)
    requires r.cursor.Some? ==> r.cursor.value in r.nodes
  {
    match r.cursor
    case None => (r, None)
    case Some(x) => (r.(cursor := Wrap(r.nodes, After(r.nodes, x))), Some(x))
  }

  /** The class itself: its fields change in place, and each method is the
      operation above on the view of those fields. */
  class Channels {
    var channels: seq<Node>
    var index: Option<Node>
    var byAddress: map<string, Node>
    var created: Node

    ghost function View(): Ring
      reads this
    {
      Ring(channels, index, byAddress, created)
    }

    constructor ()
      ensures View() == EMPTY_RING && Valid(View())
    {
      channels, index, byAddress, created := [], None, map[], 0;
    }

    method Insert(addr: string)
      requires Valid(View())
      modifies this
      ensures View() == Inserted(old(View()), addr) && Valid(View())
    {
      ghost var before := View();
      if addr in byAddress {
        return;
      }
      var channel := created;
      created := created + 1;
      channels := channels + [channel];
      byAddress := byAddress[addr := channel];
      if index == None {
        index := Begin(channels);
      }
      InsertValid(before, addr);
    }

    method Remove(addr: string)
      requires Valid(View())
      modifies this
      ensures View() == Removed(old(View()), addr) && Valid(View())
    {
      ghost var before := View();
      if addr !in byAddress {
        return;
      }
      var node := byAddress[addr];
      if index == Some(node) {
        index := After(channels, node);
        channels := Without(channels, node);
        if index == None {
          index := Begin(channels);
        }
      } else {
        channels := Without(channels, node);
      }
      byAddress := byAddress - {addr};
      RemoveValid(before, addr);
    }

    method Select() returns (channel: Option<Node>)
      requires Valid(View())
      modifies this
      ensures (View(), channel) == Selected(old(View())) && Valid(View())
    {
      ghost var before := View();
      if index == None {
        return None;
      }
      channel := index;
      index := After(channels, index.value);
      if index == None {
        index := Begin(channels);
      }
      SelectValid(before);
    }
  }

  // ------------------------------------------------------------- the ring invariant

  lemma InsertValid(r: Ring, addr: string)
    requires Valid(r)
    ensures Valid(Inserted(r, addr))
  {
    if addr !in r.addrs {
      var r' := Inserted(r, addr);
      AppendMembers(r.nodes, r.next);
      forall n | n in r'.nodes ensures Named(r'.addrs, n) {
        if n == r.next {
          assert r'.addrs[addr] == n;
        } else {
          var a :| a in r.addrs && r.addrs[a] == n;
          assert r'.addrs[a] == n;
        }
      }
    }
  }

  lemma RemoveValid(r: Ring, addr: string)
    requires Valid(r)
    ensures Valid(Removed(r, addr))
  {
    if addr in r.addrs {
      var x := r.addrs[addr];
      var r' := Removed(r, addr);
      WithoutMembers(r.nodes, x);
      forall n | n in r'.nodes ensures Named(r'.addrs, n) {
        var a :| a in r.addrs && r.addrs[a] == n;
        assert a in r'.addrs;
      }
    }
  }

  lemma SelectValid(r: Ring)
    requires Valid(r)
    ensures Valid(Selected(r).0)
  {
  }

  // ------------------------------------------------- the ring seen from its cursor

  /** Number of nodes that the cursor meets before x, going forward and wrapping. */
  ghost function Distance(r: Ring, x: Node): nat
    requires Valid(r) && x in r.nodes
  {
    Gap(r.nodes, r.cursor.value, x)
  }

  ghost function Gap(nodes: seq<Node>, cursor: Node, x: Node): nat
    requires cursor in nodes && x in nodes
  {
    var i, c := IndexOf(nodes, x), IndexOf(nodes, cursor);
    if c <= i then i - c else |nodes| - c + i
  }

  lemma DistanceInjective(r: Ring, x: Node, y: Node)
    requires Valid(r) && x in r.nodes && y in r.nodes
    ensures Distance(r, x) == Distance(r, y) <==> x == y
  {
  }

  lemma SelectDistance(r: Ring, x: Node)
    requires Valid(r) && x in r.nodes
    ensures Valid(Selected(r).0)
    ensures Selected(r).1 == Some(x) <==> Distance(r, x) == 0
    ensures Distance(Selected(r).0, x) == if Distance(r, x) == 0 then |r.nodes| - 1 else Distance(r, x) - 1
  {
    var nodes, c := r.nodes, IndexOf(r.nodes, r.cursor.value);
    var c' := if c + 1 < |nodes| then c + 1 else 0;
    IndexOfUnique(nodes, nodes[c'], c');
  }

  lemma InsertDistance(r: Ring, addr: string, x: Node)
    requires Valid(r) && x in r.nodes && addr !in r.addrs
    ensures Valid(Inserted(r, addr)) && x in Inserted(r, addr).nodes
    ensures Distance(Inserted(r, addr), x)
         == Distance(r, x) + if IndexOf(r.nodes, x) < IndexOf(r.nodes, r.cursor.value) then 1 else 0
  {
    InsertValid(r, addr);
    var nodes' := Inserted(r, addr).nodes;
    IndexOfUnique(nodes', x, IndexOf(r.nodes, x));
    IndexOfUnique(nodes', r.cursor.value, IndexOf(r.nodes, r.cursor.value));
  }

  lemma RemoveDistance(r: Ring, addr: string, x: Node)
    requires Valid(r) && x in r.nodes && addr in r.addrs && r.addrs[addr] != x
    ensures Valid(Removed(r, addr)) && x in Removed(r, addr).nodes
    ensures Distance(Removed(r, addr), x)
         == Distance(r, x) - if Distance(r, r.addrs[addr]) < Distance(r, x) then 1 else 0
  {
    RemoveValid(r, addr);
    var y, nodes := r.addrs[addr], r.nodes;
    if r.cursor != Some(y) {
      GapWithout(nodes, r.cursor.value, y, x);
    } else {
      GapErased(nodes, y, x);
    }
  }

  lemma GapWithout(nodes: seq<Node>, cursor: Node, y: Node, x: Node)
    requires NoDup(nodes) && cursor in nodes && x in nodes && y in nodes && y != x && y != cursor
    ensures cursor in Without(nodes, y) && x in Without(nodes, y)
    ensures Gap(Without(nodes, y), cursor, x)
         == Gap(nodes, cursor, x) - if Gap(nodes, cursor, y) < Gap(nodes, cursor, x) then 1 else 0
  {
    WithoutIndex(nodes, y, x);
    WithoutIndex(nodes, y, cursor);
    IndexOfUnique(nodes, x, IndexOf(nodes, x));
    hide NoDup, Without, IndexOf;
  }

  lemma GapErased(nodes: seq<Node>, y: Node, x: Node)
    requires NoDup(nodes) && x in nodes && y in nodes && y != x
    ensures var it := Wrap(Without(nodes, y), After(nodes, y));
            && x in Without(nodes, y) && it.Some? && it.value in Without(nodes, y)
            && Gap(Without(nodes, y), it.value, x) == Gap(nodes, y, x) - 1
  {
    WithoutIndex(nodes, y, x);
    CursorAfterErase(nodes, y);
    hide NoDup, Without, Wrap, After;
  }

  /** Erasing the cursor's own node leaves the cursor on the node that moved into
      its place, or on the first one if it was the last. */
  lemma CursorAfterErase(nodes: seq<Node>, y: Node)
    requires NoDup(nodes) && y in nodes && |nodes| > 1
    ensures var k, nodes' := IndexOf(nodes, y), Without(nodes, y);
            var it := Wrap(nodes', After(nodes, y));
            it.Some? && it.value in nodes' && IndexOf(nodes', it.value) == if k + 1 < |nodes| then k else 0
  {
    WithoutMembers(nodes, y);
    var k, nodes' := IndexOf(nodes, y), Without(nodes, y);
    var k' := if k + 1 < |nodes| then k else 0;
    IndexOfUnique(nodes', nodes'[k'], k');
  }

  // ---------------------------------------------------------------------- runs

  datatype Op = DoInsert(addr: string) | DoRemove(addr: string) | DoSelect

  function Apply(r: Ring, op: Op): (Ring, Option<Node>)
    requires forall a :: a in r.addrs ==> r.addrs[a] in r.nodes
    requires r.cursor.Some? ==> r.cursor.value in r.nodes
  {
    match op
    case DoInsert(addr) => (Inserted(r, addr), None)
    case DoRemove(addr) => (Removed(r, addr), None)
    case DoSelect => Selected(r)
  }

  lemma ApplyValid(r: Ring, op: Op)
    requires Valid(r)
    ensures Valid(Apply(r, op).0)
  {
    match op
    case DoInsert(addr) => InsertValid(r, addr);
    case DoRemove(addr) => RemoveValid(r, addr);
    case DoSelect => SelectValid(r);
  }

  ghost function Run(r: Ring, ops: seq<Op>): (r': Ring)
    requires Valid(r)
    ensures Valid(r')
    decreases |ops|
  {
    if ops == [] then r
    else
      ApplyValid(r, ops[0]);
      Run(Apply(r, ops[0]).0, ops[1..])
  }

  /** The channels handed out over a run, in order. */
  ghost function Picks(r: Ring, ops: seq<Op>): seq<Node>
    requires Valid(r)
    decreases |ops|
  {
    if ops == [] then []
    else
      ApplyValid(r, ops[0]);
      var (r', pick) := Apply(r, ops[0]);
      (if pick.Some? then [pick.value] else []) + Picks(r', ops[1..])
  }

  /** How often x was handed out. */
  ghost function Times(r: Ring, ops: seq<Op>, x: Node): nat
    requires Valid(r)
  {
    multiset(Picks(r, ops))[x]
  }

  /** A node that is gone stays gone: its identity is never issued again. */
  lemma {:induction false} GoneForGood(r: Ring, ops: seq<Op>, x: Node)
    requires Valid(r) && x < r.next && x !in r.nodes
    ensures x !in Run(r, ops).nodes
    decreases |ops|
  {
    if ops != [] {
      ApplyValid(r, ops[0]);
      var r' := Apply(r, ops[0]).0;
      match ops[0] {
        case DoRemove(addr) => if addr in r.addrs { WithoutMembers(r.nodes, r.addrs[addr]); }
        case _ =>
      }
      GoneForGood(r', ops[1..], x);
    }
  }

  /** One step, for a node that is live at both ends of the run: it is live in between. */
  lemma StillLive(r: Ring, ops: seq<Op>, x: Node)
    requires Valid(r) && ops != [] && x in r.nodes && x in Run(r, ops).nodes
    ensures Valid(Apply(r, ops[0]).0)
    ensures x in Apply(r, ops[0]).0.nodes
  {
    ApplyValid(r, ops[0]);
    var r' := Apply(r, ops[0]).0;
    if x !in r'.nodes {
      GoneForGood(r', ops[1..], x);
    }
  }

  // ------------------------------------------------------- fairness under churn

  /** 1 if the cursor meets a before b, else 0. */
  ghost function Lead(r: Ring, a: Node, b: Node): int
    requires Valid(r) && a in r.nodes && b in r.nodes
  {
    if Distance(r, a) < Distance(r, b) then 1 else 0
  }

  /** 1 if a step hands out x. */
  ghost function Picked(r: Ring, op: Op, x: Node): int
    requires Valid(r)
  {
    if Apply(r, op).1 == Some(x) then 1 else 0
  }

  lemma SelectLead(r: Ring, a: Node, b: Node)
    requires Valid(r) && a != b && a in r.nodes && b in r.nodes && Valid(Selected(r).0)
    ensures Lead(r, a, b) - Lead(Selected(r).0, a, b) == Picked(r, DoSelect, a) - Picked(r, DoSelect, b)
  {
    DistanceInjective(r, a, b);
    SelectDistance(r, a);
    SelectDistance(r, b);
    hide Distance;
  }

  lemma InsertLead(r: Ring, addr: string, a: Node, b: Node)
    requires Valid(r) && a != b && a in r.nodes && b in r.nodes && Valid(Inserted(r, addr))
    ensures a in Inserted(r, addr).nodes && b in Inserted(r, addr).nodes
    ensures Lead(Inserted(r, addr), a, b) == Lead(r, a, b)
  {
    if addr !in r.addrs {
      InsertDistance(r, addr, a);
      InsertDistance(r, addr, b);
    }
  }

  lemma RemoveLead(r: Ring, addr: string, a: Node, b: Node)
    requires Valid(r) && a != b && a in r.nodes && b in r.nodes
    requires Valid(Removed(r, addr)) && a in Removed(r, addr).nodes && b in Removed(r, addr).nodes
    ensures Lead(Removed(r, addr), a, b) == Lead(r, a, b)
  {
    if addr in r.addrs {
      var y := r.addrs[addr];
      WithoutMembers(r.nodes, y);
      DistanceInjective(r, a, y);
      DistanceInjective(r, b, y);
      DistanceInjective(r, a, b);
      RemoveDistance(r, addr, a);
      RemoveDistance(r, addr, b);
      hide Distance, Removed;
    }
  }

  /** One step changes the lead of a over b by exactly what it hands out. */
  lemma StepLead(r: Ring, op: Op, a: Node, b: Node)
    requires Valid(r) && a != b && a in r.nodes && b in r.nodes
    requires Valid(Apply(r, op).0) && a in Apply(r, op).0.nodes && b in Apply(r, op).0.nodes
    ensures Lead(r, a, b) - Lead(Apply(r, op).0, a, b) == Picked(r, op, a) - Picked(r, op, b)
  {
    hide Valid, Distance, Lead, Inserted, Removed, Selected;
    match op {
      case DoSelect => SelectLead(r, a, b);
      case DoInsert(addr) => InsertLead(r, addr, a, b);
      case DoRemove(addr) => RemoveLead(r, addr, a, b);
    }
  }

  lemma StepTimes(r: Ring, ops: seq<Op>, x: Node)
    requires Valid(r) && ops != [] && Valid(Apply(r, ops[0]).0)
    ensures Times(r, ops, x) == Picked(r, ops[0], x) + Times(Apply(r, ops[0]).0, ops[1..], x)
  {
    hide NoDup, Inserted, Removed, Selected;
    var (r', pick) := Apply(r, ops[0]);
    var head := if pick.Some? then [pick.value] else [];
    assert Picks(r, ops) == head + Picks(r', ops[1..]);
  }

  lemma RunStep(r: Ring, ops: seq<Op>)
    requires Valid(r) && ops != []
    ensures Valid(Apply(r, ops[0]).0) && Run(r, ops) == Run(Apply(r, ops[0]).0, ops[1..])
  {
    ApplyValid(r, ops[0]);
  }

  /** Fairness: over any run, the difference between how often two channels that
      are live throughout were handed out is exactly the change in which of the
      two the cursor meets first. */
  lemma {:induction false} FairnessUnderChurn(r: Ring, ops: seq<Op>, a: Node, b: Node)
    requires Valid(r) && a != b && a in r.nodes && b in r.nodes
    requires a in Run(r, ops).nodes && b in Run(r, ops).nodes
    ensures Times(r, ops, a) - Times(r, ops, b) == Lead(r, a, b) - Lead(Run(r, ops), a, b)
    ensures -1 <= Times(r, ops, a) - Times(r, ops, b) <= 1
    decreases |ops|
  {
    if ops != [] {
      hide Valid, Distance, Lead, Apply, Run, Times;
      RunStep(r, ops);
      StillLive(r, ops, a);
      StillLive(r, ops, b);
      StepLead(r, ops[0], a, b);
      StepTimes(r, ops, a);
      StepTimes(r, ops, b);
      FairnessUnderChurn(Apply(r, ops[0]).0, ops[1..], a, b);
      LeadRange(r, a, b);
      LeadRange(Run(r, ops), a, b);
    }
  }

  lemma LeadRange(r: Ring, a: Node, b: Node)
    requires Valid(r) && a in r.nodes && b in r.nodes
    ensures 0 <= Lead(r, a, b) <= 1
  {
  }

  // --------------------------------------------------------------- bounded waiting

  /** Number of Select calls in a run. */
  ghost function Selects(ops: seq<Op>): nat {
    if ops == [] then 0 else (if ops[0] == DoSelect then 1 else 0) + Selects(ops[1..])
  }

  /** Number of insertions in a run that really added a channel. */
  ghost function Arrivals(r: Ring, ops: seq<Op>): nat
    requires Valid(r)
    decreases |ops|
  {
    if ops == [] then 0
    else
      ApplyValid(r, ops[0]);
      (if ops[0].DoInsert? && ops[0].addr !in r.addrs then 1 else 0) + Arrivals(Apply(r, ops[0]).0, ops[1..])
  }

  /** A select lowers the distance of a waiting channel by one, a foreign removal
      never raises it, an arrival raises it by at most one. */
  lemma StepWaiting(r: Ring, op: Op, x: Node)
    requires Valid(r) && x in r.nodes && Valid(Apply(r, op).0) && x in Apply(r, op).0.nodes
    requires Picked(r, op, x) == 0
    ensures match op
            case DoSelect => Distance(Apply(r, op).0, x) == Distance(r, x) - 1
            case DoRemove(_) => Distance(Apply(r, op).0, x) <= Distance(r, x)
            case DoInsert(addr) => Distance(Apply(r, op).0, x) <= Distance(r, x) + if addr in r.addrs then 0 else 1
  {
    match op {
      case DoSelect => SelectDistance(r, x);
      case DoInsert(addr) => if addr !in r.addrs { InsertDistance(r, addr, x); }
      case DoRemove(addr) =>
        if addr in r.addrs { WithoutMembers(r.nodes, r.addrs[addr]); RemoveDistance(r, addr, x); }
    }
  }

  /** While a live channel waits, selects plus its distance never outgrow its first
      distance plus the arrivals. */
  lemma {:induction false} WaitingBudget(r: Ring, ops: seq<Op>, x: Node)
    requires Valid(r) && x in r.nodes && x in Run(r, ops).nodes
    requires x !in Picks(r, ops)
    ensures Selects(ops) + Distance(Run(r, ops), x) <= Distance(r, x) + Arrivals(r, ops)
    decreases |ops|
  {
    if ops != [] {
      RunStep(r, ops);
      StillLive(r, ops, x);
      StepTimes(r, ops, x);
      hide Valid, Distance, Apply, Run;
      StepWaiting(r, ops[0], x);
      WaitingBudget(Apply(r, ops[0]).0, ops[1..], x);
    }
  }

  /** Bounded waiting: a live channel at distance d from the cursor is handed out
      within d + 1 + arrivals selects, whatever else comes and goes. */
  lemma BoundedWaiting(r: Ring, ops: seq<Op>, x: Node)
    requires Valid(r) && x in r.nodes && x in Run(r, ops).nodes
    requires Selects(ops) >= Distance(r, x) + 1 + Arrivals(r, ops)
    ensures x in Picks(r, ops)
  {
    if x !in Picks(r, ops) {
      WaitingBudget(r, ops, x);
    }
  }

  // ------------------------------------------------ what is handed out, and from what

  /** A selection hands out a channel exactly when there is one, and then a live one. */
  lemma SelectsLive(r: Ring)
    requires Valid(r)
    ensures Selected(r).1.Some? <==> r.nodes != []
    ensures Selected(r).1.Some? ==> Selected(r).1.value in r.nodes
    ensures Selected(r).0.nodes == r.nodes && Selected(r).0.addrs == r.addrs
  {
  }

  /** What one operation hands out. */
  ghost function PickOf(r: Ring, op: Op): seq<Node>
    requires Valid(r)
  {
    if Apply(r, op).1.Some? then [Apply(r, op).1.value] else []
  }

  lemma PicksStep(r: Ring, ops: seq<Op>)
    requires Valid(r) && ops != []
    ensures Valid(Apply(r, ops[0]).0)
    ensures Picks(r, ops) == PickOf(r, ops[0]) + Picks(Apply(r, ops[0]).0, ops[1..])
  {
    hide Inserted, Removed, Selected;
    ApplyValid(r, ops[0]);
  }

  lemma NoOps(r: Ring)
    requires Valid(r)
    ensures Run(r, []) == r && Picks(r, []) == []
  {
  }

  lemma {:induction false} RunSplit(r: Ring, before: seq<Op>, after: seq<Op>)
    requires Valid(r)
    ensures Run(r, before + after) == Run(Run(r, before), after)
    ensures Picks(r, before + after) == Picks(r, before) + Picks(Run(r, before), after)
    decreases |before|
  {
    hide Apply, Run, Picks, PickOf, NoDup, Named;
    if before == [] {
      NoOps(r);
      assert before + after == after;
    } else {
      RunStep(r, before);
      RunStep(r, before + after);
      PicksStep(r, before);
      PicksStep(r, before + after);
      assert (before + after)[1..] == before[1..] + after;
      RunSplit(Apply(r, before[0]).0, before[1..], after);
    }
  }

  /** Over any run: the operation at a given point hands out a channel if and only if it is a
      selection and there are channels at that point, and what it hands out is one of them. */
  lemma PickedWhenLive(r: Ring, ops: seq<Op>, k: nat)
    requires Valid(r) && k < |ops|
    ensures var now := Run(r, ops[..k]);
            var pick := Apply(now, ops[k]).1;
            && (pick.Some? <==> ops[k] == DoSelect && now.nodes != [])
            && (pick.Some? ==> pick.value in now.nodes)
            && Picks(r, ops)
               == Picks(r, ops[..k]) + (if pick.Some? then [pick.value] else [])
                  + Picks(Run(r, ops[..k + 1]), ops[k + 1..])
  {
    hide Valid, Run, Picks;
    var now := Run(r, ops[..k]);
    SelectsLive(now);
    OneOp(now, ops[k]);
    assert ops[..k + 1] == ops[..k] + [ops[k]];
    assert ops == ops[..k + 1] + ops[k + 1..];
    RunSplit(r, ops[..k], [ops[k]]);
    RunSplit(r, ops[..k + 1], ops[k + 1..]);
  }

  lemma OneOp(r: Ring, op: Op)
    requires Valid(r)
    ensures Run(r, [op]) == Apply(r, op).0 && Picks(r, [op]) == PickOf(r, op)
  {
    hide Apply, PickOf, NoDup, Named;
    RunStep(r, [op]);
    PicksStep(r, [op]);
    NoOps(Apply(r, op).0);
    assert [op][1..] == [];
  }

  /** What the last operation about an address was: an insertion, or a removal or nothing. */
  predicate LastInserted(ops: seq<Op>, addr: string)
    decreases |ops|
  {
    ops != [] &&
    match ops[|ops| - 1]
    case DoInsert(a) => a == addr || LastInserted(ops[..|ops| - 1], addr)
    case DoRemove(a) => a != addr && LastInserted(ops[..|ops| - 1], addr)
    case DoSelect => LastInserted(ops[..|ops| - 1], addr)
  }

  /** Over any run from the empty ring, the ring has a channel for exactly the addresses whose
      last insertion or removal was an insertion. */
  lemma {:induction false} AddressesByHistory(ops: seq<Op>, addr: string)
    ensures Valid(EMPTY_RING)
    ensures addr in Run(EMPTY_RING, ops).addrs <==> LastInserted(ops, addr)
    decreases |ops|
  {
    hide Valid, Apply;
    EmptyRingValid();
    if ops != [] {
      var init, op := ops[..|ops| - 1], ops[|ops| - 1];
      AddressesByHistory(init, addr);
      assert ops == init + [op];
      RunSplit(EMPTY_RING, init, [op]);
      OneOp(Run(EMPTY_RING, init), op);
      AddressStep(Run(EMPTY_RING, init), op, addr);
    }
  }

  lemma EmptyRingValid()
    ensures Valid(EMPTY_RING)
  {
  }

  lemma AddressStep(r: Ring, op: Op, addr: string)
    requires Valid(r)
    ensures addr in Apply(r, op).0.addrs
            <==> match op
                 case DoInsert(a) => a == addr || addr in r.addrs
                 case DoRemove(a) => a != addr && addr in r.addrs
                 case DoSelect => addr in r.addrs
  {
  }
}
