/** The registry of rings by service name (scaffold/src/suiRpc.cpp, class
    svcChannels), once as the class it is and once as a system of threads that
    take its two locks step by step. */
module ChannelRegistry {
  import opened Base
  import opened ChannelRing

  // ------------------------------------------- the atomic registry: names to rings

  datatype Call = Watch(name: string) | Add(name: string, addr: string)
      | Del(name: string, addr: string) | Get(name: string)

  type Registry = map<string, Ring>

  ghost predicate AllValid(m: Registry) {
    forall n :: n in m ==> ChannelRing.Valid(m[n])
  }

  /** What one call does to the registry, and the channel it returns. */
  ghost function Atomic(m: Registry, call: Call): (Registry, Option<Node>)
    requires AllValid(m)
  {
    match call
    case Watch(name) => (if name in m then m else m[name := EMPTY_RING], None)
    case Add(name, addr) => (if name in m then m[name := Inserted(m[name], addr)] else m, None)
    case Del(name, addr) => (if name in m then m[name := Removed(m[name], addr)] else m, None)
    case Get(name) => if name in m then var (ring, pick) := Selected(m[name]); (m[name := ring], pick) else (m, None)
  }

  class SvcChannels {
    var channels: map<string, Channels>

    ghost predicate Valid()
      reads this, channels.Values
    {
      && (forall a, b :: a in channels && b in channels && a != b ==> channels[a] != channels[b])
      && (forall n :: n in channels ==> ChannelRing.Valid(channels[n].View()))
    }

    ghost function View(): (m: Registry)
      requires Valid()
      reads this, channels.Values
      ensures AllValid(m)
    {
      map n | n in channels :: channels[n].View()
    }

    constructor ()
      ensures Valid() && View() == map[]
    {
      channels := map[];
    }

    method SetWatch(name: string)
      requires Valid()
      modifies this
      ensures Valid() && View() == Atomic(old(View()), Watch(name)).0
    {
      hide ChannelRing.Valid;
      if name in channels {
        return;
      }
      ghost var before, watched := View(), channels;
      var channel := new Channels();
      channels := channels[name := channel];
      assert forall n :: n in watched ==> channels[n] == watched[n] && channels[n] != channel;
      assert channel.View() == EMPTY_RING && ChannelRing.Valid(EMPTY_RING);
      assert forall n :: n in watched ==> channels[n].View() == before[n];
      assert Valid();
      assert View() == before[name := EMPTY_RING];
    }

    method AddNode(name: string, addr: string)
      requires Valid()
      modifies channels.Values
      ensures Valid() && View() == Atomic(old(View()), Add(name, addr)).0
    {
      hide ChannelRing.Valid;
      if name !in channels {
        return;
      }
      var channel := channels[name];
      channel.Insert(addr);
      assert forall n :: n in channels && n != name ==> channels[n].View() == old(channels[n].View());
    }

    method DelNode(name: string, addr: string)
      requires Valid()
      modifies channels.Values
      ensures Valid() && View() == Atomic(old(View()), Del(name, addr)).0
    {
      hide ChannelRing.Valid;
      if name !in channels {
        return;
      }
      var channel := channels[name];
      channel.Remove(addr);
      assert forall n :: n in channels && n != name ==> channels[n].View() == old(channels[n].View());
    }

    method GetNode(name: string) returns (pick: Option<Node>)
      requires Valid()
      modifies channels.Values
      ensures Valid() && (View(), pick) == Atomic(old(View()), Get(name))
    {
      hide ChannelRing.Valid;
      if name !in channels {
        return None;
      }
      var channel := channels[name];
      pick := channel.Select();
      assert forall n :: n in channels && n != name ==> channels[n].View() == old(channels[n].View());
      assert View() == Atomic(old(View()), Get(name)).0;
    }
  }

  // ---------------------------------------------- threads and their two locks

  type Tid = nat
  type Handle = nat  // one ring, as the registry shares it

  datatype Phase =
    | Idle
    | Waiting(call: Call)                   // wants the registry lock
    | Inside(call: Call)                    // holds the registry lock
    | Holding(call: Call, ring: Handle)     // add, del: registry lock dropped, wants the ring's lock
    | Editing(call: Call, ring: Handle)     // add, del: holds the ring's lock
    | Queued(call: Call, ring: Handle)      // get: holds the registry lock, wants the ring's lock
    | Picking(call: Call, ring: Handle)     // get: holds both

  datatype State = State(
    names: map<string, Handle>,
    rings: seq<Ring>,
    outer: Option<Tid>,
    inner: map<Handle, Tid>,
    phases: map<Tid, Phase>)

  datatype Event = Invoke(t: Tid, call: Call) | Advance(t: Tid)

  /** A call that took effect, with what it returned. */
  datatype Effect = Effect(call: Call, response: Option<Node>)

  const START := State(map[], [], None, map[], map[])

  function PhaseOf(s: State, t: Tid): Phase {
    if t in s.phases then s.phases[t] else Idle
  }

  function To(s: State, t: Tid, p: Phase): State {
    s.(phases := s.phases[t := p])
  }

  predicate Enabled(s: State, e: Event) {
    match e
    case Invoke(t, _) => PhaseOf(s, t) == Idle
    case Advance(t) =>
      match PhaseOf(s, t)
      case Idle => false
      case Waiting(_) => s.outer == None
      case Inside(_) => true
      case Holding(_, h) => h !in s.inner
      case Editing(_, _) => true
      case Queued(_, h) => h !in s.inner
      case Picking(_, _) => true
  }

  /** One step of a thread, with the call that took effect in it, if any. */
  ghost function Step(s: State, e: Event): (State, Option<Effect>)
    requires Inv(s) && Enabled(s, e)
  {
    match e
    case Invoke(t, call) => (To(s, t, Waiting(call)), None)
    case Advance(t) =>
      assert PhaseInv(s, t);
      match PhaseOf(s, t)
      case Waiting(call) => (To(s, t, Inside(call)).(outer := Some(t)), None)
      case Inside(call) =>
        if call.Watch? then
          var s' := To(s, t, Idle).(outer := None);
          (if call.name in s.names then s'
           else s'.(names := s.names[call.name := |s.rings|], rings := s.rings + [EMPTY_RING]),
           Some(Effect(call, None)))
        else if call.name !in s.names then (To(s, t, Idle).(outer := None), Some(Effect(call, None)))
        else if call.Get? then (To(s, t, Queued(call, s.names[call.name])), None)
        else (To(s, t, Holding(call, s.names[call.name])).(outer := None), None)
      case Holding(call, h) => (To(s, t, Editing(call, h)).(inner := s.inner[h := t]), None)
      case Editing(call, h) =>
        var ring := if call.Add? then Inserted(s.rings[h], call.addr) else Removed(s.rings[h], call.addr);
        (To(s, t, Idle).(inner := s.inner - {h}, rings := s.rings[h := ring]), Some(Effect(call, None)))
      case Queued(call, h) => (To(s, t, Picking(call, h)).(inner := s.inner[h := t]), None)
      case Picking(call, h) =>
        var (ring, pick) := Selected(s.rings[h]);
        (To(s, t, Idle).(outer := None, inner := s.inner - {h}, rings := s.rings[h := ring]), Some(Effect(call, pick)))
  }

  // -------------------------------------------------------------- the invariant

  ghost predicate PhaseInv(s: State, t: Tid) {
    match PhaseOf(s, t)
    case Holding(call, h) => (call.Add? || call.Del?) && call.name in s.names && s.names[call.name] == h
    case Editing(call, h) => (call.Add? || call.Del?) && call.name in s.names && s.names[call.name] == h
    case Queued(call, h) => call.Get? && call.name in s.names && s.names[call.name] == h
    case Picking(call, h) => call.Get? && call.name in s.names && s.names[call.name] == h
    case _ => true
  }

  predicate HoldsOuter(p: Phase) {
    p.Inside? || p.Queued? || p.Picking?
  }

  predicate HoldsInner(p: Phase, h: Handle) {
    (p.Editing? || p.Picking?) && p.ring == h
  }

  ghost predicate RingsInv(s: State) {
    && (forall n :: n in s.names ==> s.names[n] < |s.rings|)
    && (forall m, n :: m in s.names && n in s.names && s.names[m] == s.names[n] ==> m == n)
    && (forall h :: 0 <= h < |s.rings| ==> ChannelRing.Valid(s.rings[h]))
  }

  ghost predicate OuterInv(s: State) {
    forall t: Tid :: s.outer == Some(t) <==> HoldsOuter(PhaseOf(s, t))
  }

  ghost predicate InnerInv(s: State) {
    forall t: Tid, h: Handle :: (h in s.inner && s.inner[h] == t) <==> HoldsInner(PhaseOf(s, t), h)
  }

  /** A handle captured under the registry lock stays the ring of its name, for
      names are neither removed nor rebound; each lock has the holder it records. */
  ghost predicate Inv(s: State) {
    RingsInv(s) && OuterInv(s) && InnerInv(s) && forall t: Tid :: PhaseInv(s, t)
  }

  ghost function View(s: State): Registry
    requires Inv(s)
  {
    map n | n in s.names :: s.rings[s.names[n]]
  }

  lemma StepPhases(s: State, e: Event)
    requires Inv(s) && Enabled(s, e)
    ensures forall u: Tid :: u != e.t ==> PhaseOf(Step(s, e).0, u) == PhaseOf(s, u)
    ensures forall n :: n in s.names ==> n in Step(s, e).0.names && Step(s, e).0.names[n] == s.names[n]
  {
    hide ChannelRing.Valid, Inserted, Removed, Selected, OuterInv, InnerInv;
  }

  lemma EmptyValid()
    ensures ChannelRing.Valid(EMPTY_RING)
  {
  }

  lemma StepRings(s: State, e: Event)
    requires Inv(s) && Enabled(s, e)
    ensures RingsInv(Step(s, e).0)
  {
    hide ChannelRing.Valid, OuterInv, InnerInv, Inserted, Removed, Selected;
    var p := PhaseOf(s, e.t);
    assert PhaseInv(s, e.t);
    EmptyValid();
    if e.Advance? && (p.Editing? || p.Picking?) {
      var ring := s.rings[p.ring];
      match p.call {
        case Add(_, addr) => InsertValid(ring, addr);
        case Del(_, addr) => RemoveValid(ring, addr);
        case Get(_) => SelectValid(ring);
        case Watch(_) =>
      }
    }
  }

  lemma StepOuter(s: State, e: Event)
    requires Inv(s) && Enabled(s, e)
    ensures OuterInv(Step(s, e).0)
  {
    hide ChannelRing.Valid, Inserted, Removed, Selected, InnerInv, RingsInv;
    StepPhases(s, e);
    assert HoldsOuter(PhaseOf(s, e.t)) <==> s.outer == Some(e.t);
  }

  lemma InnerAt(s: State, e: Event, u: Tid, h: Handle)
    requires Inv(s) && Enabled(s, e)
    ensures var s' := Step(s, e).0;
            (h in s'.inner && s'.inner[h] == u) <==> HoldsInner(PhaseOf(s', u), h)
  {
    hide ChannelRing.Valid, Inserted, Removed, Selected, OuterInv, RingsInv;
    StepPhases(s, e);
    assert (h in s.inner && s.inner[h] == u) <==> HoldsInner(PhaseOf(s, u), h);
    assert (h in s.inner && s.inner[h] == e.t) <==> HoldsInner(PhaseOf(s, e.t), h);
  }

  lemma StepInner(s: State, e: Event)
    requires Inv(s) && Enabled(s, e)
    ensures InnerInv(Step(s, e).0)
  {
    hide Inv, Enabled, Step, HoldsInner, PhaseOf;
    var s' := Step(s, e).0;
    forall u: Tid, h: Handle
      ensures (h in s'.inner && s'.inner[h] == u) <==> HoldsInner(PhaseOf(s', u), h)
    {
      InnerAt(s, e, u, h);
    }
  }

  lemma StepInv(s: State, e: Event)
    requires Inv(s) && Enabled(s, e)
    ensures Inv(Step(s, e).0)
  {
    hide ChannelRing.Valid, Inserted, Removed, Selected, RingsInv, OuterInv, InnerInv;
    StepPhases(s, e);
    StepRings(s, e);
    StepOuter(s, e);
    StepInner(s, e);
    var s' := Step(s, e).0;
    forall u: Tid ensures PhaseInv(s', u) {
      assert PhaseInv(s, u);
    }
  }

  /** A ring replaced under its handle is replaced under its one name. */
  lemma ViewEdit(s: State, s': State, name: string, ring: Ring)
    requires Inv(s) && Inv(s') && name in s.names && s'.names == s.names
    requires s'.rings == s.rings[s.names[name] := ring]
    ensures View(s') == View(s)[name := ring]
  {
    hide ChannelRing.Valid;
  }

  ghost predicate Refines(s: State, s': State, t: Tid, effect: Option<Effect>)
    requires Inv(s) && Inv(s')
  {
    ViewValid(s);
    match effect
    case None => View(s') == View(s) && PhaseOf(s', t) != Idle
    case Some(done) =>
      && PhaseOf(s, t) != Idle && PhaseOf(s, t).call == done.call && PhaseOf(s', t) == Idle
      && (View(s'), done.response) == Atomic(View(s), done.call)
  }

  lemma ViewValid(s: State)
    requires Inv(s)
    ensures AllValid(View(s))
  {
  }

  /** A watched name gets a ring of its own. */
  lemma ViewWatch(s: State, s': State, name: string)
    requires Inv(s) && Inv(s') && name !in s.names
    requires s'.names == s.names[name := |s.rings|] && s'.rings == s.rings + [EMPTY_RING]
    ensures View(s') == View(s)[name := EMPTY_RING]
  {
    hide ChannelRing.Valid;
  }

  lemma ViewSame(s: State, s': State)
    requires Inv(s) && Inv(s') && s'.names == s.names && s'.rings == s.rings
    ensures View(s') == View(s)
  {
  }

  lemma ViewAt(s: State, name: string)
    requires Inv(s)
    ensures name in View(s) <==> name in s.names
    ensures name in s.names ==> View(s)[name] == s.rings[s.names[name]]
  {
  }

  lemma EditRefines(s: State, t: Tid)
    requires Inv(s) && (PhaseOf(s, t).Editing? || PhaseOf(s, t).Picking?)
    requires Inv(Step(s, Advance(t)).0)
    ensures Refines(s, Step(s, Advance(t)).0, t, Step(s, Advance(t)).1)
  {
    hide ChannelRing.Valid, OuterInv, InnerInv, View, AllValid, Inserted, Removed, Selected;
    ViewValid(s);
    assert PhaseInv(s, t);
    var p, s' := PhaseOf(s, t), Step(s, Advance(t)).0;
    ViewAt(s, p.call.name);
    ViewEdit(s, s', p.call.name, s'.rings[p.ring]);
  }

  lemma InsideRefines(s: State, t: Tid)
    requires Inv(s) && PhaseOf(s, t).Inside?
    requires Inv(Step(s, Advance(t)).0)
    ensures Refines(s, Step(s, Advance(t)).0, t, Step(s, Advance(t)).1)
  {
    ViewValid(s);
    var p, s' := PhaseOf(s, t), Step(s, Advance(t)).0;
    if p.call.Watch? && p.call.name !in s.names {
      ViewWatch(s, s', p.call.name);
    } else {
      ViewSame(s, s');
    }
    ViewAt(s, p.call.name);
    hide ChannelRing.Valid, OuterInv, InnerInv, View, AllValid;
  }

  /** Each step is either invisible or one whole call on the atomic registry, with
      the atomic registry's answer; it is a call just when its thread returns. */
  lemma StepRefines(s: State, e: Event)
    requires Inv(s) && Enabled(s, e)
    ensures Inv(Step(s, e).0)
    ensures Refines(s, Step(s, e).0, e.t, Step(s, e).1)
  {
    StepInv(s, e);
    var p := PhaseOf(s, e.t);
    if e.Advance? && (p.Editing? || p.Picking?) {
      EditRefines(s, e.t);
    } else if e.Advance? && p.Inside? {
      InsideRefines(s, e.t);
    } else {
      ViewSame(s, Step(s, e).0);
    }
  }

  // ------------------------------------------------------------------- whole runs

  ghost predicate Executable(s: State, events: seq<Event>)
    requires Inv(s)
    decreases |events|
  {
    events == [] || (Enabled(s, events[0]) && (StepInv(s, events[0]); Executable(Step(s, events[0]).0, events[1..])))
  }

  ghost function Run(s: State, events: seq<Event>): (s': State)
    requires Inv(s) && Executable(s, events)
    ensures Inv(s')
    decreases |events|
  {
    if events == [] then s else StepInv(s, events[0]); Run(Step(s, events[0]).0, events[1..])
  }

  /** The calls of a run in the order in which they took effect. */
  ghost function History(s: State, events: seq<Event>): seq<Effect>
    requires Inv(s) && Executable(s, events)
    decreases |events|
  {
    if events == [] then []
    else
      StepInv(s, events[0]);
      var (s', effect) := Step(s, events[0]);
      (if effect.Some? then [effect.value] else []) + History(s', events[1..])
  }

  /** A sequential history of the atomic registry, from m to m'. */
  ghost predicate Sequential(m: Registry, history: seq<Effect>, m': Registry)
    decreases |history|
  {
    AllValid(m) &&
    if history == [] then m == m'
    else
      var (next, response) := Atomic(m, history[0].call);
      response == history[0].response && Sequential(next, history[1..], m')
  }

  /** Linearizability: whatever the interleaving of the threads' locking steps,
      the calls in the order of their effects are a sequential history of the
      atomic registry with the same answers and the same final rings. */
  lemma {:induction false} Linearizable(s: State, events: seq<Event>)
    requires Inv(s) && Executable(s, events)
    ensures Sequential(View(s), History(s, events), View(Run(s, events)))
    decreases |events|
  {
    hide ChannelRing.Valid, RingsInv, OuterInv, InnerInv;
    ViewValid(s);
    if events != [] {
      StepRefines(s, events[0]);
      var (s', effect) := Step(s, events[0]);
      Linearizable(s', events[1..]);
      if effect.Some? {
        assert History(s, events)[1..] == History(s', events[1..]);
      } else {
        assert History(s, events) == History(s', events[1..]);
      }
    }
  }

  lemma StartInv()
    ensures Inv(START) && View(START) == map[]
  {
  }

  /** No deadlock: while some thread is inside a call, some thread can move. */
  lemma NoDeadlock(s: State, t: Tid) returns (u: Tid)
    requires Inv(s) && PhaseOf(s, t) != Idle
    ensures Enabled(s, Advance(u))
  {
    if h :| h in s.inner {
      u := s.inner[h];
      assert HoldsInner(PhaseOf(s, u), h);
    } else if s.outer.Some? {
      u := s.outer.value;
      assert HoldsOuter(PhaseOf(s, u));
    } else {
      u := t;
      assert !HoldsOuter(PhaseOf(s, t));
    }
  }

  // ------------------------------------------------ what the rings of a registry are

  /** A get answers a channel if and only if its name is watched and has channels, and then
      a live one of its own ring. */
  lemma GetAnswers(m: Registry, name: string)
    requires AllValid(m)
    ensures var response := Atomic(m, Get(name)).1;
            && (response.Some? <==> name in m && m[name].nodes != [])
            && (response.Some? ==> response.value in m[name].nodes)
  {
    hide ChannelRing.Valid;
    if name in m {
      SelectsLive(m[name]);
    }
  }

  /** In every interleaving: when a get takes effect, its answer is a channel of its name's
      ring at that moment, and there is none only if the name is unwatched or has none. */
  lemma GetTakesEffect(s: State, e: Event, name: string, response: Option<Node>)
    requires Inv(s) && Enabled(s, e) && Step(s, e).1 == Some(Effect(Get(name), response))
    ensures response.Some? <==> name in View(s) && View(s)[name].nodes != []
    ensures response.Some? ==> response.value in View(s)[name].nodes
  {
    hide ChannelRing.Valid, Step, Enabled, Inv, View, Atomic;
    StepRefines(s, e);
    ViewValid(s);
    GetAnswers(View(s), name);
  }

  /** What a call does to the ring of a watched name. */
  function OpOn(call: Call, name: string): seq<Op> {
    match call
    case Watch(_) => []
    case Add(n, addr) => if n == name then [DoInsert(addr)] else []
    case Del(n, addr) => if n == name then [DoRemove(addr)] else []
    case Get(n) => if n == name then [DoSelect] else []
  }

  /** The operations of a history on the ring of a name, once it is watched. */
  function OnRing(history: seq<Effect>, name: string): seq<Op> {
    if history == [] then [] else OpOn(history[0].call, name) + OnRing(history[1..], name)
  }

  /** The part of a history after the first watch of a name, if there is one. */
  function SinceWatch(history: seq<Effect>, name: string): Option<seq<Effect>> {
    if history == [] then None
    else if history[0].call == Watch(name) then Some(history[1..])
    else SinceWatch(history[1..], name)
  }

  function AnswerOf(effect: Effect, name: string): seq<Node> {
    if effect.call == Get(name) && effect.response.Some? then [effect.response.value] else []
  }

  /** The channels answered to the gets of a name. */
  function Answered(history: seq<Effect>, name: string): seq<Node> {
    if history == [] then [] else AnswerOf(history[0], name) + Answered(history[1..], name)
  }

  /** One call, on one watched name. */
  lemma AtomicRing(m: Registry, call: Call, name: string)
    requires AllValid(m) && name in m
    ensures var (m', response) := Atomic(m, call);
            && AllValid(m') && name in m' && m'[name] == ChannelRing.Run(m[name], OpOn(call, name))
            && AnswerOf(Effect(call, response), name) == Picks(m[name], OpOn(call, name))
  {
    hide ChannelRing.Valid, ChannelRing.Run, Picks, Inserted, Removed, Selected;
    AtomicValid(m, call);
    NoOps(m[name]);
    if OpOn(call, name) != [] {
      OneOp(m[name], OpOn(call, name)[0]);
    }
  }

  lemma AtomicValid(m: Registry, call: Call)
    requires AllValid(m)
    ensures AllValid(Atomic(m, call).0)
  {
    hide ChannelRing.Valid;
    EmptyValid();
    match call {
      case Watch(_) =>
      case Add(n, addr) => if n in m { InsertValid(m[n], addr); }
      case Del(n, addr) => if n in m { RemoveValid(m[n], addr); }
      case Get(n) => if n in m { SelectValid(m[n]); }
    }
  }

  /** The ring of a watched name after a history, and what its gets were answered. */
  lemma {:induction false} RingByHistory(m: Registry, history: seq<Effect>, m': Registry, name: string)
    requires Sequential(m, history, m') && name in m
    ensures ChannelRing.Valid(m[name])
    ensures name in m' && m'[name] == ChannelRing.Run(m[name], OnRing(history, name))
    ensures Answered(history, name) == Picks(m[name], OnRing(history, name))
    decreases |history|
  {
    hide ChannelRing.Valid, Atomic, ChannelRing.Run, Picks;
    if history == [] {
      NoOps(m[name]);
    } else {
      AtomicRing(m, history[0].call, name);
      RingByHistory(Atomic(m, history[0].call).0, history[1..], m', name);
      assert history[0] == Effect(history[0].call, Atomic(m, history[0].call).1);
      RunSplit(m[name], OpOn(history[0].call, name), OnRing(history[1..], name));
    }
  }

  /** A name that is not watched stays so, and its gets unanswered, until its first watch;
      from then on its ring is what its own operations make of an empty one. */
  lemma {:induction false} RegistryByHistory(m: Registry, history: seq<Effect>, m': Registry, name: string)
    requires Sequential(m, history, m') && name !in m
    ensures ChannelRing.Valid(EMPTY_RING)
    ensures match SinceWatch(history, name)
            case None => name !in m' && Answered(history, name) == []
            case Some(rest) =>
              && name in m' && m'[name] == ChannelRing.Run(EMPTY_RING, OnRing(rest, name))
              && Answered(history, name) == Picks(EMPTY_RING, OnRing(rest, name))
    decreases |history|
  {
    hide ChannelRing.Valid, ChannelRing.Run, Picks;
    EmptyValid();
    if history != [] {
      AtomicValid(m, history[0].call);
      if history[0].call == Watch(name) {
        RingByHistory(Atomic(m, history[0].call).0, history[1..], m', name);
      } else {
        RegistryByHistory(Atomic(m, history[0].call).0, history[1..], m', name);
      }
    }
  }

  /** For all interleavings of the threads from the start: every name's ring is what the calls
      on it, in the order of their effects since its first watch, make of an empty ring, and
      those of its gets that were answered were answered with that ring's picks. */
  lemma RingsOfInterleaving(events: seq<Event>, name: string)
    requires Inv(START) && Executable(START, events)
    ensures ChannelRing.Valid(EMPTY_RING)
    ensures var history, m := History(START, events), View(Run(START, events));
            match SinceWatch(history, name)
            case None => name !in m && Answered(history, name) == []
            case Some(rest) =>
              && name in m && m[name] == ChannelRing.Run(EMPTY_RING, OnRing(rest, name))
              && Answered(history, name) == Picks(EMPTY_RING, OnRing(rest, name))
  {
    hide ChannelRing.Valid, Executable, Inv, View, History, Run, Sequential;
    StartInv();
    Linearizable(START, events);
    RegistryByHistory(map[], History(START, events), View(Run(START, events)), name);
  }

  ghost predicate HasChannel(m: Registry, name: string, a: Node) {
    name in m && a in m[name].nodes
  }

  /** Fairness for the callers of the registry: over any interleaving, the gets of a watched
      name are answered with two channels that are in its ring throughout equally often, up
      to one. */
  lemma FairGets(s: State, events: seq<Event>, name: string, a: Node, b: Node)
    requires Inv(s) && Executable(s, events) && a != b
    requires HasChannel(View(s), name, a) && HasChannel(View(Run(s, events)), name, a)
    requires HasChannel(View(s), name, b) && HasChannel(View(Run(s, events)), name, b)
    ensures var answered := multiset(Answered(History(s, events), name));
            answered[a] <= answered[b] + 1 && answered[b] <= answered[a] + 1
  {
    hide ChannelRing.Valid, Executable, Inv, View, History, Run, Sequential, ChannelRing.Run, Picks, Answered, OnRing;
    Linearizable(s, events);
    RingByHistory(View(s), History(s, events), View(Run(s, events)), name);
    FairnessUnderChurn(View(s)[name], OnRing(History(s, events), name), a, b);
  }
}
