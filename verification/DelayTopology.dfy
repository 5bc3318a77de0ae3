/** The exchanges and queues that a "delayed" queue setting is turned into, and the way
    of a message through them (scaffold/src/suiQueue.cpp). */
module DelayTopology {
  import opened Base

  datatype Setting = Setting(exchange: string, exchangeType: string, queue: string, bindKey: string, ttl: nat)

  function DlxExchange(s: Setting): string { "dlx_" + s.exchange }
  function DlxQueue(s: Setting): string { "dlx_" + s.queue }
  function DlxBindKey(s: Setting): string { "dlx_" + s.bindKey }

  datatype ExchangeType = Direct | Fanout | Headers | Topic

  function GetExchangeType(name: string): ExchangeType {
    if name == "direct" then Direct
    else if name == "fanout" || name == "delayed" then Fanout
    else if name == "headers" then Headers
    else if name == "topic" then Topic
    else Direct
  }

  // ----------------------------------------------------------------------- the broker

  datatype Message = Message(body: string, published: nat, arrived: nat, hops: nat)

  datatype Args = Plain | DeadLetter(exchange: string, key: string, ttl: nat)

  datatype Queue = Queue(args: Args, messages: seq<Message>)

  datatype Binding = Binding(exchange: string, queue: string, key: string)

  datatype Broker = Broker(now: nat, exchanges: map<string, ExchangeType>,
      queues: map<string, Queue>, bindings: set<Binding>)

  const EMPTY_BROKER := Broker(0, map[], map[], {})

  /** Declaring what is there already changes nothing. */
  function DeclareRoutine(b: Broker, s: Setting, args: Args, isDlx: bool): Broker {
    var exchange := if isDlx then DlxExchange(s) else s.exchange;
    var queue := if isDlx then DlxQueue(s) else s.queue;
    var bindKey := if isDlx then DlxBindKey(s) else s.bindKey;
    b.(exchanges := if exchange in b.exchanges then b.exchanges
        else b.exchanges[exchange := GetExchangeType(s.exchangeType)],
       queues := if queue in b.queues then b.queues else b.queues[queue := Queue(args, [])],
       bindings := b.bindings + {Binding(exchange, queue, bindKey)})
  }

  function Declare(b: Broker, s: Setting): Broker {
    var b1 := DeclareRoutine(b, s, Plain, false);
    if s.exchangeType == "delayed" then DeclareRoutine(b1, s, DeadLetter(s.exchange, s.bindKey, s.ttl), true) else b1
  }

  /** Whether a message sent to an exchange with a key goes to a queue. */
  predicate Routed(b: Broker, exchange: string, key: string, queue: string) {
    exchange in b.exchanges &&
    match b.exchanges[exchange]
    case Fanout => exists x <- b.bindings :: x.exchange == exchange && x.queue == queue
    case Direct => Binding(exchange, queue, key) in b.bindings
    case _ => false
  }

  function Send(b: Broker, exchange: string, key: string, m: Message): Broker {
    b.(queues := map q | q in b.queues ::
         if Routed(b, exchange, key, q) then Queue(b.queues[q].args, b.queues[q].messages + [m]) else b.queues[q])
  }

  /** suiPublisher::publish. */
  function Publish(b: Broker, s: Setting, body: string): Broker {
    var m := Message(body, b.now, b.now, 0);
    if s.exchangeType == "delayed" then Send(b, DlxExchange(s), DlxBindKey(s), m) else Send(b, s.exchange, s.bindKey, m)
  }

  function Pop(b: Broker, queue: string): Broker
    requires queue in b.queues && b.queues[queue].messages != []
  {
    b.(queues := b.queues[queue := Queue(b.queues[queue].args, b.queues[queue].messages[1..])])
  }

  /** The message at the head of a queue has stayed for the queue's time to live. */
  predicate Expired(b: Broker, queue: string) {
    && queue in b.queues && b.queues[queue].messages != [] && b.queues[queue].args.DeadLetter?
    && b.now >= b.queues[queue].messages[0].arrived + b.queues[queue].args.ttl
  }

  /** It is taken out and sent on to the queue's dead-letter exchange. */
  function Forward(b: Broker, queue: string): Broker
    requires Expired(b, queue)
  {
    var Queue(args, messages) := b.queues[queue];
    Send(Pop(b, queue), args.exchange, args.key, messages[0].(arrived := b.now, hops := messages[0].hops + 1))
  }

  // ------------------------------------------------------------- runs of one setting

  datatype World = World(broker: Broker, published: seq<Message>, consumed: seq<Message>)

  datatype Step = DoPublish(body: string) | DoTick | DoForward | DoConsume

  /** Publisher and subscriber have each declared the setting. */
  function Start(s: Setting): World {
    World(Declare(Declare(EMPTY_BROKER, s), s), [], [])
  }

  predicate Enabled(s: Setting, w: World, step: Step) {
    match step
    case DoForward => Expired(w.broker, DlxQueue(s))
    case DoConsume => s.queue in w.broker.queues && w.broker.queues[s.queue].messages != []
    case _ => true
  }

  function Next(s: Setting, w: World, step: Step): World
    requires Enabled(s, w, step)
  {
    match step
    case DoPublish(body) =>
      w.(broker := Publish(w.broker, s, body),
          published := w.published + [Message(body, w.broker.now, w.broker.now, 0)])
    case DoTick => w.(broker := w.broker.(now := w.broker.now + 1))
    case DoForward => w.(broker := Forward(w.broker, DlxQueue(s)))
    case DoConsume =>
      w.(broker := Pop(w.broker, s.queue), consumed := w.consumed + [w.broker.queues[s.queue].messages[0]])
  }

  predicate Executable(s: Setting, w: World, steps: seq<Step>)
    decreases |steps|
  {
    steps == [] || (Enabled(s, w, steps[0]) && Executable(s, Next(s, w, steps[0]), steps[1..]))
  }

  function Run(s: Setting, w: World, steps: seq<Step>): World
    requires Executable(s, w, steps)
    decreases |steps|
  {
    if steps == [] then w else Run(s, Next(s, w, steps[0]), steps[1..])
  }

  // -------------------------------------------------------------------- the invariant

  /** The graph: the dead-letter exchange feeds the delay queue, whose messages go to the
      exchange, which feeds the consumer's queue; nothing else is bound. */
  ghost predicate Graph(s: Setting, b: Broker) {
    && b.exchanges == map[s.exchange := Fanout, DlxExchange(s) := Fanout]
    && b.queues.Keys == {s.queue, DlxQueue(s)}
    && b.queues[s.queue].args == Plain
    && b.queues[DlxQueue(s)].args == DeadLetter(s.exchange, s.bindKey, s.ttl)
    && b.bindings == {Binding(s.exchange, s.queue, s.bindKey), Binding(DlxExchange(s), DlxQueue(s), DlxBindKey(s))}
  }

  lemma NamesApart(s: Setting)
    ensures DlxExchange(s) != s.exchange && DlxQueue(s) != s.queue
  {
    assert |DlxExchange(s)| == 4 + |s.exchange| && |DlxQueue(s)| == 4 + |s.queue|;
  }

  /** The names for dead letters are the plain ones behind a prefix. */
  lemma DeadLetterNames(s: Setting)
    ensures DlxExchange(s) == ['d', 'l', 'x', '_'] + s.exchange
    ensures DlxQueue(s) == ['d', 'l', 'x', '_'] + s.queue
    ensures DlxBindKey(s) == ['d', 'l', 'x', '_'] + s.bindKey
  {
  }

  /** The messages as they were published. */
  function Origins(messages: seq<Message>): seq<(string, nat)> {
    seq(|messages|, i requires 0 <= i < |messages| => (messages[i].body, messages[i].published))
  }

  /** Published and not forwarded yet. */
  predicate InDelay(m: Message) {
    m.hops == 0 && m.arrived == m.published
  }

  /** Forwarded once, and not before its delay was over. */
  predicate Delayed(s: Setting, m: Message) {
    m.hops == 1 && m.arrived >= m.published + s.ttl
  }

  /** A queue keeps its messages in the order in which they arrived. */
  ghost predicate InOrder(messages: seq<Message>) {
    forall i, j :: 0 <= i < j < |messages| ==> messages[i].arrived <= messages[j].arrived
  }

  ghost predicate Inv(s: Setting, w: World) {
    && s.exchangeType == "delayed" && Graph(s, w.broker)
    && var (delay, ready) := (w.broker.queues[DlxQueue(s)].messages, w.broker.queues[s.queue].messages);
       && (forall m :: m in delay ==> InDelay(m) && m.arrived <= w.broker.now)
       && InOrder(delay)
       && (forall m :: m in ready ==> m.arrived <= w.broker.now)
       && (forall m :: m in ready || m in w.consumed ==> Delayed(s, m))
       && Origins(w.published) == Origins(w.consumed + ready + delay)
  }

  lemma StartInv(s: Setting)
    requires s.exchangeType == "delayed"
    ensures Inv(s, Start(s))
  {
    NamesApart(s);
    hide DlxExchange, DlxQueue, DlxBindKey;
    var b := Declare(EMPTY_BROKER, s);
    assert Graph(s, b);
    assert Declare(b, s) == b;
  }

  /** The broker with a message at the end of one queue. */
  function Appended(b: Broker, queue: string, m: Message): Broker
    requires queue in b.queues
  {
    b.(queues := b.queues[queue := Queue(b.queues[queue].args, b.queues[queue].messages + [m])])
  }

  /** In the graph, either exchange feeds exactly its own queue. */
  lemma SendInGraph(s: Setting, b: Broker, key: string, m: Message)
    requires Graph(s, b)
    ensures Send(b, DlxExchange(s), key, m) == Appended(b, DlxQueue(s), m)
    ensures Send(b, s.exchange, key, m) == Appended(b, s.queue, m)
  {
    NamesApart(s);
    hide DlxExchange, DlxQueue, DlxBindKey;
    assert Binding(s.exchange, s.queue, s.bindKey) in b.bindings;
    assert Binding(DlxExchange(s), DlxQueue(s), DlxBindKey(s)) in b.bindings;
    forall q | q in b.queues
      ensures Routed(b, DlxExchange(s), key, q) <==> q == DlxQueue(s)
      ensures Routed(b, s.exchange, key, q) <==> q == s.queue
    {
    }
  }

  lemma OrderKept(delay: seq<Message>, m: Message)
    requires InOrder(delay) && forall d :: d in delay ==> d.arrived <= m.arrived
    ensures InOrder(delay + [m])
    ensures delay != [] ==> InOrder(delay[1..])
  {
    assert forall i :: 0 <= i < |delay| ==> delay[i] in delay;
  }

  lemma StepInv(s: Setting, w: World, step: Step)
    requires Inv(s, w) && Enabled(s, w, step)
    ensures Inv(s, Next(s, w, step))
  {
    NamesApart(s);
    hide DlxExchange, DlxQueue, DlxBindKey, Send, InOrder;
    var b := w.broker;
    var delay, ready := b.queues[DlxQueue(s)].messages, b.queues[s.queue].messages;
    match step {
      case DoPublish(body) =>
        var m := Message(body, b.now, b.now, 0);
        SendInGraph(s, b, DlxBindKey(s), m);
        OrderKept(delay, m);
        assert Origins(w.published + [m]) == Origins(w.published) + [(body, b.now)];
        assert Origins(w.consumed + ready + (delay + [m])) == Origins(w.consumed + ready + delay) + [(body, b.now)];
      case DoTick =>
      case DoForward =>
        var m := delay[0].(arrived := b.now, hops := delay[0].hops + 1);
        assert delay[0] in delay;
        OrderKept(delay, m);
        SendInGraph(s, Pop(b, DlxQueue(s)), s.bindKey, m);
        assert Origins(w.consumed + (ready + [m]) + delay[1..]) == Origins(w.consumed + ready + delay);
      case DoConsume =>
        assert ready[0] in ready;
        assert w.consumed + [ready[0]] + ready[1..] + delay == w.consumed + ready + delay;
    }
  }

  lemma {:induction false} RunInv(s: Setting, w: World, steps: seq<Step>)
    requires Inv(s, w) && Executable(s, w, steps)
    ensures Inv(s, Run(s, w, steps))
    decreases |steps|
  {
    if steps != [] {
      StepInv(s, w, steps[0]);
      RunInv(s, Next(s, w, steps[0]), steps[1..]);
    }
  }

  // ---------------------------------------------------------------------- delivery

  predicate SameOrigin(m: Message, m': Message) {
    m.body == m'.body && m.published == m'.published
  }

  /** Every message published the delay ago or earlier stands, under its number, in the
      given sequence. */
  ghost predicate DueArrived(s: Setting, w: World, arrived: seq<Message>) {
    forall i :: 0 <= i < |w.published| && w.published[i].published + s.ttl <= w.broker.now ==>
      i < |arrived| && SameOrigin(w.published[i], arrived[i])
  }

  /** When the broker has nothing to forward, all that is still in the delay queue was
      published less than the delay ago. */
  lemma NothingDueLeft(s: Setting, w: World)
    requires Inv(s, w) && !Enabled(s, w, DoForward)
    ensures forall m :: m in w.broker.queues[DlxQueue(s)].messages ==> w.broker.now < m.published + s.ttl
  {
    hide DlxExchange, DlxQueue, DlxBindKey;
    var delay := w.broker.queues[DlxQueue(s)].messages;
    forall m | m in delay ensures w.broker.now < m.published + s.ttl {
      var i :| 0 <= i < |delay| && delay[i] == m;
      assert delay[0] in delay && delay[0].arrived <= delay[i].arrived;
    }
  }

  lemma OriginAt(w: World, all: seq<Message>, i: nat)
    requires Origins(w.published) == Origins(all) && i < |w.published|
    ensures i < |all| && SameOrigin(w.published[i], all[i])
  {
    assert |Origins(w.published)| == |Origins(all)|;
    assert Origins(w.published)[i] == Origins(all)[i];
  }

  lemma InTail(a: seq<Message>, b: seq<Message>, i: nat)
    requires i < |a + b|
    ensures i >= |a| ==> (a + b)[i] in b
    ensures i < |a| ==> (a + b)[i] == a[i]
  {
    if i >= |a| {
      assert b[i - |a|] in b;
    }
  }

  /** So everything older has reached the consumer's queue. */
  lemma DueHaveArrived(s: Setting, w: World)
    requires Inv(s, w) && !Enabled(s, w, DoForward)
    ensures DueArrived(s, w, w.consumed + w.broker.queues[s.queue].messages)
  {
    NothingDueLeft(s, w);
    var delay := w.broker.queues[DlxQueue(s)].messages;
    var arrived := w.consumed + w.broker.queues[s.queue].messages;
    hide Graph, DlxQueue, Enabled, InOrder;
    forall i | 0 <= i < |w.published| && w.published[i].published + s.ttl <= w.broker.now
      ensures i < |arrived| && SameOrigin(w.published[i], arrived[i])
    {
      OriginAt(w, arrived + delay, i);
      InTail(arrived, delay, i);
    }
  }

  /** Steps that the broker and the consumer still owe. */
  function Owed(s: Setting, w: World): nat
    requires s.queue in w.broker.queues && DlxQueue(s) in w.broker.queues
  {
    2 * |w.broker.queues[DlxQueue(s)].messages| + |w.broker.queues[s.queue].messages|
  }

  lemma StepOwed(s: Setting, w: World, step: Step)
    requires Inv(s, w) && Enabled(s, w, step) && (step.DoForward? || step.DoConsume?)
    ensures Inv(s, Next(s, w, step)) && Owed(s, Next(s, w, step)) == Owed(s, w) - 1
    ensures Next(s, w, step).published == w.published && Next(s, w, step).broker.now == w.broker.now
  {
    StepInv(s, w, step);
    NamesApart(s);
    hide DlxExchange, DlxQueue, DlxBindKey, Send;
    if step.DoForward? {
      var delay := w.broker.queues[DlxQueue(s)].messages;
      var m := delay[0].(arrived := w.broker.now, hops := delay[0].hops + 1);
      SendInGraph(s, Pop(w.broker, DlxQueue(s)), s.bindKey, m);
    }
  }

  /** Delivery: from every state, forwarding and consuming for as long as either is
      possible ends, and then every message that was due has been consumed, in order. */
  lemma {:induction false} DueAreConsumed(s: Setting, w: World, steps: seq<Step>)
    requires Inv(s, w) && Executable(s, w, steps) && forall step :: step in steps ==> step.DoForward? || step.DoConsume?
    ensures |steps| <= Owed(s, w)
    ensures var w' := Run(s, w, steps);
            && w'.published == w.published && w'.broker.now == w.broker.now
            && (!Enabled(s, w', DoForward) && !Enabled(s, w', DoConsume) ==> DueArrived(s, w', w'.consumed))
    decreases |steps|
  {
    if steps == [] {
      if !Enabled(s, w, DoForward) && !Enabled(s, w, DoConsume) {
        DueHaveArrived(s, w);
        assert w.consumed + [] == w.consumed;
      }
    } else {
      assert steps[0] in steps;
      StepOwed(s, w, steps[0]);
      hide Inv, Enabled, Next, Owed, DueArrived;
      DueAreConsumed(s, Next(s, w, steps[0]), steps[1..]);
    }
  }

  /** Delay: over any run, what was published is, in order and each message once, what was
      consumed, what is ready for the consumer and what is still being delayed; consumed
      and ready messages made exactly one hop, no sooner than the delay after they were
      published; and once the broker has forwarded what it has to, what was published
      the delay ago or earlier is consumed or ready, under its number. */
  lemma DelayedInOrderOnce(s: Setting, steps: seq<Step>)
    requires s.exchangeType == "delayed" && Executable(s, Start(s), steps)
    ensures var w := Run(s, Start(s), steps);
            && s.queue in w.broker.queues && DlxQueue(s) in w.broker.queues
            && var (delay, ready) := (w.broker.queues[DlxQueue(s)].messages, w.broker.queues[s.queue].messages);
               && Origins(w.published) == Origins(w.consumed + ready + delay)
               && (forall m :: m in w.consumed + ready ==> m.hops == 1 && m.arrived >= m.published + s.ttl)
               && (!Enabled(s, w, DoForward) ==>
                     && (forall m :: m in delay ==> w.broker.now < m.published + s.ttl)
                     && DueArrived(s, w, w.consumed + ready))
  {
    StartInv(s);
    RunInv(s, Start(s), steps);
    hide Executable, Run;
    var w := Run(s, Start(s), steps);
    if !Enabled(s, w, DoForward) {
      NothingDueLeft(s, w);
      DueHaveArrived(s, w);
    }
  }

  // --------------------------------------------------------------- plain settings

  /** Which type of exchange a name stands for. */
  lemma ExchangeKinds(name: string)
    ensures GetExchangeType(name) == Fanout <==> name == "fanout" || name == "delayed"
    ensures GetExchangeType(name) == Headers <==> name == "headers"
    ensures GetExchangeType(name) == Topic <==> name == "topic"
    ensures GetExchangeType(name) == Direct <==> name !in {"fanout", "delayed", "headers", "topic"}
  {
    var f, d, h, t := "fanout", "delayed", "headers", "topic";
    assert f[0] == 'f' && d[0] == 'd' && h[0] == 'h' && t[0] == 't' && "direct"[1] == 'i' && d[1] == 'e';
  }

  /** A setting without delay whose exchange routes by the binding: direct, by name or by
      default, or fanout. */
  predicate Undelayed(s: Setting) {
    s.exchangeType !in {"delayed", "headers", "topic"}
  }

  /** One exchange, one queue, one binding, and nothing for dead letters. */
  ghost predicate PlainInv(s: Setting, w: World) {
    && Undelayed(s)
    && w.broker.exchanges == map[s.exchange := GetExchangeType(s.exchangeType)]
    && w.broker.queues.Keys == {s.queue} && w.broker.queues[s.queue].args == Plain
    && w.broker.bindings == {Binding(s.exchange, s.queue, s.bindKey)}
    && w.published == w.consumed + w.broker.queues[s.queue].messages
  }

  lemma PlainStart(s: Setting)
    requires Undelayed(s)
    ensures PlainInv(s, Start(s))
  {
    hide DlxExchange, DlxQueue, DlxBindKey;
    var b := Declare(EMPTY_BROKER, s);
    assert Declare(b, s) == b;
  }

  lemma PlainSend(s: Setting, w: World, m: Message)
    requires PlainInv(s, w)
    ensures Send(w.broker, s.exchange, s.bindKey, m) == Appended(w.broker, s.queue, m)
  {
    ExchangeKinds(s.exchangeType);
    var b := w.broker;
    assert Binding(s.exchange, s.queue, s.bindKey) in b.bindings;
    assert Routed(b, s.exchange, s.bindKey, s.queue);
  }

  lemma PlainStep(s: Setting, w: World, step: Step)
    requires PlainInv(s, w) && Enabled(s, w, step)
    ensures PlainInv(s, Next(s, w, step))
  {
    hide Send, DlxExchange, DlxQueue, DlxBindKey, GetExchangeType;
    NamesApart(s);
    var ready := w.broker.queues[s.queue].messages;
    match step {
      case DoPublish(body) =>
        var m := Message(body, w.broker.now, w.broker.now, 0);
        PlainSend(s, w, m);
        assert w.consumed + (ready + [m]) == w.consumed + ready + [m];
      case DoTick =>
      case DoForward =>
      case DoConsume => assert w.consumed + [ready[0]] + ready[1..] == w.consumed + ready;
    }
  }

  lemma {:induction false} PlainRun(s: Setting, w: World, steps: seq<Step>)
    requires PlainInv(s, w) && Executable(s, w, steps)
    ensures PlainInv(s, Run(s, w, steps))
    decreases |steps|
  {
    hide PlainInv, Next, Enabled;
    if steps != [] {
      PlainStep(s, w, steps[0]);
      PlainRun(s, Next(s, w, steps[0]), steps[1..]);
    }
  }

  /** Without delay: over any run, every message is in the consumer's queue as soon as it is
      published, in order and once, and stays there unchanged until it is consumed. */
  lemma PlainInOrderOnce(s: Setting, steps: seq<Step>)
    requires Undelayed(s) && Executable(s, Start(s), steps)
    ensures var w := Run(s, Start(s), steps);
            && s.queue in w.broker.queues
            && w.published == w.consumed + w.broker.queues[s.queue].messages
            && (!Enabled(s, w, DoConsume) ==> w.consumed == w.published)
  {
    hide Executable, Run, Start;
    PlainStart(s);
    PlainRun(s, Start(s), steps);
    var w := Run(s, Start(s), steps);
    assert w.consumed + [] == w.consumed;
  }
}
