/** The delayed double delete over the queues it is built on: the removers publish to the
    delayed setting of the cache (services/data/removeCache.cpp), and a key is deleted the
    second time when the subscriber consumes the message. Nothing is taken for granted about
    how long a message stays: the timing that the cache relies on is that of the queues. */
module CacheOverQueue {
  import opened Base
  import D = DelayedDelete
  import T = DelayTopology

  /** As the constructor of RemoveCache fills it in. */
  const SETTING := T.Setting("delete_cache_exchange", "delayed", "delete_cache_queue", "delete_cache", 3000)

  /** The cache's state, whose clock and queue are those of the broker's world. */
  datatype System = System(cache: D.State, world: T.World)

  datatype Step =
    | Local(step: D.Step)  // any step of the cache but publishing, delivery and the clock
    | Publish(id: nat)
    | Forward
    | Consume
    | Tick

  /** The messages as the cache published them. */
  function Mail(messages: seq<T.Message>): seq<D.Message> {
    seq(|messages|, i requires 0 <= i < |messages| => D.Message(messages[i].body, messages[i].published))
  }

  function Ready(w: T.World): seq<T.Message> {
    if SETTING.queue in w.broker.queues then w.broker.queues[SETTING.queue].messages else []
  }

  function Delay(w: T.World): seq<T.Message> {
    if T.DlxQueue(SETTING) in w.broker.queues then w.broker.queues[T.DlxQueue(SETTING)].messages else []
  }

  /** The system as the cache sees it: a message is pending from its publication until it
      is consumed, wherever in the queues it is. */
  function View(s: System): D.State {
    s.cache.(now := s.world.broker.now, queue := multiset(Mail(Ready(s.world) + Delay(s.world))))
  }

  /** The clock runs on while reads, commits and the way through the queues stay within
      their lags. */
  predicate Enabled(cfg: D.Config, s: System, step: Step) {
    match step
    case Local(st) => !st.Publish? && !st.Deliver? && !st.Tick? && D.Enabled(cfg, View(s), st)
    case Publish(id) => D.Enabled(cfg, View(s), D.Publish(id))
    case Forward => T.Enabled(SETTING, s.world, T.DoForward)
    case Consume => T.Enabled(SETTING, s.world, T.DoConsume)
    case Tick => D.Enabled(cfg, View(s), D.Tick)
  }

  function Next(cfg: D.Config, s: System, step: Step): System
    requires Enabled(cfg, s, step)
  {
    match step
    case Local(st) => s.(cache := D.Next(cfg, View(s), st))
    case Publish(id) =>
      var key := D.PublishKey(cfg, s.cache.removers[id].row);
      System(D.Next(cfg, View(s), D.Publish(id)), T.Next(SETTING, s.world, T.DoPublish(key)))
    case Forward => s.(world := T.Next(SETTING, s.world, T.DoForward))
    case Consume =>
      var key := Ready(s.world)[0].body;
      System(s.cache.(cache := s.cache.cache - {key}), T.Next(SETTING, s.world, T.DoConsume))
    case Tick => s.(world := T.Next(SETTING, s.world, T.DoTick))
  }

  const START := System(D.INIT, T.Start(SETTING))

  predicate Executable(cfg: D.Config, s: System, steps: seq<Step>)
    decreases |steps|
  {
    steps == [] || (Enabled(cfg, s, steps[0]) && Executable(cfg, Next(cfg, s, steps[0]), steps[1..]))
  }

  function Run(cfg: D.Config, s: System, steps: seq<Step>): System
    requires Executable(cfg, s, steps)
    decreases |steps|
  {
    if steps == [] then s else Run(cfg, Next(cfg, s, steps[0]), steps[1..])
  }

  // -------------------------------------------------------------------- the simulation

  /** The queues are the graph of the setting, in the state in which it keeps its promises. */
  ghost predicate Inv(s: System) {
    T.Inv(SETTING, s.world)
  }

  /** What the cache sees of a step; nothing of a forwarding. */
  function Seen(cfg: D.Config, s: System, step: Step): seq<D.Step> {
    match step
    case Local(st) => [st]
    case Publish(id) => [D.Publish(id)]
    case Forward => []
    case Consume => if Ready(s.world) == [] then [] else [D.Deliver(Mail(Ready(s.world))[0])]
    case Tick => [D.Tick]
  }

  /** What each step does to the two queues. */
  lemma QueuesAfter(w: T.World, step: T.Step)
    requires T.Inv(SETTING, w) && T.Enabled(SETTING, w, step)
    ensures var w' := T.Next(SETTING, w, step);
            && T.Inv(SETTING, w')
            && w'.broker.now == (if step.DoTick? then w.broker.now + 1 else w.broker.now)
            && match step
               case DoPublish(body) =>
                 Ready(w') == Ready(w) && Delay(w') == Delay(w) + [T.Message(body, w.broker.now, w.broker.now, 0)]
               case DoForward =>
                 && Delay(w) != [] && Delay(w') == Delay(w)[1..]
                 && Ready(w') == Ready(w) + [Delay(w)[0].(arrived := w.broker.now, hops := Delay(w)[0].hops + 1)]
               case DoConsume => Ready(w) != [] && Ready(w') == Ready(w)[1..] && Delay(w') == Delay(w)
               case DoTick => Ready(w') == Ready(w) && Delay(w') == Delay(w)
  {
    hide T.Send, T.Inv, T.DlxExchange, T.DlxQueue, T.DlxBindKey;
    T.StepInv(SETTING, w, step);
    T.NamesApart(SETTING);
    InvGraph(w);
    match step {
      case DoPublish(body) =>
        T.SendInGraph(SETTING, w.broker, T.DlxBindKey(SETTING), T.Message(body, w.broker.now, w.broker.now, 0));
      case DoForward =>
        var m := Delay(w)[0].(arrived := w.broker.now, hops := Delay(w)[0].hops + 1);
        T.SendInGraph(SETTING, T.Pop(w.broker, T.DlxQueue(SETTING)), SETTING.bindKey, m);
      case _ =>
    }
  }

  lemma InvGraph(w: T.World)
    requires T.Inv(SETTING, w)
    ensures T.Graph(SETTING, w.broker)
  {
  }

  lemma MailAppend(a: seq<T.Message>, b: seq<T.Message>, m: T.Message)
    ensures Mail(a + (b + [m])) == Mail(a + b) + [D.Message(m.body, m.published)]
  {
  }

  /** Forwarding leaves the mail as it is, in the same order. */
  lemma MailForward(a: seq<T.Message>, b: seq<T.Message>, m: T.Message)
    requires b != [] && m.body == b[0].body && m.published == b[0].published
    ensures Mail(a + [m] + b[1..]) == Mail(a + b)
  {
  }

  lemma MailConsume(a: seq<T.Message>, b: seq<T.Message>)
    requires a != []
    ensures Mail(a)[0] in multiset(Mail(a + b))
    ensures multiset(Mail(a[1..] + b)) == multiset(Mail(a + b)) - multiset{Mail(a)[0]}
  {
    var s := Mail(a + b);
    assert s[0] == Mail(a)[0] && s[1..] == Mail(a[1..] + b);
    assert s == [s[0]] + s[1..];
  }

  /** A consumed message has been pending for the delay: the hypothesis of the cache. */
  lemma ConsumedIsDue(w: T.World)
    requires T.Inv(SETTING, w) && Ready(w) != []
    ensures w.broker.now >= Mail(Ready(w))[0].at + D.TTL
  {
    assert Ready(w)[0] in Ready(w);
  }

  /** The step of the cache that a step of the system is. */
  ghost predicate Simulated(cfg: D.Config, s: System, step: Step, seen: D.Step)
    requires Enabled(cfg, s, step)
  {
    && Inv(Next(cfg, s, step)) && D.Enabled(cfg, View(s), seen)
    && View(Next(cfg, s, step)) == D.Next(cfg, View(s), seen)
  }

  lemma PublishSimulates(cfg: D.Config, s: System, id: nat)
    requires Inv(s) && Enabled(cfg, s, Publish(id))
    ensures Simulated(cfg, s, Publish(id), D.Publish(id))
  {
    hide T.Inv, T.Enabled, T.Next, Mail, Ready, Delay, D.PublishKey, D.StoreKey, D.Removals;
    var w, key := s.world, D.PublishKey(cfg, s.cache.removers[id].row);
    PublishEnabled(w, key);
    QueuesAfter(w, T.DoPublish(key));
    MailAppend(Ready(w), Delay(w), T.Message(key, w.broker.now, w.broker.now, 0));
  }

  lemma ForwardSimulates(cfg: D.Config, s: System)
    requires Inv(s) && Enabled(cfg, s, Forward)
    ensures Inv(Next(cfg, s, Forward)) && View(Next(cfg, s, Forward)) == View(s)
  {
    hide T.Inv, T.Enabled, T.Next, Mail, Ready, Delay, D.PublishKey, D.StoreKey, D.Removals;
    var w := s.world;
    QueuesAfter(w, T.DoForward);
    MailForward(Ready(w), Delay(w), Delay(w)[0].(arrived := w.broker.now, hops := Delay(w)[0].hops + 1));
  }

  lemma ConsumeSimulates(cfg: D.Config, s: System)
    requires Inv(s) && Enabled(cfg, s, Consume)
    ensures Ready(s.world) != [] && Simulated(cfg, s, Consume, D.Deliver(Mail(Ready(s.world))[0]))
  {
    hide T.Inv, T.Enabled, T.Next, Mail, Ready, Delay, D.PublishKey, D.StoreKey, D.Removals;
    QueuesAfter(s.world, T.DoConsume);
    MailConsume(Ready(s.world), Delay(s.world));
    ConsumedIsDue(s.world);
    FirstMail(s.world);
  }

  lemma TickSimulates(cfg: D.Config, s: System)
    requires Inv(s) && Enabled(cfg, s, Tick)
    ensures Simulated(cfg, s, Tick, D.Tick)
  {
    hide T.Inv, T.Enabled, T.Next, Mail, Ready, Delay, D.PublishKey, D.StoreKey, D.Removals;
    TickEnabled(s.world);
    QueuesAfter(s.world, T.DoTick);
  }

  lemma LocalSimulates(cfg: D.Config, s: System, st: D.Step)
    requires Inv(s) && Enabled(cfg, s, Local(st))
    ensures Simulated(cfg, s, Local(st), st)
  {
    hide T.Inv, T.Enabled, T.Next, Mail, Ready, Delay, D.PublishKey, D.StoreKey, D.Removals;
    LocalKeeps(cfg, View(s), st);
  }

  /** Each step of the system is at most one enabled step of the cache as modelled with its
      own clock and queue. */
  lemma StepSimulates(cfg: D.Config, s: System, step: Step)
    requires Inv(s) && Enabled(cfg, s, step)
    ensures Inv(Next(cfg, s, step))
    ensures step.Forward? ==> View(Next(cfg, s, step)) == View(s)
    ensures !step.Forward? ==> |Seen(cfg, s, step)| == 1 && Simulated(cfg, s, step, Seen(cfg, s, step)[0])
  {
    hide Inv, Enabled, Next, View, Mail, Ready, D.Enabled, D.Next;
    match step {
      case Local(st) => LocalSimulates(cfg, s, st);
      case Publish(id) => PublishSimulates(cfg, s, id);
      case Forward => ForwardSimulates(cfg, s);
      case Consume => ConsumeSimulates(cfg, s); FirstMail(s.world);
      case Tick => TickSimulates(cfg, s);
    }
  }

  lemma LocalKeeps(cfg: D.Config, s: D.State, st: D.Step)
    requires !st.Publish? && !st.Deliver? && !st.Tick? && D.Enabled(cfg, s, st)
    ensures D.Next(cfg, s, st).now == s.now && D.Next(cfg, s, st).queue == s.queue
  {
  }

  lemma PublishEnabled(w: T.World, key: string)
    ensures T.Enabled(SETTING, w, T.DoPublish(key))
  {
  }

  lemma TickEnabled(w: T.World)
    ensures T.Enabled(SETTING, w, T.DoTick)
  {
  }

  lemma FirstMail(w: T.World)
    requires Ready(w) != []
    ensures Mail(Ready(w)) != [] && Mail(Ready(w))[0].key == Ready(w)[0].body
  {
  }

  /** Simulation: every run of the system is a run of the cache. */
  lemma {:induction false} Simulates(cfg: D.Config, s: System, steps: seq<Step>) returns (seen: seq<D.Step>)
    requires Inv(s) && Executable(cfg, s, steps)
    ensures Inv(Run(cfg, s, steps))
    ensures D.Executable(cfg, View(s), seen) && D.Run(cfg, View(s), seen) == View(Run(cfg, s, steps))
    decreases |steps|
  {
    hide Inv, Enabled, Next, Seen, View, D.Enabled, D.Next;
    if steps == [] {
      seen := [];
    } else {
      StepSimulates(cfg, s, steps[0]);
      seen := Simulates(cfg, Next(cfg, s, steps[0]), steps[1..]);
      if !steps[0].Forward? {
        var first := Seen(cfg, s, steps[0])[0];
        assert ([first] + seen)[1..] == seen;
        seen := [first] + seen;
      }
    }
  }

  lemma StartView()
    ensures Inv(START) && View(START) == D.INIT
  {
    T.StartInv(SETTING);
    T.NamesApart(SETTING);
    StartEmpty();
    hide T.Start, T.DlxQueue;
    assert Mail([] + []) == [];
  }

  lemma StartEmpty()
    ensures Ready(T.Start(SETTING)) == [] && Delay(T.Start(SETTING)) == [] && T.Start(SETTING).broker.now == 0
  {
    hide T.DlxExchange, T.DlxBindKey, T.DlxQueue;
    T.NamesApart(SETTING);
  }

  /** Coherence over the queues: where the lags of commit and cache write fit into the delay
      and keys are published as stored, a stale entry of the cache has its delete message
      somewhere in the queues; so once nothing is delayed and nothing is ready, every entry
      agrees with the committed table. */
  lemma CoherentOverQueues(cfg: D.Config, steps: seq<Step>)
    requires D.Sound(cfg) && Executable(cfg, START, steps)
    ensures var s := Run(cfg, START, steps);
            && (forall row :: D.Stale(cfg, View(s), row) ==>
                  exists m :: m in Mail(Ready(s.world) + Delay(s.world)) && m.key == D.StoreKey(cfg, row))
            && (Ready(s.world) == [] && Delay(s.world) == [] ==> forall row :: !D.Stale(cfg, View(s), row))
  {
    hide D.Executable, D.Run, Executable, Run, D.Stale, D.Sound, Inv, Mail, Ready, Delay, D.StoreKey;
    StartView();
    var seen := Simulates(cfg, START, steps);
    var s := Run(cfg, START, steps);
    D.Coherent(cfg, seen);
    forall row | D.Stale(cfg, View(s), row)
      ensures exists m :: m in Mail(Ready(s.world) + Delay(s.world)) && m.key == D.StoreKey(cfg, row)
    {
      var m :| m in View(s).queue && m.key == D.StoreKey(cfg, row) && -1 < m.at + D.TTL;
      assert m in Mail(Ready(s.world) + Delay(s.world));
    }
    NoMail(s.world);
  }

  lemma NoMail(w: T.World)
    ensures Ready(w) == [] && Delay(w) == [] ==> Mail(Ready(w) + Delay(w)) == []
  {
  }
}
