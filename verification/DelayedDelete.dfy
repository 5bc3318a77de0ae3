/** The read-through cache with delayed double delete
    (services/data/role_permission.cpp, user_Identity_role.cpp, removeCache.cpp),
    as a timed step system: readers, removers, inserters, expiry and the delivery
    of delete messages interleave step by step.

    A lookup asks the cache, on a miss reads the committed row, and writes what it
    read to the cache. A removal erases the row in a transaction, deletes the key,
    publishes a delete message that is delivered a fixed delay later, and its
    caller commits the transaction after that. */
module DelayedDelete {
  import opened Base

  /** x-message-ttl of the delete queue, in milliseconds. */
  const TTL: nat := 3000

  type Row = string    // operation url or user id: what the rows are looked up by
  type Value = string  // the encoded row

  /** How late things may be, and under which prefixes keys are stored and published. */
  datatype Config = Config(
    commitLag: nat,    // publish to commit
    writeLag: nat,     // row read to cache write
    deliveryLag: nat,  // end of the delay to delivery
    storePrefix: string,
    publishPrefix: string)

  /** A cached value, with the number of removals of its row that had committed
      when the value was read from the table. */
  datatype Entry = Entry(value: Value, seen: nat)

  datatype Reader = Missed(row: Row) | Loaded(row: Row, entry: Entry, readAt: nat)

  datatype Remover = Erased(row: Row) | Evicted(row: Row) | Published(row: Row, at: nat)

  datatype Message = Message(key: string, at: nat)

  datatype State = State(
    now: nat,
    table: map<Row, Value>,          // committed rows, at most one for a row key
    removals: map<Row, seq<nat>>,    // history: when each committed removal had been published
    cache: map<string, Entry>,
    readers: map<nat, Reader>,
    removers: map<nat, Remover>,
    queue: multiset<Message>)

  const INIT := State(0, map[], map[], map[], map[], map[], multiset{})

  function StoreKey(cfg: Config, row: Row): string { cfg.storePrefix + row }
  function PublishKey(cfg: Config, row: Row): string { cfg.publishPrefix + row }

  function Removals(s: State, row: Row): seq<nat> {
    if row in s.removals then s.removals[row] else []
  }

  datatype Step =
    | Insert(row: Row, value: Value)
    | Lookup(id: nat, row: Row)        // cache miss
    | Load(id: nat)                    // read the committed row
    | Store(id: nat)                   // write it to the cache
    | GiveUp(id: nat)                  // a lookup ends in an exception
    | Erase(id: nat, row: Row)         // erase the row, not yet committed
    | Evict(id: nat)                   // first delete of the key
    | Publish(id: nat)
    | Commit(id: nat, erased: bool)    // erased: the transaction did match the row
    | Rollback(id: nat)
    | Expire(key: string)              // also a repeated delivery: a key is deleted at any time
    | Deliver(message: Message)        // second delete of the key
    | Tick

  predicate Enabled(cfg: Config, s: State, step: Step) {
    match step
    case Insert(row, _) => row !in s.table
    case Lookup(id, row) => id !in s.readers && StoreKey(cfg, row) !in s.cache
    case Load(id) => id in s.readers && s.readers[id].Missed?
    case Store(id) => id in s.readers && s.readers[id].Loaded?
    case GiveUp(id) => id in s.readers
    case Erase(id, _) => id !in s.removers
    case Evict(id) => id in s.removers && s.removers[id].Erased?
    case Publish(id) => id in s.removers && s.removers[id].Evicted?
    case Commit(id, _) => id in s.removers && s.removers[id].Published?
    case Rollback(id) => id in s.removers
    case Expire(_) => true
    case Deliver(m) => m in s.queue && s.now >= m.at + TTL
    case Tick =>
      && (forall id :: id in s.readers && s.readers[id].Loaded? ==> s.now < s.readers[id].readAt + cfg.writeLag)
      && (forall id :: id in s.removers && s.removers[id].Published? ==> s.now < s.removers[id].at + cfg.commitLag)
      && (forall m :: m in s.queue ==> s.now < m.at + TTL + cfg.deliveryLag)
  }

  function Next(cfg: Config, s: State, step: Step): State
    requires Enabled(cfg, s, step)
  {
    match step
    case Insert(row, value) => s.(table := s.table[row := value])
    case Lookup(id, row) => s.(readers := s.readers[id := Missed(row)])
    case Load(id) =>
      var row := s.readers[id].row;
      if row in s.table then
        s.(readers := s.readers[id := Loaded(row, Entry(s.table[row], |Removals(s, row)|), s.now)])
      else
        s.(readers := s.readers - {id})
    case Store(id) =>
      var reader := s.readers[id];
      s.(cache := s.cache[StoreKey(cfg, reader.row) := reader.entry], readers := s.readers - {id})
    case GiveUp(id) => s.(readers := s.readers - {id})
    case Erase(id, row) => s.(removers := s.removers[id := Erased(row)])
    case Evict(id) =>
      var row := s.removers[id].row;
      s.(cache := s.cache - {PublishKey(cfg, row)}, removers := s.removers[id := Evicted(row)])
    case Publish(id) =>
      var row := s.removers[id].row;
      s.(queue := s.queue + multiset{Message(PublishKey(cfg, row), s.now)},
         removers := s.removers[id := Published(row, s.now)])
    case Commit(id, erased) =>
      var row := s.removers[id].row;
      s.(table := if erased then s.table - {row} else s.table,
         removals := s.removals[row := Removals(s, row) + [s.removers[id].at]],
         removers := s.removers - {id})
    case Rollback(id) => s.(removers := s.removers - {id})
    case Expire(key) => s.(cache := s.cache - {key})
    case Deliver(m) => s.(cache := s.cache - {m.key}, queue := s.queue - multiset{m})
    case Tick => s.(now := s.now + 1)
  }

  predicate Executable(cfg: Config, s: State, steps: seq<Step>)
    decreases |steps|
  {
    steps == [] || (Enabled(cfg, s, steps[0]) && Executable(cfg, Next(cfg, s, steps[0]), steps[1..]))
  }

  function Run(cfg: Config, s: State, steps: seq<Step>): State
    requires Executable(cfg, s, steps)
    decreases |steps|
  {
    if steps == [] then s else Run(cfg, Next(cfg, s, steps[0]), steps[1..])
  }

  // ------------------------------------------------------------------ the invariant

  /** The condition under which the scheme works: a transaction commits, and a read
      from before the commit reaches the cache, before the delayed delete; and
      keys are deleted under the name they are stored under. */
  predicate Sound(cfg: Config) {
    cfg.commitLag + cfg.writeLag < TTL && cfg.storePrefix == cfg.publishPrefix
  }

  /** A value read before removals [seen..] of its row committed is covered if the
      delete message of every one of them is still to be delivered, and later than t. */
  ghost predicate Covered(cfg: Config, s: State, row: Row, entry: Entry, t: int) {
    && entry.seen <= |Removals(s, row)|
    && (forall i :: entry.seen <= i < |Removals(s, row)| ==>
          Message(StoreKey(cfg, row), Removals(s, row)[i]) in s.queue && t < Removals(s, row)[i] + TTL)
    && (entry.seen == |Removals(s, row)| ==> row in s.table && s.table[row] == entry.value)
  }

  ghost predicate CacheInv(cfg: Config, s: State) {
    && (forall key :: key in s.cache ==> cfg.storePrefix <= key)
    && (forall row :: StoreKey(cfg, row) in s.cache ==> Covered(cfg, s, row, s.cache[StoreKey(cfg, row)], -1))
  }

  ghost predicate ReaderOk(cfg: Config, s: State, reader: Reader) {
    reader.Loaded? ==>
      && reader.readAt <= s.now <= reader.readAt + cfg.writeLag
      && Covered(cfg, s, reader.row, reader.entry, reader.readAt + cfg.writeLag)
  }

  ghost predicate ReadersInv(cfg: Config, s: State) {
    forall id :: id in s.readers ==> ReaderOk(cfg, s, s.readers[id])
  }

  ghost predicate RemoverOk(cfg: Config, s: State, id: nat) {
    id in s.removers && s.removers[id].Published? ==>
      var Published(row, at) := s.removers[id];
      at <= s.now <= at + cfg.commitLag && Message(StoreKey(cfg, row), at) in s.queue
  }

  ghost predicate RemoversInv(cfg: Config, s: State) {
    forall id :: RemoverOk(cfg, s, id)
  }

  ghost predicate QueueInv(cfg: Config, s: State) {
    forall m :: m in s.queue ==> m.at <= s.now <= m.at + TTL + cfg.deliveryLag
  }

  ghost predicate Inv(cfg: Config, s: State) {
    CacheInv(cfg, s) && ReadersInv(cfg, s) && RemoversInv(cfg, s) && QueueInv(cfg, s)
  }

  lemma KeyInjective(cfg: Config, a: Row, b: Row)
    ensures StoreKey(cfg, a) == StoreKey(cfg, b) <==> a == b
  {
    assert StoreKey(cfg, a)[|cfg.storePrefix|..] == a;
    assert StoreKey(cfg, b)[|cfg.storePrefix|..] == b;
  }

  lemma QueueStep(cfg: Config, s: State, step: Step)
    requires Sound(cfg) && Inv(cfg, s) && Enabled(cfg, s, step)
    ensures QueueInv(cfg, Next(cfg, s, step))
  {
    hide CacheInv, ReadersInv, Covered;
  }

  /** A published removal keeps its time and its message until it commits. */
  lemma RemoverPublish(cfg: Config, s: State, r: nat, id: nat)
    requires Sound(cfg) && RemoverOk(cfg, s, id) && Enabled(cfg, s, Publish(r))
    ensures RemoverOk(cfg, Next(cfg, s, Publish(r)), id)
  {
    hide Removals;
    assert StoreKey(cfg, s.removers[r].row) == PublishKey(cfg, s.removers[r].row);
  }

  lemma RemoverDeliver(cfg: Config, s: State, m: Message, id: nat)
    requires Sound(cfg) && RemoverOk(cfg, s, id) && Enabled(cfg, s, Deliver(m))
    ensures RemoverOk(cfg, Next(cfg, s, Deliver(m)), id)
  {
    hide Removals, StoreKey, PublishKey;
  }

  lemma RemoverTick(cfg: Config, s: State, id: nat)
    requires RemoverOk(cfg, s, id) && Enabled(cfg, s, Tick)
    ensures RemoverOk(cfg, Next(cfg, s, Tick), id)
  {
    hide Removals, StoreKey, PublishKey;
  }

  lemma RemoverOther(cfg: Config, s: State, step: Step, id: nat)
    requires RemoverOk(cfg, s, id) && Enabled(cfg, s, step) && !step.Publish? && !step.Deliver? && !step.Tick?
    ensures RemoverOk(cfg, Next(cfg, s, step), id)
  {
    hide Removals, StoreKey, PublishKey;
    assert Next(cfg, s, step).queue == s.queue && Next(cfg, s, step).now == s.now;
  }

  lemma RemoverStep(cfg: Config, s: State, step: Step, id: nat)
    requires Sound(cfg) && RemoverOk(cfg, s, id) && Enabled(cfg, s, step)
    ensures RemoverOk(cfg, Next(cfg, s, step), id)
  {
    hide Sound, RemoverOk, Enabled, Next;
    match step {
      case Publish(r) => RemoverPublish(cfg, s, r, id);
      case Deliver(m) => RemoverDeliver(cfg, s, m, id);
      case Tick => RemoverTick(cfg, s, id);
      case _ => RemoverOther(cfg, s, step, id);
    }
  }

  lemma RemoversStep(cfg: Config, s: State, step: Step)
    requires Sound(cfg) && Inv(cfg, s) && Enabled(cfg, s, step)
    ensures RemoversInv(cfg, Next(cfg, s, step))
  {
    hide Next, Enabled, RemoverOk, CacheInv, ReadersInv, QueueInv;
    forall id ensures RemoverOk(cfg, Next(cfg, s, step), id) {
      assert RemoverOk(cfg, s, id);
      RemoverStep(cfg, s, step, id);
    }
  }

  /** The commit of a removal adds a message that is due late enough. */
  lemma CoveredCommit(cfg: Config, s: State, id: nat, erased: bool, row: Row, entry: Entry, t: int)
    requires Sound(cfg) && Inv(cfg, s) && Enabled(cfg, s, Commit(id, erased))
    requires Covered(cfg, s, row, entry, t) && t <= s.now + cfg.writeLag
    ensures Covered(cfg, Next(cfg, s, Commit(id, erased)), row, entry, t)
  {
    hide CacheInv, ReadersInv, QueueInv;
    assert RemoverOk(cfg, s, id);
    var s' := Next(cfg, s, Commit(id, erased));
    if s.removers[id].row == row {
      assert Removals(s', row) == Removals(s, row) + [s.removers[id].at];
    } else {
      assert Removals(s', row) == Removals(s, row);
    }
  }

  /** What a step other than a commit leaves as it is: the removals of the row, its
      value, and the messages for it that are due after t. */
  ghost predicate Kept(cfg: Config, s: State, s': State, row: Row, t: int) {
    && Removals(s', row) == Removals(s, row)
    && (row in s.table ==> row in s'.table && s'.table[row] == s.table[row])
    && (forall m :: m in s.queue && m.key == StoreKey(cfg, row) && t < m.at + TTL ==> m in s'.queue)
  }

  lemma StepKeeps(cfg: Config, s: State, step: Step, row: Row, t: int)
    requires Enabled(cfg, s, step) && !step.Commit?
    requires step.Deliver? ==> s.now <= t || step.message.key != StoreKey(cfg, row)
    ensures Kept(cfg, s, Next(cfg, s, step), row, t)
  {
  }

  lemma CoveredKept(cfg: Config, s: State, s': State, row: Row, entry: Entry, t: int)
    requires Covered(cfg, s, row, entry, t) && Kept(cfg, s, s', row, t)
    ensures Covered(cfg, s', row, entry, t)
  {
  }

  /** No step uncovers a value that is carried no later than t: a commit adds a message
      that is due after t, and a delivery takes only messages that are due. */
  lemma CoveredStep(cfg: Config, s: State, step: Step, row: Row, entry: Entry, t: int)
    requires Sound(cfg) && Inv(cfg, s) && Enabled(cfg, s, step)
    requires Covered(cfg, s, row, entry, t)
    requires t <= s.now + cfg.writeLag
    requires step.Deliver? ==> s.now <= t || step.message.key != StoreKey(cfg, row)
    ensures Covered(cfg, Next(cfg, s, step), row, entry, t)
  {
    hide Covered, Inv, Kept, Next;
    if step.Commit? {
      CoveredCommit(cfg, s, step.id, step.erased, row, entry, t);
    } else {
      StepKeeps(cfg, s, step, row, t);
      CoveredKept(cfg, s, Next(cfg, s, step), row, entry, t);
    }
  }

  lemma CoveredFresh(cfg: Config, s: State, s': State, row: Row, entry: Entry, t: int)
    requires row in s.table && entry == Entry(s.table[row], |Removals(s, row)|)
    requires s'.table == s.table && s'.removals == s.removals
    ensures Covered(cfg, s', row, entry, t)
  {
  }

  /** What a reader carries may be put into the cache. */
  lemma CoveredStored(cfg: Config, s: State, s': State, row: Row, entry: Entry, t: int)
    requires Covered(cfg, s, row, entry, t)
    requires s'.table == s.table && s'.removals == s.removals && s'.queue == s.queue
    ensures Covered(cfg, s', row, entry, -1)
  {
  }

  lemma ReaderInTime(cfg: Config, s: State, step: Step, id: nat)
    requires ReadersInv(cfg, s) && Enabled(cfg, s, step)
    requires id in Next(cfg, s, step).readers && Next(cfg, s, step).readers[id].Loaded?
    ensures var reader := Next(cfg, s, step).readers[id];
            reader.readAt <= Next(cfg, s, step).now <= reader.readAt + cfg.writeLag
    ensures step != Load(id) ==> id in s.readers && s.readers[id] == Next(cfg, s, step).readers[id]
  {
    hide Covered;
    if id in s.readers {
      assert ReaderOk(cfg, s, s.readers[id]);
    }
  }

  lemma LoadsFresh(cfg: Config, s: State, id: nat)
    requires Enabled(cfg, s, Load(id)) && id in Next(cfg, s, Load(id)).readers
    ensures var s', reader := Next(cfg, s, Load(id)), Next(cfg, s, Load(id)).readers[id];
            && s'.table == s.table && s'.removals == s.removals && reader.Loaded? && reader.row in s.table
            && reader.entry == Entry(s.table[reader.row], |Removals(s, reader.row)|)
  {
  }

  lemma ReaderStep(cfg: Config, s: State, step: Step, id: nat)
    requires Sound(cfg) && Inv(cfg, s) && Enabled(cfg, s, step) && id in Next(cfg, s, step).readers
    ensures ReaderOk(cfg, Next(cfg, s, step), Next(cfg, s, step).readers[id])
  {
    hide CacheInv, RemoversInv, QueueInv, Covered, StoreKey, PublishKey, Removals;
    var s' := Next(cfg, s, step);
    var reader := s'.readers[id];
    if reader.Loaded? {
      ReaderInTime(cfg, s, step, id);
      if step == Load(id) {
        LoadsFresh(cfg, s, id);
        CoveredFresh(cfg, s, s', reader.row, reader.entry, reader.readAt + cfg.writeLag);
      } else {
        assert ReaderOk(cfg, s, reader);
        CoveredStep(cfg, s, step, reader.row, reader.entry, reader.readAt + cfg.writeLag);
      }
    }
  }

  lemma CacheStep(cfg: Config, s: State, step: Step)
    requires Sound(cfg) && Inv(cfg, s) && Enabled(cfg, s, step)
    ensures CacheInv(cfg, Next(cfg, s, step))
  {
    var s' := Next(cfg, s, step);
    hide Covered;
    forall row | StoreKey(cfg, row) in s'.cache
      ensures Covered(cfg, s', row, s'.cache[StoreKey(cfg, row)], -1)
    {
      if step.Store? && StoreKey(cfg, s.readers[step.id].row) == StoreKey(cfg, row) {
        var Loaded(written, entry, readAt) := s.readers[step.id];
        assert ReaderOk(cfg, s, s.readers[step.id]);
        KeyInjective(cfg, written, row);
        CoveredStored(cfg, s, s', row, entry, readAt + cfg.writeLag);
      } else {
        CoveredStep(cfg, s, step, row, s'.cache[StoreKey(cfg, row)], -1);
      }
    }
  }

  lemma StepInv(cfg: Config, s: State, step: Step)
    requires Sound(cfg) && Inv(cfg, s) && Enabled(cfg, s, step)
    ensures Inv(cfg, Next(cfg, s, step))
  {
    QueueStep(cfg, s, step);
    RemoversStep(cfg, s, step);
    forall id | id in Next(cfg, s, step).readers
      ensures ReaderOk(cfg, Next(cfg, s, step), Next(cfg, s, step).readers[id])
    {
      ReaderStep(cfg, s, step, id);
    }
    CacheStep(cfg, s, step);
  }

  lemma {:induction false} RunInv(cfg: Config, s: State, steps: seq<Step>)
    requires Sound(cfg) && Inv(cfg, s) && Executable(cfg, s, steps)
    ensures Inv(cfg, Run(cfg, s, steps))
    decreases |steps|
  {
    if steps != [] {
      StepInv(cfg, s, steps[0]);
      RunInv(cfg, Next(cfg, s, steps[0]), steps[1..]);
    }
  }

  // ---------------------------------------------------------------------- coherence

  /** A hit on the row would return something else than the committed row. */
  ghost predicate Stale(cfg: Config, s: State, row: Row) {
    && StoreKey(cfg, row) in s.cache
    && !(row in s.table && s.table[row] == s.cache[StoreKey(cfg, row)].value)
  }

  ghost predicate DeletePending(cfg: Config, s: State, row: Row, after: int) {
    exists m :: m in s.queue && m.key == StoreKey(cfg, row) && after < m.at + TTL
  }

  lemma InitInv(cfg: Config)
    ensures Inv(cfg, INIT)
  {
  }

  /** Coherence: in every reachable state a stale cache entry has its delete pending,
      and a stale value still being carried to the cache has a delete pending that is
      due after it will have been written. */
  lemma Coherent(cfg: Config, steps: seq<Step>)
    requires Sound(cfg) && Executable(cfg, INIT, steps)
    ensures var s := Run(cfg, INIT, steps);
            && (forall row :: Stale(cfg, s, row) ==> DeletePending(cfg, s, row, -1))
            && (forall id :: id in s.readers && s.readers[id].Loaded? ==>
                  var Loaded(row, entry, readAt) := s.readers[id];
                  (row in s.table && s.table[row] == entry.value)
                  || DeletePending(cfg, s, row, readAt + cfg.writeLag))
  {
    InitInv(cfg);
    RunInv(cfg, INIT, steps);
    var s := Run(cfg, INIT, steps);
    forall row | Stale(cfg, s, row) ensures DeletePending(cfg, s, row, -1) {
      var entry := s.cache[StoreKey(cfg, row)];
      assert Covered(cfg, s, row, entry, -1);
      assert Message(StoreKey(cfg, row), Removals(s, row)[entry.seen]) in s.queue;
    }
    forall id | id in s.readers && s.readers[id].Loaded?
      ensures var Loaded(row, entry, readAt) := s.readers[id];
              (row in s.table && s.table[row] == entry.value)
              || DeletePending(cfg, s, row, readAt + cfg.writeLag)
    {
      var Loaded(row, entry, readAt) := s.readers[id];
      assert ReaderOk(cfg, s, s.readers[id]);
      if entry.seen < |Removals(s, row)| {
        assert Message(StoreKey(cfg, row), Removals(s, row)[entry.seen]) in s.queue;
      }
    }
  }

  // ------------------------------------------------------------- bounded staleness

  ghost function Current(s: State, row: Row): set<Value> {
    if row in s.table then {s.table[row]} else {}
  }

  /** Every value the row had in the committed table at some moment of the run. */
  ghost function CommittedDuring(cfg: Config, s: State, steps: seq<Step>, row: Row): set<Value>
    requires Executable(cfg, s, steps)
    decreases |steps|
  {
    Current(s, row) +
    if steps == [] then {} else CommittedDuring(cfg, Next(cfg, s, steps[0]), steps[1..], row)
  }

  /** Values of the row read after its first n removals all lie in values. */
  ghost predicate ReadFrom(cfg: Config, s: State, row: Row, n: nat, values: set<Value>) {
    && Current(s, row) <= values
    && (StoreKey(cfg, row) in s.cache && s.cache[StoreKey(cfg, row)].seen >= n ==>
          s.cache[StoreKey(cfg, row)].value in values)
    && (forall id :: id in s.readers && s.readers[id].Loaded? && s.readers[id].row == row ==>
          s.readers[id].entry.seen >= n ==> s.readers[id].entry.value in values)
  }

  lemma ReadFromStep(cfg: Config, s: State, step: Step, row: Row, n: nat, values: set<Value>)
    requires Enabled(cfg, s, step) && ReadFrom(cfg, s, row, n, values)
    ensures ReadFrom(cfg, Next(cfg, s, step), row, n, values + Current(Next(cfg, s, step), row))
  {
    hide StoreKey, PublishKey, Removals;
    var s' := Next(cfg, s, step);
    if step.Store? {
      KeyInjective(cfg, s.readers[step.id].row, row);
    } else {
      assert StoreKey(cfg, row) in s'.cache ==>
          StoreKey(cfg, row) in s.cache && s.cache[StoreKey(cfg, row)] == s'.cache[StoreKey(cfg, row)];
    }
  }

  lemma RemovalsGrow(cfg: Config, s: State, step: Step, row: Row)
    requires Enabled(cfg, s, step)
    ensures Removals(s, row) <= Removals(Next(cfg, s, step), row)
  {
  }

  lemma {:induction false} ReadFromRun(cfg: Config, s: State, steps: seq<Step>, row: Row, n: nat, values: set<Value>)
    requires Executable(cfg, s, steps) && ReadFrom(cfg, s, row, n, values)
    ensures ReadFrom(cfg, Run(cfg, s, steps), row, n, values + CommittedDuring(cfg, s, steps, row))
    ensures Removals(s, row) <= Removals(Run(cfg, s, steps), row)
    decreases |steps|
  {
    if steps == [] {
      assert values + CommittedDuring(cfg, s, steps, row) == values;
    } else {
      var s' := Next(cfg, s, steps[0]);
      ReadFromStep(cfg, s, steps[0], row, n, values);
      RemovalsGrow(cfg, s, steps[0], row);
      ReadFromRun(cfg, s', steps[1..], row, n, values + Current(s', row));
      assert values + Current(s', row) + CommittedDuring(cfg, s', steps[1..], row)
          == values + CommittedDuring(cfg, s, steps, row);
    }
  }

  /** Bounded staleness: let a removal that was published at time p commit. Later
      than p + TTL + deliveryLag, any value that a lookup of the row finds in the
      cache, or carries after a miss, was in the committed table at some moment
      since that commit: the removed row cannot come back. */
  lemma BoundedStaleness(cfg: Config, before: seq<Step>, id: nat, erased: bool, after: seq<Step>)
    requires Sound(cfg) && Executable(cfg, INIT, before)
    requires Enabled(cfg, Run(cfg, INIT, before), Commit(id, erased))
    requires Executable(cfg, Next(cfg, Run(cfg, INIT, before), Commit(id, erased)), after)
    ensures var Published(row, p) := Run(cfg, INIT, before).removers[id];
            var committed := Next(cfg, Run(cfg, INIT, before), Commit(id, erased));
            var s := Run(cfg, committed, after);
            s.now > p + TTL + cfg.deliveryLag ==>
              && (StoreKey(cfg, row) in s.cache ==>
                    s.cache[StoreKey(cfg, row)].value in CommittedDuring(cfg, committed, after, row))
              && (forall r :: r in s.readers && s.readers[r].Loaded? && s.readers[r].row == row ==>
                    s.readers[r].entry.value in CommittedDuring(cfg, committed, after, row))
  {
    InitInv(cfg);
    RunInv(cfg, INIT, before);
    var s0 := Run(cfg, INIT, before);
    var Published(row, p) := s0.removers[id];
    var committed := Next(cfg, s0, Commit(id, erased));
    StepInv(cfg, s0, Commit(id, erased));
    RunInv(cfg, committed, after);
    var s, n := Run(cfg, committed, after), |Removals(committed, row)|;
    ReadFromCommit(cfg, committed, row);
    ReadFromRun(cfg, committed, after, row, n, Current(committed, row));
    assert Removals(s, row)[n - 1] == p;
    assert Current(committed, row) + CommittedDuring(cfg, committed, after, row)
        == CommittedDuring(cfg, committed, after, row);
    if s.now > p + TTL + cfg.deliveryLag {
      assert Message(StoreKey(cfg, row), p) !in s.queue;
      if StoreKey(cfg, row) in s.cache {
        assert Covered(cfg, s, row, s.cache[StoreKey(cfg, row)], -1);
      }
      forall r | r in s.readers && s.readers[r].Loaded? && s.readers[r].row == row
        ensures s.readers[r].entry.seen >= n
      {
        assert ReaderOk(cfg, s, s.readers[r]);
      }
    }
  }

  /** Whatever was read after the last removal is the committed row. */
  lemma ReadFromCommit(cfg: Config, s: State, row: Row)
    requires Inv(cfg, s)
    ensures ReadFrom(cfg, s, row, |Removals(s, row)|, Current(s, row))
  {
    if StoreKey(cfg, row) in s.cache {
      assert Covered(cfg, s, row, s.cache[StoreKey(cfg, row)], -1);
    }
    forall id | id in s.readers && s.readers[id].Loaded?
        && s.readers[id].row == row && s.readers[id].entry.seen >= |Removals(s, row)|
      ensures s.readers[id].entry.value in Current(s, row)
    {
      assert ReaderOk(cfg, s, s.readers[id]);
    }
  }

  // --------------------------------------------------- the condition is necessary

  /** A run from the initial state, extended by one step. */
  lemma {:induction false} RunExtend(cfg: Config, s: State, steps: seq<Step>, step: Step)
    requires Executable(cfg, s, steps) && Enabled(cfg, Run(cfg, s, steps), step)
    ensures Executable(cfg, s, steps + [step])
    ensures Run(cfg, s, steps + [step]) == Next(cfg, Run(cfg, s, steps), step)
    decreases |steps|
  {
    if steps == [] {
      assert steps + [step] == [step];
      assert Executable(cfg, Next(cfg, s, step), []);
    } else {
      RunExtend(cfg, Next(cfg, s, steps[0]), steps[1..], step);
      assert (steps + [step])[1..] == steps[1..] + [step];
    }
  }

  lemma Do(cfg: Config, steps: seq<Step>, s: State, step: Step) returns (steps': seq<Step>, s': State)
    requires Executable(cfg, INIT, steps) && Run(cfg, INIT, steps) == s && Enabled(cfg, s, step)
    ensures s' == Next(cfg, s, step)
    ensures Executable(cfg, INIT, steps') && Run(cfg, INIT, steps') == s'
  {
    RunExtend(cfg, INIT, steps, step);
    steps', s' := steps + [step], Next(cfg, s, step);
  }

  lemma {:induction false} DoTicks(cfg: Config, steps: seq<Step>, s: State, n: nat)
      returns (steps': seq<Step>, s': State)
    requires Executable(cfg, INIT, steps) && Run(cfg, INIT, steps) == s
    requires n > 0 ==> Enabled(cfg, s.(now := s.now + n - 1), Tick)
    ensures s' == s.(now := s.now + n)
    ensures Executable(cfg, INIT, steps') && Run(cfg, INIT, steps') == s'
  {
    if n == 0 {
      steps', s' := steps, s;
    } else {
      steps', s' := DoTicks(cfg, steps, s, n - 1);
      steps', s' := Do(cfg, steps', s', Tick);
    }
  }

  /** A row that has been looked up once. */
  lemma CachedRow(cfg: Config, row: Row) returns (steps: seq<Step>, s: State)
    ensures s == State(0, map[row := "role"], map[],
        map[StoreKey(cfg, row) := Entry("role", 0)], map[], map[], multiset{})
    ensures Executable(cfg, INIT, steps) && Run(cfg, INIT, steps) == s
  {
    assert Executable(cfg, INIT, []) && Run(cfg, INIT, []) == INIT;
    hide Executable, Run, StoreKey;
    steps, s := Do(cfg, [], INIT, Insert(row, "role"));
    steps, s := DoLookup(cfg, steps, s, row);
    steps, s := Do(cfg, steps, s, Store(0));
    assert s.readers == map[];
  }

  lemma DoRemoval(cfg: Config, steps: seq<Step>, s: State, row: Row) returns (steps': seq<Step>, s': State)
    requires Executable(cfg, INIT, steps) && Run(cfg, INIT, steps) == s && s.removers == map[]
    ensures s' == s.(cache := s.cache - {PublishKey(cfg, row)},
                     queue := s.queue + multiset{Message(PublishKey(cfg, row), s.now)},
                     removers := map[0 := Published(row, s.now)])
    ensures Executable(cfg, INIT, steps') && Run(cfg, INIT, steps') == s'
  {
    hide Executable, Run, PublishKey;
    steps', s' := Do(cfg, steps, s, Erase(0, row));
    steps', s' := Do(cfg, steps', s', Evict(0));
    steps', s' := Do(cfg, steps', s', Publish(0));
  }

  lemma DoLookup(cfg: Config, steps: seq<Step>, s: State, row: Row) returns (steps': seq<Step>, s': State)
    requires Executable(cfg, INIT, steps) && Run(cfg, INIT, steps) == s && s.readers == map[]
    requires StoreKey(cfg, row) !in s.cache && row in s.table
    ensures s' == s.(readers := map[0 := Loaded(row, Entry(s.table[row], |Removals(s, row)|), s.now)])
    ensures Executable(cfg, INIT, steps') && Run(cfg, INIT, steps') == s'
  {
    hide Executable, Run;
    steps', s' := Do(cfg, steps, s, Lookup(0, row));
    steps', s' := Do(cfg, steps', s', Load(0));
  }

  /** Nothing is going on and nothing is left to be delivered. */
  predicate Quiescent(s: State) {
    s.queue == multiset{} && s.readers == map[] && s.removers == map[]
  }

  /** A run that comes to rest with the removed row in the cache, where only its own
      expiry takes it away. */
  ghost predicate RestsStale(cfg: Config, steps: seq<Step>, row: Row) {
    Executable(cfg, INIT, steps) && Quiescent(Run(cfg, INIT, steps)) && Stale(cfg, Run(cfg, INIT, steps), row)
  }

  /** Whenever the condition fails, every row has a run that comes to rest with nothing
      left to be delivered and yet the removed row in the cache, until it expires. */
  lemma Incoherent(cfg: Config, row: Row) returns (steps: seq<Step>)
    requires !Sound(cfg)
    ensures RestsStale(cfg, steps, row)
  {
    if cfg.storePrefix != cfg.publishPrefix {
      steps := WrongKey(cfg, row);
    } else if cfg.commitLag >= TTL {
      steps := LateCommit(cfg, row);
    } else {
      steps := LateStore(cfg, row);
    }
  }

  lemma KeysDiffer(cfg: Config, row: Row)
    ensures StoreKey(cfg, row) == PublishKey(cfg, row) <==> cfg.storePrefix == cfg.publishPrefix
  {
    var a, b := StoreKey(cfg, row), PublishKey(cfg, row);
    assert a[..|a| - |row|] == cfg.storePrefix && b[..|b| - |row|] == cfg.publishPrefix;
  }

  /** The delete goes to another key than the one the row is cached under. */
  lemma WrongKey(cfg: Config, row: Row) returns (steps: seq<Step>)
    requires cfg.storePrefix != cfg.publishPrefix
    ensures RestsStale(cfg, steps, row)
  {
    KeysDiffer(cfg, row);
    hide Executable, Run, StoreKey, PublishKey;
    var s;
    steps, s := CachedRow(cfg, row);
    steps, s := DoRemoval(cfg, steps, s, row);
    steps, s := Do(cfg, steps, s, Commit(0, true));
    assert s.removers == map[] && s.queue == multiset{Message(PublishKey(cfg, row), 0)};
    steps, s := DoTicks(cfg, steps, s, TTL);
    steps, s := Do(cfg, steps, s, Deliver(Message(PublishKey(cfg, row), 0)));
  }

  /** The row's removal is published and its message delivered before it commits. */
  lemma DeliveredEarly(cfg: Config, row: Row) returns (steps: seq<Step>, s: State)
    requires cfg.commitLag >= TTL
    ensures s == State(TTL, map[row := "role"], map[], map[], map[], map[0 := Published(row, 0)], multiset{})
    ensures Executable(cfg, INIT, steps) && Run(cfg, INIT, steps) == s
  {
    assert Executable(cfg, INIT, []) && Run(cfg, INIT, []) == INIT;
    hide Executable, Run, PublishKey, StoreKey;
    steps, s := Do(cfg, [], INIT, Insert(row, "role"));
    steps, s := DoRemoval(cfg, steps, s, row);
    steps, s := DoTicks(cfg, steps, s, TTL);
    steps, s := Do(cfg, steps, s, Deliver(Message(PublishKey(cfg, row), 0)));
    assert s.cache == map[] && s.queue == multiset{};
  }

  /** The transaction commits after the delayed delete. */
  lemma LateCommit(cfg: Config, row: Row) returns (steps: seq<Step>)
    requires cfg.commitLag >= TTL
    ensures RestsStale(cfg, steps, row)
  {
    hide Executable, Run, StoreKey;
    var s;
    steps, s := DeliveredEarly(cfg, row);
    steps, s := DoLookup(cfg, steps, s, row);
    steps, s := Do(cfg, steps, s, Store(0));
    steps, s := Do(cfg, steps, s, Commit(0, true));
    assert s.readers == map[] && s.removers == map[];
  }

  /** A lookup has read the row just before a removal committed, as late as it may. */
  lemma ReadBeforeCommit(cfg: Config, row: Row) returns (steps: seq<Step>, s: State)
    requires cfg.commitLag < TTL
    ensures s == State(cfg.commitLag, map[], map[row := [0]], map[],
                       map[0 := Loaded(row, Entry("role", 0), cfg.commitLag)], map[],
                       multiset{Message(PublishKey(cfg, row), 0)})
    ensures Executable(cfg, INIT, steps) && Run(cfg, INIT, steps) == s
  {
    assert Executable(cfg, INIT, []) && Run(cfg, INIT, []) == INIT;
    hide Executable, Run, PublishKey, StoreKey;
    steps, s := Do(cfg, [], INIT, Insert(row, "role"));
    steps, s := DoRemoval(cfg, steps, s, row);
    steps, s := DoTicks(cfg, steps, s, cfg.commitLag);
    steps, s := DoLookup(cfg, steps, s, row);
    steps, s := Do(cfg, steps, s, Commit(0, true));
    assert s.table == map[] && s.cache == map[] && s.removers == map[];
    assert s.removals[row] == [0];
    assert s.removals == map[row := [0]];
  }

  /** That lookup stores what it read after the delayed delete. */
  lemma LateStore(cfg: Config, row: Row) returns (steps: seq<Step>)
    requires cfg.commitLag < TTL <= cfg.commitLag + cfg.writeLag
    ensures RestsStale(cfg, steps, row)
  {
    hide Executable, Run, StoreKey, PublishKey;
    var s;
    steps, s := ReadBeforeCommit(cfg, row);
    steps, s := DoTicks(cfg, steps, s, TTL - cfg.commitLag);
    steps, s := Do(cfg, steps, s, Deliver(Message(PublishKey(cfg, row), 0)));
    steps, s := Do(cfg, steps, s, Store(0));
    assert s.readers == map[] && s.queue == multiset{};
  }

  /** Every run that has drained its delete messages ends with a cache that agrees
      with the committed table. */
  ghost predicate DrainedRunsAgree(cfg: Config) {
    forall steps | Executable(cfg, INIT, steps) ::
      Run(cfg, INIT, steps).queue == multiset{} ==> forall row :: !Stale(cfg, Run(cfg, INIT, steps), row)
  }

  /** Every run that has come to rest ends with a cache that agrees with the committed
      table on one row. */
  ghost predicate RestAgrees(cfg: Config, row: Row) {
    forall steps | Executable(cfg, INIT, steps) ::
      Quiescent(Run(cfg, INIT, steps)) ==> !Stale(cfg, Run(cfg, INIT, steps), row)
  }

  /** The delayed double delete is coherent if and only if the lags of commit and
      cache write together stay below the delay and keys are published as stored: then
      all rows agree as soon as the messages are drained, and otherwise no row is safe
      even at rest. */
  lemma CoherentIffSound(cfg: Config)
    ensures DrainedRunsAgree(cfg) <==> Sound(cfg)
    ensures forall row :: RestAgrees(cfg, row) <==> Sound(cfg)
  {
    if Sound(cfg) {
      forall steps | Executable(cfg, INIT, steps)
        ensures Run(cfg, INIT, steps).queue == multiset{} ==> forall row :: !Stale(cfg, Run(cfg, INIT, steps), row)
      {
        Coherent(cfg, steps);
      }
    } else {
      forall row ensures !RestAgrees(cfg, row) && !DrainedRunsAgree(cfg) {
        var steps := Incoherent(cfg, row);
        assert Quiescent(Run(cfg, INIT, steps));
      }
      assert !RestAgrees(cfg, "");
    }
  }

  // ---------------------------------------------------- the three caches of the system

  function RoleCache(commitLag: nat, writeLag: nat, deliveryLag: nat): Config {
    Config(commitLag, writeLag, deliveryLag, "sui_role_permission_", "sui_role_permission_")
  }

  function IdentityCache(commitLag: nat, writeLag: nat, deliveryLag: nat): Config {
    Config(commitLag, writeLag, deliveryLag, "user_Identity_role_redis_key", "user_Identity_role_redis_key")
  }

  /** Sessions are stored under a prefix and published without it. */
  function SessionCache(commitLag: nat, writeLag: nat, deliveryLag: nat): Config {
    Config(commitLag, writeLag, deliveryLag, "sui_session_", "")
  }

  /** The role and identity caches are coherent just when the lags fit into the
      delay; the session cache is not, whatever the lags. */
  lemma WhichCachesAgree(c: nat, w: nat, d: nat)
    ensures DrainedRunsAgree(RoleCache(c, w, d)) <==> c + w < 3000
    ensures DrainedRunsAgree(IdentityCache(c, w, d)) <==> c + w < 3000
    ensures !DrainedRunsAgree(SessionCache(c, w, d))
  {
    CoherentIffSound(RoleCache(c, w, d));
    CoherentIffSound(IdentityCache(c, w, d));
    CoherentIffSound(SessionCache(c, w, d));
  }

  // ------------------------------------------------------------ after the first delete

  predicate StoresRow(cfg: Config, s: State, step: Step, row: Row)
    requires Enabled(cfg, s, step)
  {
    step.Store? && s.readers[step.id].row == row
  }

  ghost predicate NeverStored(cfg: Config, s: State, steps: seq<Step>, row: Row)
    requires Executable(cfg, s, steps)
    decreases |steps|
  {
    steps == [] || (!StoresRow(cfg, s, steps[0], row) && NeverStored(cfg, Next(cfg, s, steps[0]), steps[1..], row))
  }

  lemma MissKept(cfg: Config, s: State, step: Step, row: Row)
    requires Enabled(cfg, s, step) && StoreKey(cfg, row) !in s.cache && !StoresRow(cfg, s, step, row)
    ensures StoreKey(cfg, row) !in Next(cfg, s, step).cache
  {
    if step.Store? {
      KeyInjective(cfg, s.readers[step.id].row, row);
    }
  }

  lemma {:induction false} MissRun(cfg: Config, s: State, steps: seq<Step>, row: Row)
    requires Executable(cfg, s, steps) && StoreKey(cfg, row) !in s.cache && NeverStored(cfg, s, steps, row)
    ensures StoreKey(cfg, row) !in Run(cfg, s, steps).cache
    decreases |steps|
  {
    hide StoreKey, Next, Enabled, StoresRow;
    if steps != [] {
      MissKept(cfg, s, steps[0], row);
      MissRun(cfg, Next(cfg, s, steps[0]), steps[1..], row);
    }
  }

  /** Deletes take effect at once and last: after the first delete of a removal, the delivery
      of its message, or the expiry of the entry, every lookup of the row misses until some lookup
      stores it again. */
  lemma DeletesLast(cfg: Config, s: State, step: Step, row: Row, after: seq<Step>)
    requires Sound(cfg) && Enabled(cfg, s, step) && Executable(cfg, Next(cfg, s, step), after)
    requires || (step.Evict? && s.removers[step.id].row == row)
             || (step.Deliver? && step.message.key == StoreKey(cfg, row))
             || step == Expire(StoreKey(cfg, row))
    requires NeverStored(cfg, Next(cfg, s, step), after, row)
    ensures StoreKey(cfg, row) !in Run(cfg, Next(cfg, s, step), after).cache
  {
    MissRun(cfg, Next(cfg, s, step), after, row);
  }

  ghost predicate CachedThroughout(cfg: Config, s: State, steps: seq<Step>, row: Row)
    requires Executable(cfg, s, steps)
    decreases |steps|
  {
    && StoreKey(cfg, row) in s.cache
    && (steps == [] || CachedThroughout(cfg, Next(cfg, s, steps[0]), steps[1..], row))
  }

  /** Lookups of the row that have missed and are on their way through the table. */
  function Reading(s: State, row: Row): set<nat> {
    set id | id in s.readers && s.readers[id].row == row
  }

  lemma ReadingStep(cfg: Config, s: State, step: Step, row: Row)
    requires Enabled(cfg, s, step) && StoreKey(cfg, row) in s.cache
    ensures Reading(Next(cfg, s, step), row) <= Reading(s, row)
  {
  }

  /** A hit spares the table: while a row is cached, no lookup of it goes to the table that
      was not on its way there before. */
  lemma {:induction false} HitsSpareTable(cfg: Config, s: State, steps: seq<Step>, row: Row)
    requires Executable(cfg, s, steps) && CachedThroughout(cfg, s, steps, row)
    ensures Reading(Run(cfg, s, steps), row) <= Reading(s, row)
    decreases |steps|
  {
    hide Next, Enabled, Reading, StoreKey;
    if steps != [] {
      ReadingStep(cfg, s, steps[0], row);
      HitsSpareTable(cfg, Next(cfg, s, steps[0]), steps[1..], row);
    }
  }

  /** A lookup that reads the table carries on with the committed row just when there is one,
      and is over otherwise; and it is over once it has stored the row or failed. A removal
      is over once it is committed or rolled back. */
  lemma WorkEnds(cfg: Config, s: State, step: Step)
    requires Enabled(cfg, s, step)
    ensures var s' := Next(cfg, s, step);
            && (step.Load? ==>
                  && (step.id in s'.readers <==> s.readers[step.id].row in s.table)
                  && (step.id in s'.readers ==>
                        && s'.readers[step.id].Loaded? && s'.readers[step.id].row == s.readers[step.id].row
                        && s'.readers[step.id].entry.value == s.table[s.readers[step.id].row]))
            && (step.Store? || step.GiveUp? ==> step.id !in s'.readers)
            && (step.Commit? || step.Rollback? ==> step.id !in s'.removers)
            && (step.Rollback? ==> s'.table == s.table)
            && (step.Commit? ==> s'.table == if step.erased then s.table - {s.removers[step.id].row} else s.table)
  {
  }
}
