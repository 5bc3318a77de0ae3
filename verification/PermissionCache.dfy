/** The role-permission and identity-role caches under sequential use
    (services/data/role_permission.cpp, user_Identity_role.cpp, data.cpp): the cache
    must not show. Enumerators are stored in the table as bytes and in the cache as
    their names. */
module PermissionCache {
  import opened Base
  import DelayedDelete

  newtype Byte = x: int | 0 <= x < 256

  // ---------------------------------------------------------- enumerators and names

  function RoleTypeToString(role: Byte): string {
    match role
    case 1 => "roleTypeNormal"
    case 2 => "roleTypeAdmin"
    case 3 => "roleTypeSuperAdmin"
    case _ => "roleTypeUnknown"
  }

  function StringToRoleType(name: string): Byte {
    if name == "roleTypeNormal" then 1
    else if name == "roleTypeAdmin" then 2
    else if name == "roleTypeSuperAdmin" then 3
    else 0
  }

  function IdentityTypeToString(identity: Byte): string {
    match identity
    case 1 => "identityTypeNormal"
    case 2 => "identityTypeAdmin"
    case _ => "identityTypeUnknown"
  }

  function StringToIdentityType(name: string): Byte {
    if name == "identityTypeNormal" then 1
    else if name == "identityTypeAdmin" then 2
    else 0
  }

  function Weight(role: Byte): int {
    match role
    case 3 => 100
    case 2 => 50
    case 1 => 10
    case _ => 0
  }

  predicate KnownRole(role: Byte) { role <= 3 }
  predicate KnownIdentity(identity: Byte) { identity <= 2 }

  lemma NamesDiffer()
    ensures "roleTypeUnknown"[8] == 'U' && "roleTypeNormal"[8] == 'N'
        && "roleTypeAdmin"[8] == 'A' && "roleTypeSuperAdmin"[8] == 'S'
    ensures "identityTypeUnknown"[12] == 'U' && "identityTypeNormal"[12] == 'N' && "identityTypeAdmin"[12] == 'A'
  {
  }

  /** Exactly the declared enumerators survive the way through their names; the weight
      of a role always does. */
  lemma NamesRoundTrip(role: Byte, identity: Byte)
    ensures StringToRoleType(RoleTypeToString(role)) == role <==> KnownRole(role)
    ensures StringToIdentityType(IdentityTypeToString(identity)) == identity <==> KnownIdentity(identity)
    ensures Weight(StringToRoleType(RoleTypeToString(role))) == Weight(role)
  {
    NamesDiffer();
  }

  // -------------------------------------------------------------------------- keys

  const ROLE_PREFIX := "sui_role_permission_"
  const USER_PREFIX := "user_Identity_role_redis_key"

  function RoleKey(url: string): string { ROLE_PREFIX + url }
  function UserKey(user: string): string { USER_PREFIX + user }

  /** Keys of one kind tell their rows apart, and the two kinds never meet. */
  lemma KeysApart(a: string, b: string)
    ensures RoleKey(a) == RoleKey(b) <==> a == b
    ensures UserKey(a) == UserKey(b) <==> a == b
    ensures RoleKey(a) != UserKey(b)
  {
    assert RoleKey(a)[|ROLE_PREFIX|..] == a && RoleKey(b)[|ROLE_PREFIX|..] == b;
    assert UserKey(a)[|USER_PREFIX|..] == a && UserKey(b)[|USER_PREFIX|..] == b;
    assert RoleKey(a)[0] == 's' && UserKey(b)[0] == 'u';
  }

  // ------------------------------------------------------------- tables and cache

  datatype Account = Account(userId: string, role: Byte, identity: Byte)

  /** The two tables; at most one row for an operation url and for a user id. */
  datatype Tables = Tables(operations: map<string, Byte>, users: map<string, Account>)

  /** A redis value: a string, or a hash. */
  datatype Cached = Text(text: string) | Hash(fields: map<string, string>)

  const ID_FIELD := "user_id_key"
  const IDENTITY_FIELD := "user_identity_key"
  const ROLE_FIELD := "user_role_key"

  datatype Store = Store(tables: Tables, redis: map<string, Cached>)

  function EncodeAccount(a: Account): Cached {
    Hash(map[ID_FIELD := a.userId, IDENTITY_FIELD := IdentityTypeToString(a.identity),
        ROLE_FIELD := RoleTypeToString(a.role)])
  }

  /** A field that is missing reads as the empty string. */
  function Field(fields: map<string, string>, name: string): string {
    if name in fields then fields[name] else ""
  }

  function DecodeAccount(fields: map<string, string>): Account {
    Account(Field(fields, ID_FIELD), StringToRoleType(Field(fields, ROLE_FIELD)),
        StringToIdentityType(Field(fields, IDENTITY_FIELD)))
  }

  /** Cached entries are what their rows encode to. */
  ghost predicate OperationsCoherent(s: Store) {
    forall url :: RoleKey(url) in s.redis ==>
      url in s.tables.operations && s.redis[RoleKey(url)] == Text(RoleTypeToString(s.tables.operations[url]))
  }

  ghost predicate UsersCoherent(s: Store) {
    && (forall user :: UserKey(user) in s.redis ==>
          user in s.tables.users && s.redis[UserKey(user)] == EncodeAccount(s.tables.users[user]))
    && (forall user :: user in s.tables.users ==> s.tables.users[user].userId == user)
  }

  ghost predicate Coherent(s: Store) {
    OperationsCoherent(s) && UsersCoherent(s)
  }

  // --------------------------------------------------------------------- the class

  class Permissions {
    var operations: map<string, Byte>
    var users: map<string, Account>
    var redis: map<string, Cached>

    ghost function View(): Store
      reads this
    {
      Store(Tables(operations, users), redis)
    }

    constructor ()
      ensures View() == Store(Tables(map[], map[]), map[])
    {
      operations, users, redis := map[], map[], map[];
    }

    method InsertOperation(url: string, role: Byte)
      requires url !in operations
      modifies this`operations
      ensures View() == Apply(old(View()), Op.InsertOperation(url, role)).0
    {
      operations := operations[url := role];
    }

    /** remove, with the first delete of SyncCache and the commit of its caller. */
    method RemoveOperation(url: string)
      modifies this`operations, this`redis
      ensures View() == Apply(old(View()), Op.RemoveOperation(url)).0
    {
      operations := operations - {url};
      var _ := SyncCache([RoleKey(url)]);
      assert forall k :: k in redis <==> k in old(redis) && k != RoleKey(url);
    }

    /** The first deletes; the message that is published after them is a step of its own
        in the timed model. */
    method SyncCache(keys: seq<string>) returns (published: bool)
      modifies this`redis
      ensures redis == old(redis) - (set k | k in keys)
      ensures published <==> keys != []
    {
      if keys == [] {
        return false;
      }
      for i := 0 to |keys|
        invariant redis == old(redis) - (set k | k in keys[..i])
      {
        redis := redis - {keys[i]};
        assert keys[..i + 1] == keys[..i] + [keys[i]];
      }
      assert keys[..|keys|] == keys;
      published := true;
    }

    /** A delayed delete message arrives: None is a body that does not parse, which is
        dropped. Either way the message is acknowledged. */
    method Callback(body: Option<seq<string>>) returns (acknowledge: bool)
      modifies this`redis
      ensures acknowledge
      ensures View() == Replay(old(View()), if body.Some? then Deletes(body.value) else [])
    {
      if body == None {
        return true;
      }
      var keys := body.value;
      DeletesKeys(View(), keys);
      for i := 0 to |keys|
        invariant redis == old(redis) - (set k | k in keys[..i])
      {
        redis := redis - {keys[i]};
        assert keys[..i + 1] == keys[..i] + [keys[i]];
      }
      assert keys[..|keys|] == keys;
      acknowledge := true;
    }

    /** Only this class writes keys of its prefix, and writes strings. */
    method GetPermissionsByOperation(url: string) returns (role: Option<Byte>)
      requires RoleKey(url) in redis ==> redis[RoleKey(url)].Text?
      modifies this`redis
      ensures (View(), role) == LookupOperation(old(View()), url)
    {
      var key := RoleKey(url);
      if key in redis {
        return Some(StringToRoleType(redis[key].text));
      }
      if url !in operations {
        return None;
      }
      role := Some(operations[url]);
      redis := redis[key := Text(RoleTypeToString(operations[url]))];
    }

    method CheckPermission(role: Byte, url: string) returns (allowed: bool)
      requires RoleKey(url) in redis ==> redis[RoleKey(url)].Text?
      modifies this`redis
      ensures (View(), allowed) == Apply(old(View()), Op.CheckPermission(role, url))
    {
      hide LookupOperation, Weight;
      var needed := GetPermissionsByOperation(url);
      if needed.Some? {
        return Weight(role) >= Weight(needed.value);
      }
      allowed := false;
    }

    method InsertUser(user: string, role: Byte, identity: Byte)
      requires user !in users
      modifies this`users
      ensures View() == Apply(old(View()), Op.InsertUser(user, role, identity)).0
    {
      users := users[user := Account(user, role, identity)];
    }

    method RemoveUser(user: string)
      modifies this`users, this`redis
      ensures View() == Apply(old(View()), Op.RemoveUser(user)).0
    {
      users := users - {user};
      var _ := SyncCache([UserKey(user)]);
      assert forall k :: k in redis <==> k in old(redis) && k != UserKey(user);
    }

    /** Only this class writes keys of its prefix, and writes hashes. */
    method Select(user: string) returns (account: Option<Account>)
      requires UserKey(user) in redis ==> redis[UserKey(user)].Hash?
      modifies this`redis
      ensures (View(), account) == LookupUser(old(View()), user)
    {
      var key := UserKey(user);
      if key in redis && redis[key].fields != map[] {
        return Some(DecodeAccount(redis[key].fields));
      }
      if user !in users {
        return None;
      }
      account := Some(users[user]);
      redis := redis[UserKey(account.value.userId) := EncodeAccount(account.value)];
    }

    method HasRole(user: string, role: Byte) returns (has: bool)
      requires UserKey(user) in redis ==> redis[UserKey(user)].Hash?
      modifies this`redis
      ensures (View(), has) == Apply(old(View()), Op.HasRole(user, role))
    {
      hide LookupUser;
      var account := Select(user);
      if account.Some? {
        return account.value.role == role;
      }
      has := false;
    }

    method HasIdentity(user: string, identity: Byte) returns (has: bool)
      requires UserKey(user) in redis ==> redis[UserKey(user)].Hash?
      modifies this`redis
      ensures (View(), has) == Apply(old(View()), Op.HasIdentity(user, identity))
    {
      hide LookupUser;
      var account := Select(user);
      if account.Some? {
        return account.value.identity == identity;
      }
      has := false;
    }
  }

  // --------------------------------------------------------------------- operations

  datatype Op =
    | InsertOperation(url: string, role: Byte)
    | RemoveOperation(url: string)
    | CheckPermission(role: Byte, url: string)
    | InsertUser(user: string, role: Byte, identity: Byte)
    | RemoveUser(user: string)
    | HasRole(user: string, role: Byte)
    | HasIdentity(user: string, identity: Byte)
    | DeleteKey(key: string)  // expiry, or a late or repeated delete message

  function LookupOperation(s: Store, url: string): (Store, Option<Byte>) {
    var key := RoleKey(url);
    if key in s.redis then (s, Some(StringToRoleType(if s.redis[key].Text? then s.redis[key].text else "")))
    else if url !in s.tables.operations then (s, None)
    else
      var role := s.tables.operations[url];
      (s.(redis := s.redis[key := Text(RoleTypeToString(role))]), Some(role))
  }

  function LookupUser(s: Store, user: string): (Store, Option<Account>) {
    var key := UserKey(user);
    if key in s.redis && s.redis[key].Hash? && s.redis[key].fields != map[]
        then (s, Some(DecodeAccount(s.redis[key].fields)))
    else if user !in s.tables.users then (s, None)
    else
      var account := s.tables.users[user];
      (s.(redis := s.redis[UserKey(account.userId) := EncodeAccount(account)]), Some(account))
  }

  /** One operation on tables and cache, with its answer. */
  function Apply(s: Store, op: Op): (Store, bool) {
    match op
    case InsertOperation(url, role) =>
      (s.(tables := s.tables.(operations := s.tables.operations[url := role])), true)
    case RemoveOperation(url) =>
      (Store(s.tables.(operations := s.tables.operations - {url}), s.redis - {RoleKey(url)}), true)
    case CheckPermission(role, url) =>
      var (s', needed) := LookupOperation(s, url);
      (s', needed.Some? && Weight(role) >= Weight(needed.value))
    case InsertUser(user, role, identity) =>
      (s.(tables := s.tables.(users := s.tables.users[user := Account(user, role, identity)])), true)
    case RemoveUser(user) =>
      (Store(s.tables.(users := s.tables.users - {user}), s.redis - {UserKey(user)}), true)
    case HasRole(user, role) =>
      var (s', account) := LookupUser(s, user);
      (s', account.Some? && account.value.role == role)
    case HasIdentity(user, identity) =>
      var (s', account) := LookupUser(s, user);
      (s', account.Some? && account.value.identity == identity)
    case DeleteKey(key) => (s.(redis := s.redis - {key}), true)
  }

  /** The same operation on the tables alone. */
  function Uncached(t: Tables, op: Op): (Tables, bool) {
    match op
    case InsertOperation(url, role) => (t.(operations := t.operations[url := role]), true)
    case RemoveOperation(url) => (t.(operations := t.operations - {url}), true)
    case CheckPermission(role, url) => (t, url in t.operations && Weight(role) >= Weight(t.operations[url]))
    case InsertUser(user, role, identity) => (t.(users := t.users[user := Account(user, role, identity)]), true)
    case RemoveUser(user) => (t.(users := t.users - {user}), true)
    case HasRole(user, role) => (t, user in t.users && t.users[user].role == role)
    case HasIdentity(user, identity) => (t, user in t.users && t.users[user].identity == identity)
    case DeleteKey(_) => (t, true)
  }

  /** An insertion meets no row of its key. */
  predicate Possible(t: Tables, op: Op) {
    match op
    case InsertOperation(url, _) => url !in t.operations
    case InsertUser(user, _, _) => user !in t.users
    case _ => true
  }

  /** What is inserted for a user are declared enumerators. */
  predicate Declared(op: Op) {
    op.InsertUser? ==> KnownRole(op.role) && KnownIdentity(op.identity)
  }

  ghost predicate KnownUsers(t: Tables) {
    forall user :: user in t.users ==> KnownRole(t.users[user].role) && KnownIdentity(t.users[user].identity)
  }

  ghost predicate AllPossible(t: Tables, ops: seq<Op>)
    decreases |ops|
  {
    ops == [] || (Possible(t, ops[0]) && AllPossible(Uncached(t, ops[0]).0, ops[1..]))
  }

  function Answers(s: Store, ops: seq<Op>): (answers: seq<bool>)
    ensures |answers| == |ops|
    decreases |ops|
  {
    if ops == [] then [] else var (s', answer) := Apply(s, ops[0]); [answer] + Answers(s', ops[1..])
  }

  function UncachedAnswers(t: Tables, ops: seq<Op>): seq<bool>
    decreases |ops|
  {
    if ops == [] then [] else var (t', answer) := Uncached(t, ops[0]); [answer] + UncachedAnswers(t', ops[1..])
  }

  function Replay(s: Store, ops: seq<Op>): Store
    decreases |ops|
  {
    if ops == [] then s else Replay(Apply(s, ops[0]).0, ops[1..])
  }

  /** A delete message, as the deletes of its keys. */
  function Deletes(keys: seq<string>): seq<Op> {
    seq(|keys|, i requires 0 <= i < |keys| => DeleteKey(keys[i]))
  }

  lemma {:induction false} DeletesKeys(s: Store, keys: seq<string>)
    ensures Replay(s, Deletes(keys)) == s.(redis := s.redis - (set k | k in keys))
    decreases |keys|
  {
    if keys == [] {
      assert s.redis - (set k | k in keys) == s.redis;
    } else {
      var s' := Apply(s, DeleteKey(keys[0])).0;
      DeletesKeys(s', keys[1..]);
      assert Deletes(keys)[1..] == Deletes(keys[1..]);
      assert keys == [keys[0]] + keys[1..];
      assert s'.redis - (set k | k in keys[1..]) == s.redis - (set k | k in keys);
    }
  }

  lemma AccountRoundTrip(a: Account)
    requires KnownRole(a.role) && KnownIdentity(a.identity)
    ensures EncodeAccount(a).fields != map[] && DecodeAccount(EncodeAccount(a).fields) == a
  {
    NamesRoundTrip(a.role, a.identity);
    assert ID_FIELD[5] == 'i' && ID_FIELD[6] == 'd' && ID_FIELD[7] == '_'
        && IDENTITY_FIELD[7] == 'e' && ROLE_FIELD[5] == 'r';
    assert ID_FIELD in EncodeAccount(a).fields;
  }

  /** The row that an operation is about. */
  function Subject(op: Op): string {
    match op
    case InsertOperation(url, _) => url
    case RemoveOperation(url) => url
    case CheckPermission(_, url) => url
    case InsertUser(user, _, _) => user
    case RemoveUser(user) => user
    case HasRole(user, _) => user
    case HasIdentity(user, _) => user
    case DeleteKey(_) => ""
  }

  /** An entry of the role cache that outlives an operation is its row's, or is new. */
  lemma OperationEntry(s: Store, op: Op, url: string)
    requires Coherent(s) && Possible(s.tables, op) && RoleKey(url) in Apply(s, op).0.redis
    ensures var s' := Apply(s, op).0;
            url in s'.tables.operations && s'.redis[RoleKey(url)] == Text(RoleTypeToString(s'.tables.operations[url]))
  {
    KeysApart(url, Subject(op));
    hide RoleKey, UserKey, EncodeAccount, DecodeAccount, RoleTypeToString, StringToRoleType, Weight;
  }

  lemma UserEntry(s: Store, op: Op, user: string)
    requires Coherent(s) && Possible(s.tables, op) && UserKey(user) in Apply(s, op).0.redis
    ensures var s' := Apply(s, op).0;
            user in s'.tables.users && s'.redis[UserKey(user)] == EncodeAccount(s'.tables.users[user])
  {
    KeysApart(user, Subject(op));
    KeysApart(Subject(op), user);
    hide RoleKey, UserKey, EncodeAccount, DecodeAccount, RoleTypeToString, StringToRoleType, Weight;
  }

  lemma UserIds(s: Store, op: Op, user: string)
    requires Coherent(s) && user in Apply(s, op).0.tables.users
    ensures Apply(s, op).0.tables.users[user].userId == user
  {
    hide OperationsCoherent, RoleKey, UserKey, EncodeAccount, DecodeAccount, RoleTypeToString;
  }

  lemma StepOperations(s: Store, op: Op)
    requires Coherent(s) && Possible(s.tables, op)
    ensures OperationsCoherent(Apply(s, op).0)
  {
    hide Apply, Coherent, RoleKey, RoleTypeToString, Possible;
    var s' := Apply(s, op).0;
    forall url | RoleKey(url) in s'.redis
      ensures url in s'.tables.operations && s'.redis[RoleKey(url)] == Text(RoleTypeToString(s'.tables.operations[url]))
    {
      OperationEntry(s, op, url);
    }
  }

  lemma StepUsers(s: Store, op: Op)
    requires Coherent(s) && Possible(s.tables, op)
    ensures UsersCoherent(Apply(s, op).0)
  {
    hide Apply, Coherent, UserKey, EncodeAccount, Possible;
    var s' := Apply(s, op).0;
    forall user | UserKey(user) in s'.redis
      ensures user in s'.tables.users && s'.redis[UserKey(user)] == EncodeAccount(s'.tables.users[user])
    {
      UserEntry(s, op, user);
    }
    forall user | user in s'.tables.users ensures s'.tables.users[user].userId == user {
      UserIds(s, op, user);
    }
  }

  /** No operation makes an entry of the cache differ from its row. */
  lemma StepCoherent(s: Store, op: Op)
    requires Coherent(s) && Possible(s.tables, op)
    ensures Coherent(Apply(s, op).0)
  {
    hide OperationsCoherent, UsersCoherent, Apply;
    StepOperations(s, op);
    StepUsers(s, op);
  }

  lemma StepKnown(t: Tables, op: Op)
    requires KnownUsers(t) && Declared(op)
    ensures KnownUsers(Uncached(t, op).0)
  {
  }

  /** One operation answers, and changes the tables, as it would without a cache. */
  lemma StepTransparent(s: Store, op: Op)
    requires Coherent(s) && KnownUsers(s.tables)
    ensures Apply(s, op).0.tables == Uncached(s.tables, op).0
    ensures Apply(s, op).1 == Uncached(s.tables, op).1
  {
    match op {
      case CheckPermission(role, url) =>
        if RoleKey(url) in s.redis {
          NamesRoundTrip(s.tables.operations[url], 0);
        }
      case HasRole(user, _) =>
        if UserKey(user) in s.redis {
          AccountRoundTrip(s.tables.users[user]);
        }
      case HasIdentity(user, _) =>
        if UserKey(user) in s.redis {
          AccountRoundTrip(s.tables.users[user]);
        }
      case _ =>
    }
  }

  /** Transparency: over every history of insertions of declared enumerators, removals,
      lookups, expiries and late or repeated deletes, every answer is the uncached
      table's. */
  lemma {:induction false} Transparent(s: Store, ops: seq<Op>)
    requires Coherent(s) && KnownUsers(s.tables) && AllPossible(s.tables, ops)
    requires forall op :: op in ops ==> Declared(op)
    ensures Answers(s, ops) == UncachedAnswers(s.tables, ops)
    decreases |ops|
  {
    hide Coherent, KnownUsers, Apply, Uncached, Possible, Declared;
    if ops != [] {
      assert ops[0] in ops;
      StepCoherent(s, ops[0]);
      StepTransparent(s, ops[0]);
      StepKnown(s.tables, ops[0]);
      Transparent(Apply(s, ops[0]).0, ops[1..]);
    }
  }

  // -------------------------------------------------- undeclared enumerators do show

  lemma FirstAnswer(s: Store, user: string, op: Op)
    requires op.HasRole? || op.HasIdentity?
    requires op.user == user && user in s.tables.users
        && s.tables.users[user].userId == user && UserKey(user) !in s.redis
    ensures Apply(s, op) == (s.(redis := s.redis[UserKey(user) := EncodeAccount(s.tables.users[user])]),
        Uncached(s.tables, op).1)
  {
  }

  /** What is answered from the cache has been through the names. */
  lemma CachedAnswer(s: Store, user: string, account: Account, op: Op)
    requires op.HasRole? || op.HasIdentity?
    requires op.user == user && UserKey(user) in s.redis && s.redis[UserKey(user)] == EncodeAccount(account)
    ensures Apply(s, op) == (s, if op.HasRole? then StringToRoleType(RoleTypeToString(account.role)) == op.role
                                else StringToIdentityType(IdentityTypeToString(account.identity)) == op.identity)
  {
    hide UserKey, RoleTypeToString, StringToRoleType, IdentityTypeToString, StringToIdentityType;
    assert ID_FIELD[5] == 'i' && ROLE_FIELD[5] == 'r' && IDENTITY_FIELD[5] == 'i'
        && ID_FIELD[6] == 'd' && IDENTITY_FIELD[6] == 'd';
    assert ID_FIELD[7] == '_' && IDENTITY_FIELD[7] == 'e';
    assert ROLE_FIELD in EncodeAccount(account).fields;
  }

  /** Asking twice: the second answer comes from the cache, whether or not the first did. */
  lemma SecondAnswer(s: Store, user: string, op: Op)
    requires Coherent(s) && user in s.tables.users && (op.HasRole? || op.HasIdentity?) && op.user == user
    ensures Answers(s, [op, op])[1]
         == if op.HasRole? then StringToRoleType(RoleTypeToString(s.tables.users[user].role)) == op.role
            else StringToIdentityType(IdentityTypeToString(s.tables.users[user].identity)) == op.identity
    ensures UserKey(user) !in s.redis ==> Answers(s, [op, op])[0] == Uncached(s.tables, op).1
    ensures UncachedAnswers(s.tables, [op, op]) == [Uncached(s.tables, op).1, Uncached(s.tables, op).1]
  {
    var account, s' := s.tables.users[user], Apply(s, op).0;
    if UserKey(user) !in s.redis {
      FirstAnswer(s, user, op);
    } else {
      CachedAnswer(s, user, account, op);
    }
    CachedAnswer(s', user, account, op);
    UncachedTwice(s.tables, op);
    hide Apply, UserKey, RoleTypeToString, StringToRoleType, IdentityTypeToString, StringToIdentityType, Uncached;
    assert [op, op][1..] == [op];
    assert Answers(s', [op]) == [Apply(s', op).1];
    assert Answers(s, [op, op]) == [Apply(s, op).1] + Answers(s', [op]);
  }

  lemma UncachedTwice(t: Tables, op: Op)
    requires op.HasRole? || op.HasIdentity?
    ensures UncachedAnswers(t, [op, op]) == [Uncached(t, op).1, Uncached(t, op).1]
  {
    assert [op, op][1..] == [op];
    assert UncachedAnswers(t, [op]) == [Uncached(t, op).1];
  }

  ghost predicate AgreesTwice(s: Store, op: Op) {
    Answers(s, [op, op])[0] == Answers(s, [op, op])[1]
  }

  lemma RoleAgreesIff(s: Store, user: string)
    requires Coherent(s) && user in s.tables.users && UserKey(user) !in s.redis
    ensures (forall role :: AgreesTwice(s, HasRole(user, role))) <==> KnownRole(s.tables.users[user].role)
  {
    var stored := s.tables.users[user].role;
    NamesRoundTrip(stored, 0);
    hide Coherent, Answers, RoleTypeToString, StringToRoleType, KnownRole;
    forall role
      ensures AgreesTwice(s, HasRole(user, role))
              <==> ((stored == role) == (StringToRoleType(RoleTypeToString(stored)) == role))
    {
      SecondAnswer(s, user, HasRole(user, role));
    }
    hide AgreesTwice;
    assert AgreesTwice(s, HasRole(user, stored)) <==> StringToRoleType(RoleTypeToString(stored)) == stored;
  }

  lemma IdentityAgreesIff(s: Store, user: string)
    requires Coherent(s) && user in s.tables.users && UserKey(user) !in s.redis
    ensures (forall identity :: AgreesTwice(s, HasIdentity(user, identity)))
        <==> KnownIdentity(s.tables.users[user].identity)
  {
    var stored := s.tables.users[user].identity;
    NamesRoundTrip(0, stored);
    hide Coherent, Answers, IdentityTypeToString, StringToIdentityType, KnownIdentity;
    forall identity
      ensures AgreesTwice(s, HasIdentity(user, identity))
              <==> ((stored == identity) == (StringToIdentityType(IdentityTypeToString(stored)) == identity))
    {
      SecondAnswer(s, user, HasIdentity(user, identity));
    }
    hide AgreesTwice;
    assert AgreesTwice(s, HasIdentity(user, stored)) <==> StringToIdentityType(IdentityTypeToString(stored)) == stored;
  }

  /** Asking twice about a user that is not cached gives the same answers for all roles
      just when the stored role is declared, and likewise for identities. */
  lemma SecondAnswerAgreesIff(s: Store, user: string)
    requires Coherent(s) && user in s.tables.users && UserKey(user) !in s.redis
    ensures (forall role :: AgreesTwice(s, HasRole(user, role))) <==> KnownRole(s.tables.users[user].role)
    ensures (forall identity :: AgreesTwice(s, HasIdentity(user, identity)))
        <==> KnownIdentity(s.tables.users[user].identity)
  {
    hide AgreesTwice, Coherent;
    RoleAgreesIff(s, user);
    IdentityAgreesIff(s, user);
  }

  /** A check or the deletion of a key: whatever leaves the tables alone. */
  predicate IsCheck(op: Op) {
    op.CheckPermission? || op.HasRole? || op.HasIdentity? || op.DeleteKey?
  }

  predicate AllChecks(ops: seq<Op>) {
    forall op :: op in ops ==> IsCheck(op)
  }

  /** No series of checks and key deletions tells the store from its tables alone. */
  ghost predicate CacheInvisible(s: Store) {
    forall ops: seq<Op> :: AllChecks(ops) ==> Answers(s, ops) == UncachedAnswers(s.tables, ops)
  }

  lemma {:induction false} ChecksPossible(t: Tables, ops: seq<Op>)
    requires AllChecks(ops)
    ensures AllPossible(t, ops)
    decreases |ops|
  {
    if ops != [] {
      assert ops[0] in ops && IsCheck(ops[0]);
      ChecksPossible(Uncached(t, ops[0]).0, ops[1..]);
    }
  }

  /** The check that an undeclared enumerator of a user's row fails when made twice. */
  lemma UndeclaredShows(s: Store, user: string) returns (op: Op)
    requires Coherent(s) && user in s.tables.users
    requires !KnownRole(s.tables.users[user].role) || !KnownIdentity(s.tables.users[user].identity)
    ensures IsCheck(op) && Answers(s, [op, op]) != UncachedAnswers(s.tables, [op, op])
  {
    var account := s.tables.users[user];
    op := if !KnownRole(account.role) then HasRole(user, account.role) else HasIdentity(user, account.identity);
    SecondAnswer(s, user, op);
    NamesRoundTrip(account.role, account.identity);
    hide Coherent, Answers, UncachedAnswers, KnownRole, KnownIdentity, RoleTypeToString, StringToRoleType;
    assert Uncached(s.tables, op).1;
  }

  /** The cache is invisible if and only if every user's row holds declared enumerators. */
  lemma InvisibleIff(s: Store)
    requires Coherent(s)
    ensures CacheInvisible(s) <==> KnownUsers(s.tables)
  {
    if KnownUsers(s.tables) {
      forall ops: seq<Op> | AllChecks(ops) ensures Answers(s, ops) == UncachedAnswers(s.tables, ops) {
        ChecksPossible(s.tables, ops);
        assert forall op :: op in ops ==> IsCheck(op) && Declared(op);
        Transparent(s, ops);
      }
    } else {
      var user :| user in s.tables.users
          && !(KnownRole(s.tables.users[user].role) && KnownIdentity(s.tables.users[user].identity));
      var op := UndeclaredShows(s, user);
      assert AllChecks([op, op]);
    }
  }

  lemma {:induction false} ReplayCoherent(s: Store, ops: seq<Op>)
    requires Coherent(s) && AllPossible(s.tables, ops)
    ensures Coherent(Replay(s, ops))
    decreases |ops|
  {
    hide Coherent, Apply, Possible;
    if ops != [] {
      StepCoherent(s, ops[0]);
      StepTables(s, ops[0]);
      ReplayCoherent(Apply(s, ops[0]).0, ops[1..]);
    }
  }

  lemma StepTables(s: Store, op: Op)
    ensures Apply(s, op).0.tables == Uncached(s.tables, op).0
  {
    hide RoleKey, UserKey, EncodeAccount, DecodeAccount;
  }

  /** Exactly when the cache is invisible: after every history of insertions of any bytes,
      removals, checks and deletes, from any coherent store, it is if and only if the
      users' rows then hold declared enumerators. */
  lemma TransparentIff(s: Store, history: seq<Op>)
    requires Coherent(s) && AllPossible(s.tables, history)
    ensures CacheInvisible(Replay(s, history)) <==> KnownUsers(Replay(s, history).tables)
  {
    ReplayCoherent(s, history);
    InvisibleIff(Replay(s, history));
  }

  const EMPTY_STORE := Store(Tables(map[], map[]), map[])

  lemma Inserted(user: string, role: Byte, identity: Byte)
    ensures AllPossible(EMPTY_STORE.tables, [InsertUser(user, role, identity)])
    ensures Replay(EMPTY_STORE, [InsertUser(user, role, identity)])
        == Store(Tables(map[], map[user := Account(user, role, identity)]), map[])
    ensures Coherent(Store(Tables(map[], map[user := Account(user, role, identity)]), map[]))
  {
    var insert := InsertUser(user, role, identity);
    assert Replay(Apply(EMPTY_STORE, insert).0, []) == Apply(EMPTY_STORE, insert).0;
    assert AllPossible(Uncached(EMPTY_STORE.tables, insert).0, []);
  }

  /** A run that shows it for a role: a user is inserted with role 7 and asked for twice. */
  lemma UndeclaredRole()
    ensures var s := Replay(EMPTY_STORE, [InsertUser("u", 7, 1)]);
            && Answers(s, [HasRole("u", 7), HasRole("u", 7)]) == [true, false]
            && UncachedAnswers(s.tables, [HasRole("u", 7), HasRole("u", 7)]) == [true, true]
  {
    Inserted("u", 7, 1);
    var s := Replay(EMPTY_STORE, [InsertUser("u", 7, 1)]);
    SecondAnswer(s, "u", HasRole("u", 7));
    NamesRoundTrip(7, 1);
    hide Replay, Coherent, Answers, UncachedAnswers, RoleTypeToString, StringToRoleType;
  }

  /** A run that shows it for an identity. */
  lemma UndeclaredIdentity()
    ensures var s := Replay(EMPTY_STORE, [InsertUser("u", 1, 7)]);
            && Answers(s, [HasIdentity("u", 7), HasIdentity("u", 7)]) == [true, false]
            && UncachedAnswers(s.tables, [HasIdentity("u", 7), HasIdentity("u", 7)]) == [true, true]
  {
    Inserted("u", 1, 7);
    var s := Replay(EMPTY_STORE, [InsertUser("u", 1, 7)]);
    SecondAnswer(s, "u", HasIdentity("u", 7));
    NamesRoundTrip(1, 7);
    hide Replay, Coherent, Answers, UncachedAnswers, IdentityTypeToString, StringToIdentityType;
  }

  // ------------------------------------------- answers in terms of what was done

  /** A byte that is no declared role counts as the unknown role, 0. */
  function Rank(role: Byte): Byte {
    if role <= 3 then role else 0
  }

  /** The weights order the roles as the enumeration does. */
  lemma WeightOrder(a: Byte, b: Byte)
    ensures Weight(a) >= Weight(b) <==> Rank(a) >= Rank(b)
  {
  }

  /** A check allows exactly those roles that rank at least as high as the operation's. */
  lemma CheckMeans(s: Store, role: Byte, url: string)
    requires Coherent(s)
    ensures Apply(s, CheckPermission(role, url)).1
            <==> url in s.tables.operations && Rank(role) >= Rank(s.tables.operations[url])
  {
    hide RoleTypeToString, StringToRoleType, UsersCoherent, Weight, Rank;
    if url in s.tables.operations {
      NamesRoundTrip(s.tables.operations[url], 0);
      WeightOrder(role, s.tables.operations[url]);
    }
  }

  /** The role that an operation was last inserted with, unless it was removed after that. */
  function LastOperation(ops: seq<Op>, url: string): Option<Byte>
    decreases |ops|
  {
    if ops == [] then None
    else
      var before := LastOperation(ops[..|ops| - 1], url);
      match ops[|ops| - 1]
      case InsertOperation(u, role) => if u == url then Some(role) else before
      case RemoveOperation(u) => if u == url then None else before
      case _ => before
  }

  function LastUser(ops: seq<Op>, user: string): Option<(Byte, Byte)>
    decreases |ops|
  {
    if ops == [] then None
    else
      var before := LastUser(ops[..|ops| - 1], user);
      match ops[|ops| - 1]
      case InsertUser(u, role, identity) => if u == user then Some((role, identity)) else before
      case RemoveUser(u) => if u == user then None else before
      case _ => before
  }

  lemma {:induction false} ReplaySnoc(s: Store, ops: seq<Op>, op: Op)
    ensures Replay(s, ops + [op]) == Apply(Replay(s, ops), op).0
    decreases |ops|
  {
    hide Apply;
    if ops == [] {
      assert ops + [op] == [op];
      assert Replay(Apply(s, op).0, []) == Apply(s, op).0;
    } else {
      assert (ops + [op])[1..] == ops[1..] + [op];
      ReplaySnoc(Apply(s, ops[0]).0, ops[1..], op);
    }
  }

  ghost predicate TablesHold(t: Tables, ops: seq<Op>, url: string, user: string) {
    && (url in t.operations <==> LastOperation(ops, url).Some?)
    && (url in t.operations ==> LastOperation(ops, url) == Some(t.operations[url]))
    && (user in t.users <==> LastUser(ops, user).Some?)
    && (user in t.users ==> LastUser(ops, user) == Some((t.users[user].role, t.users[user].identity)))
  }

  lemma TablesStep(s: Store, ops: seq<Op>, op: Op, url: string, user: string)
    requires TablesHold(s.tables, ops, url, user)
    ensures TablesHold(Apply(s, op).0.tables, ops + [op], url, user)
  {
    hide Apply;
    StepTables(s, op);
    assert (ops + [op])[..|ops|] == ops;
  }

  lemma {:induction false} TablesByHistory(ops: seq<Op>, url: string, user: string)
    ensures TablesHold(Replay(EMPTY_STORE, ops).tables, ops, url, user)
    decreases |ops|
  {
    hide Apply, TablesHold;
    if ops == [] {
      NoHistory(url, user);
    } else {
      var before, op := ops[..|ops| - 1], ops[|ops| - 1];
      TablesByHistory(before, url, user);
      TablesStep(Replay(EMPTY_STORE, before), before, op, url, user);
      ReplaySnoc(EMPTY_STORE, before, op);
      assert before + [op] == ops;
    }
  }

  lemma NoHistory(url: string, user: string)
    ensures TablesHold(EMPTY_STORE.tables, [], url, user)
  {
  }

  lemma EmptyCoherent()
    ensures Coherent(EMPTY_STORE)
  {
  }

  /** What a check answers after any history: whether the operation was last inserted, and
      not removed since, with a role that the asking one is not below. */
  lemma CheckByHistory(ops: seq<Op>, role: Byte, url: string)
    requires AllPossible(EMPTY_STORE.tables, ops)
    ensures Apply(Replay(EMPTY_STORE, ops), CheckPermission(role, url)).1
            <==> LastOperation(ops, url).Some? && Rank(role) >= Rank(LastOperation(ops, url).value)
  {
    hide Apply, Coherent, AllPossible, Rank, Replay, LastOperation, LastUser;
    EmptyCoherent();
    ReplayCoherent(EMPTY_STORE, ops);
    CheckMeans(Replay(EMPTY_STORE, ops), role, url);
    TablesByHistory(ops, url, "");
  }

  /** And what the questions about a user answer, where declared enumerators are inserted. */
  lemma UserByHistory(ops: seq<Op>, user: string, role: Byte, identity: Byte)
    requires AllPossible(EMPTY_STORE.tables, ops) && forall op :: op in ops ==> Declared(op)
    ensures Apply(Replay(EMPTY_STORE, ops), HasRole(user, role)).1
            <==> LastUser(ops, user).Some? && LastUser(ops, user).value.0 == role
    ensures Apply(Replay(EMPTY_STORE, ops), HasIdentity(user, identity)).1
            <==> LastUser(ops, user).Some? && LastUser(ops, user).value.1 == identity
  {
    hide Apply, Coherent, AllPossible, Replay, LastOperation, LastUser, Declared, KnownUsers;
    EmptyCoherent();
    EmptyKnown();
    ReplayCoherent(EMPTY_STORE, ops);
    ReplayKnown(EMPTY_STORE, ops);
    var s := Replay(EMPTY_STORE, ops);
    StepTransparent(s, HasRole(user, role));
    StepTransparent(s, HasIdentity(user, identity));
    TablesByHistory(ops, "", user);
  }

  lemma EmptyKnown()
    ensures KnownUsers(EMPTY_STORE.tables)
  {
  }

  lemma {:induction false} ReplayKnown(s: Store, ops: seq<Op>)
    requires KnownUsers(s.tables) && forall op :: op in ops ==> Declared(op)
    ensures KnownUsers(Replay(s, ops).tables)
    decreases |ops|
  {
    hide KnownUsers, Declared, Apply, Uncached;
    if ops != [] {
      assert ops[0] in ops;
      StepTables(s, ops[0]);
      StepKnown(s.tables, ops[0]);
      ReplayKnown(Apply(s, ops[0]).0, ops[1..]);
    }
  }

  /** A lookup that finds a row leaves its encoding in the cache, under its own key and no
      other; one that hits, or finds nothing, leaves the cache as it was. */
  lemma LookupFills(s: Store, url: string, user: string)
    requires Coherent(s)
    ensures LookupOperation(s, url).0.redis
         == if url in s.tables.operations then s.redis[RoleKey(url) := Text(RoleTypeToString(s.tables.operations[url]))]
            else s.redis
    ensures LookupUser(s, user).0.redis
         == if user in s.tables.users then s.redis[UserKey(user) := EncodeAccount(s.tables.users[user])] else s.redis
  {
    hide RoleTypeToString, IdentityTypeToString, StringToIdentityType, StringToRoleType;
    FillsOperation(s, url);
    FillsUser(s, user);
  }

  lemma FillsOperation(s: Store, url: string)
    requires Coherent(s)
    ensures LookupOperation(s, url).0.redis
         == if url in s.tables.operations then s.redis[RoleKey(url) := Text(RoleTypeToString(s.tables.operations[url]))]
            else s.redis
  {
    hide RoleTypeToString, StringToRoleType, UsersCoherent;
  }

  lemma FillsUser(s: Store, user: string)
    requires Coherent(s)
    ensures LookupUser(s, user).0.redis
         == if user in s.tables.users then s.redis[UserKey(user) := EncodeAccount(s.tables.users[user])] else s.redis
  {
    hide OperationsCoherent, RoleTypeToString, IdentityTypeToString, StringToIdentityType, StringToRoleType;
    if user in s.tables.users {
      assert ID_FIELD in EncodeAccount(s.tables.users[user]).fields;
    }
  }

  /** The caches of the timed model are these two: keys are stored, and published for
      deletion, under exactly these names. */
  lemma SameKeys(c: nat, w: nat, d: nat, row: string)
    ensures DelayedDelete.StoreKey(DelayedDelete.RoleCache(c, w, d), row) == RoleKey(row)
    ensures DelayedDelete.PublishKey(DelayedDelete.RoleCache(c, w, d), row) == RoleKey(row)
    ensures DelayedDelete.StoreKey(DelayedDelete.IdentityCache(c, w, d), row) == UserKey(row)
    ensures DelayedDelete.PublishKey(DelayedDelete.IdentityCache(c, w, d), row) == UserKey(row)
  {
  }

  const ROLE_NAMES: seq<string> := ["Unknown", "Normal", "Admin", "SuperAdmin"]
  const IDENTITY_NAMES: seq<string> := ["Unknown", "Normal", "Admin"]

  /** What the cache holds: the names of the enumerators in their order, and for a user a hash
      of three named fields. */
  lemma WhatIsCached(role: Byte, identity: Byte, user: string)
    ensures RoleTypeToString(role) == "roleType" + ROLE_NAMES[Rank(role) as int]
    ensures IdentityTypeToString(identity)
         == "identityType" + IDENTITY_NAMES[if identity <= 2 then identity as int else 0]
    ensures EncodeAccount(Account(user, role, identity))
         == Hash(map["user_id_key" := user, "user_role_key" := RoleTypeToString(role),
                     "user_identity_key" := IdentityTypeToString(identity)])
  {
    hide RoleTypeToString, IdentityTypeToString;
    RoleNames(role);
    IdentityNames(identity);
    FieldsDiffer();
    var fields := EncodeAccount(Account(user, role, identity)).fields;
    assert fields == map["user_id_key" := user, "user_role_key" := RoleTypeToString(role),
                         "user_identity_key" := IdentityTypeToString(identity)];
  }

  lemma RoleNames(role: Byte)
    ensures RoleTypeToString(role) == "roleType" + ROLE_NAMES[Rank(role) as int]
  {
  }

  lemma IdentityNames(identity: Byte)
    ensures IdentityTypeToString(identity)
         == "identityType" + IDENTITY_NAMES[if identity <= 2 then identity as int else 0]
  {
  }

  lemma FieldsDiffer()
    ensures ID_FIELD != IDENTITY_FIELD && ID_FIELD != ROLE_FIELD && ROLE_FIELD != IDENTITY_FIELD
  {
    assert ID_FIELD[5] == 'i' && ID_FIELD[7] == '_' && IDENTITY_FIELD[5] == 'i' && IDENTITY_FIELD[7] == 'e';
    assert ROLE_FIELD[5] == 'r';
  }
}
