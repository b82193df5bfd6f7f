/** Customers, users and the user-name index. */
module Identity {
  import opened Wrappers
  import opened Text
  import opened Domain

  datatype Role = Customer | Teller | Admin

  datatype Permission =
    | ManageIdentity | ManageAccounts | MoveMoney | MoveOwnMoney
    | ViewAnyAccount | ViewOwnAccount | ExportStatements | PersistState

  predicate Can(role: Role, permission: Permission) {
    match role
    case Admin => true
    case Teller => !permission.ManageIdentity? && !permission.MoveOwnMoney? && !permission.ViewOwnAccount?
    case Customer => permission.MoveOwnMoney? || permission.ViewOwnAccount?
  }

  datatype CustomerRecord = CustomerRecord(id: CustomerId, fullName: string, email: string)

  datatype User = User(id: UserId, username: string, role: Role, customerId: Option<CustomerId>, passwordHash: string)

  datatype Session = Session(userId: UserId, username: string, role: Role, customerId: Option<CustomerId>)

  datatype IdentityError =
    | CustomerAlreadyExists(customerId: CustomerId)
    | CustomerNotFound(customerId: CustomerId)
    | UserAlreadyExists(userId: UserId)
    | UsernameAlreadyExists(username: string)
    | UserNotFound(userId: UserId)
    | InvalidCredentials
    | InvalidProfileField(field: string)
    | PasswordTooWeak
    | RoleRequiresCustomer
    | RoleCannotHaveCustomer
    | PermissionDenied(role: Role, permission: Permission)
    | PasswordHash

  /** Password hashing, with the salt as an argument. */
  datatype Hasher = Hasher(
    hash: (string, string) -> Option<string>,
    verify: (string, string) -> bool,
    wellFormed: string -> bool)

  /** All that is asked of password hashing: a password verifies against its own, well-formed, hash. */
  ghost predicate SoundHasher(h: Hasher) {
    forall salt, password {:trigger h.hash(salt, password)} :: h.hash(salt, password).Some? ==>
      h.wellFormed(h.hash(salt, password).value) && h.verify(h.hash(salt, password).value, password)
  }

  datatype Identities = Identities(
    customers: map<CustomerId, CustomerRecord>,
    users: map<UserId, User>,
    index: map<string, UserId>)

  const NOBODY := Identities(map[], map[], map[])

  // ---- Operations -----------------------------------------------------------------------------

  function CreateCustomer(s: Identities, id: CustomerId, fullName: string, email: string)
    : (Identities, Result<CustomerRecord, IdentityError>)
  {
    if id in s.customers then (s, Err(CustomerAlreadyExists(id)))
    else if CleanName(fullName).None? then (s, Err(InvalidProfileField("name")))
    else if CleanEmail(email).None? then (s, Err(InvalidProfileField("email")))
    else
      var customer := CustomerRecord(id, CleanName(fullName).value, CleanEmail(email).value);
      (s.(customers := s.customers[id := customer]), Ok(customer))
  }

  /** Customer users need an existing customer, staff users must not have one. */
  function LinkFault(customers: map<CustomerId, CustomerRecord>, role: Role,
                     customerId: Option<CustomerId>): Option<IdentityError>
  {
    match (role, customerId)
    case (Customer, Some(id)) => if id in customers then None else Some(CustomerNotFound(id))
    case (Customer, None) => Some(RoleRequiresCustomer)
    case (_, Some(_)) => Some(RoleCannotHaveCustomer)
    case (_, None) => None
  }

  function CreateUser(s: Identities, h: Hasher, salt: string, id: UserId, username: string, role: Role,
                      customerId: Option<CustomerId>, password: string)
    : (Identities, Result<User, IdentityError>)
  {
    if id in s.users then (s, Err(UserAlreadyExists(id)))
    else if |password| < 8 then (s, Err(PasswordTooWeak))
    else if LinkFault(s.customers, role, customerId).Some? then (s, Err(LinkFault(s.customers, role, customerId).value))
    else if NormalizeUsername(username).None? then (s, Err(InvalidProfileField("username")))
    else
      var name := NormalizeUsername(username).value;
      if name in s.index then (s, Err(UsernameAlreadyExists(name)))
      else
        match h.hash(salt, password)
        case None => (s, Err(PasswordHash))
        case Some(hash) =>
          var user := User(id, name, role, customerId, hash);
          (Identities(s.customers, s.users[id := user], s.index[name := id]), Ok(user))
  }

  function SessionOf(user: User): Session {
    Session(user.id, user.username, user.role, user.customerId)
  }

  function Authenticate(s: Identities, h: Hasher, username: string, password: string): Result<Session, IdentityError> {
    match NormalizeUsername(username)
    case None => Err(InvalidProfileField("username"))
    case Some(name) =>
      if name !in s.index then Err(InvalidCredentials)
      else if s.index[name] !in s.users then Err(UserNotFound(s.index[name]))
      else
        var user := s.users[s.index[name]];
        if !h.wellFormed(user.passwordHash) then Err(PasswordHash)
        else if !h.verify(user.passwordHash, password) then Err(InvalidCredentials)
        else Ok(SessionOf(user))
  }

  function CustomerFault(c: CustomerRecord): Option<IdentityError> {
    if CleanName(c.fullName).None? then Some(InvalidProfileField("name"))
    else if CleanEmail(c.email).None? then Some(InvalidProfileField("email"))
    else None
  }

  function UserFault(s: Identities, h: Hasher, user: User): Option<IdentityError> {
    if NormalizeUsername(user.username).None? then Some(InvalidProfileField("username"))
    else if LinkFault(s.customers, user.role, user.customerId).Some?
    then LinkFault(s.customers, user.role, user.customerId)
    else if !h.wellFormed(user.passwordHash) then Some(PasswordHash)
    else if user.id in s.users then Some(UserAlreadyExists(user.id))
    else if NormalizeUsername(user.username).value in s.index
    then Some(UsernameAlreadyExists(NormalizeUsername(user.username).value))
    else None
  }

  function AddUser(s: Identities, user: User): Identities
    requires NormalizeUsername(user.username).Some?
  {
    Identities(s.customers, s.users[user.id := user], s.index[NormalizeUsername(user.username).value := user.id])
  }

  function AddCustomers(s: Identities, customers: seq<CustomerRecord>): Result<Identities, IdentityError>
    decreases |customers|
  {
    if customers == [] then Ok(s)
    else if CustomerFault(customers[0]).Some? then Err(CustomerFault(customers[0]).value)
    else if customers[0].id in s.customers then Err(CustomerAlreadyExists(customers[0].id))
    else AddCustomers(s.(customers := s.customers[customers[0].id := customers[0]]), customers[1..])
  }

  function AddUsers(s: Identities, h: Hasher, users: seq<User>): Result<Identities, IdentityError>
    decreases |users|
  {
    if users == [] then Ok(s)
    else if UserFault(s, h, users[0]).Some? then Err(UserFault(s, h, users[0]).value)
    else AddUsers(AddUser(s, users[0]), h, users[1..])
  }

  function FromRecords(h: Hasher, customers: seq<CustomerRecord>, users: seq<User>): Result<Identities, IdentityError> {
    match AddCustomers(NOBODY, customers)
    case Err(error) => Err(error)
    case Ok(s) => AddUsers(s, h, users)
  }

  // ---- The invariant --------------------------------------------------------------------------

  /** A name index and the names it indexes are inverse to each other. */
  ghost predicate Inverse(names: map<UserId, string>, index: map<string, UserId>) {
    && (forall id :: id in names ==> names[id] in index && index[names[id]] == id)
    && (forall name :: name in index ==> index[name] in names && names[index[name]] == name)
  }

  /** The normalised name of every user that has one. */
  function Names(users: map<UserId, User>): map<UserId, string> {
    map id | id in users && NormalizeUsername(users[id].username).Some? :: NormalizeUsername(users[id].username).value
  }

  /** The index maps a name to an id exactly when that user exists and its normalised name is that name. */
  ghost predicate IndexExact(users: map<UserId, User>, index: map<string, UserId>) {
    Names(users).Keys == users.Keys && Inverse(Names(users), index)
  }

  ghost predicate CustomersSound(customers: map<CustomerId, CustomerRecord>) {
    forall id :: id in customers ==> customers[id].id == id && CustomerFault(customers[id]).None?
  }

  ghost predicate UsersLinked(customers: map<CustomerId, CustomerRecord>, users: map<UserId, User>) {
    forall id :: id in users ==> users[id].id == id && LinkFault(customers, users[id].role, users[id].customerId).None?
  }

  ghost predicate Consistent(s: Identities) {
    IndexExact(s.users, s.index) && CustomersSound(s.customers) && UsersLinked(s.customers, s.users)
  }

  ghost predicate HashesFormed(users: map<UserId, User>, h: Hasher) {
    forall id :: id in users ==> h.wellFormed(users[id].passwordHash)
  }

  lemma InverseGrows(names: map<UserId, string>, index: map<string, UserId>, id: UserId, name: string)
    requires Inverse(names, index) && id !in names && name !in index
    ensures Inverse(names[id := name], index[name := id])
  {
  }

  lemma NamesGrow(users: map<UserId, User>, user: User)
    requires user.id !in users && NormalizeUsername(user.username).Some?
    ensures Names(users[user.id := user]) == Names(users)[user.id := NormalizeUsername(user.username).value]
  {
    var grown := users[user.id := user];
    assert forall id :: id in grown && id != user.id ==> grown[id] == users[id];
  }

  lemma NobodyConsistent(h: Hasher)
    ensures Consistent(NOBODY) && HashesFormed(NOBODY.users, h)
  {
  }

  lemma LinksGrow(customers: map<CustomerId, CustomerRecord>, c: CustomerRecord, users: map<UserId, User>)
    requires UsersLinked(customers, users)
    ensures UsersLinked(customers[c.id := c], users)
  {
  }

  lemma CustomersGrow(customers: map<CustomerId, CustomerRecord>, c: CustomerRecord)
    requires CustomersSound(customers) && CustomerFault(c).None?
    ensures CustomersSound(customers[c.id := c])
  {
  }

  lemma CreateCustomerKeeps(s: Identities, id: CustomerId, fullName: string, email: string)
    requires Consistent(s)
    ensures var (s', r) := CreateCustomer(s, id, fullName, email);
            && Consistent(s')
            && s'.users == s.users && s'.index == s.index
            && (r.Ok? ==> id !in s.customers && r.value == CustomerRecord(id, Trim(fullName), NameKey(email)))
            && s'.customers == if r.Ok? then s.customers[id := r.value] else s.customers
  {
    var (s', r) := CreateCustomer(s, id, fullName, email);
    CleaningStable(fullName);
    CleaningStable(email);
    if r.Ok? {
      assert CustomerFault(r.value).None?;
      LinksGrow(s.customers, r.value, s.users);
      CustomersGrow(s.customers, r.value);
    }
  }

  lemma UsersGrow(customers: map<CustomerId, CustomerRecord>, users: map<UserId, User>, h: Hasher, user: User)
    requires UsersLinked(customers, users) && HashesFormed(users, h)
    requires LinkFault(customers, user.role, user.customerId).None? && h.wellFormed(user.passwordHash)
    ensures UsersLinked(customers, users[user.id := user]) && HashesFormed(users[user.id := user], h)
  {
  }

  lemma IndexGrows(users: map<UserId, User>, index: map<string, UserId>, user: User, name: string)
    requires IndexExact(users, index) && user.id !in users && name !in index
    requires NormalizeUsername(user.username) == Some(name)
    ensures IndexExact(users[user.id := user], index[name := user.id])
  {
    NamesGrow(users, user);
    InverseGrows(Names(users), index, user.id, name);
    assert (users[user.id := user]).Keys == users.Keys + {user.id};
  }

  lemma AddUserKeeps(s: Identities, h: Hasher, user: User)
    requires Consistent(s) && HashesFormed(s.users, h) && UserFault(s, h, user).None?
    ensures Consistent(AddUser(s, user)) && HashesFormed(AddUser(s, user).users, h)
  {
    IndexGrows(s.users, s.index, user, NormalizeUsername(user.username).value);
    UsersGrow(s.customers, s.users, h, user);
  }

  /** The user a creation adds, if it adds one: nothing else changes. */
  lemma CreateUserAdds(s: Identities, h: Hasher, salt: string, id: UserId, username: string, role: Role,
                       customerId: Option<CustomerId>, password: string)
    requires SoundHasher(h)
    ensures var (s', r) := CreateUser(s, h, salt, id, username, role, customerId, password);
            if r.Err? then s' == s
            else && r.value.id == id && r.value.role == role && r.value.customerId == customerId
                 && r.value.username == NameKey(username)
                 && h.verify(r.value.passwordHash, password)
                 && UserFault(s, h, r.value).None? && s' == AddUser(s, r.value)
  {
    CleaningStable(username);
  }

  lemma CreateUserKeeps(s: Identities, h: Hasher, salt: string, id: UserId, username: string, role: Role,
                        customerId: Option<CustomerId>, password: string)
    requires Consistent(s) && HashesFormed(s.users, h) && SoundHasher(h)
    ensures var (s', r) := CreateUser(s, h, salt, id, username, role, customerId, password);
            && Consistent(s') && HashesFormed(s'.users, h) && s'.customers == s.customers
            && s'.users == if r.Ok? then s.users[id := r.value] else s.users
  {
    var (s', r) := CreateUser(s, h, salt, id, username, role, customerId, password);
    CreateUserAdds(s, h, salt, id, username, role, customerId, password);
    if r.Ok? {
      AddUserKeeps(s, h, r.value);
    }
  }

  // ---- Lookup and login -----------------------------------------------------------------------

  /** The users whose normalised name is the given one, found by looking at every user. */
  ghost function UsersNamed(s: Identities, name: string): set<UserId> {
    set id | id in s.users && NormalizeUsername(s.users[id].username) == Some(name)
  }

  /** Looking a name up in the index agrees with looking through all users. */
  lemma LookupIsScan(s: Identities, name: string)
    requires Consistent(s)
    ensures UsersNamed(s, name) == if name in s.index then {s.index[name]} else {}
  {
  }

  lemma LoginOf(s: Identities, h: Hasher, user: User, spelling: string, password: string)
    requires user.id in s.users && s.users[user.id] == user
    requires NormalizeUsername(spelling).Some? && NormalizeUsername(spelling).value in s.index
    requires s.index[NormalizeUsername(spelling).value] == user.id
    requires h.wellFormed(user.passwordHash) && h.verify(user.passwordHash, password)
    ensures Authenticate(s, h, spelling, password) == Ok(SessionOf(user))
  {
  }

  /** A user who has just been created can log in, under any spelling of the name, as that user. */
  lemma CreatedUserLogsIn(s: Identities, h: Hasher, salt: string, id: UserId, username: string, role: Role,
                          customerId: Option<CustomerId>, password: string, spelling: string)
    requires SoundHasher(h)
    requires CreateUser(s, h, salt, id, username, role, customerId, password).1.Ok?
    requires NameKey(spelling) == NameKey(username)
    ensures var s' := CreateUser(s, h, salt, id, username, role, customerId, password).0;
            Authenticate(s', h, spelling, password) == Ok(Session(id, NameKey(username), role, customerId))
  {
    var (s', r) := CreateUser(s, h, salt, id, username, role, customerId, password);
    CreateUserAdds(s, h, salt, id, username, role, customerId, password);
    LoginOf(s', h, r.value, spelling, password);
  }

  /** A session always speaks for an existing user with that role and customer. */
  ghost predicate SpeaksFor(session: Session, s: Identities) {
    session.userId in s.users && session == SessionOf(s.users[session.userId])
  }

  lemma AuthenticatedSpeaks(s: Identities, h: Hasher, username: string, password: string)
    requires Consistent(s) && Authenticate(s, h, username, password).Ok?
    ensures SpeaksFor(Authenticate(s, h, username, password).value, s)
  {
  }

  // ---- Import ---------------------------------------------------------------------------------

  ghost predicate EnumeratesCustomers(list: seq<CustomerRecord>, m: map<CustomerId, CustomerRecord>) {
    && (forall i, j :: 0 <= i < j < |list| ==> list[i].id != list[j].id)
    && (forall i :: 0 <= i < |list| ==> list[i].id in m && m[list[i].id] == list[i])
    && forall id :: id in m ==> m[id].id == id && m[id] in list
  }

  ghost predicate EnumeratesUsers(list: seq<User>, m: map<UserId, User>) {
    && (forall i, j :: 0 <= i < j < |list| ==> list[i].id != list[j].id)
    && (forall i :: 0 <= i < |list| ==> list[i].id in m && m[list[i].id] == list[i])
    && forall id :: id in m ==> m[id].id == id && m[id] in list
  }

  lemma {:induction false} AddCustomersKeeps(s: Identities, customers: seq<CustomerRecord>)
    requires Consistent(s) && s.users == map[] && AddCustomers(s, customers).Ok?
    ensures var s' := AddCustomers(s, customers).value;
            Consistent(s') && s'.users == map[] && s'.index == s.index
    decreases |customers|
  {
    if customers != [] {
      AddCustomersKeeps(s.(customers := s.customers[customers[0].id := customers[0]]), customers[1..]);
    }
  }

  lemma {:induction false} AddUsersKeeps(s: Identities, h: Hasher, users: seq<User>)
    requires Consistent(s) && HashesFormed(s.users, h) && AddUsers(s, h, users).Ok?
    ensures Consistent(AddUsers(s, h, users).value) && HashesFormed(AddUsers(s, h, users).value.users, h)
    decreases |users|
  {
    if users != [] {
      AddUserKeeps(s, h, users[0]);
      AddUsersKeeps(AddUser(s, users[0]), h, users[1..]);
    }
  }

  /** Whatever records are accepted, the store they make is consistent. */
  lemma ImportConsistent(h: Hasher, customers: seq<CustomerRecord>, users: seq<User>)
    requires FromRecords(h, customers, users).Ok?
    ensures Consistent(FromRecords(h, customers, users).value)
    ensures HashesFormed(FromRecords(h, customers, users).value.users, h)
  {
    NobodyConsistent(h);
    AddCustomersKeeps(NOBODY, customers);
    AddUsersKeeps(AddCustomers(NOBODY, customers).value, h, users);
  }

  lemma InverseUnique(names: map<UserId, string>, i: map<string, UserId>, j: map<string, UserId>)
    requires Inverse(names, i) && Inverse(names, j)
    ensures i == j
  {
    assert forall name :: name in i ==> name in j && j[name] == i[name];
    assert forall name :: name in j ==> name in i;
  }

  /** Customers and users determine the whole store. */
  lemma IndexDetermined(s: Identities, t: Identities)
    requires Consistent(s) && Consistent(t) && s.customers == t.customers && s.users == t.users
    ensures s == t
  {
    InverseUnique(Names(s.users), s.index, t.index);
  }

  /** The listed customers are exactly those of `all` that are not in `done` yet. */
  ghost predicate CustomersToCome(done: map<CustomerId, CustomerRecord>, all: map<CustomerId, CustomerRecord>,
                                  list: seq<CustomerRecord>)
  {
    && (forall i :: 0 <= i < |list| ==> list[i].id in all && all[list[i].id] == list[i] && list[i].id !in done)
    && (forall i, j :: 0 <= i < j < |list| ==> list[i].id != list[j].id)
    && (forall id :: id in done ==> id in all && done[id] == all[id])
    && forall id :: id in all ==> all[id].id == id && (id in done || all[id] in list)
  }

  lemma NextCustomerTaken(done: map<CustomerId, CustomerRecord>, all: map<CustomerId, CustomerRecord>,
                          list: seq<CustomerRecord>)
    requires list != [] && CustomersToCome(done, all, list)
    ensures CustomersToCome(done[list[0].id := list[0]], all, list[1..])
  {
    var rest, done' := list[1..], done[list[0].id := list[0]];
    assert forall i :: 0 <= i < |rest| ==> rest[i] == list[i + 1];
    forall id | id in all && id !in done'
      ensures all[id] in rest
    {
      var k :| 0 <= k < |list| && list[k] == all[id];
      assert rest[k - 1] == all[id];
    }
  }

  lemma {:induction false} CustomersReloaded(s: Identities, all: map<CustomerId, CustomerRecord>,
                                             list: seq<CustomerRecord>)
    requires CustomersSound(all) && CustomersToCome(s.customers, all, list)
    ensures AddCustomers(s, list) == Ok(s.(customers := all))
    decreases |list|
  {
    if list == [] {
      assert s.customers == all;
    } else {
      NextCustomerTaken(s.customers, all, list);
      CustomersReloaded(s.(customers := s.customers[list[0].id := list[0]]), all, list[1..]);
    }
  }

  /** s holds some of the users of target, and all of its customers. */
  ghost predicate PartOf(s: Identities, target: Identities) {
    && s.customers == target.customers
    && forall id :: id in s.users ==> id in target.users && s.users[id] == target.users[id]
  }

  ghost predicate StillToCome(s: Identities, target: Identities, list: seq<User>) {
    && (forall i :: 0 <= i < |list| ==>
          list[i].id in target.users && target.users[list[i].id] == list[i] && list[i].id !in s.users)
    && (forall i, j :: 0 <= i < j < |list| ==> list[i].id != list[j].id)
    && forall id :: id in target.users ==> id in s.users || target.users[id] in list
  }

  lemma PartIndex(s: Identities, target: Identities, name: string)
    requires Consistent(s) && Consistent(target) && PartOf(s, target) && name in s.index
    ensures name in target.index && target.index[name] == s.index[name] && s.index[name] in s.users
  {
    var id := s.index[name];
    assert id in Names(s.users) && Names(s.users)[id] == name;
    assert id in Names(target.users) && Names(target.users)[id] == name;
  }

  lemma NextUserUnused(s: Identities, target: Identities, h: Hasher, user: User)
    requires Consistent(s) && Consistent(target) && HashesFormed(target.users, h) && PartOf(s, target)
    requires user.id in target.users && target.users[user.id] == user && user.id !in s.users
    ensures UserFault(s, h, user).None?
  {
    assert user.id in Names(target.users);
    var name := Names(target.users)[user.id];
    if name in s.index {
      PartIndex(s, target, name);
    }
  }

  lemma NextUserTaken(s: Identities, target: Identities, list: seq<User>)
    requires PartOf(s, target) && list != [] && StillToCome(s, target, list)
    requires NormalizeUsername(list[0].username).Some?
    requires UsersLinked(target.customers, target.users)
    ensures PartOf(AddUser(s, list[0]), target) && StillToCome(AddUser(s, list[0]), target, list[1..])
  {
    var user, rest := list[0], list[1..];
    assert forall i :: 0 <= i < |rest| ==> rest[i] == list[i + 1];
    forall id | id in target.users && id !in s.users && id != user.id
      ensures target.users[id] in rest
    {
      var k :| 0 <= k < |list| && list[k] == target.users[id];
      assert rest[k - 1] == target.users[id];
    }
  }

  lemma AllUsersBack(s: Identities, target: Identities)
    requires Consistent(s) && Consistent(target) && PartOf(s, target) && StillToCome(s, target, [])
    ensures s == target
  {
    assert s.users == target.users;
    IndexDetermined(s, target);
  }

  lemma {:induction false} UsersReloaded(s: Identities, target: Identities, h: Hasher, list: seq<User>)
    requires Consistent(s) && HashesFormed(s.users, h) && Consistent(target) && HashesFormed(target.users, h)
    requires PartOf(s, target) && StillToCome(s, target, list)
    ensures AddUsers(s, h, list) == Ok(target)
    decreases |list|
  {
    if list == [] {
      AllUsersBack(s, target);
    } else {
      NextUserUnused(s, target, h, list[0]);
      NextUserTaken(s, target, list);
      AddUserKeeps(s, h, list[0]);
      UsersReloaded(AddUser(s, list[0]), target, h, list[1..]);
    }
  }

  /** Every consistent store is rebuilt, index included, from any listing of its customers and users. */
  lemma ReloadIdentities(s: Identities, h: Hasher, customers: seq<CustomerRecord>, users: seq<User>)
    requires Consistent(s) && HashesFormed(s.users, h)
    requires EnumeratesCustomers(customers, s.customers) && EnumeratesUsers(users, s.users)
    ensures FromRecords(h, customers, users) == Ok(s)
  {
    NobodyConsistent(h);
    CustomersReloaded(NOBODY, s.customers, customers);
    var start := NOBODY.(customers := s.customers);
    AddCustomersKeeps(NOBODY, customers);
    UsersReloaded(start, s, h, users);
  }

  // ---- Runs -----------------------------------------------------------------------------------

  datatype IdentityOp =
    | NewCustomer(customerId: CustomerId, fullName: string, email: string)
    | NewUser(salt: string, userId: UserId, username: string, role: Role, link: Option<CustomerId>, password: string)

  function After(s: Identities, h: Hasher, op: IdentityOp): Identities {
    match op
    case NewCustomer(id, fullName, email) => CreateCustomer(s, id, fullName, email).0
    case NewUser(salt, id, username, role, link, password) =>
      CreateUser(s, h, salt, id, username, role, link, password).0
  }

  function RunFrom(s: Identities, h: Hasher, ops: seq<IdentityOp>): Identities {
    if ops == [] then s else After(RunFrom(s, h, ops[..|ops| - 1]), h, ops[|ops| - 1])
  }

  lemma {:induction false} RunsConsistent(s: Identities, h: Hasher, ops: seq<IdentityOp>)
    requires Consistent(s) && HashesFormed(s.users, h) && SoundHasher(h)
    ensures Consistent(RunFrom(s, h, ops)) && HashesFormed(RunFrom(s, h, ops).users, h)
  {
    if ops != [] {
      var before := RunFrom(s, h, ops[..|ops| - 1]);
      RunsConsistent(s, h, ops[..|ops| - 1]);
      match ops[|ops| - 1] {
        case NewCustomer(id, fullName, email) => CreateCustomerKeeps(before, id, fullName, email);
        case NewUser(salt, id, username, role, link, password) =>
          CreateUserKeeps(before, h, salt, id, username, role, link, password);
      }
    }
  }

  /**
   * After any import followed by any creations: a name leads to a user exactly when that user's
   * normalised name is that name, and only customer users are linked to a customer, which exists.
   */
  lemma IndexAfterAnything(h: Hasher, customers: seq<CustomerRecord>, users: seq<User>, ops: seq<IdentityOp>,
                           name: string, id: UserId)
    requires SoundHasher(h) && FromRecords(h, customers, users).Ok?
    ensures var s := RunFrom(FromRecords(h, customers, users).value, h, ops);
            && (name in s.index && s.index[name] == id <==>
                id in s.users && NormalizeUsername(s.users[id].username) == Some(name))
            && (id in s.users ==> (s.users[id].role.Customer? <==> s.users[id].customerId.Some?))
            && (id in s.users && s.users[id].customerId.Some? ==> s.users[id].customerId.value in s.customers)
  {
    ImportConsistent(h, customers, users);
    var s := RunFrom(FromRecords(h, customers, users).value, h, ops);
    RunsConsistent(FromRecords(h, customers, users).value, h, ops);
    InverseMeans(s, name, id);
  }

  lemma InverseMeans(s: Identities, name: string, id: UserId)
    requires Consistent(s)
    ensures name in s.index && s.index[name] == id <==>
            id in s.users && NormalizeUsername(s.users[id].username) == Some(name)
    ensures id in s.users ==> (s.users[id].role.Customer? <==> s.users[id].customerId.Some?)
    ensures id in s.users && s.users[id].customerId.Some? ==> s.users[id].customerId.value in s.customers
  {
    if id in s.users {
      assert id in Names(s.users);
      assert LinkFault(s.customers, s.users[id].role, s.users[id].customerId).None?;
    }
    if name in s.index {
      assert s.index[name] in Names(s.users);
    }
  }
}
