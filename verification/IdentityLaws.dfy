/** Who can be created, who can log in and which records are accepted, in the caller's terms. */
module IdentityLaws {
  import opened Wrappers
  import opened Text
  import opened Domain
  import opened Identity

  // ---- Login ----------------------------------------------------------------------------------

  /** The user has this name, in any spelling. */
  ghost predicate Named(s: Identities, id: UserId, username: string) {
    && id in s.users && NormalizeUsername(username).Some?
    && NormalizeUsername(s.users[id].username) == NormalizeUsername(username)
  }

  /** Name and password are those of the user. */
  ghost predicate Matches(s: Identities, h: Hasher, id: UserId, username: string, password: string) {
    Named(s, id, username) && h.verify(s.users[id].passwordHash, password)
  }

  ghost predicate CanLogIn(s: Identities, h: Hasher, username: string, password: string) {
    exists id :: Matches(s, h, id, username, password)
  }

  lemma NamedIsIndexed(s: Identities, id: UserId, username: string)
    requires Consistent(s)
    ensures Named(s, id, username) <==>
            && NormalizeUsername(username).Some? && NormalizeUsername(username).value in s.index
            && s.index[NormalizeUsername(username).value] == id && id in s.users
  {
    if NormalizeUsername(username).Some? {
      LookupIsScan(s, NormalizeUsername(username).value);
      assert Named(s, id, username) <==> id in UsersNamed(s, NormalizeUsername(username).value);
    }
  }

  /** Nobody but the user of a matching name and password logs in, and that user does, as that user. */
  lemma LoginIff(s: Identities, h: Hasher, username: string, password: string)
    requires Consistent(s) && HashesFormed(s.users, h)
    ensures Authenticate(s, h, username, password).Ok? <==> CanLogIn(s, h, username, password)
    ensures forall id :: Matches(s, h, id, username, password) ==>
              Authenticate(s, h, username, password) ==
              Ok(Session(id, s.users[id].username, s.users[id].role, s.users[id].customerId))
    ensures !CanLogIn(s, h, username, password) ==>
              Authenticate(s, h, username, password) ==
              Err(if IsUsername(NameKey(username)) then InvalidCredentials else InvalidProfileField("username"))
  {
    UsernameAccepted(username);
    forall id
      ensures Matches(s, h, id, username, password) ==>
                Authenticate(s, h, username, password) ==
                Ok(Session(id, s.users[id].username, s.users[id].role, s.users[id].customerId))
    {
      NamedIsIndexed(s, id, username);
    }
    if NormalizeUsername(username).Some? && NormalizeUsername(username).value in s.index {
      var id := s.index[NormalizeUsername(username).value];
      assert id in Names(s.users);
      NamedIsIndexed(s, id, username);
      assert Matches(s, h, id, username, password) <==> h.verify(s.users[id].passwordHash, password);
    }
  }

  /** A stored hash that is not well formed is reported, whatever the password. */
  lemma MalformedHashIsReported(s: Identities, h: Hasher, id: UserId, username: string, password: string)
    requires Consistent(s) && Named(s, id, username) && !h.wellFormed(s.users[id].passwordHash)
    ensures Authenticate(s, h, username, password) == Err(PasswordHash)
  {
    NamedIsIndexed(s, id, username);
  }

  // ---- Creating users -------------------------------------------------------------------------

  /** Customer users are linked to an existing customer, staff users to none. */
  predicate RightlyLinked(customers: map<CustomerId, CustomerRecord>, role: Role, link: Option<CustomerId>) {
    (role == Role.Customer <==> link.Some?) && (link.Some? ==> link.value in customers)
  }

  function Created(s: Identities, h: Hasher, u: IdentityOp): (Identities, Result<User, IdentityError>)
    requires u.NewUser?
  {
    CreateUser(s, h, u.salt, u.userId, u.username, u.role, u.link, u.password)
  }

  ghost predicate Creatable(s: Identities, h: Hasher, u: IdentityOp)
    requires u.NewUser?
  {
    && u.userId !in s.users
    && |u.password| >= 8
    && RightlyLinked(s.customers, u.role, u.link)
    && IsUsername(NameKey(u.username)) && UsersNamed(s, NameKey(u.username)) == {}
    && h.hash(u.salt, u.password).Some?
  }

  /** What a creation that is not possible answers. */
  ghost function CreationError(s: Identities, u: IdentityOp): IdentityError
    requires u.NewUser?
  {
    if u.userId in s.users then UserAlreadyExists(u.userId)
    else if |u.password| < 8 then PasswordTooWeak
    else if u.role == Role.Customer && u.link == None then RoleRequiresCustomer
    else if u.role == Role.Customer && u.link.value !in s.customers then CustomerNotFound(u.link.value)
    else if u.role != Role.Customer && u.link != None then RoleCannotHaveCustomer
    else if !IsUsername(NameKey(u.username)) then InvalidProfileField("username")
    else if UsersNamed(s, NameKey(u.username)) != {} then UsernameAlreadyExists(NameKey(u.username))
    else PasswordHash
  }

  ghost function UserOf(h: Hasher, u: IdentityOp): User
    requires u.NewUser? && h.hash(u.salt, u.password).Some?
  {
    User(u.userId, NameKey(u.username), u.role, u.link, h.hash(u.salt, u.password).value)
  }

  /** The store with the user added, name and all. */
  ghost function WithUser(s: Identities, h: Hasher, u: IdentityOp): Identities
    requires u.NewUser? && h.hash(u.salt, u.password).Some?
  {
    Identities(s.customers, s.users[u.userId := UserOf(h, u)], s.index[NameKey(u.username) := u.userId])
  }

  lemma LinkMeans(customers: map<CustomerId, CustomerRecord>, role: Role, link: Option<CustomerId>)
    ensures LinkFault(customers, role, link) ==
            if RightlyLinked(customers, role, link) then None
            else if role == Role.Customer && link == None then Some(RoleRequiresCustomer)
            else if role == Role.Customer then Some(CustomerNotFound(link.value))
            else Some(RoleCannotHaveCustomer)
  {
  }

  /** A user is created, exactly as asked for, iff the creation is possible; otherwise nothing changes. */
  lemma CreateUserIff(s: Identities, h: Hasher, u: IdentityOp)
    requires Consistent(s) && u.NewUser?
    ensures Created(s, h, u).1.Ok? <==> Creatable(s, h, u)
    ensures Creatable(s, h, u) ==> Created(s, h, u) == (WithUser(s, h, u), Ok(UserOf(h, u)))
    ensures !Creatable(s, h, u) ==> Created(s, h, u) == (s, Err(CreationError(s, u)))
  {
    UsernameAccepted(u.username);
    LookupIsScan(s, NameKey(u.username));
    LinkMeans(s.customers, u.role, u.link);
    CreationDecided(s, h, u);
  }

  lemma CreationDecided(s: Identities, h: Hasher, u: IdentityOp)
    requires u.NewUser? && (UsersNamed(s, NameKey(u.username)) == {} <==> NameKey(u.username) !in s.index)
    requires NormalizeUsername(u.username) ==
             if IsUsername(NameKey(u.username)) then Some(NameKey(u.username)) else None
    ensures !Creatable(s, h, u) ==> Created(s, h, u) == (s, Err(CreationError(s, u)))
    ensures Creatable(s, h, u) ==> Created(s, h, u) == (WithUser(s, h, u), Ok(UserOf(h, u)))
  {
    LinkMeans(s.customers, u.role, u.link);
  }

  /**
   * A user who was created can log in with the password of the creation, and, if hashes tell passwords apart, with no
   * other.
   */
  lemma OnlyItsPassword(s: Identities, h: Hasher, u: IdentityOp, spelling: string, password: string)
    requires Consistent(s) && HashesFormed(s.users, h) && SoundHasher(h)
    requires u.NewUser? && Creatable(s, h, u) && NameKey(spelling) == NameKey(u.username)
    ensures Authenticate(Created(s, h, u).0, h, spelling, password).Ok? <==>
            h.verify(UserOf(h, u).passwordHash, password)
    ensures Authenticate(Created(s, h, u).0, h, spelling, u.password) ==
            Ok(Session(u.userId, NameKey(u.username), u.role, u.link))
  {
    var s' := Created(s, h, u).0;
    CreateUserIff(s, h, u);
    CreateUserKeeps(s, h, u.salt, u.userId, u.username, u.role, u.link, u.password);
    UsernameAccepted(spelling);
    UsernameAccepted(u.username);
    CleaningStable(u.username);
    assert Named(s', u.userId, spelling);
    forall id | Named(s', id, spelling)
      ensures id == u.userId
    {
      NamedIsIndexed(s', id, spelling);
    }
    LoginIff(s', h, spelling, password);
    LoginIff(s', h, spelling, u.password);
    assert Matches(s', h, u.userId, spelling, u.password);
    assert Matches(s', h, u.userId, spelling, password) <==> h.verify(UserOf(h, u).passwordHash, password);
  }

  lemma CreatedKeeps(s: Identities, h: Hasher, u: IdentityOp)
    requires Consistent(s) && HashesFormed(s.users, h) && SoundHasher(h) && u.NewUser? && Creatable(s, h, u)
    ensures Consistent(WithUser(s, h, u)) && HashesFormed(WithUser(s, h, u).users, h)
  {
    CreateUserIff(s, h, u);
    CreateUserKeeps(s, h, u.salt, u.userId, u.username, u.role, u.link, u.password);
  }

  // ---- Creating customers ---------------------------------------------------------------------

  /** A text with something in it besides white space. */
  ghost predicate NotBlank(s: string) {
    exists i :: 0 <= i < |s| && !IsSpace(s[i])
  }

  ghost predicate CustomerCreatable(s: Identities, id: CustomerId, fullName: string, email: string) {
    id !in s.customers && NotBlank(fullName) && IsAddress(NameKey(email))
  }

  ghost function CustomerError(s: Identities, id: CustomerId, fullName: string): IdentityError {
    if id in s.customers then CustomerAlreadyExists(id)
    else if !NotBlank(fullName) then InvalidProfileField("name")
    else InvalidProfileField("email")
  }

  /** A customer is created, cleaned, iff the id is free and the fields are valid; nobody is ever overwritten. */
  lemma CreateCustomerIff(s: Identities, id: CustomerId, fullName: string, email: string)
    ensures CreateCustomer(s, id, fullName, email).1.Ok? <==> CustomerCreatable(s, id, fullName, email)
    ensures CustomerCreatable(s, id, fullName, email) ==>
              var customer := CustomerRecord(id, Trim(fullName), NameKey(email));
              CreateCustomer(s, id, fullName, email) == (s.(customers := s.customers[id := customer]), Ok(customer))
    ensures !CustomerCreatable(s, id, fullName, email) ==>
              CreateCustomer(s, id, fullName, email) == (s, Err(CustomerError(s, id, fullName)))
  {
    NameAccepted(fullName);
    EmailAccepted(email);
  }

  // ---- What consistency says ------------------------------------------------------------------

  /** A stored customer. */
  ghost predicate ProperCustomer(customers: map<CustomerId, CustomerRecord>, id: CustomerId)
    requires id in customers
  {
    customers[id].id == id && NotBlank(customers[id].fullName) && IsAddress(NameKey(customers[id].email))
  }

  /** A stored user. */
  ghost predicate ProperUser(s: Identities, id: UserId)
    requires id in s.users
  {
    && s.users[id].id == id
    && RightlyLinked(s.customers, s.users[id].role, s.users[id].customerId)
    && IsUsername(NameKey(s.users[id].username))
    && NameKey(s.users[id].username) in s.index && s.index[NameKey(s.users[id].username)] == id
  }

  lemma CustomersMean(customers: map<CustomerId, CustomerRecord>)
    ensures CustomersSound(customers) <==> forall id :: id in customers ==> ProperCustomer(customers, id)
  {
    forall id | id in customers
      ensures CustomerFault(customers[id]).None? <==>
              NotBlank(customers[id].fullName) && IsAddress(NameKey(customers[id].email))
    {
      NameAccepted(customers[id].fullName);
      EmailAccepted(customers[id].email);
    }
  }

  lemma LinksMean(s: Identities)
    ensures UsersLinked(s.customers, s.users) <==>
            forall id :: id in s.users ==>
              s.users[id].id == id && RightlyLinked(s.customers, s.users[id].role, s.users[id].customerId)
  {
    forall id | id in s.users
      ensures LinkFault(s.customers, s.users[id].role, s.users[id].customerId).None? <==>
              RightlyLinked(s.customers, s.users[id].role, s.users[id].customerId)
    {
      LinkMeans(s.customers, s.users[id].role, s.users[id].customerId);
    }
  }

  /** Each name of the index is the name of the user it leads to. */
  ghost predicate NoStrayNames(s: Identities) {
    forall name :: name in s.index ==> s.index[name] in s.users && NameKey(s.users[s.index[name]].username) == name
  }

  /** Consistency spelled out: proper customers, proper users, each with a name of its own, no stray names. */
  lemma ConsistencyMeans(s: Identities)
    ensures Consistent(s) <==>
            && (forall id :: id in s.customers ==> ProperCustomer(s.customers, id))
            && (forall id :: id in s.users ==> ProperUser(s, id))
            && NoStrayNames(s)
  {
    CustomersMean(s.customers);
    LinksMean(s);
    NamesMean(s);
    assert (forall id :: id in s.users ==> ProperUser(s, id)) <==>
           (forall id :: id in s.users ==>
              s.users[id].id == id && RightlyLinked(s.customers, s.users[id].role, s.users[id].customerId))
           && (forall id :: id in s.users ==> Indexed(s, id)) by {
      assert forall id :: id in s.users ==> (ProperUser(s, id) <==>
               s.users[id].id == id && RightlyLinked(s.customers, s.users[id].role, s.users[id].customerId)
               && Indexed(s, id));
    }
  }

  ghost predicate Indexed(s: Identities, id: UserId)
    requires id in s.users
  {
    && IsUsername(NameKey(s.users[id].username))
    && NameKey(s.users[id].username) in s.index && s.index[NameKey(s.users[id].username)] == id
  }

  lemma NamesMean(s: Identities)
    ensures IndexExact(s.users, s.index) <==> (forall id :: id in s.users ==> Indexed(s, id)) && NoStrayNames(s)
  {
    var names := Names(s.users);
    forall id | id in s.users
      ensures id in names <==> IsUsername(NameKey(s.users[id].username))
      ensures id in names ==> names[id] == NameKey(s.users[id].username)
    {
      UsernameAccepted(s.users[id].username);
    }
    if names.Keys == s.users.Keys {
      assert forall id :: id in s.users ==> id in names.Keys;
    }
    if forall id :: id in s.users ==> Indexed(s, id) {
      assert names.Keys == s.users.Keys;
    }
  }

  // ---- Which records are accepted -------------------------------------------------------------

  lemma CustomerWasTaken(done: map<CustomerId, CustomerRecord>, all: map<CustomerId, CustomerRecord>,
                         list: seq<CustomerRecord>)
    requires list != [] && list[0].id !in done && CustomersToCome(done[list[0].id := list[0]], all, list[1..])
    ensures CustomersToCome(done, all, list)
  {
    var first, rest := list[0], list[1..];
    var done' := done[first.id := first];
    assert first.id in done' && done'[first.id] == first;
    assert forall i :: 1 <= i < |list| ==> list[i] == rest[i - 1];
    forall id | id in all && id !in done
      ensures all[id] in list
    {
      if id != first.id {
        assert all[id] in rest;
      }
    }
    forall id | id in done
      ensures id in all && done[id] == all[id]
    {
      assert id in done' && done'[id] == done[id];
    }
  }

  lemma {:induction false} CustomersTaken(s: Identities, list: seq<CustomerRecord>)
    requires AddCustomers(s, list).Ok? && forall id :: id in s.customers ==> s.customers[id].id == id
    ensures CustomersToCome(s.customers, AddCustomers(s, list).value.customers, list)
    decreases |list|
  {
    if list != [] {
      CustomersTaken(s.(customers := s.customers[list[0].id := list[0]]), list[1..]);
      CustomerWasTaken(s.customers, AddCustomers(s, list).value.customers, list);
    }
  }

  lemma UserWasTaken(s: Identities, t: Identities, list: seq<User>)
    requires list != [] && list[0].id !in s.users && NormalizeUsername(list[0].username).Some?
    requires PartOf(AddUser(s, list[0]), t) && StillToCome(AddUser(s, list[0]), t, list[1..])
    ensures PartOf(s, t) && StillToCome(s, t, list)
  {
    var first, rest, s' := list[0], list[1..], AddUser(s, list[0]);
    assert first.id in s'.users && s'.users[first.id] == first;
    assert forall i :: 1 <= i < |list| ==> list[i] == rest[i - 1];
    forall id | id in t.users && id !in s.users
      ensures t.users[id] in list
    {
      if id != first.id {
        assert t.users[id] in rest;
      }
    }
    forall id | id in s.users
      ensures id in t.users && s.users[id] == t.users[id]
    {
      assert id in s'.users && s'.users[id] == s.users[id];
    }
  }

  lemma {:induction false} UsersTaken(s: Identities, h: Hasher, list: seq<User>)
    requires AddUsers(s, h, list).Ok?
    ensures PartOf(s, AddUsers(s, h, list).value) && StillToCome(s, AddUsers(s, h, list).value, list)
    decreases |list|
  {
    if list != [] {
      UsersTaken(AddUser(s, list[0]), h, list[1..]);
      UserWasTaken(s, AddUsers(s, h, list).value, list);
    }
  }

  lemma {:induction false} CustomersKept(s: Identities, list: seq<CustomerRecord>)
    requires AddCustomers(s, list).Ok?
    ensures AddCustomers(s, list).value.users == s.users && AddCustomers(s, list).value.index == s.index
    decreases |list|
  {
    if list != [] {
      CustomersKept(s.(customers := s.customers[list[0].id := list[0]]), list[1..]);
    }
  }

  /** Whatever list is accepted, the store holds exactly its customers and users. */
  lemma ImportEnumerates(h: Hasher, customers: seq<CustomerRecord>, users: seq<User>)
    requires FromRecords(h, customers, users).Ok?
    ensures var s := FromRecords(h, customers, users).value;
            EnumeratesCustomers(customers, s.customers) && EnumeratesUsers(users, s.users)
  {
    var mid := AddCustomers(NOBODY, customers).value;
    CustomersTaken(NOBODY, customers);
    CustomersKept(NOBODY, customers);
    UsersTaken(mid, h, users);
    ImportConsistent(h, customers, users);
  }

  /**
   * An import gives a store iff that store is consistent, its hashes are well formed, and the lists are its records,
   * once each.
   */
  lemma ImportIff(h: Hasher, customers: seq<CustomerRecord>, users: seq<User>, s: Identities)
    ensures FromRecords(h, customers, users) == Ok(s) <==>
            && Consistent(s) && HashesFormed(s.users, h)
            && EnumeratesCustomers(customers, s.customers) && EnumeratesUsers(users, s.users)
  {
    if FromRecords(h, customers, users) == Ok(s) {
      ImportConsistent(h, customers, users);
      ImportEnumerates(h, customers, users);
    }
    if Consistent(s) && HashesFormed(s.users, h)
       && EnumeratesCustomers(customers, s.customers) && EnumeratesUsers(users, s.users) {
      ReloadIdentities(s, h, customers, users);
    }
  }
}
