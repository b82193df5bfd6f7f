/** The identity store object: three maps updated in step. */
module IdentityStores {
  import opened Wrappers
  import opened Text
  import opened Domain
  import opened Identity

  class IdentityStore {
    var customers: map<CustomerId, CustomerRecord>
    var users: map<UserId, User>
    var usernameIndex: map<string, UserId>

    ghost function State(): Identities
      reads this
    {
      Identities(customers, users, usernameIndex)
    }

    constructor ()
      ensures State() == NOBODY
    {
      customers, users, usernameIndex := map[], map[], map[];
    }

    /** Import: customers first, then each user against the store built so far. */
    static method FromRecords(h: Hasher, customerList: seq<CustomerRecord>, userList: seq<User>)
      returns (r: Result<IdentityStore, IdentityError>)
      ensures match Identity.FromRecords(h, customerList, userList)
              case Err(error) => r == Err(error)
              case Ok(s) => r.Ok? && fresh(r.value) && r.value.State() == s
    {
      var store := new IdentityStore();
      for i := 0 to |customerList|
        invariant fresh(store)
        invariant AddCustomers(store.State(), customerList[i..]) == AddCustomers(NOBODY, customerList)
      {
        var customer := customerList[i];
        assert customerList[i..][0] == customer && customerList[i..][1..] == customerList[i + 1..];
        var fault := CustomerFault(customer);
        if fault.Some? {
          return Err(fault.value);
        }
        if customer.id in store.customers {
          return Err(CustomerAlreadyExists(customer.id));
        }
        store.customers := store.customers[customer.id := customer];
      }
      ghost var start := store.State();
      for i := 0 to |userList|
        invariant fresh(store)
        invariant AddUsers(store.State(), h, userList[i..]) == AddUsers(start, h, userList)
      {
        var user := userList[i];
        assert userList[i..][0] == user && userList[i..][1..] == userList[i + 1..];
        var name := NormalizeUsername(user.username);
        if name.None? {
          return Err(InvalidProfileField("username"));
        }
        var link := LinkFault(store.customers, user.role, user.customerId);
        if link.Some? {
          return Err(link.value);
        }
        if !h.wellFormed(user.passwordHash) {
          return Err(PasswordHash);
        }
        if user.id in store.users {
          return Err(UserAlreadyExists(user.id));
        }
        if name.value in store.usernameIndex {
          return Err(UsernameAlreadyExists(name.value));
        }
        store.usernameIndex := store.usernameIndex[name.value := user.id];
        store.users := store.users[user.id := user];
      }
      return Ok(store);
    }

    method CreateCustomer(id: CustomerId, fullName: string, email: string)
      returns (r: Result<CustomerRecord, IdentityError>)
      modifies this`customers
      ensures (State(), r) == Identity.CreateCustomer(old(State()), id, fullName, email)
    {
      if id in customers {
        return Err(CustomerAlreadyExists(id));
      }
      var name := CleanName(fullName);
      if name.None? {
        return Err(InvalidProfileField("name"));
      }
      var cleanEmail := CleanEmail(email);
      if cleanEmail.None? {
        return Err(InvalidProfileField("email"));
      }
      var customer := CustomerRecord(id, name.value, cleanEmail.value);
      customers := customers[id := customer];
      return Ok(customer);
    }

    method CreateUser(h: Hasher, salt: string, id: UserId, username: string, role: Role, customerId: Option<CustomerId>,
                      password: string)
      returns (r: Result<User, IdentityError>)
      modifies this`users, this`usernameIndex
      ensures (State(), r) == Identity.CreateUser(old(State()), h, salt, id, username, role, customerId, password)
    {
      if id in users {
        return Err(UserAlreadyExists(id));
      }
      if |password| < 8 {
        return Err(PasswordTooWeak);
      }
      var link := LinkFault(customers, role, customerId);
      if link.Some? {
        return Err(link.value);
      }
      var name := NormalizeUsername(username);
      if name.None? {
        return Err(InvalidProfileField("username"));
      }
      if name.value in usernameIndex {
        return Err(UsernameAlreadyExists(name.value));
      }
      var hash := h.hash(salt, password);
      if hash.None? {
        return Err(PasswordHash);
      }
      var user := User(id, name.value, role, customerId, hash.value);
      users := users[id := user];
      usernameIndex := usernameIndex[name.value := id];
      return Ok(user);
    }

    method Authenticate(h: Hasher, username: string, password: string) returns (r: Result<Session, IdentityError>)
      ensures r == Identity.Authenticate(State(), h, username, password)
    {
      var name := NormalizeUsername(username);
      if name.None? {
        return Err(InvalidProfileField("username"));
      }
      if name.value !in usernameIndex {
        return Err(InvalidCredentials);
      }
      var id := usernameIndex[name.value];
      if id !in users {
        return Err(UserNotFound(id));
      }
      var user := users[id];
      if !h.wellFormed(user.passwordHash) {
        return Err(PasswordHash);
      }
      if !h.verify(user.passwordHash, password) {
        return Err(InvalidCredentials);
      }
      return Ok(SessionOf(user));
    }
  }
}
