/**
 * The two MongoDB collections of database.py — users and trading logs — held
 * in memory, with `store_user`, `get_user_by_username` and
 * `log_trading_action`. Password hashing and e-mail validation are
 * collaborators, given to the store as functions; whether the database answers
 * at all is a field.
 */
module Database {
  import opened Basics

  /** A document of the users collection (models.User). */
  datatype User = User(username: string, fullName: string, email: string, hashedPassword: string)

  /** A document of the trading logs collection (models.TradingLog). */
  datatype TradingLog = TradingLog(userId: string, actionType: string, netuid: int, hotkey: string,
                                   amount: real, timestamp: int, transactionId: Option<string>)

  /** What `store_user` returns: a success message carrying the inserted id, or one of its error messages. */
  datatype StoreResult =
    | Created(insertedId: nat)
    | DuplicateUsername    // "User with this username already exists."
    | ValidationFailed     // pydantic rejected the record
    | StoreFailed          // any other exception: the database, or a missing key

  /** What `get_user_by_username` gives: the user, `None`, or an HTTPException. */
  datatype LookupResult = Found(user: User) | NotFound | LookupHttpError(status: int)

  /** What `log_trading_action` gives: normal return, or an HTTPException. */
  datatype LogResult = Logged | LogHttpError(status: int)

  const ServerErrorStatus: int := 500

  predicate UniqueUsernames(users: seq<User>) {
    forall i, j :: 0 <= i < j < |users| ==> users[i].username != users[j].username
  }

  /** `find_one({"username": name})`: the first matching document. */
  function FindUser(users: seq<User>, name: string): (r: Option<User>)
    ensures r.Some? ==> r.value in users && r.value.username == name
  {
    if users == [] then None
    else if users[0].username == name then Some(users[0])
    else FindUser(users[1..], name)
  }

  /** `find_one` finds a document exactly when one has that username. */
  lemma {:induction false} FindUserFindsAny(users: seq<User>, name: string)
    ensures FindUser(users, name).Some? <==> exists i :: 0 <= i < |users| && users[i].username == name
  {
    if users != [] {
      FindUserFindsAny(users[1..], name);
      if users[0].username != name && exists i :: 0 <= i < |users| && users[i].username == name {
        var i :| 0 <= i < |users| && users[i].username == name;
        assert users[1..][i - 1].username == name;
      }
    }
  }

  /** The dict after `user_data["hashed_password"] = hash(...)` and `user_data.pop("password")`. */
  function HashedForm(fields: map<string, string>, hash: string -> string): map<string, string>
    requires "password" in fields
  {
    fields["hashed_password" := hash(fields["password"])] - {"password"}
  }

  /** `User(**fields)` succeeds: the four fields are there and the e-mail passes `EmailStr`. */
  predicate Validates(fields: map<string, string>, validEmail: string -> bool) {
    && "username" in fields && "full_name" in fields && "email" in fields && "hashed_password" in fields
    && validEmail(fields["email"])
  }

  function UserOf(fields: map<string, string>, validEmail: string -> bool): User
    requires Validates(fields, validEmail)
  {
    User(fields["username"], fields["full_name"], fields["email"], fields["hashed_password"])
  }

  /** The result, the caller's dict afterwards, and the users collection afterwards. */
  datatype StoreStep = StoreStep(result: StoreResult, fields: map<string, string>, users: seq<User>)

  /** `store_user(user_data)`. */
  function StoreUserStep(users: seq<User>, online: bool, hash: string -> string, validEmail: string -> bool,
                         fields: map<string, string>): StoreStep
  {
    if !online || "username" !in fields then StoreStep(StoreFailed, fields, users)
    else if FindUser(users, fields["username"]).Some? then StoreStep(DuplicateUsername, fields, users)
    else if "password" !in fields then StoreStep(StoreFailed, fields, users)
    else
      var hashed := HashedForm(fields, hash);
      if !Validates(hashed, validEmail) then StoreStep(ValidationFailed, hashed, users)
      else StoreStep(Created(|users|), hashed, users + [UserOf(hashed, validEmail)])
  }

  // ---------------------------------------------------------------------------
  // Properties of store_user

  /** Storing a taken username reports it and leaves the collection as it was. */
  lemma DuplicateLeavesUsers(users: seq<User>, hash: string -> string, validEmail: string -> bool,
                             fields: map<string, string>, i: nat)
    requires "username" in fields
    requires i < |users| && users[i].username == fields["username"]
    ensures var s := StoreUserStep(users, true, hash, validEmail, fields);
      s.result == DuplicateUsername && s.users == users && s.fields == fields
  {
    FindUserFindsAny(users, fields["username"]);
  }

  /**
   * A successful store inserts exactly one record, holding hash(password) and
   * the other fields, and the plaintext password leaves the caller's dict.
   */
  lemma CreatedStoresHash(users: seq<User>, hash: string -> string, validEmail: string -> bool,
                          fields: map<string, string>)
    requires StoreUserStep(users, true, hash, validEmail, fields).result.Created?
    ensures var s := StoreUserStep(users, true, hash, validEmail, fields);
      "password" in fields && "password" !in s.fields &&
      s.users == users + [User(fields["username"], fields["full_name"], fields["email"], hash(fields["password"]))]
  {
  }

  /** A rejected record, such as a bad e-mail, inserts nothing; the caller's dict is still rewritten. */
  lemma ValidationFailureInsertsNothing(users: seq<User>, hash: string -> string, validEmail: string -> bool,
                                        fields: map<string, string>)
    requires "username" in fields && "password" in fields && "full_name" in fields && "email" in fields
    requires FindUser(users, fields["username"]).None?
    requires !validEmail(fields["email"])
    ensures var s := StoreUserStep(users, true, hash, validEmail, fields);
      s.result == ValidationFailed && s.users == users && s.fields == HashedForm(fields, hash)
  {
  }

  /** Usernames stay unique across any store. */
  lemma StoreKeepsUsernamesUnique(users: seq<User>, online: bool, hash: string -> string,
                                  validEmail: string -> bool, fields: map<string, string>)
    requires UniqueUsernames(users)
    ensures UniqueUsernames(StoreUserStep(users, online, hash, validEmail, fields).users)
  {
    var s := StoreUserStep(users, online, hash, validEmail, fields);
    if s.result.Created? {
      FindUserFindsAny(users, fields["username"]);
    }
  }

  /** `find_one` over a collection grown by one record with a new username finds the old records and the new one. */
  lemma {:induction false} FindUserAfterAppend(users: seq<User>, u: User, name: string)
    requires FindUser(users, u.username).None?
    ensures FindUser(users + [u], name) == if name == u.username then Some(u) else FindUser(users, name)
  {
    if users == [] {
      assert [u][1..] == [];
    } else {
      assert (users + [u])[1..] == users[1..] + [u];
      FindUserAfterAppend(users[1..], u, name);
    }
  }

  /** Right after a successful store, looking the username up gives the stored record. */
  lemma StoreThenFind(users: seq<User>, hash: string -> string, validEmail: string -> bool,
                      fields: map<string, string>)
    requires StoreUserStep(users, true, hash, validEmail, fields).result.Created?
    ensures var s := StoreUserStep(users, true, hash, validEmail, fields);
      FindUser(s.users, fields["username"]) == Some(s.users[|users|])
  {
    var s := StoreUserStep(users, true, hash, validEmail, fields);
    FindUserAfterAppend(users, s.users[|users|], fields["username"]);
  }

  // ---------------------------------------------------------------------------
  // The caller's dict and the collections

  /** The `user_data` dict handed to `store_user`, which it rewrites in place. */
  class UserData {
    var fields: map<string, string>

    constructor (fields: map<string, string>)
      ensures this.fields == fields
    {
      this.fields := fields;
    }
  }

  class MongoStore {
    var users: seq<User>
    var tradingLogs: seq<TradingLog>
    /** Whether the database answers. */
    var online: bool
    /** `get_hashed_password`. */
    const hash: string -> string
    /** Pydantic's `EmailStr` check. */
    const validEmail: string -> bool

    ghost predicate Valid()
      reads this
    {
      UniqueUsernames(users)
    }

    constructor (hash: string -> string, validEmail: string -> bool)
      ensures Valid() && users == [] && tradingLogs == [] && online
      ensures this.hash == hash && this.validEmail == validEmail
    {
      users := [];
      tradingLogs := [];
      online := true;
      this.hash := hash;
      this.validEmail := validEmail;
    }

    method SetOnline(up: bool)
      modifies this`online
      ensures online == up
    {
      online := up;
    }

    /** `store_user(user_data)`. */
    method StoreUser(data: UserData) returns (r: StoreResult)
      requires Valid()
      modifies this`users, data
      ensures Valid()
      ensures var s := StoreUserStep(old(users), online, hash, validEmail, old(data.fields));
        r == s.result && data.fields == s.fields && users == s.users
    {
      if !online || "username" !in data.fields {
        return StoreFailed;
      }
      var existing := FindUser(users, data.fields["username"]);
      if existing.Some? {
        return DuplicateUsername;
      }
      if "password" !in data.fields {
        return StoreFailed;
      }
      data.fields := data.fields["hashed_password" := hash(data.fields["password"])];
      data.fields := data.fields - {"password"};
      if !Validates(data.fields, validEmail) {
        return ValidationFailed;
      }
      StoreKeepsUsernamesUnique(users, online, hash, validEmail, old(data.fields));
      r := Created(|users|);
      users := users + [UserOf(data.fields, validEmail)];
    }

    /** `get_user_by_username(username)`. */
    method GetUserByUsername(username: string) returns (r: LookupResult)
      requires Valid()
      ensures !online ==> r == LookupHttpError(ServerErrorStatus)
      ensures online ==> (r.Found? <==> exists i :: 0 <= i < |users| && users[i].username == username)
      ensures online && r.Found? ==> r.user in users && r.user.username == username
      ensures online && !(exists i :: 0 <= i < |users| && users[i].username == username) ==> r == NotFound
    {
      if !online {
        return LookupHttpError(ServerErrorStatus);
      }
      FindUserFindsAny(users, username);
      var found := FindUser(users, username);
      if found.Some? {
        return Found(found.value);
      }
      return NotFound;
    }

    /** `log_trading_action(...)`: one appended entry, or an HTTP 500. */
    method LogTradingAction(userId: string, actionType: string, netuid: int, hotkey: string, amount: real,
                            timestamp: int, transactionId: Option<string> := None) returns (r: LogResult)
      modifies this`tradingLogs
      ensures online ==> r == Logged
      ensures online ==>
        tradingLogs == old(tradingLogs) + [TradingLog(userId, actionType, netuid, hotkey, amount, timestamp, transactionId)]
      ensures !online ==> r == LogHttpError(ServerErrorStatus) && tradingLogs == old(tradingLogs)
    {
      if !online {
        return LogHttpError(ServerErrorStatus);
      }
      tradingLogs := tradingLogs + [TradingLog(userId, actionType, netuid, hotkey, amount, timestamp, transactionId)];
      return Logged;
    }
  }
}
