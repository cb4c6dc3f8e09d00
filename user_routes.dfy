/** The user table and the two user endpoints (routes/userRoutes.js):
    POST /users registers, POST /users/login logs in. */
module UserRoutes {
  import opened Common
  import opened UserModel

  /** Body of a successful registration: the password is not part of it. */
  datatype Registered = Registered(id: Id, accessToken: string)

  /** Body of a successful login. */
  datatype LoggedIn = LoggedIn(id: Id, userName: string, accessToken: string)

  /** What every stored user looks like: a non-empty lower-case name and a
      token of 256 hex digits. */
  predicate WellFormed(u: User) {
    && u.userName != ""
    && IsLower(u.userName)
    && |u.accessToken| == 2 * TokenBytes
    && forall c :: c in u.accessToken ==> IsHexDigit(c)
  }

  class UserStore {
    /** `bcrypt.hashSync(password, salt)` */
    const hashSync: (string, string) -> string
    /** `bcrypt.compareSync(password, hash)` */
    const compareSync: (string, string) -> bool
    var users: map<Id, User>

    /** The schema's unique index on `userName`, plus the shape of every record. */
    ghost predicate Valid()
      reads this
    {
      && (forall id :: id in users ==> WellFormed(users[id]))
      && (forall a, b :: a in users && b in users && users[a].userName == users[b].userName ==> a == b)
    }

    /** `User.findOne({ userName: name })` finds a record. */
    predicate NameTaken(name: string)
      reads this
    {
      exists id :: id in users && users[id].userName == name
    }

    /** `User.findOne({ accessToken: token })` finds a record. */
    predicate TokenKnown(token: string)
      reads this
    {
      exists id :: id in users && users[id].accessToken == token
    }

    constructor (hashSync: (string, string) -> string, compareSync: (string, string) -> bool)
      ensures Valid() && users == map[]
      ensures this.hashSync == hashSync && this.compareSync == compareSync
    {
      this.hashSync := hashSync;
      this.compareSync := compareSync;
      users := map[];
    }

    /** POST /users. `storeFails` says whether the store lookup throws; `salt`,
        `newId` and `random` are what bcrypt, the store and `crypto` would
        generate. */
    method Register(userName: Option<string>, password: Option<string>, storeFails: bool,
                    salt: string, newId: Id, random: seq<byte>) returns (r: Response<Registered>)
      requires Valid()
      requires newId !in users && |random| == TokenBytes
      modifies this
      ensures Valid()
      ensures !Present(userName) || !Present(password) ==>
                r == Response(BadRequest, None) && users == old(users)
      ensures Present(userName) && Present(password) && storeFails ==>
                r == Response(BadRequest, None) && users == old(users)
      ensures Present(userName) && Present(password) && !storeFails && old(NameTaken(Lower(userName.value))) ==>
                r == Response(Conflict, None) && users == old(users)
      ensures Present(userName) && Present(password) && !storeFails && !old(NameTaken(Lower(userName.value))) ==>
                var u := NewUser(Lower(userName.value), hashSync(password.value, salt), random);
                && users == old(users)[newId := u]
                && r == Response(OK, Some(Registered(newId, u.accessToken)))
    {
      if !Present(userName) || !Present(password) {
        return Response(BadRequest, None);
      }
      if storeFails {
        return Response(BadRequest, None);
      }
      var name := Lower(userName.value);
      if NameTaken(name) {
        return Response(Conflict, None);
      }
      var u := NewUser(name, hashSync(password.value, salt), random);
      LowerIsLower(userName.value);
      users := users[newId := u];
      r := Response(OK, Some(Registered(newId, u.accessToken)));
    }

    /** POST /users/login. */
    method Login(userName: Option<string>, password: Option<string>, storeFails: bool)
      returns (r: Response<LoggedIn>)
      requires Valid()
      ensures !Present(userName) || !Present(password) ==> r == Response(BadRequest, None)
      ensures Present(userName) && Present(password) && storeFails ==> r == Response(ServerError, None)
      ensures Present(userName) && Present(password) && !storeFails && !NameTaken(Lower(userName.value)) ==>
                r == Response(NotFound, None)
      ensures Present(userName) && Present(password) && !storeFails ==>
                forall id :: id in users && users[id].userName == Lower(userName.value) ==>
                  r == if compareSync(password.value, users[id].password)
                       then Response(OK, Some(LoggedIn(id, users[id].userName, users[id].accessToken)))
                       else Response(Unauthorized, None)
    {
      if !Present(userName) || !Present(password) {
        return Response(BadRequest, None);
      }
      if storeFails {
        return Response(ServerError, None);
      }
      var name := Lower(userName.value);
      if !NameTaken(name) {
        return Response(NotFound, None);
      }
      var id :| id in users && users[id].userName == name;
      var u := users[id];
      if compareSync(password.value, u.password) {
        r := Response(OK, Some(LoggedIn(id, u.userName, u.accessToken)));
      } else {
        r := Response(Unauthorized, None);
      }
    }
  }
}
