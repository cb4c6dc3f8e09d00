/** What a client can rely on across several requests, proved from the
    handlers' contracts alone. */
module Scenarios {
  import opened Common
  import opened Paging
  import opened ThoughtModel
  import opened ThoughtQueries
  import opened ThoughtRoutes
  import opened UserModel
  import opened UserRoutes

  /** Register (name, pw), then log in with any casing of name and pw: the same
      id and token come back, given that bcrypt accepts a password against a
      hash of that password. */
  method RegisterThenLogin(store: UserStore, name: string, name': string, pw: string,
                           salt: string, newId: Id, random: seq<byte>)
    returns (reg: Response<Registered>, login: Response<LoggedIn>)
    requires store.Valid() && newId !in store.users && |random| == TokenBytes
    requires name != "" && pw != "" && Lower(name') == Lower(name)
    requires !store.NameTaken(Lower(name))
    requires forall p, s :: store.compareSync(p, store.hashSync(p, s))
    modifies store
    ensures reg.status == OK && reg.payload.Some?
    ensures login.status == OK && login.payload.Some?
    ensures login.payload.value.id == reg.payload.value.id == newId
    ensures login.payload.value.accessToken == reg.payload.value.accessToken
    ensures login.payload.value.userName == Lower(name)
  {
    reg := store.Register(Some(name), Some(pw), false, salt, newId, random);
    assert store.users[newId].userName == Lower(name');
    login := store.Login(Some(name'), Some(pw), false);
  }

  /** A second registration of a name that differs only in case is refused and adds nobody. */
  method RegisterTwice(store: UserStore, name: string, name': string, pw: string, pw': string,
                       salt: string, salt': string, id: Id, id': Id, random: seq<byte>, random': seq<byte>)
    returns (first: Response<Registered>, second: Response<Registered>)
    requires store.Valid() && id !in store.users && id' !in store.users && id != id'
    requires |random| == TokenBytes && |random'| == TokenBytes
    requires name != "" && pw != "" && pw' != "" && Lower(name') == Lower(name)
    requires !store.NameTaken(Lower(name))
    modifies store
    ensures first.status == OK && second == Response(Conflict, None)
    ensures store.users.Keys == old(store.users.Keys) + {id}
  {
    first := store.Register(Some(name), Some(pw), false, salt, id, random);
    assert store.users[id].userName == Lower(name');
    second := store.Register(Some(name'), Some(pw'), false, salt', id', random');
  }

  /** Two likes raise hearts by exactly two and change nothing else. */
  method LikeTwice(store: ThoughtStore, id: Id) returns (a: Response<Doc>, b: Response<Doc>)
    requires store.Valid() && store.idValid(id) && id in store.thoughts
    modifies store
    ensures a.status == OK && b.status == OK
    ensures store.thoughts == old(store.thoughts)[id := old(store.thoughts)[id].(hearts := old(store.thoughts)[id].hearts + 2)]
  {
    a := store.Like(id);
    b := store.Like(id);
  }

  /** Once deleted, a thought is not found any more. */
  method DeleteThenGet(store: ThoughtStore, auth: AuthMiddleware.AuthOutcome, id: Id)
    returns (del: Response<Doc>, get: Response<Doc>)
    requires store.Valid() && auth.Authenticated? && store.idValid(id) && id in store.thoughts
    modifies store
    ensures del == Response(OK, Some(Doc(id, old(store.thoughts)[id])))
    ensures get == Response(NotFound, None)
  {
    del := store.Delete(auth, id);
    get := store.Get(id);
  }

  /** A posted thought can be fetched back by its new id, unchanged. */
  method CreateThenGet(store: ThoughtStore, auth: AuthMiddleware.AuthOutcome, message: string,
                       tags: Option<seq<string>>, newId: Id, now: int)
    returns (created: Response<Doc>, get: Response<Doc>)
    requires store.Valid() && auth.Authenticated? && newId !in store.thoughts && store.idValid(newId)
    requires MessageOk(message) && TagsAccepted(tags)
    modifies store
    ensures created.status == Created && get == Response(OK, created.payload) && get.payload.Some?
    ensures get.payload.value.thought.hearts == 0 && get.payload.value.thought.createdAt == now
  {
    created := store.Create(auth, Some(message), tags, newId, now);
    get := store.Get(newId);
  }

  /** page=2&limit=10 over 15 matches shows matches 11 to 15 and reports 15 in all. */
  lemma SecondPageOfFifteen(m: map<Id, Thought>, scan: seq<Id>, q: Query, key: SortKey)
    requires Enumerates(scan, m) && |Matching(m, q)| == 15
    ensures var r := ListResponse(m, scan, q, key, 2, 10);
            && r.status == OK
            && r.payload.value.totalCount == 15
            && r.payload.value.data == Ranked(m, scan, q, key)[10..15]
  {
    var ranked := Ranked(m, scan, q, key);
    var w := Window(ranked, 2, 10);
    assert w == ranked[10..15];
  }
}
