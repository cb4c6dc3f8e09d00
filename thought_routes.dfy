/** The thought table and the /thoughts handlers of routes/thoughtRoutes.js.
    `ObjectId.isValid` is the abstract predicate `idValid`; new ids and the
    clock are parameters. Handlers that sit behind `authenticateUser` take the
    middleware's outcome. */
module ThoughtRoutes {
  import opened Common
  import opened Paging
  import opened ThoughtModel
  import opened ThoughtQueries
  import opened UserRoutes
  import opened AuthMiddleware

  class ThoughtStore {
    /** `mongoose.Types.ObjectId.isValid` */
    const idValid: Id -> bool
    var thoughts: map<Id, Thought>

    /** Every stored document has a well-formed id and passes the schema, so
        in particular its hearts are never negative. */
    ghost predicate Valid()
      reads this
    {
      forall id :: id in thoughts ==> idValid(id) && ValidThought(thoughts[id])
    }

    constructor (idValid: Id -> bool)
      ensures Valid() && thoughts == map[] && this.idValid == idValid
    {
      this.idValid := idValid;
      thoughts := map[];
    }

    /** GET /thoughts: defaults page 1, limit 10, sort "-createdAt". */
    method List(scan: seq<Id>, tag: Option<string>, likes: Option<int>, sortBy: Option<SortKey>,
                page: Option<Pos>, limit: Option<Pos>) returns (r: Response<Listing>)
      requires Enumerates(scan, thoughts)
      ensures r == ListResponse(thoughts, scan, BuildQuery(tag, likes),
                                if sortBy.Some? then sortBy.value else DefaultSort,
                                if page.Some? then page.value else DefaultPage,
                                if limit.Some? then limit.value else DefaultLimit)
    {
      var pg := if page.Some? then page.value else DefaultPage;
      var lim := if limit.Some? then limit.value else DefaultLimit;
      var key := if sortBy.Some? then sortBy.value else DefaultSort;
      var query := Query(None, None);
      if Present(tag) {
        query := query.(tag := tag);
      }
      if likes.Some? {
        query := query.(minHearts := likes);
      }
      r := Answer(scan, query, key, pg, lim);
    }

    /** GET /thoughts/popular: most hearts first; no `likes` filter. */
    method Popular(scan: seq<Id>, tag: Option<string>, page: Option<Pos>, limit: Option<Pos>)
      returns (r: Response<Listing>)
      requires Enumerates(scan, thoughts)
      ensures r == ListResponse(thoughts, scan, BuildQuery(tag, None), HeartsDesc,
                                if page.Some? then page.value else DefaultPage,
                                if limit.Some? then limit.value else DefaultLimit)
    {
      var pg := if page.Some? then page.value else DefaultPage;
      var lim := if limit.Some? then limit.value else DefaultLimit;
      var query := Query(None, None);
      if Present(tag) {
        query := query.(tag := tag);
      }
      r := Answer(scan, query, HeartsDesc, pg, lim);
    }

    /** GET /thoughts/recent: newest first; no `likes` filter. */
    method Recent(scan: seq<Id>, tag: Option<string>, page: Option<Pos>, limit: Option<Pos>)
      returns (r: Response<Listing>)
      requires Enumerates(scan, thoughts)
      ensures r == ListResponse(thoughts, scan, BuildQuery(tag, None), CreatedAtDesc,
                                if page.Some? then page.value else DefaultPage,
                                if limit.Some? then limit.value else DefaultLimit)
    {
      var pg := if page.Some? then page.value else DefaultPage;
      var lim := if limit.Some? then limit.value else DefaultLimit;
      var query := Query(None, None);
      if Present(tag) {
        query := query.(tag := tag);
      }
      r := Answer(scan, query, CreatedAtDesc, pg, lim);
    }

    /** The tail every list handler shares: count, find-sort-skip-limit, 404 on
        an empty page. This is the step-by-step form of ListResponse, which
        specifies it. */
    method Answer(scan: seq<Id>, query: Query, key: SortKey, page: Pos, limit: Pos)
      returns (r: Response<Listing>)
      requires Enumerates(scan, thoughts)
      ensures r == ListResponse(thoughts, scan, query, key, page, limit)
    {
      var totalCount := |Matching(thoughts, query)|;
      var found := Window(Ranked(thoughts, scan, query, key), page, limit);
      if |found| == 0 {
        return Response(NotFound, None);
      }
      r := Response(OK, Some(Listing(found, totalCount, page, limit)));
    }

    /** GET /thoughts/:id */
    method Get(id: Id) returns (r: Response<Doc>)
      ensures !idValid(id) ==> r == Response(BadRequest, None)
      ensures idValid(id) && id !in thoughts ==> r == Response(NotFound, None)
      ensures idValid(id) && id in thoughts ==> r == Response(OK, Some(Doc(id, thoughts[id])))
    {
      if !idValid(id) {
        return Response(BadRequest, None);
      }
      if id !in thoughts {
        return Response(NotFound, None);
      }
      r := Response(OK, Some(Doc(id, thoughts[id])));
    }

    /** POST /thoughts, behind `authenticateUser`. The handler checks the
        message; saving then applies the schema, whose failure (a tag outside
        the categories) is thrown and answered with 500. */
    method Create(auth: AuthOutcome, message: Option<string>, tags: Option<seq<string>>,
                  newId: Id, now: int) returns (r: Response<Doc>)
      requires Valid()
      requires newId !in thoughts && idValid(newId)
      modifies this
      ensures Valid()
      ensures auth.Rejected? ==> r == Response(auth.status, None) && thoughts == old(thoughts)
      ensures auth.Authenticated? && !(message.Some? && MessageOk(message.value)) ==>
                r == Response(BadRequest, None) && thoughts == old(thoughts)
      ensures auth.Authenticated? && message.Some? && MessageOk(message.value) && !TagsAccepted(tags) ==>
                r == Response(ServerError, None) && thoughts == old(thoughts)
      ensures auth.Authenticated? && message.Some? && MessageOk(message.value) && TagsAccepted(tags) ==>
                var t := New(message.value, tags, now);
                && thoughts == old(thoughts)[newId := t]
                && r == Response(Created, Some(Doc(newId, t)))
    {
      if auth.Rejected? {
        return Response(auth.status, None);
      }
      if message.None? || message.value == "" || |message.value| < MinLength || |message.value| > MaxLength {
        return Response(BadRequest, None);
      }
      var t := New(message.value, tags, now);
      NewValid(message.value, tags, now);
      if !ValidThought(t) {
        return Response(ServerError, None);
      }
      thoughts := thoughts[newId := t];
      r := Response(Created, Some(Doc(newId, t)));
    }

    /** DELETE /thoughts/:id, behind `authenticateUser`. Which user asks does
        not matter: any authenticated user may delete any thought. */
    method Delete(auth: AuthOutcome, id: Id) returns (r: Response<Doc>)
      requires Valid()
      modifies this
      ensures Valid()
      ensures auth.Rejected? ==> r == Response(auth.status, None) && thoughts == old(thoughts)
      ensures auth.Authenticated? && !idValid(id) ==> r == Response(BadRequest, None) && thoughts == old(thoughts)
      ensures auth.Authenticated? && idValid(id) && id !in old(thoughts) ==>
                r == Response(NotFound, None) && thoughts == old(thoughts)
      ensures auth.Authenticated? && idValid(id) && id in old(thoughts) ==>
                && r == Response(OK, Some(Doc(id, old(thoughts)[id])))
                && thoughts == old(thoughts) - {id}
    {
      if auth.Rejected? {
        return Response(auth.status, None);
      }
      if !idValid(id) {
        return Response(BadRequest, None);
      }
      if id !in thoughts {
        return Response(NotFound, None);
      }
      var t := thoughts[id];
      thoughts := thoughts - {id};
      r := Response(OK, Some(Doc(id, t)));
    }

    /** PATCH /thoughts/:id, behind `authenticateUser`. A missing message makes
        `message.length` throw, which is answered with 500. Only the message
        of the target changes. */
    method Edit(auth: AuthOutcome, id: Id, message: Option<string>) returns (r: Response<Doc>)
      requires Valid()
      modifies this
      ensures Valid()
      ensures auth.Rejected? ==> r == Response(auth.status, None) && thoughts == old(thoughts)
      ensures auth.Authenticated? && !idValid(id) ==> r == Response(BadRequest, None) && thoughts == old(thoughts)
      ensures auth.Authenticated? && idValid(id) && message.None? ==>
                r == Response(ServerError, None) && thoughts == old(thoughts)
      ensures auth.Authenticated? && idValid(id) && message.Some? && !MessageOk(message.value) ==>
                r == Response(BadRequest, None) && thoughts == old(thoughts)
      ensures auth.Authenticated? && idValid(id) && message.Some? && MessageOk(message.value) && id !in old(thoughts) ==>
                r == Response(NotFound, None) && thoughts == old(thoughts)
      ensures auth.Authenticated? && idValid(id) && message.Some? && MessageOk(message.value) && id in old(thoughts) ==>
                var t := old(thoughts)[id].(message := message.value);
                && thoughts == old(thoughts)[id := t]
                && r == Response(OK, Some(Doc(id, t)))
    {
      if auth.Rejected? {
        return Response(auth.status, None);
      }
      if !idValid(id) {
        return Response(BadRequest, None);
      }
      if message.None? {
        return Response(ServerError, None);
      }
      if |message.value| < MinLength || |message.value| > MaxLength {
        return Response(BadRequest, None);
      }
      if id !in thoughts {
        return Response(NotFound, None);
      }
      var t := thoughts[id].(message := message.value);
      thoughts := thoughts[id := t];
      r := Response(OK, Some(Doc(id, t)));
    }

    /** PATCH /thoughts/:id/like: public; `$inc: { hearts: 1 }` on the target only. */
    method Like(id: Id) returns (r: Response<Doc>)
      requires Valid()
      modifies this
      ensures Valid()
      ensures !idValid(id) ==> r == Response(BadRequest, None) && thoughts == old(thoughts)
      ensures idValid(id) && id !in old(thoughts) ==> r == Response(NotFound, None) && thoughts == old(thoughts)
      ensures idValid(id) && id in old(thoughts) ==>
                var t := old(thoughts)[id].(hearts := old(thoughts)[id].hearts + 1);
                && thoughts == old(thoughts)[id := t]
                && r == Response(OK, Some(Doc(id, t)))
    {
      if !idValid(id) {
        return Response(BadRequest, None);
      }
      if id !in thoughts {
        return Response(NotFound, None);
      }
      var t := thoughts[id].(hearts := thoughts[id].hearts + 1);
      thoughts := thoughts[id := t];
      r := Response(OK, Some(Doc(id, t)));
    }
  }

  /** The middleware lets the request through: the header is some user's token. */
  predicate Admits(users: UserStore, header: Option<string>)
    reads users
  {
    header.Some? && users.TokenKnown(header.value)
  }

  /** `router.post("/", authenticateUser, ...)`: an unknown or missing token is
      answered with 401 and the table is untouched; a failing user lookup with
      500; otherwise the handler answers. */
  method PostThought(users: UserStore, store: ThoughtStore, header: Option<string>, authFails: bool,
                     message: Option<string>, tags: Option<seq<string>>, newId: Id, now: int)
    returns (r: Response<Doc>)
    requires store.Valid()
    requires newId !in store.thoughts && store.idValid(newId)
    modifies store
    ensures store.Valid()
    ensures authFails ==> r == Response(ServerError, None) && store.thoughts == old(store.thoughts)
    ensures !authFails && !Admits(users, header) ==>
              r == Response(Unauthorized, None) && store.thoughts == old(store.thoughts)
    ensures !authFails && Admits(users, header) && !(message.Some? && MessageOk(message.value)) ==>
              r == Response(BadRequest, None) && store.thoughts == old(store.thoughts)
    ensures !authFails && Admits(users, header) && message.Some? && MessageOk(message.value) && !TagsAccepted(tags) ==>
              r == Response(ServerError, None) && store.thoughts == old(store.thoughts)
    ensures !authFails && Admits(users, header) && message.Some? && MessageOk(message.value) && TagsAccepted(tags) ==>
              var t := New(message.value, tags, now);
              && r == Response(Created, Some(Doc(newId, t)))
              && store.thoughts == old(store.thoughts)[newId := t]
  {
    var auth := AuthenticateUser(users, header, authFails);
    r := store.Create(auth, message, tags, newId, now);
  }

  /** `router.delete("/:id", authenticateUser, ...)` */
  method DeleteThought(users: UserStore, store: ThoughtStore, header: Option<string>, authFails: bool, id: Id)
    returns (r: Response<Doc>)
    requires store.Valid()
    modifies store
    ensures store.Valid()
    ensures authFails ==> r == Response(ServerError, None) && store.thoughts == old(store.thoughts)
    ensures !authFails && !Admits(users, header) ==>
              r == Response(Unauthorized, None) && store.thoughts == old(store.thoughts)
    ensures !authFails && Admits(users, header) && !store.idValid(id) ==>
              r == Response(BadRequest, None) && store.thoughts == old(store.thoughts)
    ensures !authFails && Admits(users, header) && store.idValid(id) && id !in old(store.thoughts) ==>
              r == Response(NotFound, None) && store.thoughts == old(store.thoughts)
    ensures !authFails && Admits(users, header) && store.idValid(id) && id in old(store.thoughts) ==>
              && r == Response(OK, Some(Doc(id, old(store.thoughts)[id])))
              && store.thoughts == old(store.thoughts) - {id}
  {
    var auth := AuthenticateUser(users, header, authFails);
    r := store.Delete(auth, id);
  }

  /** `router.patch("/:id", authenticateUser, ...)` */
  method EditThought(users: UserStore, store: ThoughtStore, header: Option<string>, authFails: bool,
                     id: Id, message: Option<string>)
    returns (r: Response<Doc>)
    requires store.Valid()
    modifies store
    ensures store.Valid()
    ensures authFails ==> r == Response(ServerError, None) && store.thoughts == old(store.thoughts)
    ensures !authFails && !Admits(users, header) ==>
              r == Response(Unauthorized, None) && store.thoughts == old(store.thoughts)
    ensures !authFails && Admits(users, header) && !store.idValid(id) ==>
              r == Response(BadRequest, None) && store.thoughts == old(store.thoughts)
    ensures !authFails && Admits(users, header) && store.idValid(id) && message.None? ==>
              r == Response(ServerError, None) && store.thoughts == old(store.thoughts)
    ensures !authFails && Admits(users, header) && store.idValid(id) && message.Some? && !MessageOk(message.value) ==>
              r == Response(BadRequest, None) && store.thoughts == old(store.thoughts)
    ensures !authFails && Admits(users, header) && store.idValid(id) && message.Some? && MessageOk(message.value) &&
            id !in old(store.thoughts) ==>
              r == Response(NotFound, None) && store.thoughts == old(store.thoughts)
    ensures !authFails && Admits(users, header) && store.idValid(id) && message.Some? && MessageOk(message.value) &&
            id in old(store.thoughts) ==>
              var t := old(store.thoughts)[id].(message := message.value);
              && r == Response(OK, Some(Doc(id, t)))
              && store.thoughts == old(store.thoughts)[id := t]
  {
    var auth := AuthenticateUser(users, header, authFails);
    r := store.Edit(auth, id, message);
  }
}
