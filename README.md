# Happy Thoughts API — a Dafny model

The system is a small Express/Mongoose API for sharing short messages
("thoughts"). Users register and log in. A bearer token (the `Authorization`
header) gates posting, editing and deleting thoughts. Anyone can list, fetch
and like thoughts. This project models the decisions the request handlers
make, over abstract in-memory tables, and proves what the handlers promise.

- `common.dfy` (`Common`): optional fields, `Response` (status code plus
  payload), JavaScript truthiness of a string field (`Present`), ASCII
  lower-casing.
- `paging.dfy` (`Paging`): the page window `(page-1)*limit .. page*limit`,
  shared by the Mongo handlers and the array prototype. Pages are proved
  disjoint and together proved to cover the list.
- `prototype.dfy` (`Prototype`): the early in-memory `server.js`. It filters a
  fixed array by tag, ignoring case, slices out a page, and looks records up
  by `_id`.
- `thought.dfy` (`ThoughtModel`): the Thought document, its defaults and its
  schema validation.
- `thought_queries.dfy` (`ThoughtQueries`): the list handlers as queries.
  This covers the filter object, `countDocuments`, `find`, `sort` and
  `skip`/`limit`, and the 404 given for an empty page.
- `thought_routes.dfy` (`ThoughtRoutes`): the `ThoughtStore` class. It holds a
  map from id to Thought, with one method per handler. It also holds the
  authenticated route chains.
- `user.dfy` (`UserModel`): the User document and its hex access token.
- `user_routes.dfy` (`UserRoutes`): the `UserStore` class, with register and
  login.
- `auth.dfy` (`AuthMiddleware`): `authenticateUser`, which gives an
  `AuthOutcome`.
- `scenarios.dfy` (`Scenarios`): properties that span several requests, proved
  from the handlers' contracts.

Some parts of the running system are outside the code. The model takes them
as parameters:
- the order in which the store visits documents (`scan`). Every property of
  a single listing request holds for any such order, so the order of ties is
  left open. Two requests may see different orders; properties that relate
  two pages need matches without tied keys (see `## Left out`);
- `ObjectId.isValid` (`idValid`);
- new ids and the clock reading;
- bcrypt's `hashSync`/`compareSync` (function-valued fields of `UserStore`)
  and the salt;
- the 128 random bytes of a token;
- whether a user-table lookup throws (`storeFails`, `authFails`).

The code has no author field on Thought, so any authenticated user may edit
or delete any thought. There is no per-user listing route, and the Like
collection is never used.

## Model

| member | source | states |
|---|---|---|
| Common.LowerIsLower | routes/userRoutes.js:19-28 | A lower-cased user name is a fixed point of lower-casing, so the name stored at registration is lower-case. |
| Paging.Window | routes/thoughtRoutes.js:26 | A page holds at most `limit` elements. They are the ones starting at offset `(page-1)*limit`, in order, clamped to the end of the list. |
| Paging.EmptyWindow | routes/thoughtRoutes.js:28-34 | A page is empty exactly when its offset is at or past the end of the list. |
| Paging.PagesArePrefix | server.js:43 | Pages 1..n, concatenated, are exactly the first `n*limit` elements: nothing is skipped or repeated between consecutive pages. |
| Paging.PagesCover | server.js:43 | Enough pages together reproduce the whole filtered list. |
| Paging.PageOfIndex | server.js:43 | Element i appears on page `i/limit + 1` at position `i % limit`. |
| Paging.WindowsDisjoint | server.js:43 | For a list without repeats, two different pages share no element. |
| Prototype.Filter | server.js:35-37 | `filter` keeps each element as often as it occurs when the predicate holds, and drops it otherwise. |
| Prototype.FilterIsSubsequence | server.js:35-37 | The filtered list is a subsequence of its input: the original order is kept. |
| Prototype.FilterByTag | server.js:33-38 | Without a (truthy) tag the list is the data unchanged. With a tag it holds exactly the records having some tag equal to it, ignoring case, each with its original multiplicity. |
| Prototype.FilterByTagIsSubsequence | server.js:33-38 | With or without a tag, the filtered list is a subsequence of the data. |
| Prototype.GetThoughts | server.js:26-45 | GET /thoughts always answers 200, even for an empty page. The default page is 1 and the default limit 10. The answer is at most `limit` filtered records, taken contiguously from offset `(page-1)*limit`. |
| Prototype.SortIgnored | server.js:30 | The `sort` parameter does not change the answer. |
| Prototype.GetThought | server.js:48-55 | GET /thoughts/:id gives 404 exactly when no record has that `_id`. Otherwise it gives 200 with all records having it. |
| ThoughtModel.LowerAll | models/Thought.js:18 | Every given tag is lower-cased, position by position. |
| ThoughtModel.New | models/Thought.js:10-25 | A new thought has hearts 0 and createdAt equal to the clock reading. Omitted tags become ["other"]; given tags are lower-cased. |
| ThoughtModel.NewValid | models/Thought.js:4-21 | A new thought passes the schema exactly when its message length is within 5..140 and every given tag, lower-cased, is one of the 11 categories. |
| UserModel.HexEncode | models/User.js:16 | The token has two lower-case hex digits per random byte. |
| UserModel.HexRoundTrip | models/User.js:16 | Decoding the hex token gives back the random bytes. |
| UserModel.TokensInjective | models/User.js:16 | Different random bytes give different tokens. |
| UserModel.NewUser | models/User.js:4-17 | A user record keeps the given name and password hash. Its token is 256 hex digits built from 128 random bytes, with no caller input. |
| UserRoutes.UserStore.Register | routes/userRoutes.js:8-46 | A missing name or password gives 400, and so does a failing lookup. A name whose lower-cased form is taken gives 409. Otherwise exactly one user is added, with the lower-cased name, `hashSync(password, salt)` and a generated token. The answer is 200 with id and token, and no password. Names stay unique. |
| UserRoutes.UserStore.Login | routes/userRoutes.js:49-91 | A missing field gives 400 and a failing lookup 500. An unknown lower-cased name gives 404. A known name gives 200 with id, name and token when `compareSync` accepts the password, and 401 otherwise. Login cannot change the table: it has no modifies clause. |
| AuthMiddleware.AuthenticateUser | middleware/authMiddleware.js:3-22 | A failing lookup gives 500. A header equal, verbatim, to some user's token gives that user. Otherwise the answer is 401 with `loggedOut`. The user table is only read. |
| ThoughtQueries.BuildQuery | routes/thoughtRoutes.js:16-22 | A thought matches exactly when it carries the tag, if a truthy tag is given, and has at least `likes` hearts, if `likes` is given. An absent filter adds no condition. |
| ThoughtQueries.Find | routes/thoughtRoutes.js:26 | `find(query)` yields exactly the stored documents that match, each once. |
| ThoughtQueries.FindCount | routes/thoughtRoutes.js:25 | The number found equals the number of matching ids. |
| ThoughtQueries.Insert | routes/thoughtRoutes.js:26 | Inserting into a non-increasing sequence keeps it non-increasing and adds exactly one element. |
| ThoughtQueries.InsertDistinct | routes/thoughtRoutes.js:26 | Inserting a new document keeps the sequence free of repeats. |
| ThoughtQueries.SortDesc | routes/thoughtRoutes.js:26 | `sort("-key")` is a permutation of its input in non-increasing key order. |
| ThoughtQueries.Ranked | routes/thoughtRoutes.js:25-26 | The sorted matches contain every matching document exactly once, in non-increasing key order. Their number is `countDocuments`. |
| ThoughtQueries.ListResponse | routes/thoughtRoutes.js:24-43 | 404 with no body exactly when `(page-1)*limit >= totalCount`; this covers no match and a page past the end. Otherwise 200 with: totalCount equal to the number of matches for every page and limit; the page and limit echoed; 1..limit documents, each stored and matching; sorted by the key; the window of the sorted matches. |
| ThoughtQueries.SortedUnique | routes/thoughtRoutes.js:26 | Two sorted sequences without repeats that hold the same documents, with pairwise different keys, are equal. |
| ThoughtQueries.RankedIndependentOfScan | routes/thoughtRoutes.js:25-26 | When no two matches tie on the sort key, the sorted matches are the same whatever order the store visits documents in. |
| ThoughtQueries.PagesPartitionMatches | routes/thoughtRoutes.js:26 | When no two matches tie on the sort key, two different pages share no document, even when fetched by separate requests that visit documents in different orders, and enough pages show every match. |
| ThoughtQueries.TiedPagesMayOverlap | routes/thoughtRoutes.js:66 | With two matches tied on hearts, a request that sees them in one order and a request that sees them in the other order can show the same thought on page 1 and on page 2. |
| ThoughtRoutes.ThoughtStore.List | routes/thoughtRoutes.js:9-51 | GET /thoughts builds the query from truthy `tag` and `likes`. Defaults are page 1, limit 10, sort newest first. The answer is the listing response for that query. |
| ThoughtRoutes.ThoughtStore.Popular | routes/thoughtRoutes.js:54-91 | GET /thoughts/popular filters by tag only and sorts by hearts, non-increasing. |
| ThoughtRoutes.ThoughtStore.Recent | routes/thoughtRoutes.js:94-131 | GET /thoughts/recent filters by tag only and sorts by createdAt, non-increasing. |
| ThoughtRoutes.ThoughtStore.Answer | routes/thoughtRoutes.js:24-34 | The shared count, find, sort, skip and limit, with 404 on an empty page. |
| ThoughtRoutes.ThoughtStore.Get | routes/thoughtRoutes.js:134-165 | A malformed id gives 400 before the table is read. An absent id gives 404. Otherwise 200 with the stored document. |
| ThoughtRoutes.ThoughtStore.Create | routes/thoughtRoutes.js:168-201 | A rejected authentication answers with its status. A missing message, or one whose length is outside 5..140, gives 400. A tag outside the categories fails the save: 500. In each of these cases the table is unchanged. Otherwise exactly one thought with the defaults is added, and the answer is 201 with it. Every stored thought stays valid. |
| ThoughtRoutes.ThoughtStore.Delete | routes/thoughtRoutes.js:204-236 | Whichever user is authenticated: a malformed id gives 400 and an absent id 404, both with the table unchanged. Otherwise exactly the target is removed and returned with 200. |
| ThoughtRoutes.ThoughtStore.Edit | routes/thoughtRoutes.js:239-279 | A malformed id gives 400, checked first. A missing message gives 500. A length outside 5..140 gives 400, and an absent id 404. In each of these cases the table is unchanged. Otherwise only the target's message changes, and the updated document is returned with 200. |
| ThoughtRoutes.ThoughtStore.Like | routes/thoughtRoutes.js:282-313 | No authentication is needed. A malformed id gives 400 and an absent id 404. Otherwise only the target's hearts grow, by exactly 1; its other fields and all other thoughts are unchanged. Hearts stay non-negative. |
| ThoughtRoutes.PostThought | routes/thoughtRoutes.js:168 | Behind the middleware: an unknown or missing token gives 401, and a failing user lookup 500. In both cases the thought table is untouched. With a known token the answer and the new table are exactly the create handler's: 400 for the message, 500 for a tag, or 201 with one new thought. |
| ThoughtRoutes.DeleteThought | routes/thoughtRoutes.js:204 | An unknown token gives 401 and a failing lookup 500, both leaving the table untouched. With any known token: 400 for a malformed id, 404 for an absent one, otherwise exactly the target is removed and returned. |
| ThoughtRoutes.EditThought | routes/thoughtRoutes.js:239 | An unknown token gives 401 and a failing lookup 500, both leaving the table untouched. With any known token: 400 for the id, 500 for a missing message, 400 for its length, 404 for an absent id, otherwise only the target's message changes. |
| Scenarios.RegisterThenLogin | routes/userRoutes.js:27-77 | After registering (u, p), logging in with any casing of u and with p gives 200 with the same id and token. This assumes `compareSync(p, hashSync(p, s))` holds. |
| Scenarios.RegisterTwice | routes/userRoutes.js:19-25 | Registering a name that differs only in case from one just registered gives 409 and adds nobody. |
| Scenarios.LikeTwice | routes/thoughtRoutes.js:293 | Two likes raise hearts by exactly 2 and change nothing else. |
| Scenarios.DeleteThenGet | routes/thoughtRoutes.js:216 | After a delete, a get of that id gives 404. |
| Scenarios.CreateThenGet | routes/thoughtRoutes.js:181 | A posted thought can be fetched by its id, with hearts 0 and the creation time. |
| Scenarios.SecondPageOfFifteen | routes/thoughtRoutes.js:26 | With 15 matches, page 2 of limit 10 is matches 11 to 15, and totalCount is 15. |

## Left out

- Express plumbing: the router, CORS, JSON body parsing, `app.listen`, the endpoint-listing route and route matching order. These are framework dispatch and I/O.
- Store outages in the thought handlers (the `catch` blocks that answer 500 when the database itself fails). The 500s that the handlers' own code produces are modelled: a save that fails the tag enumeration, and `message.length` on a missing message.
- The `if (!newThought)` branch after `save()` (routes/thoughtRoutes.js:182-188). `save` never resolves to a falsy value, so this 400 is not reachable.
- Mongoose query internals: the sort key is restricted to `-createdAt` and `-hearts`, and an arbitrary `sort_by` field string is not modelled. A non-numeric `likes` is not modelled either; the cast fails and the answer is 500.
- `page` and `limit` are positive whole numbers in both files. Other values behave as follows and are not modelled.
  - In server.js, `slice` takes them as numbers. `page=0` gives `[]`. A negative page counts from the end of the array: `page=-1, limit=10` is `slice(-20, -10)`. A non-numeric value gives `slice(NaN, NaN)`, which is `[]`. All of these are ordinary 200 answers.
  - In the Mongo handlers, `limit=0` is the truthy string `"0"` and `.limit(0)` means no limit, so the answer is 200 with every match from the offset on. A page of 0 or less makes `skip` negative; the store rejects the query and the handler answers 500.
- ThoughtQueries.PagesPartitionMatches: MongoDB does not fix the order of documents with equal sort keys, and it may differ between two requests. Ties on `-hearts` are common, since new thoughts start at 0 hearts. So pages fetched by separate requests may overlap or skip a thought; `ThoughtQueries.TiedPagesMayOverlap` shows one case. The lemma promises disjoint pages across requests only when no two matches share a key.
- `ObjectId.isValid` format rules: it is the abstract predicate `idValid`.
- A missing `Authorization` header is modelled as a token that matches no user. How `findOne` treats an `undefined` filter value is not visible in the code.
- bcrypt, `crypto.randomBytes` and `Date.now` are foreign or nondeterministic. They are parameters or function-valued fields. The stored password is `hashSync(password, salt)`, but that it differs from the plaintext is not provable without knowing bcrypt.
- UserRoutes.UserStore.Register: the un-awaited `user.save()` is modelled as a synchronous insert. A late save failure, which the code never reports, and concurrent registrations of one name are not modelled.
- Concurrency in general, including the atomicity of `$inc` under concurrent likes. Each request is one atomic step.
- `toLowerCase` beyond ASCII letters. Message lengths count characters rather than UTF-16 code units.
- Casting of request fields: a single string given as `tags`, or non-string `userName`/`message` values. Only strings and string sequences are modelled. An empty `tags` array is accepted, as Mongoose's `required` on arrays only rejects a missing value.
- The JSON envelope text, including the `sucess` misspelling and the messages, and `console.error` logging. A status code and payload stand for each answer.
- `models/Like.js`: no handler uses it, so there is no operation to model.
