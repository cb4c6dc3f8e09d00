/** The `authenticateUser` middleware (middleware/authMiddleware.js): the
    `Authorization` header is looked up verbatim as an access token. */
module AuthMiddleware {
  import opened Common
  import opened UserModel
  import opened UserRoutes

  /** Either the request goes on with `req.user` set, or the middleware answers
      itself with `status` (and `loggedOut: true` on a 401). */
  datatype AuthOutcome = Authenticated(id: Id, user: User) | Rejected(status: int, loggedOut: bool)

  /** `header` is the `Authorization` value (None when the header is missing,
      which matches no user); `storeFails` says whether the lookup throws.
      The user table is only read. */
  method AuthenticateUser(store: UserStore, header: Option<string>, storeFails: bool)
    returns (a: AuthOutcome)
    ensures storeFails ==> a == Rejected(ServerError, false)
    ensures !storeFails && header.Some? && store.TokenKnown(header.value) ==>
              && a.Authenticated?
              && a.id in store.users && store.users[a.id] == a.user
              && a.user.accessToken == header.value
    ensures !storeFails && !(header.Some? && store.TokenKnown(header.value)) ==>
              a == Rejected(Unauthorized, true)
  {
    if storeFails {
      return Rejected(ServerError, false);
    }
    if header.Some? && store.TokenKnown(header.value) {
      var id :| id in store.users && store.users[id].accessToken == header.value;
      a := Authenticated(id, store.users[id]);
    } else {
      a := Rejected(Unauthorized, true);
    }
  }
}
