/** The single-use authorisation codes of the Steam login (index.js and
    controllers/authController.js): on return from Steam a fresh code is
    stored against the signed-in user, and the front end exchanges it once
    for a token. */
module AuthCodes {
  import opened Wrappers

  /** The user Passport attaches to the request (`req.user`). */
  datatype SessionUser = SessionUser(steamId: string, username: string)

  /** The payload `generateToken(user, ip)` signs: `{ id, username, ip }`.
      Signing and expiry are left out. */
  datatype Token = Token(id: string, username: string, ip: string)

  datatype ExchangeResponse =
    | Issued(token: Token)      // `res.json({ token })`
    | InvalidCode               // 400 'Invalid or expired authorization code'
    | ServerError               // the handler threw; Express answers 500

  /** `global.authCodes`, absent until the first Steam return creates it. */
  type CodeMap = Option<map<string, SessionUser>>

  function TokenFor(user: SessionUser, ip: string): (t: Token)
    ensures t.id == user.steamId && t.username == user.username && t.ip == ip
  {
    Token(user.steamId, user.username, ip)
  }

  /** `global.authCodes && global.authCodes[code]`: the user stored under
      the code, if the map exists and holds it. */
  function Lookup(codes: CodeMap, code: string): (u: Option<SessionUser>)
    ensures u.Some? <==> codes.Some? && code in codes.value
    ensures u.Some? ==> u.value == codes.value[code]
  {
    if codes.Some? && code in codes.value then Some(codes.value[code]) else None
  }

  /** The map after a Steam return stores `user` under `code`
      (`global.authCodes = global.authCodes || {}` first). */
  function Stored(codes: CodeMap, code: string, user: SessionUser): (codes': CodeMap)
    ensures Lookup(codes', code) == Some(user)
    ensures forall c :: c != code ==> Lookup(codes', c) == Lookup(codes, c)
  {
    var m := if codes.Some? then codes.value else map[];
    Some(m[code := user])
  }

  /** The exchange of `POST /auth/exchange` (index.js:109-121): a stored
      code yields a token for its user and is deleted; any other code gets
      400 and nothing changes. */
  function Exchanged(codes: CodeMap, code: string, ip: string): (r: (CodeMap, ExchangeResponse))
    ensures Lookup(codes, code).Some? ==> r.1 == Issued(TokenFor(Lookup(codes, code).value, ip))
    ensures Lookup(codes, code).Some? ==> Lookup(r.0, code).None?
    ensures Lookup(codes, code).None? ==> r == (codes, InvalidCode)
    ensures forall c :: c != code ==> Lookup(r.0, c) == Lookup(codes, c)
  {
    match Lookup(codes, code)
    case None => (codes, InvalidCode)
    case Some(user) => (Some(codes.value - {code}), Issued(TokenFor(user, ip)))
  }

  /** `exchangeCodeForJwt` as written (controllers/authController.js:22-41):
      line 3 binds the module object `{ generateToken }` instead of the
      function, so calling it throws before the code is deleted. */
  function ExchangedAsWritten(codes: CodeMap, code: string, ip: string): (r: (CodeMap, ExchangeResponse))
    ensures r.0 == codes
    ensures Lookup(codes, code).Some? ==> r.1 == ServerError
    ensures Lookup(codes, code).None? ==> r.1 == InvalidCode
  {
    match Lookup(codes, code)
    case None => (codes, InvalidCode)
    case Some(_) => (codes, ServerError)
  }

  /** A code is single-use: once it has been exchanged, exchanging it again
      gets 400. */
  lemma CodeIsSingleUse(codes: CodeMap, code: string, ip: string, ip': string)
    requires Exchanged(codes, code, ip).1.Issued?
    ensures Exchanged(Exchanged(codes, code, ip).0, code, ip').1 == InvalidCode
  {
  }

  /** A code stored on Steam return is exchanged for a token carrying that
      user's Steam id and name and the client's address. */
  lemma StoredCodeIssuesToken(codes: CodeMap, code: string, user: SessionUser, ip: string)
    ensures Exchanged(Stored(codes, code, user), code, ip).1 == Issued(Token(user.steamId, user.username, ip))
  {
  }

  /** As written, a stored code is never redeemed: every exchange of it
      fails and leaves it in place, so it never yields a token. */
  lemma AsWrittenNeverIssues(codes: CodeMap, code: string, user: SessionUser, ip: string)
    ensures var codes' := Stored(codes, code, user);
      && ExchangedAsWritten(codes', code, ip) == (codes', ServerError)
      && Lookup(ExchangedAsWritten(codes', code, ip).0, code) == Some(user)
      && !ExchangedAsWritten(codes', code, ip).1.Issued?
  {
  }

  /** The auth-code map of the server process. */
  class AuthCodeStore {
    var codes: CodeMap

    constructor ()
      ensures codes == None
    {
      codes := None;
    }

    /** The Steam return handler: `code` is the fresh random code. */
    method SteamReturn(code: string, user: SessionUser)
      modifies this
      ensures codes == Stored(old(codes), code, user)
    {
      var m := if codes.Some? then codes.value else map[];
      m := m[code := user];
      codes := Some(m);
    }

    /** `POST /auth/exchange` in index.js; `ip` is the client address
        (`x-forwarded-for` or the socket's). */
    method Exchange(code: string, ip: string) returns (response: ExchangeResponse)
      modifies this
      ensures (codes, response) == Exchanged(old(codes), code, ip)
    {
      if codes.Some? && code in codes.value {
        var user := codes.value[code];
        var token := TokenFor(user, ip);
        codes := Some(codes.value - {code});
        response := Issued(token);
      } else {
        response := InvalidCode;
      }
    }

    /** `exchangeCodeForJwt` of controllers/authController.js, as written. */
    method ExchangeAsWritten(code: string, ip: string) returns (response: ExchangeResponse)
      modifies this
      ensures (codes, response) == ExchangedAsWritten(old(codes), code, ip)
    {
      if codes.Some? && code in codes.value {
        response := ServerError;
      } else {
        response := InvalidCode;
      }
    }
  }
}
