/**
 * The middleware guarding the order API: it reads the `Authorization`
 * header, extracts the bearer token, verifies it, and lets the request
 * through only for the 'admin' role. Token verification is a parameter:
 * `verify(token)` is the decoded payload, or `None` when verification fails.
 */
module AuthMiddleware {
  import opened Types
  import opened Text

  /** The decoded token payload. */
  datatype Claims = Claims(id: string, role: string)

  /** Either a JSON error reply, or `next()` with the decoded payload as `req.user`. */
  datatype AuthOutcome = Reject(status: int, message: string) | Next(user: Claims)

  const BearerPrefix: string := "Bearer "
  const NoTokenMessage: string := "Aucun token fourni"
  const ForbiddenMessage: string := "Accès non autorisé"
  const InvalidTokenMessage: string := "Token invalide ou expiré"

  /** The header is present, non-empty and starts with 'Bearer '. */
  predicate HasBearer(header: Option<string>)
  {
    header.Some? && header.value != "" && StartsWith(header.value, BearerPrefix)
  }

  /** `authHeader.split(' ')[1]`. */
  function ExtractToken(header: string): string
    requires StartsWith(header, BearerPrefix)
  {
    assert header[6] == ' ';
    Split(header, ' ')[1]
  }

  /** The verification and role checks made on the token. */
  function CheckToken(token: string, verify: string -> Option<Claims>): AuthOutcome
  {
    match verify(token)
    case None => Reject(401, InvalidTokenMessage)
    case Some(decoded) =>
      if decoded.role != "admin" then Reject(403, ForbiddenMessage) else Next(decoded)
  }

  /** The middleware's decision for one request. */
  function Decide(header: Option<string>, verify: string -> Option<Claims>): AuthOutcome
  {
    if !HasBearer(header) then Reject(401, NoTokenMessage)
    else CheckToken(ExtractToken(header.value), verify)
  }

  /** A missing header, or one not starting with 'Bearer ', is refused with 401 whatever `verify` would say. */
  lemma MissingHeader(header: Option<string>, verify: string -> Option<Claims>, other: string -> Option<Claims>)
    requires !HasBearer(header)
    ensures Decide(header, verify) == Reject(401, NoTokenMessage)
    ensures Decide(header, verify) == Decide(header, other)
  {
  }

  /** The token is the text after 'Bearer ' up to the next space. */
  lemma TokenExtraction(token: string, rest: string)
    requires ' ' !in token
    ensures ExtractToken(BearerPrefix + token) == token
    ensures ExtractToken(BearerPrefix + token + " " + rest) == token
  {
    var bearer := "Bearer";
    assert BearerPrefix + token == bearer + [' '] + token;
    SplitTwoFields(bearer, token, ' ');
    var h := BearerPrefix + token + " " + rest;
    var tail := token + " " + rest;
    assert h == bearer + [' '] + tail;
    assert h[..6] == bearer && h[6] == ' ' && h[7..] == tail;
    assert IndexOf(h, ' ') == 6;
    assert Split(h, ' ') == [bearer] + Split(tail, ' ');
    SplitAfterField(token, rest);
  }

  /** Splitting `w + ' ' + rest` makes `w` the first field. */
  lemma SplitAfterField(w: string, rest: string)
    requires ' ' !in w
    ensures Split(w + " " + rest, ' ')[0] == w
  {
    var s := w + " " + rest;
    assert s[|w|] == ' ';
    assert s[..|w|] == w;
    assert IndexOf(s, ' ') == |w|;
  }

  /** A header whose token fails verification is refused with 401. */
  lemma VerifyFailure(header: Option<string>, verify: string -> Option<Claims>)
    requires HasBearer(header) && verify(ExtractToken(header.value)).None?
    ensures Decide(header, verify) == Reject(401, InvalidTokenMessage)
  {
  }

  /**
   * A verified token passes iff its role is exactly 'admin'; any other role,
   * 'super_admin' included, is refused with 403.
   */
  lemma RoleGate(header: Option<string>, verify: string -> Option<Claims>)
    requires HasBearer(header) && verify(ExtractToken(header.value)).Some?
    ensures var decoded := verify(ExtractToken(header.value)).value;
      && (decoded.role == "admin" <==> Decide(header, verify) == Next(decoded))
      && (decoded.role != "admin" ==> Decide(header, verify) == Reject(403, ForbiddenMessage))
      && (decoded.role == "super_admin" ==> Decide(header, verify).Reject?)
  {
  }

  /**
   * Every request gets exactly one of a 401, a 403 or `next()`; it reaches
   * `next()` only with a bearer header whose token verifies to an admin.
   */
  lemma OutcomeCases(header: Option<string>, verify: string -> Option<Claims>)
    ensures var r := Decide(header, verify);
      && (r.Reject? ==> r.status == 401 || r.status == 403)
      && (r.Next? <==> HasBearer(header) && verify(ExtractToken(header.value)).Some?
                       && verify(ExtractToken(header.value)).value.role == "admin")
      && (r.Next? ==> r.user == verify(ExtractToken(header.value)).value && r.user.role == "admin")
  {
  }

  /** The part of the request the middleware reads and writes. */
  class Request {
    var authorization: Option<string>
    var user: Option<Claims>

    constructor (authorization: Option<string>)
      ensures this.authorization == authorization && user == None
    {
      this.authorization := authorization;
      user := None;
    }

    /** Runs the middleware: on `next()` the decoded payload is stored as `req.user`. */
    method Authenticate(verify: string -> Option<Claims>) returns (outcome: AuthOutcome)
      modifies this
      ensures outcome == Decide(old(authorization), verify)
      ensures outcome.Next? ==> user == Some(outcome.user)
      ensures outcome.Reject? ==> user == old(user)
      ensures authorization == old(authorization)
    {
      var authHeader := authorization;
      if !HasBearer(authHeader) {
        return Reject(401, NoTokenMessage);
      }
      var token := ExtractToken(authHeader.value);
      var verified := verify(token);
      if verified.None? {
        return Reject(401, InvalidTokenMessage);
      }
      var decoded := verified.value;
      if decoded.role != "admin" {
        return Reject(403, ForbiddenMessage);
      }
      user := Some(decoded);
      outcome := Next(decoded);
    }
  }
}
