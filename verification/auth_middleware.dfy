/** server/middleware/authMiddleware.js: the bearer token is cut out of the
    `Authorization` header, verified, and its `userId` and `role` become the
    request's identity. Verification (signature and expiry, RFC 7519) is the
    opaque `verify`. */
module AuthMiddleware {
  import opened Common
  import opened Http

  /** The claims `jwt.verify` returns: the signed payload plus the registered
      `iat`/`exp` claims. */
  datatype Decoded = Decoded(userId: Id, role: string, issuedAt: int, expiresAt: int)

  /** `req.user`: who is making the request. */
  datatype Identity = Identity(userId: Id, role: string)

  const BearerPrefix: string := "Bearer "
  const NoTokenMessage: string := "Access denied. No token provided."
  const InvalidTokenMessage: string := "Invalid token."

  /** `req.header('Authorization')?.replace('Bearer ', '')`, with `undefined`
      rendered as the (equally falsy) empty string. */
  function ExtractToken(header: Option<string>): (token: string)
    ensures header.None? ==> token == ""
    ensures header.Some? && IndexOf(header.value, BearerPrefix).None? ==> token == header.value
    ensures header.Some? && IndexOf(header.value, BearerPrefix).Some? ==>
      var i := IndexOf(header.value, BearerPrefix).value;
      |token| == |header.value| - |BearerPrefix| &&
      token == header.value[..i] + header.value[i + |BearerPrefix|..]
  {
    match header
    case None => ""
    case Some(h) => ReplaceFirst(h, BearerPrefix, "")
  }

  /** The middleware: `Ok(identity)` means `next()` runs with `req.user` set;
      `Err(response)` is the 401 it sends instead. */
  function Authenticate(header: Option<string>, verify: string -> Option<Decoded>): (r: Result<Identity, Response>)
    ensures r.Err? ==> r.error.status == 401
    ensures ExtractToken(header) == "" ==> r == Err(Response(401, Failure(NoTokenMessage)))
    ensures ExtractToken(header) != "" && verify(ExtractToken(header)).None? ==>
      r == Err(Response(401, Failure(InvalidTokenMessage)))
    ensures r.Ok? <==> ExtractToken(header) != "" && verify(ExtractToken(header)).Some?
    ensures r.Ok? ==>
      var d := verify(ExtractToken(header)).value;
      r.value == Identity(d.userId, d.role)
  {
    var token := ExtractToken(header);
    if token == "" then Err(Response(401, Failure(NoTokenMessage)))
    else
      match verify(token)
      case None => Err(Response(401, Failure(InvalidTokenMessage)))
      case Some(d) => Ok(Identity(d.userId, d.role))
  }

  /** A header holding only the prefix carries no token at all. */
  lemma {:induction false} BarePrefixHasNoToken(verify: string -> Option<Decoded>)
    ensures ExtractToken(Some(BearerPrefix)) == ""
    ensures Authenticate(Some(BearerPrefix), verify) == Err(Response(401, Failure(NoTokenMessage)))
  {
    assert OccursAt(BearerPrefix, BearerPrefix, 0);
  }

  /** `Bearer <token>` yields exactly `<token>`, whatever the token contains. */
  lemma {:induction false} BearerHeaderYieldsToken(token: string)
    ensures ExtractToken(Some(BearerPrefix + token)) == token
  {
    var h := BearerPrefix + token;
    assert h[0..|BearerPrefix|] == BearerPrefix;
    assert OccursAt(h, BearerPrefix, 0);
    assert h[|BearerPrefix|..] == token;
  }

  /** Only the first occurrence is removed, and it need not be at the start:
      when no earlier occurrence begins inside `a`, `a + 'Bearer ' + b`
      becomes `a + b` (so 'xBearer y' becomes 'xy'). An earlier occurrence
      would have to end before the space, inside `a + 'Bearer'`. */
  lemma {:induction false} PrefixRemovedAnywhere(a: string, b: string)
    requires IndexOf(a + "Bearer", BearerPrefix).None?
    ensures ExtractToken(Some(a + BearerPrefix + b)) == a + b
  {
    var h := a + BearerPrefix + b;
    var head := a + "Bearer";
    assert h[|a|..|a| + |BearerPrefix|] == BearerPrefix;
    assert OccursAt(h, BearerPrefix, |a|);
    forall k | 0 <= k < |a|
      ensures !OccursAt(h, BearerPrefix, k)
    {
      if OccursAt(h, BearerPrefix, k) {
        assert h[..|head|] == head;
        assert h[k..k + |BearerPrefix|] == head[k..k + |BearerPrefix|];
        assert OccursAt(head, BearerPrefix, k);
        assert false;
      }
    }
    var i := IndexOf(h, BearerPrefix).value;
    assert i == |a|;
    assert h[..i] == a;
    assert h[i + |BearerPrefix|..] == b;
  }

  /** The literal case. */
  lemma PrefixRemovedInExample()
    ensures ExtractToken(Some("xBearer y")) == "xy"
  {
    assert "x" + "Bearer" == "xBearer";
    assert "xBearer"[0..|BearerPrefix|][0] != BearerPrefix[0];
    assert IndexOf("xBearer", BearerPrefix).None?;
    PrefixRemovedAnywhere("x", "y");
    assert "x" + BearerPrefix + "y" == "xBearer y";
  }
}
