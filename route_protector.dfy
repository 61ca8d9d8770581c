/** The `route_protector(required)` decorator (api/decorators/route_protector.py): the
    Authorization header must start with "Bearer " and carry a decodable access token
    before the view runs. */
module RouteProtector {
  import opened Results
  import opened Strings
  import opened Jwt
  import opened Http

  const BearerPrefix := "Bearer "
  const InvalidHeader := "Invalid authorization header"
  const InvalidToken := "Invalid token"

  /** Either a response returned without calling the view, or a call of the view with
      extra trailing positional arguments after the request's own. */
  datatype Outcome = Reject(response: Response) | CallView(extraArgs: seq<Token>)

  /** `auth_header.split(" ")[1]`, defined once the prefix check has passed. */
  function BearerToken(header: string): (token: string)
    requires StartsWith(header, BearerPrefix)
    ensures StartsWith(header[|BearerPrefix|..], token) && ' ' !in token
    ensures |BearerPrefix| + |token| == |header| || header[|BearerPrefix| + |token|] == ' '
  {
    var rest := header[|BearerPrefix|..];
    assert header == "Bearer" + [' '] + rest;
    SplitAfterWord("Bearer", ' ', rest);
    SplitHead(rest, ' ');
    Split(header, ' ')[1]
  }

  /** Splitting on one space keeps only the first word after the prefix. */
  lemma BearerTokenExamples()
    ensures BearerToken("Bearer a b") == "a"
    ensures BearerToken("Bearer ") == ""
  {
  }

  /** The decorated view's wrapper. */
  function Wrapper(authHeader: Option<string>, required: bool, decode: Decoder): (r: Outcome)
    ensures authHeader.None? || !StartsWith(authHeader.value, BearerPrefix) ==>
      r == Reject(Response(Unauthorized, InvalidHeader))
    ensures (authHeader.Some? && StartsWith(authHeader.value, BearerPrefix) &&
             decode(BearerToken(authHeader.value)).TokenError?) ==>
      r == Reject(Response(Unauthorized, InvalidToken))
    ensures r.CallView? <==>
      authHeader.Some? && StartsWith(authHeader.value, BearerPrefix) &&
      decode(BearerToken(authHeader.value)).Decoded?
    ensures r.CallView? ==>
      r.extraArgs == (if required then [decode(BearerToken(authHeader.value)).token] else [])
  {
    if authHeader.None? || authHeader.value == "" || !StartsWith(authHeader.value, BearerPrefix) then
      Reject(Response(Unauthorized, InvalidHeader))
    else
      var tokenObj := decode(BearerToken(authHeader.value));
      if tokenObj.TokenError? then Reject(Response(Unauthorized, InvalidToken))
      else if required then CallView([tokenObj.token])
      else CallView([])
  }

  /** The prefix check is case-sensitive and needs the space: "bearer x" and "Bearerx"
      are refused before any decoding. */
  lemma {:induction false} PrefixIsExact(decode: Decoder, required: bool)
    ensures Wrapper(Some("bearer x"), required, decode) == Reject(Response(Unauthorized, InvalidHeader))
    ensures Wrapper(Some("Bearerx"), required, decode) == Reject(Response(Unauthorized, InvalidHeader))
  {
    assert "bearer x"[0] != BearerPrefix[0];
    assert "Bearerx"[6] != BearerPrefix[6];
  }
}
