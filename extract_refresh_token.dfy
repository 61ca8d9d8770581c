/** The `extract_refresh_token()` decorator (api/decorators/extract_refresh_token.py):
    the X-Refresh-Token header must hold a decodable refresh token, which the view then
    receives as the keyword argument `refresh_token`. */
module ExtractRefreshToken {
  import opened Results
  import opened Jwt
  import opened Http

  const InvalidHeader := "Invalid refresh header"
  const InvalidRefreshToken := "Invalid refresh token"

  /** Either a response returned without calling the view, or one call of the view with
      the request's own arguments and `refresh_token=refreshToken`. */
  datatype Outcome = Reject(response: Response) | CallView(refreshToken: Token)

  function Wrapper(refreshHeader: Option<string>, decode: Decoder): (r: Outcome)
    ensures refreshHeader.None? || refreshHeader.value == "" ==>
      r == Reject(Response(BadRequest, InvalidHeader))
    ensures refreshHeader.Some? && refreshHeader.value != "" && decode(refreshHeader.value).TokenError? ==>
      r == Reject(Response(BadRequest, InvalidRefreshToken))
    ensures r.CallView? <==>
      refreshHeader.Some? && refreshHeader.value != "" && decode(refreshHeader.value).Decoded?
    ensures r.CallView? ==> r.refreshToken == decode(refreshHeader.value).token
  {
    if refreshHeader.None? || refreshHeader.value == "" then Reject(Response(BadRequest, InvalidHeader))
    else
      var tokenObj := decode(refreshHeader.value);
      if tokenObj.TokenError? then Reject(Response(BadRequest, InvalidRefreshToken))
      else CallView(tokenObj.token)
  }
}
