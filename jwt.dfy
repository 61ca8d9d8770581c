/** The JWT library as the core sees it: an abstract partial decoder. Constructing
    `AccessToken(s)` or `RefreshToken(s)` either yields a token whose payload may carry
    an `exp` claim, or raises `TokenError` with a message. Signature and expiry checks
    happen inside the decoder and are not modelled. */
module Jwt {
  import opened Results

  datatype Token = Token(raw: string, exp: Option<int>)

  datatype Decoding = Decoded(token: Token) | TokenError(reason: string)

  type Decoder = string -> Decoding
}
