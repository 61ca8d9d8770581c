/** The framework responses the request gates build: a status code and a
    `{"message": ...}` body. */
module Http {

  const BadRequest := 400
  const Unauthorized := 401

  datatype Response = Response(status: int, message: string)
}
