/** The stored user record and the serializers' validation outcome. */
module Models {

  /** The columns of a user row that the serializers read or render. */
  datatype User = User(
    id: int,
    email: string,
    username: string,
    password: string,
    createdAt: int,
    updatedAt: int,
    isActive: bool)
}

/** A field validator either returns the (possibly unchanged) value or raises
    `ValidationError`, whose detail is a list of messages; raising with one string
    gives a one-element list. */
module Validation {

  datatype Validated<T> = Valid(value: T) | Invalid(detail: seq<string>)
}
