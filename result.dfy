/** The application's `Result` value (api/utils/result.py): an optional payload and an
    optional error message, fixed at construction. A result is a success exactly when
    it carries no error. */
module Results {

  datatype Option<T> = None | Some(value: T)

  datatype Result<T> = Result(data: Option<T>, error: Option<string>) {

    /** `is_success`, computed once from the error field. */
    predicate IsSuccess() {
      error.None?
    }

    function GetData(): Option<T> {
      data
    }

    function GetError(): Option<string> {
      error
    }

    /** Python truthiness (`__bool__`). */
    predicate Truthy() {
      IsSuccess()
    }

    /** `__str__`; `show` renders the payload as Python's `str` would, and an absent
        payload prints as `None`. */
    function ToString(show: T -> string): string {
      if IsSuccess() then
        "Success(data=" + (if data.Some? then show(data.value) else "None") + ")"
      else
        "Error(error=" + (if error.Some? then error.value else "None") + ")"
    }
  }

  /** `Result.success(data)`. */
  function Success<T>(d: T): Result<T> {
    Result(Some(d), None)
  }

  /** `Result.error(message)`. */
  function Error<T>(message: string): Result<T> {
    Result(None, Some(message))
  }

  /** Whatever was passed at construction, success means "no error". */
  lemma SuccessIffNoError<T>(r: Result<T>)
    ensures r.IsSuccess() <==> r.GetError() == None
    ensures r.Truthy() <==> r.IsSuccess()
  {
  }

  lemma SuccessFields<T>(d: T)
    ensures Success(d).GetData() == Some(d)
    ensures Success(d).GetError() == None
    ensures Success(d).IsSuccess() && Success(d).Truthy()
  {
  }

  lemma ErrorFields<T>(message: string)
    ensures Error<T>(message).GetData() == None
    ensures Error<T>(message).GetError() == Some(message)
    ensures !Error<T>(message).IsSuccess() && !Error<T>(message).Truthy()
  {
  }

  /** The printed form starts with a tag that tells successes from errors, so two
      results print alike only if both succeed or both fail. */
  lemma ToStringTag<T>(r: Result<T>, show: T -> string)
    ensures r.IsSuccess() ==> r.ToString(show)[..13] == "Success(data="
    ensures !r.IsSuccess() ==> r.ToString(show) == "Error(error=" + r.error.value + ")"
  {
  }

  lemma {:induction false} ToStringDistinguishes<T>(r1: Result<T>, r2: Result<T>, show: T -> string)
    requires r1.IsSuccess() && !r2.IsSuccess()
    ensures r1.ToString(show) != r2.ToString(show)
  {
    ToStringTag(r1, show);
    ToStringTag(r2, show);
    assert r1.ToString(show)[0] == 'S';
    assert r2.ToString(show)[0] == 'E';
  }
}
