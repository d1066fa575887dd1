/** `Result<TValue, TError>` of Features/Models/Result.cs: a readonly struct
    that holds either a value or an error, fixed when it is built. */
module Models {

  /** A reference that may be null. */
  datatype Option<+T> = None | Some(value: T)

  /** Immutable: the variant and its payload are set once, by `FromValue` or
      `FromError`, the two implicit conversions of the source. */
  datatype Result<+TValue, +TError> = Success(value: TValue) | Failure(error: TError)
  {
    predicate IsSuccess() {
      Success?
    }

    /** The `Value` getter; on an error Result it throws the stored error, so
        callers may read it only on a success. */
    function Value(): (v: TValue)
      requires IsSuccess()
      ensures this == Success(v)
    {
      value
    }

    /** The `Error` field: the stored error, or null (the default) on a success. */
    function Error(): (e: Option<TError>)
      ensures e.None? <==> IsSuccess()
      ensures e.Some? ==> this == Failure(e.value)
    {
      if Success? then None else Some(error)
    }
  }

  /** `implicit operator Result(TValue value)`. */
  function FromValue<TValue, TError>(value: TValue): (r: Result<TValue, TError>)
    ensures r.IsSuccess()
    ensures r.Value() == value
    ensures r.Error() == None
  {
    Success(value)
  }

  /** `implicit operator Result(TError error)`. */
  function FromError<TValue, TError>(error: TError): (r: Result<TValue, TError>)
    ensures !r.IsSuccess()
    ensures r.Error() == Some(error)
  {
    Failure(error)
  }

  /** Every Result is exactly one of the two conversions, and each conversion
      determines its payload: a value and an error are never held together. */
  lemma ResultIsOneOfTwo<TValue, TError>(r: Result<TValue, TError>)
    ensures r.IsSuccess() ==> r == FromValue(r.Value()) && r.Error() == None
    ensures !r.IsSuccess() ==> exists e :: r.Error() == Some(e) && r == FromError(e)
  {
    if !r.IsSuccess() {
      assert r.Error() == Some(r.error);
    }
  }
}
