/** Features/Utilities/ExceptionUtility.cs: decides which exception a
    handler hands back to its caller. */
module Utilities {
  import opened Models
  import opened Exceptions

  /** `ToUnhandledDomainException`: `new DomainException("Unhandled exception", "500", exception.Message)`.
      The original message lands in the argument DomainException ignores. */
  function ToUnhandledDomainException(exception: Exception): (d: Exception)
    ensures d.kind == Domain("Domain exception", "Unhandled exception", 500)
    ensures d.message == "500" && d.innerException == None
  {
    NewDomainException("Unhandled exception", "500", exception.message)
  }

  /** The replacement does not depend on the exception it replaces. */
  lemma UnhandledForgetsOriginal(e1: Exception, e2: Exception)
    ensures ToUnhandledDomainException(e1) == ToUnhandledDomainException(e2)
  {
  }

  /** The three kinds the switch returns unchanged. */
  predicate IsPassedThrough(e: Exception) {
    e.kind.NotFound? || e.kind.DataValidation? || e.kind.BusinessValidation?
  }

  /** `ResolveExceptionToReturn`: the three pass-through kinds come back as
      they are; every other exception, a DomainException too, is replaced. */
  function ResolveExceptionToReturn(exception: Exception): (r: Exception)
    ensures IsPassedThrough(exception) ==> r == exception
    ensures !IsPassedThrough(exception) ==> r.kind.Domain? && r == ToUnhandledDomainException(exception)
    ensures IsPassedThrough(r) || r.kind == Domain("Domain exception", "Unhandled exception", 500)
  {
    match exception.kind
    case NotFound => exception
    case DataValidation => exception
    case BusinessValidation => exception
    case _ => ToUnhandledDomainException(exception)
  }

  /** Resolving a resolved exception changes nothing: kind, Title, ErrorCode,
      Message and StatusCode all stay as the first resolution left them. */
  lemma ResolveIsIdempotent(e: Exception)
    ensures ResolveExceptionToReturn(ResolveExceptionToReturn(e)) == ResolveExceptionToReturn(e)
  {
  }
}
