/** The exception types of Features/Exceptions: `BaseException`, whose fields
    are set only by its two constructors, and `DomainException`, which
    forwards to the three-argument one. Exceptions are immutable values here. */
module Exceptions {
  import opened Models

  /** The initial value of `BaseException.StatusCode`. */
  const DefaultStatusCode: int := 500
  /** The title every `DomainException` carries. */
  const DomainExceptionTitle: string := "Domain exception"

  /** Which class an exception is an instance of, with that class's own fields. */
  datatype Kind =
    | Plain                   // System.Exception, or any class outside this hierarchy
    | NotFound                // NotFoundException, DataValidationException and
    | DataValidation          // BusinessValidationException are not part of this
    | BusinessValidation      // model: only their kind matters to it
    | Base(title: string, errorCode: string, statusCode: int)
    | Domain(title: string, errorCode: string, statusCode: int)

  /** `Message` and `InnerException` come from System.Exception. */
  datatype Exception = Exception(kind: Kind, message: string, innerException: Option<Exception>)
  {
    /** An instance of `BaseException`, `DomainException` included. */
    predicate IsBaseException() {
      kind.Base? || kind.Domain?
    }
  }

  /** `BaseException(title, errorCode, message)`: StatusCode keeps its initial 500. */
  function NewBaseException(title: string, errorCode: string, message: string): (e: Exception)
    ensures e.kind.Base? && e.IsBaseException()
    ensures e.kind.title == title && e.kind.errorCode == errorCode
    ensures e.kind.statusCode == 500
    ensures e.message == message && e.innerException == None
  {
    Exception(Base(title, errorCode, DefaultStatusCode), message, None)
  }

  /** `BaseException(title, errorCode, message, statusCode)`. */
  function NewBaseExceptionWithStatus(title: string, errorCode: string, message: string, statusCode: int): (e: Exception)
    ensures e.kind.Base? && e.IsBaseException()
    ensures e.kind.title == title && e.kind.errorCode == errorCode
    ensures e.kind.statusCode == statusCode
    ensures e.message == message && e.innerException == None
  {
    Exception(Base(title, errorCode, statusCode), message, None)
  }

  /** The two constructors differ only in the status code: the three-argument
      one is the four-argument one at the default 500. */
  lemma ConstructorsAgreeAtDefaultStatus(title: string, errorCode: string, message: string)
    ensures NewBaseException(title, errorCode, message)
         == NewBaseExceptionWithStatus(title, errorCode, message, 500)
  {
  }

  /** `DomainException(errorCode, message, message1)`: calls
      `base("Domain exception", errorCode, message)`; `message1` is never read. */
  function NewDomainException(errorCode: string, message: string, message1: string): (e: Exception)
    ensures e.kind.Domain? && e.IsBaseException()
    ensures e.kind.title == "Domain exception"
    ensures e.kind.errorCode == errorCode && e.message == message
    ensures e.kind.statusCode == 500
    ensures e.innerException == None
  {
    var base := NewBaseException(DomainExceptionTitle, errorCode, message);
    Exception(Domain(base.kind.title, base.kind.errorCode, base.kind.statusCode), base.message, base.innerException)
  }

  /** The third argument of `DomainException` is lost: any two values give the same exception. */
  lemma DomainExceptionIgnoresThirdArgument(errorCode: string, message: string, x: string, y: string)
    ensures NewDomainException(errorCode, message, x) == NewDomainException(errorCode, message, y)
  {
  }
}
