/** The user service's exceptions and its `GlobalExceptionHandler`, which
    turns each kind of exception into a status and a body. */
module UserErrors {
  import opened Common

  datatype Exception =
    | NotFoundException(message: string)
    | ValidationException(message: string)
    | ServiceUnavailableException(message: string)
    | FeignException(status: int, message: string)
      /** Thrown by the older service; no handler of its own. */
    | EntityNotFoundException(message: string)
      /** Thrown by the older service; no handler of its own. */
    | IllegalArgumentException(message: string)
    | OtherException(message: string)

  const NOT_FOUND := 404
  const BAD_REQUEST := 400
  const INTERNAL_SERVER_ERROR := 500
  const SERVICE_UNAVAILABLE := 503

  const UNEXPECTED_PREFIX := "An unexpected error occurred: "

  /** The handler Spring picks for the exception's class, and what it returns. */
  function Handle(e: Exception): (r: HttpResponse)
    ensures e.NotFoundException? ==> r == HttpResponse(404, e.message)
    ensures e.ValidationException? ==> r == HttpResponse(400, e.message)
    ensures e.ServiceUnavailableException? ==> r == HttpResponse(503, e.message)
    ensures e.FeignException? && e.status == 404 ==> r == HttpResponse(404, "Company not found")
    ensures e.FeignException? && e.status != 404 ==>
              r == HttpResponse(500, "Error communicating with company service")
    ensures e.EntityNotFoundException? || e.IllegalArgumentException? || e.OtherException? ==>
              r == HttpResponse(500, UNEXPECTED_PREFIX + e.message)
  {
    match e
    case NotFoundException(m) => HttpResponse(NOT_FOUND, m)
    case ValidationException(m) => HttpResponse(BAD_REQUEST, m)
    case ServiceUnavailableException(m) => HttpResponse(SERVICE_UNAVAILABLE, m)
    case FeignException(status, _) =>
      if status == 404 then HttpResponse(NOT_FOUND, "Company not found")
      else HttpResponse(INTERNAL_SERVER_ERROR, "Error communicating with company service")
    case _ => HttpResponse(INTERNAL_SERVER_ERROR, UNEXPECTED_PREFIX + e.message)
  }

  /** The handler rejects the request as the client's fault (a 4xx status)
      exactly for a missing resource, an invalid request, or a peer's 404;
      every other exception, peer unavailability included, is a 5xx. */
  lemma ClientErrorsAreExactlyNotFoundAndValidation(e: Exception)
    ensures 400 <= Handle(e).status < 500 <==>
            (e.NotFoundException? || e.ValidationException? ||
             (e.FeignException? && e.status == 404))
    ensures Handle(e).status in {400, 404, 500, 503}
  {
  }
}
