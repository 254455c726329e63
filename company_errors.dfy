/** The company service's exceptions and its `GlobalExceptionHandler`. */
module CompanyErrors {
  import opened Common
  import opened Peer

  datatype Exception =
    | CompanyNotFoundException(companyId: Id)
    | CompanyNameExistsException(name: string)
    | EmployeeAlreadyExistsException(employeeId: Id, companyId: Id)
    | UserNotFoundException(userId: Id)
      /** Thrown by the older service. */
    | EntityNotFoundException(message: string)
      /** Thrown by the older service. */
    | IllegalArgumentException(message: string)
      /** A fault of the user service that is not caught. */
    | FeignException(fault: Fault)
      /** Dereferencing a `null` reply body; its message is `null`. */
    | NullPointerException
    | OtherException(message: string)

  /** `getMessage()`, as string concatenation renders it. */
  function Message(e: Exception): string
  {
    match e
    case CompanyNotFoundException(id) => "Company not found with id: " + IdText(id)
    case CompanyNameExistsException(name) => "Company name already exists: " + name
    case EmployeeAlreadyExistsException(employeeId, companyId) =>
      "Employee with id " + IdText(employeeId) + " already exists in company " + IdText(companyId)
    case UserNotFoundException(id) => "User not found with id: " + IdText(id)
    case EntityNotFoundException(m) => m
    case IllegalArgumentException(m) => m
    case FeignException(f) => f.message
    case NullPointerException => "null"
    case OtherException(m) => m
  }

  const UNEXPECTED_PREFIX := "An unexpected error occurred: "

  /** Whether a handler of its own picks the exception up. */
  predicate HasOwnHandler(e: Exception)
  {
    e.CompanyNotFoundException? || e.CompanyNameExistsException? || e.EmployeeAlreadyExistsException? ||
    e.UserNotFoundException? || e.EntityNotFoundException? || e.IllegalArgumentException?
  }

  function Handle(e: Exception): (r: HttpResponse)
    ensures HasOwnHandler(e) ==> r.body == Message(e)
    ensures !HasOwnHandler(e) ==> r == HttpResponse(500, UNEXPECTED_PREFIX + Message(e))
    ensures r.status == 404 <==> e.CompanyNotFoundException? || e.EntityNotFoundException?
    ensures r.status == 400 <==>
              e.CompanyNameExistsException? || e.EmployeeAlreadyExistsException? ||
              e.UserNotFoundException? || e.IllegalArgumentException?
  {
    match e
    case CompanyNotFoundException(_) => HttpResponse(404, Message(e))
    case CompanyNameExistsException(_) => HttpResponse(400, Message(e))
    case EmployeeAlreadyExistsException(_, _) => HttpResponse(400, Message(e))
    case UserNotFoundException(_) => HttpResponse(400, Message(e))
    case EntityNotFoundException(_) => HttpResponse(404, Message(e))
    case IllegalArgumentException(_) => HttpResponse(400, Message(e))
    case _ => HttpResponse(500, UNEXPECTED_PREFIX + Message(e))
  }

  /** Every response is 400, 404 or 500; a missing user is reported as a bad
      request, not as a missing resource. */
  lemma HandledStatuses(e: Exception)
    ensures Handle(e).status in {400, 404, 500}
    ensures e.UserNotFoundException? ==> Handle(e) == HttpResponse(400, "User not found with id: " + IdText(e.userId))
    ensures e.NullPointerException? ==> Handle(e) == HttpResponse(500, "An unexpected error occurred: null")
  {
  }
}
