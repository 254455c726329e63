/** The user service's entity and data carriers, and the two static
    constructors of the `UserResponse` record. */
module UserDto {
  import opened Common

  /** The stored user; `id` is unset until the store assigns one. */
  datatype User = User(id: Option<Id>, firstName: string, lastName: string,
                       phoneNumber: string, companyId: Option<Id>)

  /** A `User` entity object as the persistence context holds it; its
      setters change it in place. */
  class UserEntity {
    var id: Option<Id>
    var firstName: string
    var lastName: string
    var phoneNumber: string
    var companyId: Option<Id>

    /** The entity's current field values. */
    function Value(): User
      reads this
    {
      User(id, firstName, lastName, phoneNumber, companyId)
    }

    constructor (u: User)
      ensures Value() == u
    {
      id, firstName, lastName, phoneNumber, companyId := u.id, u.firstName, u.lastName, u.phoneNumber, u.companyId;
    }
  }

  /** The body of a create or update request. */
  datatype UserRequest = UserRequest(firstName: string, lastName: string,
                                     phoneNumber: string, companyId: Option<Id>)

  /** What the company service's `GET /api/companies/{id}` is read into. */
  datatype CompanyResponse = CompanyResponse(id: Option<Id>, name: string, budget: int)

  /** The response `UserMapper.toResponse` builds: the user's own fields and
      the company data fetched for it. */
  datatype UserView = UserView(id: Option<Id>, firstName: string, lastName: string,
                               phoneNumber: string, company: Option<CompanyResponse>)

  /** The `UserResponse` record: the user's own fields, the raw company data,
      and the reason the company data could not be loaded. */
  datatype UserResponse = UserResponse(id: Option<Id>, firstName: string, lastName: string,
                                       phoneNumber: string, company: Option<RawMap>,
                                       companyLoadError: Option<string>)

  /** The four fields both static constructors copy from the entity. */
  predicate CopiesUser(r: UserResponse, user: User)
  {
    r.id == user.id && r.firstName == user.firstName &&
    r.lastName == user.lastName && r.phoneNumber == user.phoneNumber
  }

  function FromEntity(user: User, companyData: Option<RawMap>): (r: UserResponse)
    ensures CopiesUser(r, user)
    ensures r.company == companyData && r.companyLoadError.None?
  {
    UserResponse(user.id, user.firstName, user.lastName, user.phoneNumber, companyData, None)
  }

  function WithError(user: User, error: string): (r: UserResponse)
    ensures CopiesUser(r, user)
    ensures r.company.None? && r.companyLoadError == Some(error)
  {
    UserResponse(user.id, user.firstName, user.lastName, user.phoneNumber, None, Some(error))
  }

  /** The two constructors agree on the user and differ only in which of the
      company data and the load error they fill. */
  lemma FromEntityWithErrorAgree(user: User, data: Option<RawMap>, error: string)
    ensures FromEntity(user, data).(company := None, companyLoadError := Some(error))
            == WithError(user, error)
  {
  }

  /** `UserRequest.toEntity`: a user with no id yet. */
  function RequestToEntity(request: UserRequest): (u: User)
    ensures u.id.None? && u.companyId == request.companyId
    ensures u.firstName == request.firstName && u.lastName == request.lastName
    ensures u.phoneNumber == request.phoneNumber
  {
    User(None, request.firstName, request.lastName, request.phoneNumber, request.companyId)
  }
}
