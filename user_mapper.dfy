/** `UserMapper`: builds entities and responses and copies a request onto an
    entity. `null` arguments are `None`. `UpdateEntity` gives the entity's
    values after `updateEntity`'s four setters; `UpdateEntityInPlace` runs
    them on a `UserEntity` object. */
module UserMapper {
  import opened Common
  import opened UserDto

  function ToEntity(request: Option<UserRequest>): (u: Option<User>)
    ensures u.None? <==> request.None?
    ensures request.Some? ==> u.value.id.None?
    ensures request.Some? ==>
              && u.value.firstName == request.value.firstName
              && u.value.lastName == request.value.lastName
              && u.value.phoneNumber == request.value.phoneNumber
              && u.value.companyId == request.value.companyId
  {
    match request
    case None => None
    case Some(r) => Some(User(None, r.firstName, r.lastName, r.phoneNumber, r.companyId))
  }

  function ToResponse(user: Option<User>, companyData: Option<CompanyResponse>): (r: Option<UserView>)
    ensures r.None? <==> user.None?
    ensures user.Some? ==>
              && r.value.id == user.value.id
              && r.value.firstName == user.value.firstName
              && r.value.lastName == user.value.lastName
              && r.value.phoneNumber == user.value.phoneNumber
              && r.value.company == companyData
  {
    match user
    case None => None
    case Some(u) => Some(UserView(u.id, u.firstName, u.lastName, u.phoneNumber, companyData))
  }

  function UpdateEntity(request: UserRequest, entity: User): (r: User)
    ensures r.id == entity.id
    ensures r.firstName == request.firstName && r.lastName == request.lastName
    ensures r.phoneNumber == request.phoneNumber && r.companyId == request.companyId
  {
    entity.(firstName := request.firstName, lastName := request.lastName,
            phoneNumber := request.phoneNumber, companyId := request.companyId)
  }

  /** `updateEntity` on the entity object: its four setters. The id is not
      touched. */
  method UpdateEntityInPlace(request: UserRequest, entity: UserEntity)
    modifies entity
    ensures entity.Value() == UpdateEntity(request, old(entity.Value()))
  {
    entity.firstName := request.firstName;
    entity.lastName := request.lastName;
    entity.phoneNumber := request.phoneNumber;
    entity.companyId := request.companyId;
  }

  /** Copying the same request a second time changes nothing. */
  lemma UpdateEntityIdempotent(request: UserRequest, entity: User)
    ensures UpdateEntity(request, UpdateEntity(request, entity)) == UpdateEntity(request, entity)
  {
  }

  /** Updating an entity yields the entity `toEntity` builds from the request,
      with the old id: nothing of the old entity but its id survives. */
  lemma UpdateEntityIsToEntityWithId(request: UserRequest, entity: User)
    ensures UpdateEntity(request, entity) == ToEntity(Some(request)).value.(id := entity.id)
  {
  }

  /** The mapper builds the same entity as `UserRequest.toEntity`. */
  lemma ToEntityAgreesWithRequest(request: UserRequest)
    ensures ToEntity(Some(request)) == Some(RequestToEntity(request))
  {
  }
}
