/** `CompanyMapper`: builds entities, responses and requests, and copies a
    request onto an entity. `null` arguments are `None`. `UpdateEntity` gives
    the entity's values after `updateEntity`'s three setters;
    `UpdateEntityInPlace` runs them on a `CompanyEntity` object. */
module CompanyMapper {
  import opened Common
  import opened CompanyDto

  /** `extractEmployeeIds`: a fresh copy of the requested ids; none for `null`. */
  function ExtractEmployeeIds(request: CompanyRequest): (ids: set<Id>)
    ensures request.employeeIds.None? ==> ids == {}
    ensures request.employeeIds.Some? ==> ids == request.employeeIds.value
  {
    match request.employeeIds
    case None => {}
    case Some(s) => s
  }

  function ToEntity(request: Option<CompanyRequest>): (c: Option<Company>)
    ensures c.None? <==> request.None?
    ensures request.Some? ==>
              && c.value.id.None?
              && c.value.name == request.value.name
              && c.value.budget == request.value.budget
              && c.value.employeeIds == ExtractEmployeeIds(request.value)
  {
    match request
    case None => None
    case Some(r) => Some(Company(None, r.name, r.budget, ExtractEmployeeIds(r)))
  }

  /** With both arguments present the entity takes the request's name, budget
      and employees and keeps its id; otherwise it is left as it was. */
  function UpdateEntity(request: Option<CompanyRequest>, company: Option<Company>): (r: Option<Company>)
    ensures request.None? || company.None? ==> r == company
    ensures request.Some? && company.Some? ==>
              && r.Some?
              && r.value.id == company.value.id
              && r.value.name == request.value.name
              && r.value.budget == request.value.budget
              && r.value.employeeIds == ExtractEmployeeIds(request.value)
  {
    if request.None? || company.None? then company
    else
      var r := request.value;
      Some(company.value.(name := r.name, budget := r.budget, employeeIds := ExtractEmployeeIds(r)))
  }

  /** `updateEntity` on the entity object: its three setters, or nothing at
      all when the request or the entity is `null`. */
  method UpdateEntityInPlace(request: Option<CompanyRequest>, company: CompanyEntity?)
    modifies company
    ensures company != null ==> company.Value() == UpdateEntity(request, Some(old(company.Value()))).value
  {
    if request.None? || company == null {
      return;
    }
    company.name := request.value.name;
    company.budget := request.value.budget;
    company.employeeIds := ExtractEmployeeIds(request.value);
  }

  function ToResponseWith(company: Option<Company>, employees: Option<seq<UserResponse>>): (r: Option<CompanyView>)
    ensures r.None? <==> company.None?
    ensures company.Some? ==>
              && r.value.id == company.value.id
              && r.value.name == company.value.name
              && r.value.budget == company.value.budget
    ensures company.Some? && employees.None? ==> r.value.employees == []
    ensures company.Some? && employees.Some? ==> r.value.employees == employees.value
  {
    match company
    case None => None
    case Some(c) => Some(CompanyView(c.id, c.name, c.budget, if employees.Some? then employees.value else []))
  }

  /** The one-argument `toResponse`. */
  function ToResponse(company: Option<Company>): (r: Option<CompanyView>)
    ensures r.None? <==> company.None?
    ensures company.Some? ==> r.value.employees == []
  {
    ToResponseWith(company, None)
  }

  function ToRequest(company: Option<Company>): (r: Option<CompanyRequest>)
    ensures r.None? <==> company.None?
    ensures company.Some? ==>
              && r.value.name == company.value.name
              && r.value.budget == company.value.budget
              && r.value.employeeIds == Some(company.value.employeeIds)
  {
    match company
    case None => None
    case Some(c) => Some(CompanyRequest(c.name, c.budget, Some(c.employeeIds)))
  }

  /** Turning a company into a request and back loses only its id. */
  lemma ToEntityToRequestRoundTrip(company: Company)
    ensures ToEntity(ToRequest(Some(company))) == Some(company.(id := None))
  {
  }

  /** Turning a request into a company and back loses only the difference
      between a `null` and an empty employee set. */
  lemma ToRequestToEntityRoundTrip(request: CompanyRequest)
    ensures ToRequest(ToEntity(Some(request))) == Some(request.(employeeIds := Some(ExtractEmployeeIds(request))))
  {
  }

  /** The one-argument `toResponse` is the two-argument one without employees. */
  lemma ToResponseWithoutEmployees(company: Option<Company>)
    ensures ToResponse(company) == ToResponseWith(company, None)
    ensures ToResponse(company) == ToResponseWith(company, Some([]))
  {
  }

  /** The mapper builds the same entity as `CompanyRequest.toEntity`. */
  lemma ToEntityAgreesWithRequest(request: CompanyRequest)
    ensures ToEntity(Some(request)) == Some(RequestToEntity(request))
  {
  }

  /** Updating a company yields the entity `toEntity` builds from the request,
      with the old id; updating twice with the same request changes nothing
      further. */
  lemma UpdateEntityIsToEntityWithId(request: CompanyRequest, company: Company)
    ensures UpdateEntity(Some(request), Some(company)) == Some(ToEntity(Some(request)).value.(id := company.id))
    ensures UpdateEntity(Some(request), UpdateEntity(Some(request), Some(company)))
            == UpdateEntity(Some(request), Some(company))
  {
  }
}
