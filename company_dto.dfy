/** The company service's entity and data carriers, and the two small
    constructors that live on them: `CompanyRequest.toEntity` and
    `CompanyResponse.fromEntity`. */
module CompanyDto {
  import opened Common

  /** The stored company; `id` is unset until the store assigns one. */
  datatype Company = Company(id: Option<Id>, name: string, budget: int, employeeIds: set<Id>)

  /** A `Company` entity object as the persistence context holds it; its
      setters change it in place. */
  class CompanyEntity {
    var id: Option<Id>
    var name: string
    var budget: int
    var employeeIds: set<Id>

    /** The entity's current field values. */
    function Value(): Company
      reads this
    {
      Company(id, name, budget, employeeIds)
    }

    constructor (c: Company)
      ensures Value() == c
    {
      id, name, budget, employeeIds := c.id, c.name, c.budget, c.employeeIds;
    }
  }

  /** The body of a create or update request; `employeeIds` may be `null`. */
  datatype CompanyRequest = CompanyRequest(name: string, budget: int, employeeIds: Option<set<Id>>)

  /** A user as the company service reads it from `/api/users/batch`. */
  datatype UserResponse = UserResponse(id: Option<Id>, firstName: string, lastName: string, phoneNumber: string)

  /** The response `CompanyMapper.toResponse` builds: the company's own fields
      and the employees found for it. */
  datatype CompanyView = CompanyView(id: Option<Id>, name: string, budget: int, employees: seq<UserResponse>)

  /** The `CompanyResponse` record: the company's own fields, the raw employee
      data (a `null` list is `None`, a `null` element `None`), and the reason
      the employee data could not be loaded. */
  datatype CompanyResponse = CompanyResponse(id: Option<Id>, name: string, budget: int,
                                             employees: Option<seq<Option<RawMap>>>,
                                             employeesLoadError: Option<string>)

  function FromEntity(company: Company, employees: Option<seq<Option<RawMap>>>): (r: CompanyResponse)
    ensures r.id == company.id && r.name == company.name && r.budget == company.budget
    ensures r.employees == employees && r.employeesLoadError.None?
  {
    CompanyResponse(company.id, company.name, company.budget, employees, None)
  }

  /** `CompanyRequest.toEntity`: a company with no id yet, holding the
      requested employees or none. */
  function RequestToEntity(request: CompanyRequest): (c: Company)
    ensures c.id.None? && c.name == request.name && c.budget == request.budget
    ensures request.employeeIds.None? ==> c.employeeIds == {}
    ensures request.employeeIds.Some? ==> c.employeeIds == request.employeeIds.value
  {
    Company(None, request.name, request.budget,
            if request.employeeIds.Some? then request.employeeIds.value else {})
  }

  /** Every employee id of every company in the list. */
  function AllEmployeeIds(companies: seq<Company>): (ids: set<Id>)
    ensures forall i :: 0 <= i < |companies| ==> companies[i].employeeIds <= ids
    ensures forall x :: x in ids ==> exists i :: 0 <= i < |companies| && x in companies[i].employeeIds
  {
    if companies == [] then {}
    else companies[0].employeeIds + AllEmployeeIds(companies[1..])
  }
}
