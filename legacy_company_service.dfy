/** The older `CompanyService`: the same repository as `CompanyServiceImpl`,
    no transactions and no events. It reads employees one at a time as raw
    maps through `getUserRawData` and puts placeholders where a read fails or
    finds nothing. */
module LegacyCompanyService {
  import opened Common
  import opened Peer
  import opened CompanyDto
  import opened CompanyErrors
  import CompanyServiceImpl

  const NAME_EXISTS := IllegalArgumentException("Company name already exists")
  const COMPANY_NOT_FOUND := EntityNotFoundException("Company not found")

  function CompanyNotFoundWithId(id: Id): Exception
  {
    EntityNotFoundException("Company not found with id: " + IdText(id))
  }

  /** What `findById` puts in place of an employee it failed to read. */
  function LoadFailure(employeeId: Id): RawMap
  {
    map["id" := IntValue(employeeId), "error" := TextValue("Failed to load user data")]
  }

  /** What the enrichment puts in place of an employee it has no data for. */
  const NOT_AVAILABLE: RawMap := map["error" := TextValue("Employee data not available")]

  /** One entry of `findById`'s employee list; a `null` reply is added as is. */
  function Entry(employeeId: Id, reply: Reply<RawMap>): (e: Option<RawMap>)
    ensures reply.Ok? ==> e == Some(reply.body)
    ensures reply.NullBody? ==> e.None?
    ensures reply.Raised? ==> e == Some(LoadFailure(employeeId))
  {
    match reply
    case Ok(m) => Some(m)
    case NullBody => None
    case Raised(_) => Some(LoadFailure(employeeId))
  }

  /** A reply `fetchEmployeesData` keeps: a map carrying an `"id"`. */
  predicate Kept(reply: Reply<RawMap>)
  {
    reply.Ok? && "id" in reply.body
  }

  /** `fetchEmployeesData`: the kept replies, or nothing at all once any read
      fails. */
  function EmployeesData(ids: set<Id>, rawData: Id -> Reply<RawMap>): (m: map<Id, RawMap>)
    ensures (exists x :: x in ids && rawData(x).Raised?) ==> m == map[]
    ensures (forall x :: x in ids ==> !rawData(x).Raised?) ==>
              forall x :: x in m <==> x in ids && Kept(rawData(x))
    ensures forall x :: x in m ==> x in ids && rawData(x) == Ok(m[x]) && "id" in m[x]
  {
    if exists x :: x in ids && rawData(x).Raised? then map[]
    else map x | x in ids && Kept(rawData(x)) :: rawData(x).body
  }

  /** The employee data of one company as `enrichCompaniesWithEmployees` lists
      it: one entry per employee, a placeholder where `data` has none. */
  function EmployeeList(ids: set<Id>, data: map<Id, RawMap>): (r: seq<Option<RawMap>>)
    ensures |r| == |ids|
    ensures forall i :: 0 <= i < |r| ==>
              var x := Elements(ids)[i];
              r[i] == Some(if x in data then data[x] else NOT_AVAILABLE)
  {
    var order := Elements(ids);
    seq(|order|, i requires 0 <= i < |order| => Some(if order[i] in data then data[order[i]] else NOT_AVAILABLE))
  }

  function EnrichCompaniesWithEmployees(companies: seq<Company>, data: map<Id, RawMap>): (r: seq<CompanyResponse>)
    ensures |r| == |companies|
    ensures forall i :: 0 <= i < |r| ==>
              && r[i].id == companies[i].id && r[i].name == companies[i].name
              && r[i].budget == companies[i].budget && r[i].employeesLoadError.None?
              && r[i].employees == Some(EmployeeList(companies[i].employeeIds, data))
    ensures forall i :: 0 <= i < |r| && companies[i].employeeIds == {} ==> r[i].employees == Some([])
  {
    seq(|companies|, i requires 0 <= i < |companies| =>
      if companies[i].employeeIds == {} then FromEntity(companies[i], Some([]))
      else FromEntity(companies[i], Some(EmployeeList(companies[i].employeeIds, data))))
  }

  /** The map `getCompanyRawData` returns for the company stored under `id`. */
  function RawData(id: Id, company: Company): (m: RawMap)
    ensures m.Keys == {"id", "name", "budget"}
    ensures m["id"] == IntValue(id) && m["name"] == TextValue(company.name) && m["budget"] == IntValue(company.budget)
  {
    map["id" := IntValue(id), "name" := TextValue(company.name), "budget" := IntValue(company.budget)]
  }

  /** A read of every id in `order` that met no failure and kept exactly the
      kept replies is what `EmployeesData` describes. */
  lemma EmployeesDataOfCompleteRead(ids: set<Id>, order: seq<Id>, m: map<Id, RawMap>, rawData: Id -> Reply<RawMap>)
    requires forall x :: x in order <==> x in ids
    requires forall j :: 0 <= j < |order| ==> !rawData(order[j]).Raised?
    requires forall j :: 0 <= j < |order| && Kept(rawData(order[j])) ==> order[j] in m
    requires forall x :: x in m ==> x in ids && Kept(rawData(x)) && m[x] == rawData(x).body
    ensures m == EmployeesData(ids, rawData)
  {
    forall x | x in ids ensures !rawData(x).Raised? && (Kept(rawData(x)) ==> x in m) {
      assert x in order;
      var j :| 0 <= j < |order| && order[j] == x;
    }
    assert !exists x :: x in ids && rawData(x).Raised?;
    var spec := map x | x in ids && Kept(rawData(x)) :: rawData(x).body;
    assert spec == EmployeesData(ids, rawData);
    assert forall x :: x in m <==> x in spec;
    assert forall x :: x in m ==> m[x] == spec[x];
  }

  /** One failed read empties the whole result. */
  lemma EmployeesDataOfFailedRead(ids: set<Id>, x: Id, rawData: Id -> Reply<RawMap>)
    requires x in ids && rawData(x).Raised?
    ensures EmployeesData(ids, rawData) == map[]
  {
  }

  /** The companies stored under `order`, in that order. */
  function At(companies: CompanyServiceImpl.Store, order: seq<Id>): (r: seq<Company>)
    requires forall i :: 0 <= i < |order| ==> order[i] in companies
    ensures |r| == |order|
    ensures forall i :: 0 <= i < |order| ==> r[i] == companies[order[i]]
  {
    if order == [] then [] else [companies[order[0]]] + At(companies, order[1..])
  }

  /** The companies in the store's order. */
  function InOrder(companies: CompanyServiceImpl.Store): (r: seq<Company>)
    ensures |r| == |companies|
    ensures forall i :: 0 <= i < |r| ==> r[i] == companies[KeysInOrder(companies)[i]]
  {
    At(companies, KeysInOrder(companies))
  }

  class LegacyCompanyService {
    var companies: CompanyServiceImpl.Store
    var nextId: Id

    ghost predicate Valid()
      reads this
    {
      CompanyServiceImpl.StoreInvariant(companies, nextId)
    }

    constructor ()
      ensures Valid() && companies == map[]
    {
      companies, nextId := map[], 1;
    }

    /** `findById`: one entry per employee, in order; a failed read becomes a
        placeholder and never fails the call. */
    method FindById(id: Id, rawData: Id -> Reply<RawMap>) returns (r: Result<CompanyResponse, Exception>)
      ensures id !in companies ==> r == Failure(CompanyNotFoundWithId(id))
      ensures id in companies ==>
                && r.Success?
                && r.value.id == companies[id].id && r.value.name == companies[id].name
                && r.value.budget == companies[id].budget
                && r.value.employees.Some? && r.value.employeesLoadError.None?
                && |r.value.employees.value| == |companies[id].employeeIds|
                && forall i :: 0 <= i < |companies[id].employeeIds| ==>
                     var x := Elements(companies[id].employeeIds)[i];
                     r.value.employees.value[i] == Entry(x, rawData(x))
    {
      if id !in companies {
        return Failure(CompanyNotFoundWithId(id));
      }
      var company := companies[id];
      var employees: seq<Option<RawMap>> := [];
      if company.employeeIds != {} {
        var order := Elements(company.employeeIds);
        for i := 0 to |order|
          invariant |employees| == i
          invariant forall j :: 0 <= j < i ==> employees[j] == Entry(order[j], rawData(order[j]))
        {
          var reply := rawData(order[i]);
          match reply {
            case Ok(data) => employees := employees + [Some(data)];
            case NullBody => employees := employees + [None];
            case Raised(_) => employees := employees + [Some(LoadFailure(order[i]))];
          }
        }
      }
      r := Success(FromEntity(company, Some(employees)));
    }

    method CreateCompany(request: CompanyRequest) returns (r: Result<CompanyResponse, Exception>)
      requires Valid()
      modifies this
      ensures Valid()
      ensures CompanyServiceImpl.NameTaken(old(companies), request.name) ==>
                r == Failure(NAME_EXISTS) && companies == old(companies) && nextId == old(nextId)
      ensures !CompanyServiceImpl.NameTaken(old(companies), request.name) ==>
                && companies == old(companies)[old(nextId) := RequestToEntity(request).(id := Some(old(nextId)))]
                && nextId == old(nextId) + 1
                && r == Success(FromEntity(companies[old(nextId)], None))
    {
      if CompanyServiceImpl.NameTaken(companies, request.name) {
        return Failure(NAME_EXISTS);
      }
      assert nextId !in companies;
      assert forall k :: k in companies ==> companies[k].name != request.name;
      var company := RequestToEntity(request).(id := Some(nextId));
      companies, nextId := companies[nextId := company], nextId + 1;
      r := Success(FromEntity(company, None));
    }

    /** `updateCompany`: a conflict only when the name changes to one that is
        taken; then name, budget and employees are the request's. */
    method UpdateCompany(id: Id, request: CompanyRequest) returns (r: Result<CompanyResponse, Exception>)
      requires Valid()
      modifies this
      ensures Valid()
      ensures nextId == old(nextId)
      ensures id !in old(companies) ==> r == Failure(COMPANY_NOT_FOUND) && companies == old(companies)
      ensures id in old(companies) ==>
                (r == Failure(NAME_EXISTS) <==>
                 old(companies)[id].name != request.name && CompanyServiceImpl.NameTaken(old(companies), request.name))
      ensures id in old(companies) &&
              !(old(companies)[id].name != request.name && CompanyServiceImpl.NameTaken(old(companies), request.name)) ==>
                r.Success?
      ensures r.Failure? ==> companies == old(companies)
      ensures r.Success? ==>
                && id in old(companies)
                && companies == old(companies)[id := old(companies)[id].(
                                  name := request.name, budget := request.budget,
                                  employeeIds := CompanyServiceImpl.Requested(request))]
                && r.value == FromEntity(companies[id], None)
    {
      if id !in companies {
        return Failure(COMPANY_NOT_FOUND);
      }
      var company := companies[id];
      if company.name != request.name && CompanyServiceImpl.NameTaken(companies, request.name) {
        return Failure(NAME_EXISTS);
      }
      if company.name != request.name {
        assert forall k :: k in companies ==> companies[k].name != request.name;
      }
      company := company.(name := request.name);
      company := company.(budget := request.budget);
      company := company.(employeeIds := if request.employeeIds.Some? then request.employeeIds.value else {});
      companies := companies[id := company];
      r := Success(FromEntity(company, None));
    }

    method DeleteCompany(id: Id) returns (r: Result<(), Exception>)
      requires Valid()
      modifies this
      ensures Valid()
      ensures nextId == old(nextId)
      ensures id !in old(companies) ==> r == Failure(COMPANY_NOT_FOUND) && companies == old(companies)
      ensures id in old(companies) ==> r == Success(()) && companies == old(companies) - {id}
    {
      if id !in companies {
        return Failure(COMPANY_NOT_FOUND);
      }
      companies := companies - {id};
      r := Success(());
    }

    function GetCompanyRawData(id: Id): (r: Result<RawMap, Exception>)
      reads this
      ensures id !in companies ==> r == Failure(COMPANY_NOT_FOUND)
      ensures id in companies ==> r.Success? && r.value.Keys == {"id", "name", "budget"}
      ensures r.Success? ==> r.value == RawData(id, companies[id])
    {
      if id !in companies then Failure(COMPANY_NOT_FOUND) else Success(RawData(id, companies[id]))
    }

    /** The loop of `fetchEmployeesData`: the first failing read ends it
        with an empty result. */
    method FetchEmployeesData(ids: set<Id>, rawData: Id -> Reply<RawMap>) returns (m: map<Id, RawMap>)
      ensures m == EmployeesData(ids, rawData)
    {
      if ids == {} {
        return map[];
      }
      var order := Elements(ids);
      var failed;
      failed, m := ReadEach(order, rawData);
      if failed {
        var j :| 0 <= j < |order| && rawData(order[j]).Raised?;
        EmployeesDataOfFailedRead(ids, order[j], rawData);
      } else {
        EmployeesDataOfCompleteRead(ids, order, m, rawData);
      }
    }

    /** The loop of `fetchEmployeesData`: reads each id in turn, keeps the
        replies that carry an id, and gives up with nothing at the first
        failed read. */
    method ReadEach(order: seq<Id>, rawData: Id -> Reply<RawMap>) returns (failed: bool, m: map<Id, RawMap>)
      ensures failed <==> exists j :: 0 <= j < |order| && rawData(order[j]).Raised?
      ensures failed ==> m == map[]
      ensures !failed ==> forall j :: 0 <= j < |order| && Kept(rawData(order[j])) ==> order[j] in m
      ensures forall x :: x in m ==> x in order && Kept(rawData(x)) && m[x] == rawData(x).body
    {
      m := map[];
      for i := 0 to |order|
        invariant forall j :: 0 <= j < i ==> !rawData(order[j]).Raised?
        invariant forall j :: 0 <= j < i && Kept(rawData(order[j])) ==> order[j] in m
        invariant forall x :: x in m ==> x in order && Kept(rawData(x)) && m[x] == rawData(x).body
      {
        var reply := rawData(order[i]);
        if reply.Raised? {
          return true, map[];
        }
        if reply.Ok? && "id" in reply.body {
          m := m[order[i] := reply.body];
        }
      }
      failed := false;
    }

    /** `getAllCompanies`: every company, in the store's order, enriched with
        the employee data of all of them read together. */
    method GetAllCompanies(rawData: Id -> Reply<RawMap>) returns (r: seq<CompanyResponse>)
      ensures r == EnrichCompaniesWithEmployees(InOrder(companies),
                                                EmployeesData(AllEmployeeIds(InOrder(companies)), rawData))
    {
      var all := InOrder(companies);
      var data := FetchEmployeesData(AllEmployeeIds(all), rawData);
      r := EnrichCompaniesWithEmployees(all, data);
    }
  }
}
