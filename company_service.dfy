/** `CompanyServiceImpl`: the company side of the membership bookkeeping.

    As on the user side, every mutating operation is a transaction that
    either fails, leaving the store as it was and delivering nothing, or
    commits and hands its published events to the after-commit listener; calls
    to the user service are not undone by a rollback. Each operation is a pure
    step function over the store and the user service's replies, and a method
    of `CompanyService` proved to follow it. */
module CompanyServiceImpl {
  import opened Common
  import opened Peer
  import opened CompanyDto
  import opened CompanyErrors
  import CompanyMapper

  /** A call to the user service's Feign client. */
  datatype UserCall =
    | ExistsById(userId: Id)
    | GetUsersBatch(ids: set<Id>)
    | AddCompanyToUser(companyId: Id, employeeId: Id)

  /** Published by `createCompany`, delivered after its commit. */
  datatype CompanyCreatedEvent = CompanyCreatedEvent(companyId: Id, employeeIds: set<Id>)

  /** The user service as the Feign client sees it: the reply to each call. */
  datatype UserPeer = UserPeer(existsById: Id -> Reply<bool>,
                               getUsersBatch: set<Id> -> Reply<map<Id, UserResponse>>,
                               addCompanyToUser: (Id, Id) -> Ack)

  type Store = map<Id, Company>

  /** Every stored company carries its key as id, and keys are below the next
      id the store hands out. */
  predicate IdsMatchKeys(companies: Store, nextId: Id)
  {
    forall k :: k in companies ==> companies[k].id == Some(k) && k < nextId
  }

  /** No two stored companies share a name. */
  predicate NamesUnique(companies: Store)
  {
    forall a, b :: a in companies && b in companies && companies[a].name == companies[b].name ==> a == b
  }

  predicate StoreInvariant(companies: Store, nextId: Id)
  {
    IdsMatchKeys(companies, nextId) && NamesUnique(companies)
  }

  /** `existsByName`. */
  predicate NameTaken(companies: Store, name: string)
  {
    exists k :: k in companies && companies[k].name == name
  }

  // ------------------------------------------------------- user existence

  /** `checkUserExists`: a `null` reply and a 404 both mean "no such user";
      any other fault is rethrown. */
  function CheckUserExists(reply: Reply<bool>): (r: Result<bool, Exception>)
    ensures r == Success(true) <==> reply == Ok(true)
    ensures r.Failure? <==> reply.Raised? && !reply.fault.IsNotFound()
    ensures r.Failure? ==> r.error == FeignException(reply.fault)
  {
    match reply
    case Ok(b) => Success(b)
    case NullBody => Success(false)
    case Raised(f) => if f.IsNotFound() then Success(false) else Failure(FeignException(f))
  }

  /** The user service confirms that the user exists. */
  predicate Confirmed(peer: UserPeer, userId: Id)
  {
    peer.existsById(userId) == Ok(true)
  }

  function ExistsCalls(ids: seq<Id>): (r: seq<UserCall>)
    ensures |r| == |ids|
    ensures forall i :: 0 <= i < |ids| ==> r[i] == ExistsById(ids[i])
  {
    seq(|ids|, i requires 0 <= i < |ids| => ExistsById(ids[i]))
  }

  lemma ExistsCallsSplit(ids: seq<Id>, i: nat)
    requires i <= |ids|
    ensures ExistsCalls(ids) == ExistsCalls(ids[..i]) + ExistsCalls(ids[i..])
  {
  }

  /** What the check loop throws for an id the user service does not
      confirm: the user service's own fault, or `UserNotFoundException`. */
  function Rejection(peer: UserPeer, userId: Id): Exception
  {
    var r := CheckUserExists(peer.existsById(userId));
    if r.Failure? then r.error else UserNotFoundException(userId)
  }

  /** The check loop of `createCompany`: each id in turn, stopping at the
      first one the user service does not confirm. */
  function CheckEmployees(ids: seq<Id>, peer: UserPeer): (r: (Result<(), Exception>, seq<UserCall>))
    ensures r.0.Success? <==> forall i :: 0 <= i < |ids| ==> Confirmed(peer, ids[i])
    ensures r.0.Success? ==> r.1 == ExistsCalls(ids)
    ensures r.0.Failure? ==>
              && 0 < |r.1| <= |ids|
              && r.1 == ExistsCalls(ids[..|r.1|])
              && (forall i :: 0 <= i < |r.1| - 1 ==> Confirmed(peer, ids[i]))
              && !Confirmed(peer, ids[|r.1| - 1])
              && r.0.error == Rejection(peer, ids[|r.1| - 1])
    decreases |ids|
  {
    if ids == [] then (Success(()), [])
    else
      var here := [ExistsById(ids[0])];
      assert here == ExistsCalls(ids[..1]);
      match CheckUserExists(peer.existsById(ids[0]))
      case Failure(e) => (Failure(e), here)
      case Success(present) =>
        if !present then (Failure(UserNotFoundException(ids[0])), here)
        else
          var rest := CheckEmployees(ids[1..], peer);
          ExistsCallsSplit(ids, 1);
          if rest.0.Failure? then
            RejectedLater(ids, peer, rest.1);
            (rest.0, here + rest.1)
          else (rest.0, here + rest.1)
  }

  /** A rejection further down the list, behind a confirmed first id. */
  lemma RejectedLater(ids: seq<Id>, peer: UserPeer, later: seq<UserCall>)
    requires 0 < |ids| && Confirmed(peer, ids[0])
    requires 0 < |later| <= |ids| - 1 && later == ExistsCalls(ids[1..][..|later|])
    requires forall i :: 0 <= i < |later| - 1 ==> Confirmed(peer, ids[1..][i])
    ensures [ExistsById(ids[0])] + later == ExistsCalls(ids[..|later| + 1])
    ensures forall i :: 0 <= i < |later| ==> Confirmed(peer, ids[i])
  {
    var calls := [ExistsById(ids[0])] + later;
    var expected := ExistsCalls(ids[..|later| + 1]);
    forall k | 0 <= k < |calls| ensures calls[k] == expected[k] {
      if 0 < k { assert later[k - 1] == ExistsById(ids[1..][k - 1]); }
    }
    assert calls == expected;
    forall i | 0 < i < |later| ensures Confirmed(peer, ids[i]) {
      assert ids[i] == ids[1..][i - 1];
    }
  }

  /** The check stops at the first id the user service does not confirm, and
      makes exactly the calls up to and including that one. */
  lemma CheckEmployeesStopsAt(ids: seq<Id>, i: nat, peer: UserPeer)
    requires i < |ids|
    requires forall j :: 0 <= j < i ==> Confirmed(peer, ids[j])
    requires !Confirmed(peer, ids[i])
    ensures CheckEmployees(ids, peer) == (Failure(Rejection(peer, ids[i])), ExistsCalls(ids[..i + 1]))
  {
    var r := CheckEmployees(ids, peer);
    if |r.1| - 1 != i {
      assert false;
    }
  }

  // ------------------------------------------------------- employee data

  /** The call `fetchEmployeesData` makes: none for an empty set. */
  function BatchCalls(ids: set<Id>): seq<UserCall>
  {
    if ids == {} then [] else [GetUsersBatch(ids)]
  }

  /** `fetchEmployeesData`: the batch the user service returns, an empty map
      when it fails, and `None` for a `null` body. */
  function FetchEmployeesData(ids: set<Id>, peer: UserPeer): (r: Option<map<Id, UserResponse>>)
    ensures ids == {} ==> r == Some(map[])
    ensures r.None? <==> ids != {} && peer.getUsersBatch(ids).NullBody?
    ensures ids != {} && peer.getUsersBatch(ids).Raised? ==> r == Some(map[])
    ensures ids != {} && peer.getUsersBatch(ids).Ok? ==> r == Some(peer.getUsersBatch(ids).body)
  {
    if ids == {} then Some(map[])
    else
      match peer.getUsersBatch(ids)
      case Ok(m) => Some(m)
      case NullBody => None
      case Raised(_) => Some(map[])
  }

  /** `map(employeesMap::get).filter(Objects::nonNull)`: the users found for
      the ids, in the ids' order. */
  function Found(ids: seq<Id>, m: map<Id, UserResponse>): (r: seq<UserResponse>)
    ensures |r| <= |ids|
    ensures (forall i :: 0 <= i < |ids| ==> ids[i] in m) ==> |r| == |ids|
    ensures (forall i :: 0 <= i < |ids| ==> ids[i] !in m) ==> r == []
    ensures forall u :: u in r ==> exists i :: 0 <= i < |ids| && ids[i] in m && m[ids[i]] == u
    ensures forall i :: 0 <= i < |ids| && ids[i] in m ==> m[ids[i]] in r
  {
    if ids == [] then []
    else
      var rest := Found(ids[1..], m);
      assert forall i :: 1 <= i < |ids| && ids[i] in m ==> m[ids[i]] in rest by {
        forall i | 1 <= i < |ids| && ids[i] in m ensures m[ids[i]] in rest {
          assert ids[i] == ids[1..][i - 1];
        }
      }
      assert forall u :: u in rest ==> exists i :: 0 <= i < |ids| && ids[i] in m && m[ids[i]] == u by {
        forall u | u in rest ensures exists i :: 0 <= i < |ids| && ids[i] in m && m[ids[i]] == u {
          var k :| 0 <= k < |ids| - 1 && ids[1..][k] in m && m[ids[1..][k]] == u;
          assert ids[k + 1] == ids[1..][k];
        }
      }
      if ids[0] in m then [m[ids[0]]] + rest else rest
  }

  /** Every listed employee is the batch's entry for one of the ids. */
  predicate FromBatch(employees: seq<UserResponse>, ids: set<Id>, m: map<Id, UserResponse>)
  {
    forall u :: u in employees ==> exists x :: x in ids && x in m && m[x] == u
  }

  /** The listed employees are exactly the batch's entries for the ids: each
      comes from the batch, each id the batch holds is listed, and there are
      as many as such ids. */
  predicate ListsFound(employees: seq<UserResponse>, ids: set<Id>, m: map<Id, UserResponse>)
  {
    && FromBatch(employees, ids, m)
    && (forall x :: x in ids && x in m ==> m[x] in employees)
    && |employees| == |ids * m.Keys|
  }

  /** Taking one id out of a set takes it out of the ids the batch holds. */
  lemma FoundIdsSplit(ids: set<Id>, least: Id, m: map<Id, UserResponse>)
    requires least in ids
    ensures |ids * m.Keys| == |(ids - {least}) * m.Keys| + (if least in m then 1 else 0)
  {
    if least in m {
      assert ids * m.Keys == (ids - {least}) * m.Keys + {least};
    } else {
      assert ids * m.Keys == (ids - {least}) * m.Keys;
    }
  }

  /** Walking a set in ascending order, `Found` lists one user per id of the
      set that the batch holds. */
  lemma {:induction false} FoundCount(ids: set<Id>, m: map<Id, UserResponse>)
    ensures |Found(Elements(ids), m)| == |ids * m.Keys|
    decreases |ids|
  {
    if ids != {} {
      var order := Elements(ids);
      var least := Min(ids);
      FoundCount(ids - {least}, m);
      FoundIdsSplit(ids, least, m);
      assert order[0] == least && order[1..] == Elements(ids - {least});
      assert |Found(order, m)| == (if least in m then 1 else 0) + |Found(order[1..], m)|;
    }
  }

  /** The users `Found` lists for a set walked in order come from the batch. */
  function FoundIn(ids: set<Id>, m: map<Id, UserResponse>): (r: seq<UserResponse>)
    ensures |r| <= |ids|
    ensures (forall x :: x in ids ==> x in m) ==> |r| == |ids|
    ensures m == map[] ==> r == []
    ensures ListsFound(r, ids, m)
  {
    var order := Elements(ids);
    var r := Found(order, m);
    FoundCount(ids, m);
    assert (forall x :: x in ids ==> x in m) ==> ids * m.Keys == ids;
    assert forall x :: x in ids && x in m ==> m[x] in r by {
      forall x | x in ids && x in m ensures m[x] in r {
        var i :| 0 <= i < |order| && order[i] == x;
      }
    }
    assert FromBatch(r, ids, m) by {
      forall u | u in r ensures exists x :: x in ids && x in m && m[x] == u {
        var i :| 0 <= i < |order| && order[i] in m && m[order[i]] == u;
        assert order[i] in ids;
      }
    }
    r
  }

  /** `fetchEmployeesForCompany`. A `null` batch body makes the method
      reference `employeesMap::get` throw. */
  function FetchEmployeesForCompany(ids: set<Id>, peer: UserPeer): (r: Result<seq<UserResponse>, Exception>)
    ensures r.Failure? <==> ids != {} && peer.getUsersBatch(ids).NullBody?
    ensures r.Failure? ==> r.error == NullPointerException
    ensures r.Success? ==> |r.value| <= |ids| && ListsFound(r.value, ids, FetchEmployeesData(ids, peer).value)
    ensures r.Success? && (forall x :: x in ids ==> x in FetchEmployeesData(ids, peer).value) ==>
              |r.value| == |ids|
    ensures ids != {} && peer.getUsersBatch(ids).Raised? ==> r == Success([])
  {
    match FetchEmployeesData(ids, peer)
    case None => Failure(NullPointerException)
    case Some(m) => Success(FoundIn(ids, m))
  }

  /** One enriched company: its own fields and the employees found in `m`. */
  function Enriched(c: Company, m: map<Id, UserResponse>): (v: CompanyView)
    ensures v.id == c.id && v.name == c.name && v.budget == c.budget
    ensures |v.employees| <= |c.employeeIds| && ListsFound(v.employees, c.employeeIds, m)
    ensures m == map[] ==> v.employees == []
  {
    CompanyView(c.id, c.name, c.budget, FoundIn(c.employeeIds, m))
  }

  function EnrichCompaniesWithEmployees(companies: seq<Company>, peer: UserPeer)
    : (r: Result<seq<CompanyView>, Exception>)
    ensures companies == [] ==> r == Success([])
    ensures r.Failure? <==>
              companies != [] && AllEmployeeIds(companies) != {} &&
              peer.getUsersBatch(AllEmployeeIds(companies)).NullBody?
    ensures r.Success? ==>
              && |r.value| == |companies|
              && forall i :: 0 <= i < |companies| ==>
                   && r.value[i].id == companies[i].id
                   && r.value[i].name == companies[i].name
                   && r.value[i].budget == companies[i].budget
                   && |r.value[i].employees| <= |companies[i].employeeIds|
                   && ListsFound(r.value[i].employees, companies[i].employeeIds,
                                FetchEmployeesData(AllEmployeeIds(companies), peer).value)
    ensures r.Success? && AllEmployeeIds(companies) != {} && peer.getUsersBatch(AllEmployeeIds(companies)).Raised? ==>
              forall i :: 0 <= i < |r.value| ==> r.value[i].employees == []
  {
    if companies == [] then Success([])
    else
      match FetchEmployeesData(AllEmployeeIds(companies), peer)
      case None => Failure(NullPointerException)
      case Some(m) => Success(EnrichAll(companies, m))
  }

  /** Every company enriched from the same batch, in order. */
  function EnrichAll(companies: seq<Company>, m: map<Id, UserResponse>): (r: seq<CompanyView>)
    ensures |r| == |companies|
    ensures forall i :: 0 <= i < |companies| ==>
              && r[i].id == companies[i].id
              && r[i].name == companies[i].name
              && r[i].budget == companies[i].budget
              && |r[i].employees| <= |companies[i].employeeIds|
              && ListsFound(r[i].employees, companies[i].employeeIds, m)
    ensures m == map[] ==> forall i :: 0 <= i < |r| ==> r[i].employees == []
  {
    var r := seq(|companies|, i requires 0 <= i < |companies| => Enriched(companies[i], m));
    assert forall i :: 0 <= i < |companies| ==> r[i] == Enriched(companies[i], m);
    r
  }

  // ------------------------------------------------------------ the operations

  /** The outcome of one transaction: what it returns or throws, the store
      after commit or rollback, the calls it made, and the events delivered
      after commit. */
  datatype Step<T> = Step(result: Result<T, Exception>, companies: Store, nextId: Id,
                          calls: seq<UserCall>, events: seq<CompanyCreatedEvent>)

  function RolledBack<T>(companies: Store, nextId: Id, e: Exception, calls: seq<UserCall>): Step<T>
  {
    Step(Failure(e), companies, nextId, calls, [])
  }

  /** The requested employees, `null` counting as none. */
  function Requested(request: CompanyRequest): set<Id>
  {
    CompanyMapper.ExtractEmployeeIds(request)
  }

  function CreateCompanyStep(companies: Store, nextId: Id, request: CompanyRequest, peer: UserPeer)
    : (s: Step<CompanyView>)
    ensures NameTaken(companies, request.name) ==>
              s.result == Failure(CompanyNameExistsException(request.name)) && s.calls == []
    ensures !NameTaken(companies, request.name) ==>
              var check := CheckEmployees(Elements(Requested(request)), peer);
              && (check.0.Failure? ==> s.result == Failure(check.0.error) && s.calls == check.1)
              && (check.0.Success? ==> s.calls == check.1 + BatchCalls(Requested(request)))
    ensures s.result.Success? <==>
              && !NameTaken(companies, request.name)
              && (forall x :: x in Requested(request) ==> Confirmed(peer, x))
              && !(Requested(request) != {} && peer.getUsersBatch(Requested(request)).NullBody?)
    ensures s.result.Failure? ==> s.companies == companies && s.nextId == nextId && s.events == []
    ensures s.result.Success? ==>
              && s.companies == companies[nextId := RequestToEntity(request).(id := Some(nextId))]
              && s.nextId == nextId + 1
              && s.result.value == CompanyView(Some(nextId), request.name, request.budget,
                                               FetchEmployeesForCompany(Requested(request), peer).value)
              && s.events == (if Requested(request) == {} then []
                              else [CompanyCreatedEvent(nextId, Requested(request))])
  {
    if NameTaken(companies, request.name) then
      RolledBack(companies, nextId, CompanyNameExistsException(request.name), [])
    else
      var company := CompanyMapper.ToEntity(Some(request)).value;
      var hasEmployees := request.employeeIds.Some? && request.employeeIds.value != {};
      var check := if hasEmployees then CheckEmployees(Elements(request.employeeIds.value), peer)
                   else (Success(()), []);
      if check.0.Failure? then RolledBack(companies, nextId, check.0.error, check.1)
      else
        var company := if hasEmployees then company.(employeeIds := request.employeeIds.value) else company;
        var events := if hasEmployees then [CompanyCreatedEvent(nextId, request.employeeIds.value)] else [];
        var saved := SaveCompanyStep(companies, nextId, company, events, peer);
        saved.(calls := check.1 + saved.calls)
  }

  /** The part of `createCompany` after the existence checks: the company is
      saved under the next id with the events pending, and the response needs
      the employees read back in one batch, whose `null` body rolls it all
      back. */
  function SaveCompanyStep(companies: Store, nextId: Id, company: Company, events: seq<CompanyCreatedEvent>,
                           peer: UserPeer): (s: Step<CompanyView>)
    ensures s.calls == BatchCalls(company.employeeIds)
    ensures s.result.Success? <==> !(company.employeeIds != {} && peer.getUsersBatch(company.employeeIds).NullBody?)
    ensures s.result.Failure? ==>
              s.result.error == NullPointerException && s.companies == companies && s.nextId == nextId && s.events == []
    ensures s.result.Success? ==>
              && s.companies == companies[nextId := company.(id := Some(nextId))]
              && s.nextId == nextId + 1 && s.events == events
              && s.result.value == CompanyView(Some(nextId), company.name, company.budget,
                                               FetchEmployeesForCompany(company.employeeIds, peer).value)
  {
    var saved := company.(id := Some(nextId));
    var employees := FetchEmployeesForCompany(saved.employeeIds, peer);
    var calls := BatchCalls(saved.employeeIds);
    if employees.Failure? then RolledBack(companies, nextId, employees.error, calls)
    else
      Step(Success(CompanyMapper.ToResponseWith(Some(saved), Some(employees.value)).value),
           companies[nextId := saved], nextId + 1, calls, events)
  }

  function UpdateCompanyStep(companies: Store, nextId: Id, id: Id, request: CompanyRequest, peer: UserPeer)
    : (s: Step<CompanyView>)
    ensures id !in companies ==> s.result == Failure(CompanyNotFoundException(id)) && s.calls == []
    ensures id in companies ==>
              (s.result == Failure(CompanyNameExistsException(request.name)) <==>
               companies[id].name != request.name && NameTaken(companies, request.name))
    ensures id in companies && !(companies[id].name != request.name && NameTaken(companies, request.name)) ==>
              && (s.result.Success? <==> !(Requested(request) != {} && peer.getUsersBatch(Requested(request)).NullBody?))
              && (s.result.Failure? ==> s.result.error == NullPointerException)
    ensures s.result.Failure? ==> s.companies == companies
    ensures s.result.Success? ==>
              && id in companies
              && s.companies == companies[id := companies[id].(name := request.name, budget := request.budget,
                                                              employeeIds := Requested(request))]
              && s.calls == BatchCalls(Requested(request))
              && s.result.value == CompanyView(companies[id].id, request.name, request.budget,
                                               FetchEmployeesForCompany(Requested(request), peer).value)
    ensures s.nextId == nextId && s.events == []
  {
    if id !in companies then RolledBack(companies, nextId, CompanyNotFoundException(id), [])
    else
      var existing := companies[id];
      if existing.name != request.name && NameTaken(companies, request.name) then
        RolledBack(companies, nextId, CompanyNameExistsException(request.name), [])
      else
        var updated := CompanyMapper.UpdateEntity(Some(request), Some(existing)).value;
        var employees := FetchEmployeesForCompany(updated.employeeIds, peer);
        var calls := BatchCalls(updated.employeeIds);
        if employees.Failure? then RolledBack(companies, nextId, employees.error, calls)
        else
          Step(Success(CompanyMapper.ToResponseWith(Some(updated), Some(employees.value)).value),
               companies[id := updated], nextId, calls, [])
  }

  function DeleteCompanyStep(companies: Store, nextId: Id, id: Id): (s: Step<()>)
    ensures id !in companies ==> s.result == Failure(CompanyNotFoundException(id)) && s.companies == companies
    ensures id in companies ==> s.result.Success? && s.companies == companies - {id}
    ensures s.calls == [] && s.events == [] && s.nextId == nextId
  {
    if id !in companies then RolledBack(companies, nextId, CompanyNotFoundException(id), [])
    else Step(Success(()), companies - {id}, nextId, [], [])
  }

  function AddEmployeeToCompanyStep(companies: Store, nextId: Id, companyId: Id, employeeId: Id, peer: UserPeer)
    : (s: Step<()>)
    ensures companyId !in companies ==> s.result == Failure(CompanyNotFoundException(companyId)) && s.calls == []
    ensures companyId in companies && employeeId in companies[companyId].employeeIds ==>
              s.result == Failure(EmployeeAlreadyExistsException(employeeId, companyId)) && s.calls == []
    ensures companyId in companies && employeeId !in companies[companyId].employeeIds ==>
              && s.calls == [ExistsById(employeeId)]
              && (s.result.Success? <==> Confirmed(peer, employeeId))
              && (!Confirmed(peer, employeeId) ==> s.result == Failure(Rejection(peer, employeeId)))
    ensures s.result.Failure? ==> s.companies == companies
    ensures s.result.Success? ==>
              && companyId in companies
              && s.companies == companies[companyId := companies[companyId].(
                                            employeeIds := companies[companyId].employeeIds + {employeeId})]
    ensures s.nextId == nextId && s.events == []
  {
    if companyId !in companies then RolledBack(companies, nextId, CompanyNotFoundException(companyId), [])
    else
      var company := companies[companyId];
      if employeeId in company.employeeIds then
        RolledBack(companies, nextId, EmployeeAlreadyExistsException(employeeId, companyId), [])
      else
        var calls := [ExistsById(employeeId)];
        match CheckUserExists(peer.existsById(employeeId))
        case Failure(e) => RolledBack(companies, nextId, e, calls)
        case Success(present) =>
          if !present then RolledBack(companies, nextId, UserNotFoundException(employeeId), calls)
          else
            var company := company.(employeeIds := company.employeeIds + {employeeId});
            Step(Success(()), companies[companyId := company], nextId, calls, [])
  }

  function RemoveEmployeeFromCompanyStep(companies: Store, nextId: Id, companyId: Id, employeeId: Id)
    : (s: Step<()>)
    ensures companyId !in companies ==> s.result == Failure(CompanyNotFoundException(companyId))
    ensures companyId in companies ==> s.result.Success?
    ensures companyId in companies && employeeId !in companies[companyId].employeeIds ==> s.companies == companies
    ensures s.result.Failure? ==> s.companies == companies
    ensures s.result.Success? ==>
              && companyId in companies
              && s.companies == companies[companyId := companies[companyId].(
                                            employeeIds := companies[companyId].employeeIds - {employeeId})]
    ensures s.calls == [] && s.nextId == nextId && s.events == []
  {
    if companyId !in companies then RolledBack(companies, nextId, CompanyNotFoundException(companyId), [])
    else
      var company := companies[companyId];
      if employeeId !in company.employeeIds then
        assert company.employeeIds - {employeeId} == company.employeeIds;
        assert companies[companyId := company.(employeeIds := company.employeeIds - {employeeId})] == companies;
        Step(Success(()), companies, nextId, [], [])
      else
        var company := company.(employeeIds := company.employeeIds - {employeeId});
        Step(Success(()), companies[companyId := company], nextId, [], [])
  }

  /** `getCompanyById`, a read-only transaction. */
  function GetCompanyById(companies: Store, id: Id, peer: UserPeer)
    : (r: (Result<CompanyView, Exception>, seq<UserCall>))
    ensures id !in companies ==> r == (Failure(CompanyNotFoundException(id)), [])
    ensures id in companies ==> r.1 == BatchCalls(companies[id].employeeIds)
    ensures id in companies ==> (r.0.Success? <==> Loads(peer, companies[id]))
    ensures id in companies && r.0.Failure? ==> r.0.error == NullPointerException
    ensures r.0.Success? ==>
              && id in companies
              && r.0.value == CompanyView(companies[id].id, companies[id].name, companies[id].budget,
                                          FetchEmployeesForCompany(companies[id].employeeIds, peer).value)
  {
    if id !in companies then (Failure(CompanyNotFoundException(id)), [])
    else
      var company := companies[id];
      var employees := FetchEmployeesForCompany(company.employeeIds, peer);
      var calls := BatchCalls(company.employeeIds);
      if employees.Failure? then (Failure(employees.error), calls)
      else (Success(CompanyMapper.ToResponseWith(Some(company), Some(employees.value)).value), calls)
  }

  /** The employees of the company load without an exception. */
  predicate Loads(peer: UserPeer, c: Company)
  {
    FetchEmployeesForCompany(c.employeeIds, peer).Success?
  }

  /** `getCompaniesByIds`: the stored companies among the ids, each with its
      employees, unless loading the employees of one of them throws. */
  function GetCompaniesByIds(companies: Store, ids: set<Id>, peer: UserPeer)
    : (r: Result<map<Id, CompanyView>, Exception>)
    ensures r.Success? <==> forall k :: k in ids && k in companies ==> Loads(peer, companies[k])
    ensures r.Failure? ==> r.error == NullPointerException
    ensures r.Success? ==> r.value.Keys == ids * companies.Keys
    ensures r.Success? ==> forall k :: k in r.value ==>
              && r.value[k] == CompanyView(companies[k].id, companies[k].name, companies[k].budget,
                                           FetchEmployeesForCompany(companies[k].employeeIds, peer).value)
  {
    if forall k :: k in ids && k in companies ==> Loads(peer, companies[k]) then
      Success(map k | k in ids && k in companies ::
                CompanyMapper.ToResponseWith(
                  Some(companies[k]), Some(FetchEmployeesForCompany(companies[k].employeeIds, peer).value)).value)
    else Failure(NullPointerException)
  }

  /** One `addCompanyToUser(companyId, id)` per id, in order. */
  function AddCompanyCalls(companyId: Id, ids: seq<Id>): (r: seq<UserCall>)
    ensures |r| == |ids|
    ensures forall i :: 0 <= i < |ids| ==> r[i] == AddCompanyToUser(companyId, ids[i])
  {
    if ids == [] then []
    else AddCompanyCalls(companyId, ids[..|ids| - 1]) + [AddCompanyToUser(companyId, ids[|ids| - 1])]
  }

  /** The calls the after-commit listener makes for one event: one
      `addCompanyToUser` per employee id. */
  function DeliveryCalls(event: CompanyCreatedEvent): (r: seq<UserCall>)
    ensures |r| == |event.employeeIds|
    ensures forall i :: 0 <= i < |r| ==>
              r[i] == AddCompanyToUser(event.companyId, Elements(event.employeeIds)[i])
  {
    AddCompanyCalls(event.companyId, Elements(event.employeeIds))
  }

  /** The listener calls the user service exactly once for every employee of
      the event, and for nobody else. */
  lemma DeliveryCallsEachEmployeeOnce(event: CompanyCreatedEvent)
    ensures forall x :: AddCompanyToUser(event.companyId, x) in DeliveryCalls(event) <==> x in event.employeeIds
    ensures forall i, j :: 0 <= i < j < |DeliveryCalls(event)| ==> DeliveryCalls(event)[i] != DeliveryCalls(event)[j]
    ensures forall c :: c in DeliveryCalls(event) ==> c.AddCompanyToUser? && c.companyId == event.companyId
  {
    var r := DeliveryCalls(event);
    var ids := Elements(event.employeeIds);
    ElementsAscending(event.employeeIds);
    forall x ensures AddCompanyToUser(event.companyId, x) in r <==> x in event.employeeIds {
      if x in event.employeeIds {
        var i :| 0 <= i < |ids| && ids[i] == x;
        assert r[i] == AddCompanyToUser(event.companyId, x);
      }
    }
  }

  // ------------------------------------------------------------ the invariant

  lemma CreateCompanyKeepsInvariant(companies: Store, nextId: Id, request: CompanyRequest, peer: UserPeer)
    requires StoreInvariant(companies, nextId)
    ensures var s := CreateCompanyStep(companies, nextId, request, peer); StoreInvariant(s.companies, s.nextId)
  {
    var s := CreateCompanyStep(companies, nextId, request, peer);
    if s.result.Success? {
      InsertKeepsInvariant(companies, nextId, RequestToEntity(request).(id := Some(nextId)));
    }
  }

  /** Saving a company with a fresh id and a free name keeps the invariant. */
  lemma InsertKeepsInvariant(companies: Store, nextId: Id, c: Company)
    requires StoreInvariant(companies, nextId)
    requires c.id == Some(nextId) && !NameTaken(companies, c.name)
    ensures StoreInvariant(companies[nextId := c], nextId + 1)
  {
    assert nextId !in companies;
    assert forall k :: k in companies ==> companies[k].name != c.name;
  }

  lemma UpdateCompanyKeepsInvariant(companies: Store, nextId: Id, id: Id, request: CompanyRequest, peer: UserPeer)
    requires StoreInvariant(companies, nextId)
    ensures var s := UpdateCompanyStep(companies, nextId, id, request, peer); StoreInvariant(s.companies, s.nextId)
  {
    var s := UpdateCompanyStep(companies, nextId, id, request, peer);
    if s.result.Success? {
      var updated := companies[id].(name := request.name, budget := request.budget, employeeIds := Requested(request));
      assert s.companies == companies[id := updated];
      if companies[id].name != request.name {
        assert forall k :: k in companies ==> companies[k].name != request.name;
      }
    }
  }

  lemma DeleteCompanyKeepsInvariant(companies: Store, nextId: Id, id: Id)
    requires StoreInvariant(companies, nextId)
    ensures var s := DeleteCompanyStep(companies, nextId, id); StoreInvariant(s.companies, s.nextId)
  {
  }

  lemma MembershipChangesKeepInvariant(companies: Store, nextId: Id, companyId: Id, employeeId: Id, peer: UserPeer)
    requires StoreInvariant(companies, nextId)
    ensures var s := AddEmployeeToCompanyStep(companies, nextId, companyId, employeeId, peer);
            StoreInvariant(s.companies, s.nextId)
    ensures var s := RemoveEmployeeFromCompanyStep(companies, nextId, companyId, employeeId);
            StoreInvariant(s.companies, s.nextId)
  {
    var s := AddEmployeeToCompanyStep(companies, nextId, companyId, employeeId, peer);
    assert forall k :: k in s.companies ==> s.companies[k].name == companies[k].name;
    var t := RemoveEmployeeFromCompanyStep(companies, nextId, companyId, employeeId);
    assert forall k :: k in t.companies ==> t.companies[k].name == companies[k].name;
  }

  // ------------------------------------------------------------ the service

  class CompanyService {
    var companies: Store
    var nextId: Id
    /** Every call made to the user service, in order. */
    ghost var calls: seq<UserCall>

    ghost predicate Valid()
      reads this
    {
      StoreInvariant(companies, nextId)
    }

    constructor ()
      ensures Valid() && companies == map[] && calls == []
    {
      companies, nextId := map[], 1;
      calls := [];
    }

    method CreateCompany(request: CompanyRequest, peer: UserPeer)
      returns (r: Result<CompanyView, Exception>, events: seq<CompanyCreatedEvent>)
      requires Valid()
      modifies this
      ensures Valid()
      ensures var s := CreateCompanyStep(old(companies), old(nextId), request, peer);
              r == s.result && companies == s.companies && nextId == s.nextId &&
              calls == old(calls) + s.calls && events == s.events
    {
      CreateCompanyKeepsInvariant(companies, nextId, request, peer);
      if NameTaken(companies, request.name) {
        return Failure(CompanyNameExistsException(request.name)), [];
      }
      r, events := CreateUnderFreeName(request, peer);
    }

    /** `createCompany` once the name is known to be free: the checks, then
        the save. */
    method CreateUnderFreeName(request: CompanyRequest, peer: UserPeer)
      returns (r: Result<CompanyView, Exception>, events: seq<CompanyCreatedEvent>)
      requires !NameTaken(companies, request.name)
      modifies this
      ensures var s := CreateCompanyStep(old(companies), old(nextId), request, peer);
              r == s.result && companies == s.companies && nextId == s.nextId &&
              calls == old(calls) + s.calls && events == s.events
    {
      var company := CompanyMapper.ToEntity(Some(request)).value;
      if request.employeeIds.Some? && request.employeeIds.value != {} {
        var checked := CheckEmployeesExist(Elements(request.employeeIds.value), peer);
        if checked.Failure? {
          return Failure(checked.error), [];
        }
        company := company.(employeeIds := request.employeeIds.value);
      }
      var published := if request.employeeIds.Some? && request.employeeIds.value != {}
                       then [CompanyCreatedEvent(nextId, request.employeeIds.value)] else [];
      r, events := SaveCompany(company, published, peer);
    }

    /** The save, the pending event and the response of `createCompany`. */
    method SaveCompany(company: Company, published: seq<CompanyCreatedEvent>, peer: UserPeer)
      returns (r: Result<CompanyView, Exception>, events: seq<CompanyCreatedEvent>)
      modifies this
      ensures var s := SaveCompanyStep(old(companies), old(nextId), company, published, peer);
              r == s.result && companies == s.companies && nextId == s.nextId &&
              calls == old(calls) + s.calls && events == s.events
    {
      // save: the store assigns the next id; the write is pending until commit
      var id := nextId;
      var saved := company.(id := Some(id));
      var pending := companies[id := saved];
      var employees := FetchEmployeesForCompany(saved.employeeIds, peer);
      calls := calls + BatchCalls(saved.employeeIds);
      if employees.Failure? {
        return Failure(employees.error), [];
      }
      companies, nextId := pending, id + 1;
      r := Success(CompanyMapper.ToResponseWith(Some(saved), Some(employees.value)).value);
      events := published;
    }

    /** The loop of `createCompany` over the requested ids. */
    method CheckEmployeesExist(ids: seq<Id>, peer: UserPeer) returns (r: Result<(), Exception>)
      modifies this
      ensures companies == old(companies) && nextId == old(nextId)
      ensures r == CheckEmployees(ids, peer).0 && calls == old(calls) + CheckEmployees(ids, peer).1
    {
      var i := 0;
      while i < |ids|
        invariant 0 <= i <= |ids|
        invariant companies == old(companies) && nextId == old(nextId)
        invariant calls == old(calls) + ExistsCalls(ids[..i])
        invariant forall j :: 0 <= j < i ==> Confirmed(peer, ids[j])
      {
        var present := CheckUserExists(peer.existsById(ids[i]));
        calls := calls + [ExistsById(ids[i])];
        assert ExistsCalls(ids[..i + 1]) == ExistsCalls(ids[..i]) + [ExistsById(ids[i])];
        if present.Failure? || !present.value {
          CheckEmployeesStopsAt(ids, i, peer);
          assert ids[..i + 1] == ids[..i] + [ids[i]];
          if present.Failure? {
            assert CheckEmployees(ids, peer).0 == Failure(present.error);
            return Failure(present.error);
          }
          return Failure(UserNotFoundException(ids[i]));
        }
        i := i + 1;
      }
      assert ids[..i] == ids;
      assert CheckEmployees(ids, peer).0.Success?;
      assert CheckEmployees(ids, peer).0.value == ();
      r := Success(());
    }

    /** The after-commit listener: one call per employee, a refusal for one
        not stopping the others. */
    method HandleCompanyCreatedEvent(event: CompanyCreatedEvent, peer: UserPeer)
      modifies this
      ensures companies == old(companies) && nextId == old(nextId)
      ensures calls == old(calls) + DeliveryCalls(event)
    {
      if event.employeeIds == {} {
        return;
      }
      var ids := Elements(event.employeeIds);
      for i := 0 to |ids|
        invariant companies == old(companies) && nextId == old(nextId)
        invariant calls == old(calls) + AddCompanyCalls(event.companyId, ids[..i])
      {
        var reply := peer.addCompanyToUser(event.companyId, ids[i]);
        calls := calls + [AddCompanyToUser(event.companyId, ids[i])];
        assert ids[..i + 1][..i] == ids[..i];
        match reply {
          case Done =>
          case Refused(_) => // logged only
        }
      }
      assert ids[..|ids|] == ids;
    }

    /** `createCompany` with its transaction's after-commit delivery: the
        listener runs only for the event a committed transaction hands on. */
    method CreateCompanyAndDeliver(request: CompanyRequest, peer: UserPeer) returns (r: Result<CompanyView, Exception>)
      requires Valid()
      modifies this
      ensures Valid()
      ensures var s := CreateCompanyStep(old(companies), old(nextId), request, peer);
              && r == s.result && companies == s.companies && nextId == s.nextId
              && calls == old(calls) + s.calls + (if s.events == [] then [] else DeliveryCalls(s.events[0]))
    {
      var events;
      r, events := CreateCompany(request, peer);
      if events != [] {
        HandleCompanyCreatedEvent(events[0], peer);
      }
    }

    method UpdateCompany(id: Id, request: CompanyRequest, peer: UserPeer) returns (r: Result<CompanyView, Exception>)
      requires Valid()
      modifies this
      ensures Valid()
      ensures var s := UpdateCompanyStep(old(companies), old(nextId), id, request, peer);
              r == s.result && companies == s.companies && nextId == s.nextId && calls == old(calls) + s.calls
    {
      UpdateCompanyKeepsInvariant(companies, nextId, id, request, peer);
      if id !in companies {
        return Failure(CompanyNotFoundException(id));
      }
      var existing := companies[id];
      if existing.name != request.name && NameTaken(companies, request.name) {
        return Failure(CompanyNameExistsException(request.name));
      }
      existing := CompanyMapper.UpdateEntity(Some(request), Some(existing)).value;
      var pending := companies[id := existing];
      var employees := FetchEmployeesForCompany(existing.employeeIds, peer);
      calls := calls + BatchCalls(existing.employeeIds);
      if employees.Failure? {
        return Failure(employees.error);
      }
      companies := pending;
      r := Success(CompanyMapper.ToResponseWith(Some(existing), Some(employees.value)).value);
    }

    method DeleteCompany(id: Id) returns (r: Result<(), Exception>)
      requires Valid()
      modifies this
      ensures Valid()
      ensures var s := DeleteCompanyStep(old(companies), old(nextId), id);
              r == s.result && companies == s.companies && nextId == s.nextId && calls == old(calls)
    {
      if id !in companies {
        return Failure(CompanyNotFoundException(id));
      }
      companies := companies - {id};
      r := Success(());
    }

    method AddEmployeeToCompany(companyId: Id, employeeId: Id, peer: UserPeer) returns (r: Result<(), Exception>)
      requires Valid()
      modifies this
      ensures Valid()
      ensures var s := AddEmployeeToCompanyStep(old(companies), old(nextId), companyId, employeeId, peer);
              r == s.result && companies == s.companies && nextId == s.nextId && calls == old(calls) + s.calls
    {
      MembershipChangesKeepInvariant(companies, nextId, companyId, employeeId, peer);
      if companyId !in companies {
        return Failure(CompanyNotFoundException(companyId));
      }
      var company := companies[companyId];
      if employeeId in company.employeeIds {
        return Failure(EmployeeAlreadyExistsException(employeeId, companyId));
      }
      var present := CheckUserExists(peer.existsById(employeeId));
      calls := calls + [ExistsById(employeeId)];
      if present.Failure? {
        return Failure(present.error);
      }
      if !present.value {
        return Failure(UserNotFoundException(employeeId));
      }
      company := company.(employeeIds := company.employeeIds + {employeeId});
      companies := companies[companyId := company];
      r := Success(());
    }

    method RemoveEmployeeFromCompany(companyId: Id, employeeId: Id, peer: UserPeer) returns (r: Result<(), Exception>)
      requires Valid()
      modifies this
      ensures Valid()
      ensures var s := RemoveEmployeeFromCompanyStep(old(companies), old(nextId), companyId, employeeId);
              r == s.result && companies == s.companies && nextId == s.nextId && calls == old(calls)
    {
      MembershipChangesKeepInvariant(companies, nextId, companyId, employeeId, peer);
      if companyId !in companies {
        return Failure(CompanyNotFoundException(companyId));
      }
      var company := companies[companyId];
      if employeeId !in company.employeeIds {
        // nothing to remove: returns without saving
        return Success(());
      }
      company := company.(employeeIds := company.employeeIds - {employeeId});
      companies := companies[companyId := company];
      r := Success(());
    }
  }
}
