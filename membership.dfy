/** The two services together. Membership is recorded twice, as the user's
    `companyId` and as the company's `employeeIds`, and each service updates
    the other through its Feign client. Here the replies one service gets are
    computed from the other service's store, via its exception handler and
    the status a Feign client sees, so that the lemmas can say when the two
    records end up agreeing and when they do not. */
module Membership {
  import opened Common
  import opened Peer
  import UserDto
  import UserErrors
  import UserServiceImpl
  import CompanyDto
  import CompanyErrors
  import CompanyServiceImpl

  /** What a Feign client makes of a response to a `void` call: a normal
      return for a 2xx status, a `FeignException` with the status otherwise. */
  function AckOf(r: HttpResponse): (a: Ack)
    ensures a.Done? <==> 200 <= r.status < 300
    ensures a.Refused? ==> a.fault == Fault(r.status, r.body)
  {
    if 200 <= r.status < 300 then Done else Refused(Fault(r.status, r.body))
  }

  /** The controllers answer a successful `void` operation with 204. */
  const NO_CONTENT := HttpResponse(204, "")

  function CompanyAck(r: Result<(), CompanyErrors.Exception>): Ack
  {
    if r.Success? then AckOf(NO_CONTENT) else AckOf(CompanyErrors.Handle(r.error))
  }

  /** The company service's answer to `POST /{companyId}/employees/{employeeId}`. */
  function AddEmployeeReply(companies: CompanyServiceImpl.Store, nextId: Id, companyId: Id, employeeId: Id,
                            peer: CompanyServiceImpl.UserPeer): Ack
  {
    CompanyAck(CompanyServiceImpl.AddEmployeeToCompanyStep(companies, nextId, companyId, employeeId, peer).result)
  }

  /** The company service's answer to `DELETE /{companyId}/employees/{employeeId}`. */
  function RemoveEmployeeReply(companies: CompanyServiceImpl.Store, nextId: Id, companyId: Id, employeeId: Id): Ack
  {
    CompanyAck(CompanyServiceImpl.RemoveEmployeeFromCompanyStep(companies, nextId, companyId, employeeId).result)
  }

  /** The company service's answer to `GET /{id}`, read as the user side's
      `CompanyResponse`. */
  function CompanyLookupReply(companies: CompanyServiceImpl.Store, id: Id, peer: CompanyServiceImpl.UserPeer)
    : Reply<UserDto.CompanyResponse>
  {
    var r := CompanyServiceImpl.GetCompanyById(companies, id, peer).0;
    if r.Success? then Ok(UserDto.CompanyResponse(r.value.id, r.value.name, r.value.budget))
    else Raised(Fault(CompanyErrors.Handle(r.error).status, CompanyErrors.Handle(r.error).body))
  }

  /** The user service as the company service's Feign client sees it, with
      `existsById` answered from the user store. */
  function UserPeerOf(users: UserServiceImpl.Store,
                      batch: set<Id> -> Reply<map<Id, CompanyDto.UserResponse>>,
                      addCompany: (Id, Id) -> Ack): (p: CompanyServiceImpl.UserPeer)
    ensures forall x :: CompanyServiceImpl.Confirmed(p, x) <==> x in users
  {
    CompanyServiceImpl.UserPeer(x => Ok(x in users), batch, addCompany)
  }

  /** Both records say that the user belongs to the company. */
  predicate Linked(users: UserServiceImpl.Store, companies: CompanyServiceImpl.Store, userId: Id, companyId: Id)
  {
    && userId in users && users[userId].companyId == Some(companyId)
    && companyId in companies && userId in companies[companyId].employeeIds
  }

  /** Creating a company with employees does not make them its users: the
      listener asks the user service to set each employee's company, the user
      service asks the company service to add the employee, and the company,
      which already lists the employee, refuses with 400. The user service
      turns that into "unavailable" and rolls back, so the employee's
      `companyId` stays as it was. */
  lemma CreatedCompanyDoesNotReachItsEmployees(companies: CompanyServiceImpl.Store, cNext: Id,
                                               request: CompanyDto.CompanyRequest, peer: CompanyServiceImpl.UserPeer,
                                               users: UserServiceImpl.Store, uNext: Id, x: Id)
    requires CompanyServiceImpl.StoreInvariant(companies, cNext)
    requires CompanyServiceImpl.CreateCompanyStep(companies, cNext, request, peer).result.Success?
    requires x in CompanyServiceImpl.Requested(request) && x in users
    ensures var s := CompanyServiceImpl.CreateCompanyStep(companies, cNext, request, peer);
            var reply := AddEmployeeReply(s.companies, s.nextId, cNext, x, peer);
            var u := UserServiceImpl.AddCompanyToUserStep(users, uNext, x, cNext, reply);
            && s.events == [CompanyServiceImpl.CompanyCreatedEvent(cNext, CompanyServiceImpl.Requested(request))]
            && reply == Refused(Fault(400, CompanyErrors.Message(CompanyErrors.EmployeeAlreadyExistsException(x, cNext))))
            && u.result == Failure(UserServiceImpl.CompanyServiceUnavailable)
            && u.users == users
  {
  }

  /** Creating a user does link both records once its event is delivered,
      whether or not the company already listed the new id. */
  lemma CreatedUserIsLinked(users: UserServiceImpl.Store, uNext: Id, request: UserDto.UserRequest,
                            lookup: Reply<UserDto.CompanyResponse>,
                            companies: CompanyServiceImpl.Store, cNext: Id,
                            batch: set<Id> -> Reply<map<Id, CompanyDto.UserResponse>>, addCompany: (Id, Id) -> Ack)
    requires UserServiceImpl.CreateUserStep(users, uNext, request, lookup).result.Success?
    requires request.companyId.value in companies
    ensures var s := UserServiceImpl.CreateUserStep(users, uNext, request, lookup);
            var c := request.companyId.value;
            var t := CompanyServiceImpl.AddEmployeeToCompanyStep(companies, cNext, c, uNext,
                                                                 UserPeerOf(s.users, batch, addCompany));
            && s.events == [UserServiceImpl.UserCreatedEvent(uNext, c)]
            && (uNext !in companies[c].employeeIds ==> t.result.Success?)
            && Linked(s.users, if t.result.Success? then t.companies else companies, uNext, c)
  {
  }

  /** A user cannot be created for a company the company service does not
      have: the lookup after the save answers 404, and the transaction rolls
      back without publishing. */
  lemma UserForMissingCompanyIsRolledBack(users: UserServiceImpl.Store, uNext: Id, request: UserDto.UserRequest,
                                          companies: CompanyServiceImpl.Store, peer: CompanyServiceImpl.UserPeer)
    requires request.companyId.Some? && request.companyId.value !in companies
    requires !UserServiceImpl.PhoneNumberTaken(users, request.phoneNumber)
    ensures var c := request.companyId.value;
            var s := UserServiceImpl.CreateUserStep(users, uNext, request, CompanyLookupReply(companies, c, peer));
            && s.result == Failure(UserServiceImpl.CompanyNotFound(Some(c)))
            && s.users == users && s.nextId == uNext && s.events == []
  {
  }

  /** Deleting a company leaves its users pointing at it, and such a user can
      then not be deleted: the company service answers the removal with 404,
      which the user service reports as "unavailable". */
  lemma UserOfDeletedCompanyCannotBeDeleted(companies: CompanyServiceImpl.Store, cNext: Id, c: Id,
                                            users: UserServiceImpl.Store, uNext: Id, u: Id)
    requires c in companies
    requires u in users && users[u].companyId == Some(c)
    ensures var d := CompanyServiceImpl.DeleteCompanyStep(companies, cNext, c);
            var reply := RemoveEmployeeReply(d.companies, d.nextId, c, u);
            var s := UserServiceImpl.DeleteUserStep(users, uNext, u, reply);
            && d.result.Success?
            && reply.Refused? && reply.fault.IsNotFound()
            && s.result == Failure(UserServiceImpl.CompanyServiceUnavailable)
            && s.users == users
  {
  }

  /** Moving a linked user to a company that does not exist fails, but only
      after the old company has let the user go: the user still names the old
      company, which no longer lists the user. */
  lemma FailedMoveUnlinksUser(users: UserServiceImpl.Store, uNext: Id, u: Id, request: UserDto.UserRequest,
                              companies: CompanyServiceImpl.Store, cNext: Id, previous: Id,
                              peer: CompanyServiceImpl.UserPeer, addReply: Ack, lookup: Reply<UserDto.CompanyResponse>)
    requires Linked(users, companies, u, previous)
    requires users[u].phoneNumber == request.phoneNumber
    requires request.companyId.Some? && request.companyId.value !in companies
    ensures var next := request.companyId.value;
            var removal := CompanyServiceImpl.RemoveEmployeeFromCompanyStep(companies, cNext, previous, u);
            var s := UserServiceImpl.UpdateUserStep(users, uNext, u, request,
                                                    RemoveEmployeeReply(companies, cNext, previous, u),
                                                    CompanyLookupReply(removal.companies, next, peer),
                                                    addReply, lookup);
            && s.result == Failure(UserServiceImpl.CompanyNotFound(Some(next)))
            && s.users == users
            && s.calls == [UserServiceImpl.RemoveEmployeeFromCompany(previous, u), UserServiceImpl.GetCompanyById(next)]
            && u !in removal.companies[previous].employeeIds
            && !Linked(s.users, removal.companies, u, previous)
  {
    var next := request.companyId.value;
    assert previous != next;
  }
}
