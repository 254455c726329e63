/** `UserServiceImpl`: the user side of the membership bookkeeping.

    Every mutating operation is a transaction (`@Transactional`): it either
    throws, and then the store is as it was and no event is delivered, or it
    commits a new store and hands its published events to the after-commit
    listener. Calls to the company service are not part of the transaction:
    a call made before a rollback stays made. Each operation is first a pure
    step function over the store and the peer's replies, which the lemmas
    reason about, and then a method of `UserService` proved to follow it. */
module UserServiceImpl {
  import opened Common
  import opened Peer
  import opened UserDto
  import opened UserErrors
  import UserMapper

  /** A call to the company service's Feign client. */
  datatype CompanyCall =
    | GetCompanyById(companyId: Id)
    | AddEmployeeToCompany(companyId: Id, employeeId: Id)
    | RemoveEmployeeFromCompany(companyId: Id, employeeId: Id)

  /** Published by `createUser`, delivered after its commit. */
  datatype UserCreatedEvent = UserCreatedEvent(userId: Id, companyId: Id)

  type Store = map<Id, User>

  function UserNotFound(id: Id): Exception
  {
    NotFoundException("User not found with id: " + IdText(id))
  }

  function CompanyNotFound(companyId: Option<Id>): Exception
  {
    NotFoundException("Company not found with id: " + OptionIdText(companyId))
  }

  const CompanyIdRequired := ValidationException("Company ID is required for user creation")
  const PhoneNumberExists := ValidationException("Phone number already exists")
  const PhoneNumberFixed := ValidationException("Phone number cannot be updated")
  const CompanyServiceUnavailable := ServiceUnavailableException("Company service is unavailable")

  /** The two catch blocks around a company-service call: a 404 becomes
      `NotFoundException`, any other fault `ServiceUnavailableException`. */
  function Translate(f: Fault, companyId: Option<Id>): Exception
  {
    if f.IsNotFound() then CompanyNotFound(companyId) else CompanyServiceUnavailable
  }

  /** Every stored user carries its key as id, and keys are below the next id
      the store hands out. */
  predicate IdsMatchKeys(users: Store, nextId: Id)
  {
    forall k :: k in users ==> users[k].id == Some(k) && k < nextId
  }

  /** No two stored users share a phone number. */
  predicate PhonesUnique(users: Store)
  {
    forall a, b :: a in users && b in users && users[a].phoneNumber == users[b].phoneNumber ==> a == b
  }

  predicate StoreInvariant(users: Store, nextId: Id)
  {
    IdsMatchKeys(users, nextId) && PhonesUnique(users)
  }

  /** `existsByPhoneNumber`. */
  predicate PhoneNumberTaken(users: Store, phone: string)
  {
    exists k :: k in users && users[k].phoneNumber == phone
  }

  // ---------------------------------------------------------------- validators

  function ValidateUserRequest(request: UserRequest): (r: Option<Exception>)
    ensures r.Some? <==> request.companyId.None?
    ensures r.Some? ==> r.value.ValidationException?
  {
    if request.companyId.None? then Some(CompanyIdRequired) else None
  }

  function ValidatePhoneNumber(users: Store, phone: string): (r: Option<Exception>)
    ensures r.Some? <==> exists k :: k in users && users[k].phoneNumber == phone
    ensures r.Some? ==> r.value.ValidationException?
  {
    if PhoneNumberTaken(users, phone) then Some(PhoneNumberExists) else None
  }

  function ValidatePhoneNumberUpdate(existing: User, request: UserRequest): (r: Option<Exception>)
    ensures r.Some? <==> existing.phoneNumber != request.phoneNumber
    ensures r.Some? ==> r.value.ValidationException?
  {
    if existing.phoneNumber != request.phoneNumber then Some(PhoneNumberFixed) else None
  }

  // ------------------------------------------------------- company data lookup

  /** The call `fetchCompanyData` makes: none for a null id. */
  function FetchCalls(companyId: Option<Id>): seq<CompanyCall>
  {
    if companyId.None? then [] else [GetCompanyById(companyId.value)]
  }

  function FetchCompanyData(companyId: Option<Id>, reply: Reply<CompanyResponse>)
    : (r: Result<Option<CompanyResponse>, Exception>)
    ensures companyId.None? ==> r == Success(None)
    ensures r.Failure? <==> companyId.Some? && reply.Raised?
    ensures r.Failure? ==> (r.error == CompanyNotFound(companyId) <==> reply.fault.IsNotFound())
    ensures r.Failure? ==> r.error in {CompanyNotFound(companyId), CompanyServiceUnavailable}
    ensures r.Success? && r.value.Some? <==> companyId.Some? && reply.Ok?
    ensures r.Success? && r.value.Some? ==> r.value.value == reply.body
  {
    match companyId
    case None => Success(None)
    case Some(_) =>
      match reply
      case Ok(body) => Success(Some(body))
      case NullBody => Success(None)
      case Raised(f) => Failure(Translate(f, companyId))
  }

  // --------------------------------------------------- company re-association

  /** What `updateCompanyAssociation` decides: the company id to set, or the
      exception it throws, and the calls it made on the way. */
  datatype Association = Association(outcome: Result<Option<Id>, Exception>, calls: seq<CompanyCall>)

  /** The calls a change of company makes when none of them fails: leave the
      old company, look the new one up, join it. */
  function AssociationPlan(current: Option<Id>, next: Option<Id>, userId: Id): seq<CompanyCall>
  {
    (if current.Some? then [RemoveEmployeeFromCompany(current.value, userId)] else []) +
    (if next.Some? then [GetCompanyById(next.value), AddEmployeeToCompany(next.value, userId)] else [])
  }

  function UpdateCompanyAssociation(current: Option<Id>, next: Option<Id>, userId: Id,
                                    removeReply: Ack, getReply: Reply<CompanyResponse>, addReply: Ack)
    : (a: Association)
    ensures current == next ==> a == Association(Success(current), [])
    ensures a.calls <= AssociationPlan(current, next, userId)
    ensures a.outcome.Success? ==> a.outcome.value == next
    ensures a.outcome.Success? && current != next ==> a.calls == AssociationPlan(current, next, userId)
    ensures a.outcome.Failure? ==> a.calls != [] && a.outcome.error in {CompanyNotFound(next), CompanyServiceUnavailable}
  {
    if current == next then Association(Success(current), [])
    else
      var removeCalls := if current.Some? then [RemoveEmployeeFromCompany(current.value, userId)] else [];
      if current.Some? && removeReply.Refused? then
        Association(Failure(Translate(removeReply.fault, next)), removeCalls)
      else if next.None? then
        Association(Success(None), removeCalls)
      else
        var getCalls := removeCalls + [GetCompanyById(next.value)];
        match getReply
        case Raised(f) => Association(Failure(Translate(f, next)), getCalls)
        case NullBody => Association(Failure(CompanyNotFound(next)), getCalls)
        case Ok(_) =>
          var addCalls := getCalls + [AddEmployeeToCompany(next.value, userId)];
          match addReply
          case Refused(f) => Association(Failure(Translate(f, next)), addCalls)
          case Done => Association(Success(next), addCalls)
  }

  /** The old company is left before the new one is checked: when the new
      company turns out to be missing, the removal has already been sent. */
  lemma AssociationLeavesOldCompanyFirst(old_: Id, next: Id, userId: Id,
                                         getReply: Reply<CompanyResponse>, addReply: Ack)
    requires old_ != next
    requires getReply.NullBody? || (getReply.Raised? && getReply.fault.IsNotFound())
    ensures var a := UpdateCompanyAssociation(Some(old_), Some(next), userId, Done, getReply, addReply);
            a.outcome == Failure(CompanyNotFound(Some(next))) &&
            a.calls == [RemoveEmployeeFromCompany(old_, userId), GetCompanyById(next)]
  {
  }

  /** A refused removal is reported in terms of the new company id, whatever
      the refusal was; nothing else is called. */
  lemma AssociationRemovalRefused(old_: Id, next: Option<Id>, userId: Id, f: Fault,
                                  getReply: Reply<CompanyResponse>, addReply: Ack)
    requires Some(old_) != next
    ensures var a := UpdateCompanyAssociation(Some(old_), next, userId, Refused(f), getReply, addReply);
            a.outcome == Failure(if f.IsNotFound() then CompanyNotFound(next) else CompanyServiceUnavailable) &&
            a.calls == [RemoveEmployeeFromCompany(old_, userId)]
  {
  }

  /** Which exception a failed change of company throws depends only on the
      first reply that goes wrong: a fault other than 404 means "unavailable",
      while a 404 or a `null` company body means the new company is missing. */
  lemma AssociationFailureKinds(current: Option<Id>, next: Option<Id>, userId: Id,
                                removeReply: Ack, getReply: Reply<CompanyResponse>, addReply: Ack)
    requires current != next
    ensures var a := UpdateCompanyAssociation(current, next, userId, removeReply, getReply, addReply);
            var removed := current.None? || removeReply.Done?;
            && (a.outcome == Failure(CompanyServiceUnavailable) <==>
                  || (current.Some? && removeReply.Refused? && !removeReply.fault.IsNotFound())
                  || (removed && next.Some? && getReply.Raised? && !getReply.fault.IsNotFound())
                  || (removed && next.Some? && getReply.Ok? && addReply.Refused? && !addReply.fault.IsNotFound()))
            && (a.outcome == Failure(CompanyNotFound(next)) <==>
                  || (current.Some? && removeReply.Refused? && removeReply.fault.IsNotFound())
                  || (removed && next.Some? && (getReply.NullBody? || (getReply.Raised? && getReply.fault.IsNotFound())))
                  || (removed && next.Some? && getReply.Ok? && addReply.Refused? && addReply.fault.IsNotFound()))
            && (a.outcome.Success? <==> removed && (next.None? || (getReply.Ok? && addReply.Done?)))
  {
  }

  /** `removeCompanyAssociation`: the one call it makes for a user with a
      company, and the exception it throws. Every fault, a 404 included,
      becomes `ServiceUnavailableException`. */
  function RemoveCompanyAssociation(user: User, userId: Id, removeReply: Ack)
    : (r: (Option<Exception>, seq<CompanyCall>))
    ensures user.companyId.None? ==> r == (None, [])
    ensures user.companyId.Some? ==> r.1 == [RemoveEmployeeFromCompany(user.companyId.value, userId)]
    ensures user.companyId.Some? ==> (r.0.Some? <==> removeReply.Refused?)
    ensures r.0.Some? ==> r.0.value == CompanyServiceUnavailable
  {
    match user.companyId
    case None => (None, [])
    case Some(c) =>
      (if removeReply.Refused? then Some(CompanyServiceUnavailable) else None,
       [RemoveEmployeeFromCompany(c, userId)])
  }

  // ------------------------------------------------------------ the operations

  /** The outcome of one transaction: what it returns or throws, the store
      after commit or rollback, the calls it made, and the events delivered
      after commit. */
  datatype Step<T> = Step(result: Result<T, Exception>, users: Store, nextId: Id,
                          calls: seq<CompanyCall>, events: seq<UserCreatedEvent>)

  /** A rolled-back transaction: the store as it was and nothing delivered;
      the calls it made stay made. */
  function RolledBack<T>(users: Store, nextId: Id, e: Exception, calls: seq<CompanyCall>): Step<T>
  {
    Step(Failure(e), users, nextId, calls, [])
  }

  /** The user `createUser` saves: the request's fields under the next id. */
  function NewUser(request: UserRequest, id: Id): User
  {
    RequestToEntity(request).(id := Some(id))
  }

  function CreateUserStep(users: Store, nextId: Id, request: UserRequest, lookup: Reply<CompanyResponse>)
    : (s: Step<UserView>)
    ensures request.companyId.None? ==> s.result == Failure(CompanyIdRequired) && s.calls == []
    ensures request.companyId.Some? && PhoneNumberTaken(users, request.phoneNumber) ==>
              s.result == Failure(PhoneNumberExists) && s.calls == []
    ensures request.companyId.Some? && !PhoneNumberTaken(users, request.phoneNumber) ==>
              s.calls == [GetCompanyById(request.companyId.value)]
    ensures s.result.Success? <==>
              request.companyId.Some? && !PhoneNumberTaken(users, request.phoneNumber) && !lookup.Raised?
    ensures s.result.Failure? ==> s.users == users && s.nextId == nextId && s.events == []
    ensures s.result.Success? ==>
              && s.users == users[nextId := NewUser(request, nextId)]
              && s.nextId == nextId + 1
              && s.events == [UserCreatedEvent(nextId, request.companyId.value)]
              && s.result.value == UserView(Some(nextId), request.firstName, request.lastName, request.phoneNumber,
                                            if lookup.Ok? then Some(lookup.body) else None)
  {
    var invalid := ValidateUserRequest(request);
    if invalid.Some? then RolledBack(users, nextId, invalid.value, []) else
    var taken := ValidatePhoneNumber(users, request.phoneNumber);
    if taken.Some? then RolledBack(users, nextId, taken.value, []) else
    var user := UserMapper.ToEntity(Some(request)).value.(id := Some(nextId));
    var event := UserCreatedEvent(nextId, user.companyId.value);
    var company := FetchCompanyData(user.companyId, lookup);
    var calls := FetchCalls(user.companyId);
    if company.Failure? then RolledBack(users, nextId, company.error, calls)
    else Step(Success(UserMapper.ToResponse(Some(user), company.value).value),
              users[nextId := user], nextId + 1, calls, [event])
  }

  function UpdateUserStep(users: Store, nextId: Id, id: Id, request: UserRequest,
                          removeReply: Ack, getReply: Reply<CompanyResponse>, addReply: Ack,
                          lookup: Reply<CompanyResponse>)
    : (s: Step<UserView>)
    ensures id !in users ==> s.result == Failure(UserNotFound(id)) && s.calls == []
    ensures id in users && users[id].phoneNumber != request.phoneNumber ==>
              s.result == Failure(PhoneNumberFixed) && s.calls == []
    ensures s.events == [] && s.nextId == nextId
    ensures id in users && users[id].phoneNumber == request.phoneNumber ==>
              var a := UpdateCompanyAssociation(users[id].companyId, request.companyId, id,
                                                removeReply, getReply, addReply);
              && (s.result.Success? <==> a.outcome.Success? && !(request.companyId.Some? && lookup.Raised?))
              && (a.outcome.Failure? ==> s.result == Failure(a.outcome.error) && s.calls == a.calls)
              && (a.outcome.Success? && request.companyId.Some? && lookup.Raised? ==>
                    && s.result == Failure(Translate(lookup.fault, request.companyId))
                    && s.calls == a.calls + [GetCompanyById(request.companyId.value)])
    ensures s.result.Failure? ==> s.users == users
    ensures s.result.Success? ==>
              && id in users
              && s.users == users[id := UserMapper.UpdateEntity(request, users[id])]
              && s.result.value == UserView(users[id].id, request.firstName, request.lastName, request.phoneNumber,
                                            if request.companyId.Some? && lookup.Ok? then Some(lookup.body) else None)
              && s.calls == (if users[id].companyId == request.companyId then []
                             else AssociationPlan(users[id].companyId, request.companyId, id))
                            + FetchCalls(request.companyId)
  {
    if id !in users then RolledBack(users, nextId, UserNotFound(id), []) else
    var existing := users[id];
    var invalid := ValidatePhoneNumberUpdate(existing, request);
    if invalid.Some? then RolledBack(users, nextId, invalid.value, []) else
    var a := UpdateCompanyAssociation(existing.companyId, request.companyId, id,
                                      removeReply, getReply, addReply);
    if a.outcome.Failure? then RolledBack(users, nextId, a.outcome.error, a.calls) else
    var updated := UserMapper.UpdateEntity(request, existing.(companyId := a.outcome.value));
    var company := FetchCompanyData(updated.companyId, lookup);
    var calls := a.calls + FetchCalls(updated.companyId);
    if company.Failure? then RolledBack(users, nextId, company.error, calls)
    else Step(Success(UserMapper.ToResponse(Some(updated), company.value).value),
              users[id := updated], nextId, calls, [])
  }

  function DeleteUserStep(users: Store, nextId: Id, id: Id, removeReply: Ack): (s: Step<()>)
    ensures id !in users ==> s.result == Failure(UserNotFound(id)) && s.calls == []
    ensures id in users && users[id].companyId.None? ==> s.result.Success? && s.calls == []
    ensures id in users && users[id].companyId.Some? ==>
              && s.calls == [RemoveEmployeeFromCompany(users[id].companyId.value, id)]
              && (s.result.Success? <==> removeReply.Done?)
    ensures s.result.Failure? && id in users ==> s.result.error == CompanyServiceUnavailable
    ensures s.result.Failure? ==> s.users == users
    ensures s.result.Success? ==> id in users && s.users == users - {id}
    ensures s.events == [] && s.nextId == nextId
  {
    if id !in users then RolledBack(users, nextId, UserNotFound(id), []) else
    var unlink := RemoveCompanyAssociation(users[id], id, removeReply);
    if unlink.0.Some? then RolledBack(users, nextId, unlink.0.value, unlink.1)
    else Step(Success(()), users - {id}, nextId, unlink.1, [])
  }

  function AddCompanyToUserStep(users: Store, nextId: Id, employeeId: Id, companyId: Id, addReply: Ack)
    : (s: Step<()>)
    ensures employeeId !in users ==> s.result == Failure(UserNotFound(employeeId)) && s.calls == []
    ensures employeeId in users ==>
              && s.calls == [AddEmployeeToCompany(companyId, employeeId)]
              && (s.result.Success? <==> addReply.Done?)
    ensures employeeId in users && addReply.Refused? ==>
              s.result == Failure(if addReply.fault.IsNotFound() then CompanyNotFound(Some(companyId))
                                  else CompanyServiceUnavailable)
    ensures s.result.Failure? ==> s.users == users
    ensures s.result.Success? ==>
              employeeId in users && s.users == users[employeeId := users[employeeId].(companyId := Some(companyId))]
    ensures s.events == [] && s.nextId == nextId
  {
    if employeeId !in users then RolledBack(users, nextId, UserNotFound(employeeId), []) else
    var user := users[employeeId].(companyId := Some(companyId));
    var calls := [AddEmployeeToCompany(companyId, employeeId)];
    match addReply
    case Done => Step(Success(()), users[employeeId := user], nextId, calls, [])
    case Refused(f) => RolledBack(users, nextId, Translate(f, Some(companyId)), calls)
  }

  /** `findByIdWithCompany`, a read-only transaction. */
  function FindByIdWithCompany(users: Store, id: Id, lookup: Reply<CompanyResponse>)
    : (r: (Result<UserView, Exception>, seq<CompanyCall>))
    ensures id !in users ==> r == (Failure(UserNotFound(id)), [])
    ensures id in users ==> r.1 == FetchCalls(users[id].companyId)
    ensures id in users ==> (r.0.Success? <==> !(users[id].companyId.Some? && lookup.Raised?))
    ensures id in users && r.0.Failure? ==> r.0.error == Translate(lookup.fault, users[id].companyId)
    ensures r.0.Success? ==>
              && id in users
              && r.0.value == UserView(users[id].id, users[id].firstName, users[id].lastName, users[id].phoneNumber,
                                       if users[id].companyId.Some? && lookup.Ok? then Some(lookup.body) else None)
  {
    if id !in users then (Failure(UserNotFound(id)), []) else
    var user := users[id];
    var company := FetchCompanyData(user.companyId, lookup);
    var calls := FetchCalls(user.companyId);
    if company.Failure? then (Failure(company.error), calls)
    else (Success(UserMapper.ToResponse(Some(user), company.value).value), calls)
  }

  /** `getUsersByIds`: the stored users among the ids, without company data. */
  function GetUsersByIds(users: Store, ids: set<Id>): (r: map<Id, UserView>)
    ensures r.Keys == ids * users.Keys
    ensures forall k :: k in r ==> r[k] == UserView(users[k].id, users[k].firstName, users[k].lastName,
                                                    users[k].phoneNumber, None)
  {
    if ids == {} then map[]
    else map k | k in ids && k in users :: UserMapper.ToResponse(Some(users[k]), None).value
  }

  /** `existsById`. */
  predicate UserExists(users: Store, id: Id)
  {
    id in users
  }

  /** The calls the after-commit listener makes for the delivered events:
      exactly one `addEmployeeToCompany` per event. */
  function DeliveryCalls(events: seq<UserCreatedEvent>): (r: seq<CompanyCall>)
    ensures |r| == |events|
    ensures forall i :: 0 <= i < |events| ==>
              r[i] == AddEmployeeToCompany(events[i].companyId, events[i].userId)
  {
    seq(|events|, i requires 0 <= i < |events| => AddEmployeeToCompany(events[i].companyId, events[i].userId))
  }

  // ------------------------------------------------------------ the invariant

  lemma CreateUserKeepsInvariant(users: Store, nextId: Id, request: UserRequest, lookup: Reply<CompanyResponse>)
    requires StoreInvariant(users, nextId)
    ensures var s := CreateUserStep(users, nextId, request, lookup); StoreInvariant(s.users, s.nextId)
  {
    var s := CreateUserStep(users, nextId, request, lookup);
    if s.result.Success? {
      assert nextId !in users;
      assert forall k :: k in users ==> users[k].phoneNumber != request.phoneNumber;
    }
  }

  lemma UpdateUserKeepsInvariant(users: Store, nextId: Id, id: Id, request: UserRequest,
                                 removeReply: Ack, getReply: Reply<CompanyResponse>, addReply: Ack,
                                 lookup: Reply<CompanyResponse>)
    requires StoreInvariant(users, nextId)
    ensures var s := UpdateUserStep(users, nextId, id, request, removeReply, getReply, addReply, lookup);
            StoreInvariant(s.users, s.nextId)
  {
    var s := UpdateUserStep(users, nextId, id, request, removeReply, getReply, addReply, lookup);
    if s.result.Success? {
      assert s.users[id].phoneNumber == users[id].phoneNumber;
      assert forall k :: k in s.users ==> s.users[k].phoneNumber == users[k].phoneNumber;
    }
  }

  lemma DeleteUserKeepsInvariant(users: Store, nextId: Id, id: Id, removeReply: Ack)
    requires StoreInvariant(users, nextId)
    ensures var s := DeleteUserStep(users, nextId, id, removeReply); StoreInvariant(s.users, s.nextId)
  {
  }

  lemma AddCompanyToUserKeepsInvariant(users: Store, nextId: Id, employeeId: Id, companyId: Id, addReply: Ack)
    requires StoreInvariant(users, nextId)
    ensures var s := AddCompanyToUserStep(users, nextId, employeeId, companyId, addReply);
            StoreInvariant(s.users, s.nextId)
  {
    var s := AddCompanyToUserStep(users, nextId, employeeId, companyId, addReply);
    assert forall k :: k in s.users ==> s.users[k].phoneNumber == users[k].phoneNumber;
  }

  // ------------------------------------------------------------ the service

  class UserService {
    var users: Store
    var nextId: Id
    /** Every call made to the company service, in order. */
    ghost var calls: seq<CompanyCall>

    ghost predicate Valid()
      reads this
    {
      StoreInvariant(users, nextId)
    }

    constructor ()
      ensures Valid() && users == map[] && calls == []
    {
      users, nextId := map[], 1;
      calls := [];
    }

    method CreateUser(request: UserRequest, lookup: Reply<CompanyResponse>)
      returns (r: Result<UserView, Exception>, events: seq<UserCreatedEvent>)
      requires Valid()
      modifies this
      ensures Valid()
      ensures var s := CreateUserStep(old(users), old(nextId), request, lookup);
              r == s.result && users == s.users && nextId == s.nextId &&
              calls == old(calls) + s.calls && events == s.events
    {
      CreateUserKeepsInvariant(users, nextId, request, lookup);
      var invalid := ValidateUserRequest(request);
      if invalid.Some? { return Failure(invalid.value), []; }
      invalid := ValidatePhoneNumber(users, request.phoneNumber);
      if invalid.Some? { return Failure(invalid.value), []; }
      var user := UserMapper.ToEntity(Some(request)).value;
      // save: the store assigns the next id; the write is pending until commit
      var id := nextId;
      user := user.(id := Some(id));
      var pending := users[id := user];
      var published := [UserCreatedEvent(id, user.companyId.value)];
      var company := FetchCompanyData(user.companyId, lookup);
      calls := calls + FetchCalls(user.companyId);
      if company.Failure? {
        // rollback: the pending write and the published event are dropped
        return Failure(company.error), [];
      }
      users, nextId := pending, id + 1;
      r := Success(UserMapper.ToResponse(Some(user), company.value).value);
      events := published;
    }

    /** The after-commit listener: one call, and whatever the company service
        replies, nothing is thrown. */
    method HandleUserCreatedEvent(event: UserCreatedEvent, reply: Ack)
      modifies this
      ensures users == old(users) && nextId == old(nextId)
      ensures calls == old(calls) + [AddEmployeeToCompany(event.companyId, event.userId)]
    {
      calls := calls + [AddEmployeeToCompany(event.companyId, event.userId)];
      match reply {
        case Done =>
        case Refused(_) => // logged only
      }
    }

    /** `createUser` with its transaction's after-commit delivery: the
        listener runs only for the events a committed transaction hands on. */
    method CreateUserAndDeliver(request: UserRequest, lookup: Reply<CompanyResponse>, addReply: Ack)
      returns (r: Result<UserView, Exception>)
      requires Valid()
      modifies this
      ensures Valid()
      ensures var s := CreateUserStep(old(users), old(nextId), request, lookup);
              r == s.result && users == s.users && nextId == s.nextId &&
              calls == old(calls) + s.calls + DeliveryCalls(s.events)
    {
      var events;
      r, events := CreateUser(request, lookup);
      ghost var before := calls;
      for i := 0 to |events|
        invariant Valid()
        invariant users == CreateUserStep(old(users), old(nextId), request, lookup).users
        invariant nextId == CreateUserStep(old(users), old(nextId), request, lookup).nextId
        invariant calls == before + DeliveryCalls(events[..i])
      {
        HandleUserCreatedEvent(events[i], addReply);
        assert events[..i + 1] == events[..i] + [events[i]];
      }
      assert events[..|events|] == events;
    }

    method UpdateUser(id: Id, request: UserRequest, removeReply: Ack, getReply: Reply<CompanyResponse>,
                      addReply: Ack, lookup: Reply<CompanyResponse>)
      returns (r: Result<UserView, Exception>)
      requires Valid()
      modifies this
      ensures Valid()
      ensures var s := UpdateUserStep(old(users), old(nextId), id, request, removeReply, getReply, addReply, lookup);
              r == s.result && users == s.users && nextId == s.nextId && calls == old(calls) + s.calls
    {
      UpdateUserKeepsInvariant(users, nextId, id, request, removeReply, getReply, addReply, lookup);
      if id !in users { return Failure(UserNotFound(id)); }
      var existing := users[id];
      var invalid := ValidatePhoneNumberUpdate(existing, request);
      if invalid.Some? { return Failure(invalid.value); }
      var association := UpdateCompanyAssociation(existing.companyId, request.companyId, id,
                                                   removeReply, getReply, addReply);
      calls := calls + association.calls;
      if association.outcome.Failure? { return Failure(association.outcome.error); }
      existing := existing.(companyId := association.outcome.value);
      existing := UserMapper.UpdateEntity(request, existing);
      var pending := users[id := existing];
      var company := FetchCompanyData(existing.companyId, lookup);
      calls := calls + FetchCalls(existing.companyId);
      if company.Failure? { return Failure(company.error); }
      users := pending;
      r := Success(UserMapper.ToResponse(Some(existing), company.value).value);
    }

    method DeleteUser(id: Id, removeReply: Ack) returns (r: Result<(), Exception>)
      requires Valid()
      modifies this
      ensures Valid()
      ensures var s := DeleteUserStep(old(users), old(nextId), id, removeReply);
              r == s.result && users == s.users && nextId == s.nextId && calls == old(calls) + s.calls
    {
      DeleteUserKeepsInvariant(users, nextId, id, removeReply);
      if id !in users { return Failure(UserNotFound(id)); }
      var user := users[id];
      var unlink := RemoveCompanyAssociation(user, id, removeReply);
      calls := calls + unlink.1;
      if unlink.0.Some? { return Failure(unlink.0.value); }
      users := users - {id};
      r := Success(());
    }

    method AddCompanyToUser(employeeId: Id, companyId: Id, addReply: Ack) returns (r: Result<(), Exception>)
      requires Valid()
      modifies this
      ensures Valid()
      ensures var s := AddCompanyToUserStep(old(users), old(nextId), employeeId, companyId, addReply);
              r == s.result && users == s.users && nextId == s.nextId && calls == old(calls) + s.calls
    {
      AddCompanyToUserKeepsInvariant(users, nextId, employeeId, companyId, addReply);
      if employeeId !in users { return Failure(UserNotFound(employeeId)); }
      var user := users[employeeId];
      user := user.(companyId := Some(companyId));
      var pending := users[employeeId := user];
      calls := calls + [AddEmployeeToCompany(companyId, employeeId)];
      match addReply {
        case Done =>
          users := pending;
          r := Success(());
        case Refused(f) =>
          r := Failure(Translate(f, Some(companyId)));
      }
    }
  }
}
