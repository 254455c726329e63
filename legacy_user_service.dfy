/** The older `UserService`: the same repository as `UserServiceImpl`, no
    transactions and no events, and raw maps instead of typed company data.
    Its only remote call, `getCompanyRawData`, never fails the operation: a
    fault becomes a response carrying the reason. */
module LegacyUserService {
  import opened Common
  import opened Peer
  import opened UserDto
  import opened UserErrors
  import UserServiceImpl

  const LOAD_FAILURE_PREFIX := "Failed to load company data: "
  const COMPANY_DATA_UNAVAILABLE := "Company data unavailable"
  const PHONE_NUMBER_EXISTS := IllegalArgumentException("Phone number already exists")
  const PHONE_NUMBER_FIXED := IllegalArgumentException("Phone number cannot be updated")

  function UserNotFound(id: Id): Exception
  {
    EntityNotFoundException("User not found with id: " + IdText(id))
  }

  /** The response for a user given the company service's raw reply, and the
      text to report if the call failed. */
  function WithCompanyData(user: User, reply: Reply<RawMap>, error: string): (r: UserResponse)
    ensures CopiesUser(r, user)
    ensures reply.Ok? ==> r == FromEntity(user, Some(reply.body))
    ensures reply.NullBody? ==> r == FromEntity(user, None)
    ensures reply.Raised? ==> r == WithError(user, error)
  {
    match reply
    case Ok(m) => FromEntity(user, Some(m))
    case NullBody => FromEntity(user, None)
    case Raised(_) => WithError(user, error)
  }

  /** The map `getUserRawData` returns for the user stored under `id`. */
  function RawData(id: Id, user: User): (m: RawMap)
    ensures m.Keys == {"id", "firstName", "lastName", "phoneNumber"}
    ensures m["id"] == IntValue(id) && m["phoneNumber"] == TextValue(user.phoneNumber)
    ensures m["firstName"] == TextValue(user.firstName) && m["lastName"] == TextValue(user.lastName)
  {
    map["id" := IntValue(id), "firstName" := TextValue(user.firstName),
        "lastName" := TextValue(user.lastName), "phoneNumber" := TextValue(user.phoneNumber)]
  }

  /** The response for one user of `getAllUsers`. */
  function ListedUser(user: User, companyRaw: Option<Id> -> Reply<RawMap>): (r: UserResponse)
    ensures CopiesUser(r, user)
    ensures companyRaw(user.companyId).Raised? ==> r == WithError(user, COMPANY_DATA_UNAVAILABLE)
    ensures companyRaw(user.companyId).Ok? ==> r == FromEntity(user, Some(companyRaw(user.companyId).body))
    ensures companyRaw(user.companyId).NullBody? ==> r == FromEntity(user, None)
  {
    WithCompanyData(user, companyRaw(user.companyId), COMPANY_DATA_UNAVAILABLE)
  }

  /** The responses for the users stored under `order`, in that order. */
  function UsersAt(stored: UserServiceImpl.Store, order: seq<Id>, companyRaw: Option<Id> -> Reply<RawMap>)
    : (r: seq<UserResponse>)
    requires forall i :: 0 <= i < |order| ==> order[i] in stored
    ensures |r| == |order|
    ensures forall i :: 0 <= i < |order| ==> r[i] == ListedUser(stored[order[i]], companyRaw)
  {
    if order == [] then [] else [ListedUser(stored[order[0]], companyRaw)] + UsersAt(stored, order[1..], companyRaw)
  }

  /** What `getAllUsers` returns for a store: every user, in the store's
      order, with the company service's data for its company id, which is
      asked for even when it is `null`; a failed read marks only that user. */
  function AllUsers(stored: UserServiceImpl.Store, companyRaw: Option<Id> -> Reply<RawMap>): (r: seq<UserResponse>)
    ensures stored == map[] ==> r == []
    ensures |r| == |stored|
    ensures forall i :: 0 <= i < |r| ==>
              var k := KeysInOrder(stored)[i];
              && CopiesUser(r[i], stored[k])
              && (companyRaw(stored[k].companyId).Raised? ==> r[i] == WithError(stored[k], COMPANY_DATA_UNAVAILABLE))
              && (companyRaw(stored[k].companyId).Ok? ==>
                    r[i] == FromEntity(stored[k], Some(companyRaw(stored[k].companyId).body)))
              && (companyRaw(stored[k].companyId).NullBody? ==> r[i] == FromEntity(stored[k], None))
  {
    if stored == map[] then [] else UsersAt(stored, KeysInOrder(stored), companyRaw)
  }

  class LegacyUserService {
    var users: UserServiceImpl.Store
    var nextId: Id

    ghost predicate Valid()
      reads this
    {
      UserServiceImpl.StoreInvariant(users, nextId)
    }

    constructor ()
      ensures Valid() && users == map[]
    {
      users, nextId := map[], 1;
    }

    method CreateUser(request: UserRequest) returns (r: Result<UserResponse, Exception>)
      requires Valid()
      modifies this
      ensures Valid()
      ensures UserServiceImpl.PhoneNumberTaken(old(users), request.phoneNumber) ==>
                r == Failure(PHONE_NUMBER_EXISTS) && users == old(users) && nextId == old(nextId)
      ensures !UserServiceImpl.PhoneNumberTaken(old(users), request.phoneNumber) ==>
                && users == old(users)[old(nextId) := RequestToEntity(request).(id := Some(old(nextId)))]
                && nextId == old(nextId) + 1
                && r == Success(FromEntity(users[old(nextId)], None))
    {
      if UserServiceImpl.PhoneNumberTaken(users, request.phoneNumber) {
        return Failure(PHONE_NUMBER_EXISTS);
      }
      assert nextId !in users;
      assert forall k :: k in users ==> users[k].phoneNumber != request.phoneNumber;
      var user := RequestToEntity(request).(id := Some(nextId));
      users, nextId := users[nextId := user], nextId + 1;
      r := Success(FromEntity(user, None));
    }

    /** `findByIdWithCompany`: no call for a user without a company, and a
        failed call reported in the response, not thrown. */
    function FindByIdWithCompany(id: Id, companyRaw: Id -> Reply<RawMap>): (r: Result<UserResponse, Exception>)
      reads this
      ensures id !in users ==> r == Failure(UserNotFound(id))
      ensures id in users ==> r.Success? && CopiesUser(r.value, users[id])
      ensures id in users && users[id].companyId.None? ==> r == Success(FromEntity(users[id], None))
      ensures id in users && users[id].companyId.Some? && companyRaw(users[id].companyId.value).Raised? ==>
                r == Success(WithError(users[id],
                                       LOAD_FAILURE_PREFIX + companyRaw(users[id].companyId.value).fault.message))
      ensures id in users && users[id].companyId.Some? && companyRaw(users[id].companyId.value).Ok? ==>
                r == Success(FromEntity(users[id], Some(companyRaw(users[id].companyId.value).body)))
      ensures id in users && users[id].companyId.Some? && companyRaw(users[id].companyId.value).NullBody? ==>
                r == Success(FromEntity(users[id], None))
      ensures r.Success? && r.value.companyLoadError.None? ==>
                users[id].companyId.None? || !companyRaw(users[id].companyId.value).Raised?
    {
      if id !in users then Failure(UserNotFound(id))
      else
        var user := users[id];
        match user.companyId
        case None => Success(FromEntity(user, None))
        case Some(c) =>
          var reply := companyRaw(c);
          Success(WithCompanyData(user, reply, if reply.Raised? then LOAD_FAILURE_PREFIX + reply.fault.message else ""))
    }

    /** `updateUser`. The source copies the request's phone number, not its
        first name, into `firstName`, and that is what is modelled. */
    method UpdateUser(id: Id, request: UserRequest) returns (r: Result<UserResponse, Exception>)
      requires Valid()
      modifies this
      ensures Valid()
      ensures nextId == old(nextId)
      ensures id !in old(users) ==> r == Failure(UserNotFound(id)) && users == old(users)
      ensures id in old(users) && old(users)[id].phoneNumber != request.phoneNumber ==>
                r == Failure(PHONE_NUMBER_FIXED) && users == old(users)
      ensures id in old(users) && old(users)[id].phoneNumber == request.phoneNumber ==> r.Success?
      ensures r.Failure? ==> users == old(users)
      ensures r.Success? ==>
                && id in old(users)
                && users == old(users)[id := old(users)[id].(firstName := request.phoneNumber,
                                                             lastName := request.lastName,
                                                             companyId := request.companyId)]
                && r.value == FromEntity(users[id], None)
    {
      if id !in users {
        return Failure(UserNotFound(id));
      }
      var user := users[id];
      if user.phoneNumber != request.phoneNumber {
        return Failure(PHONE_NUMBER_FIXED);
      }
      user := user.(firstName := request.phoneNumber);
      user := user.(lastName := request.lastName);
      user := user.(companyId := request.companyId);
      assert forall k :: k in users[id := user] ==> users[id := user][k].phoneNumber == users[k].phoneNumber;
      users := users[id := user];
      r := Success(FromEntity(user, None));
    }

    method DeleteUser(id: Id) returns (r: Result<(), Exception>)
      requires Valid()
      modifies this
      ensures Valid()
      ensures nextId == old(nextId)
      ensures id !in old(users) ==> r == Failure(UserNotFound(id)) && users == old(users)
      ensures id in old(users) ==> r == Success(()) && users == old(users) - {id}
    {
      if id !in users {
        return Failure(UserNotFound(id));
      }
      users := users - {id};
      r := Success(());
    }

    /** `getAllUsers`: every stored user once, in the store's order, each
        with its own company reply. */
    function GetAllUsers(companyRaw: Option<Id> -> Reply<RawMap>): (r: seq<UserResponse>)
      reads this
      ensures users == map[] ==> r == []
      ensures |r| == |users|
      ensures forall k :: k in users ==> exists i :: 0 <= i < |r| && KeysInOrder(users)[i] == k
      ensures forall i :: 0 <= i < |r| ==> r[i] == ListedUser(users[KeysInOrder(users)[i]], companyRaw)
    {
      AllUsers(users, companyRaw)
    }

    function GetUserRawData(id: Id): (r: Result<RawMap, Exception>)
      reads this
      ensures id !in users ==> r == Failure(UserNotFound(id))
      ensures id in users ==> r.Success? && r.value.Keys == {"id", "firstName", "lastName", "phoneNumber"}
      ensures r.Success? ==> r.value == RawData(id, users[id])
    {
      if id !in users then Failure(UserNotFound(id)) else Success(RawData(id, users[id]))
    }
  }
}
