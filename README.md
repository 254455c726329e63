# Membership bookkeeping between the company and user services

Two Spring services each own one half of a denormalised link. A company
keeps a set of employee ids (`employeeIds`); a user keeps an optional
company id (`companyId`). Neither service can write the other's store: each
asks the other through a Feign client, and the two halves are kept in step
only by the order in which the services make those calls.

This project models, in Dafny:

- `UserServiceImpl` (module `UserServiceImpl`) and `CompanyServiceImpl`
  (module `CompanyServiceImpl`). Each mutating operation is first a pure
  *step function*. It takes the store (a `map` from id to record), the next
  id the store hands out, and the replies of the remote peer, and it returns
  a `Step`: what the operation returns or throws, the store after commit or
  rollback, the remote calls it made in order, and the after-commit events.
  Then a class (`UserService`, `CompanyService`) holds the store in fields,
  keeps a ghost log of outbound calls, and has one method per operation,
  each proved to follow its step function and to keep the store invariant
  (ids match keys; phones, respectively names, are unique).
- Spring's `@Transactional(rollbackFor = Exception.class)` together with
  `@TransactionalEventListener(AFTER_COMMIT)`. A failed operation leaves the
  store as it was and delivers no event. A successful one commits the new
  store and hands on the events it published. Remote calls made before a
  rollback stay in the call log, because nothing undoes them.
  `CreateUserAndDeliver` and `CreateCompanyAndDeliver` run the listener on
  exactly the events a committed transaction hands on.
- The remote peer as an oracle. A reply is `Ok(body)`, `NullBody` or
  `Raised(Fault(status, message))`; a `void` call answers `Done` or
  `Refused(fault)`. Feign's default error decoder raises
  `FeignException.NotFound` exactly for status 404, so both the
  `catch (FeignException.NotFound e)` blocks of the user service and the
  `e.status() == 404` test of the company service read as
  `fault.IsNotFound()`.
- The two mappers, the two `GlobalExceptionHandler`s (modules `UserErrors`,
  `CompanyErrors`), `UserResponse.fromEntity`/`withError` and
  `CompanyRequest.toEntity` (modules `UserDto`, `CompanyDto`).
- The older `UserService` and `CompanyService` classes (modules
  `LegacyUserService`, `LegacyCompanyService`). They read the peer's data as
  raw maps and turn failures into placeholders and error texts.
- A composed model of both services (module `Membership`). There, each
  service's replies are computed from the other's store through its
  exception handler. The lemmas show when the two halves of a link agree and
  when they do not:
  - creating a company with employees never sets those users' company, since
    the user service's call back is refused as a duplicate (400) and turned
    into "unavailable";
  - creating a user does link both sides once its event is delivered;
  - a user of a deleted company can no longer be deleted;
  - a failed move to a missing company has already unlinked the user from
    the old one.

Java's `HashSet` iteration order is unspecified. The model walks every set
in ascending order (`Common.Elements`), so where the source's outcome depends
on that order the model shows the outcome of the ascending walk; "## Left out"
lists those places.

Where a Java value may be `null` the model uses `Option` (`None` is `null`).
A repository `save` assigns the next id of a counter kept beside the map.

## Model

| member | source | states |
|---|---|---|
| `UserDto.FromEntity` | user-service/src/main/java/example/userservice/dto/UserResponse.java:19-26 | copies id, first and last name and phone; carries the given company data; the load error is null |
| `UserDto.WithError` | user-service/src/main/java/example/userservice/dto/UserResponse.java:30-37 | copies the same four user fields; company data is null and the load error is the given text |
| `UserDto.FromEntityWithErrorAgree` | user-service/src/main/java/example/userservice/dto/UserResponse.java:19-37 | the two constructors agree on the user and differ only in which of company data and error they fill |
| `UserDto.RequestToEntity` | user-service/src/main/java/example/userservice/dto/UserRequest.java:14-16 | a user with no id holding the request's four fields |
| `UserErrors.Handle` | user-service/src/main/java/example/userservice/exception/GlobalExceptionHandler.java:14-47 | NotFound gives 404 and Validation 400 with the message; ServiceUnavailable gives 503; a Feign 404 gives 404 "Company not found", any other Feign status 500 "Error communicating with company service"; anything else 500 with the "An unexpected error occurred: " prefix |
| `UserErrors.ClientErrorsAreExactlyNotFoundAndValidation` | user-service/src/main/java/example/userservice/exception/GlobalExceptionHandler.java:14-47 | a 4xx status comes exactly from NotFound, Validation or a Feign 404; every status is 400, 404, 500 or 503 |
| `UserMapper.ToEntity` | user-service/src/main/java/example/userservice/mapper/UserMapper.java:12-22 | null for null; otherwise copies the four fields and leaves the id unset |
| `UserMapper.ToResponse` | user-service/src/main/java/example/userservice/mapper/UserMapper.java:24-36 | null for null; otherwise copies id, names and phone and attaches the company data unchanged |
| `UserMapper.UpdateEntity` | user-service/src/main/java/example/userservice/mapper/UserMapper.java:38-43 | the entity's values after the four setters: the request's fields, the old id |
| `UserMapper.UpdateEntityInPlace` | user-service/src/main/java/example/userservice/mapper/UserMapper.java:38-43 | the four setters change the entity object to exactly `UpdateEntity` of its old value |
| `UserMapper.UpdateEntityIdempotent` | user-service/src/main/java/example/userservice/mapper/UserMapper.java:38-43 | applying the update twice with one request equals applying it once |
| `UserMapper.UpdateEntityIsToEntityWithId` | user-service/src/main/java/example/userservice/mapper/UserMapper.java:38-43 | an updated entity is `toEntity` of the request with the old id: nothing else of the old entity survives |
| `UserMapper.ToEntityAgreesWithRequest` | user-service/src/main/java/example/userservice/mapper/UserMapper.java:12-22 | the mapper builds the same entity as `UserRequest.toEntity` |
| `UserServiceImpl.ValidateUserRequest` | user-service/src/main/java/example/userservice/service/UserServiceImpl.java:157-161 | a ValidationException exactly when the company id is null |
| `UserServiceImpl.ValidatePhoneNumber` | user-service/src/main/java/example/userservice/service/UserServiceImpl.java:163-167 | a ValidationException exactly when some stored user has the phone |
| `UserServiceImpl.ValidatePhoneNumberUpdate` | user-service/src/main/java/example/userservice/service/UserServiceImpl.java:169-173 | a ValidationException exactly when the phone differs from the stored one |
| `UserServiceImpl.FetchCompanyData` | user-service/src/main/java/example/userservice/service/UserServiceImpl.java:209-221 | null for a null id; fails exactly on a raised fault, with NotFound for a 404 and ServiceUnavailable otherwise; a body is passed through |
| `UserServiceImpl.UpdateCompanyAssociation` | user-service/src/main/java/example/userservice/service/UserServiceImpl.java:175-197 | equal ids make no call; otherwise the calls are a prefix of remove(old), get(new), add(new), all of them on success; success sets the new id; a failure is NotFound or ServiceUnavailable |
| `UserServiceImpl.AssociationLeavesOldCompanyFirst` | user-service/src/main/java/example/userservice/service/UserServiceImpl.java:179-188 | when the new company is missing (null body or 404), the removal from the old one has already been sent |
| `UserServiceImpl.AssociationRemovalRefused` | user-service/src/main/java/example/userservice/service/UserServiceImpl.java:179-195 | a refused removal stops after that one call; it is reported as NotFound for the new id on a 404, ServiceUnavailable otherwise |
| `UserServiceImpl.AssociationFailureKinds` | user-service/src/main/java/example/userservice/service/UserServiceImpl.java:175-197 | the change fails as ServiceUnavailable exactly when the first reply that goes wrong is a non-404 fault, as NotFound exactly when it is a 404 or a null body, and succeeds exactly when nothing goes wrong |
| `UserServiceImpl.RemoveCompanyAssociation` | user-service/src/main/java/example/userservice/service/UserServiceImpl.java:199-207 | no call without a company; otherwise one remove call, and every fault, 404 included, becomes ServiceUnavailable |
| `UserServiceImpl.CreateUserStep` | user-service/src/main/java/example/userservice/service/UserServiceImpl.java:37-51 | a null company id, then a taken phone, fail with no call; otherwise one company lookup, after the save; success exactly when that lookup does not raise, and then the new user is stored under the next id and exactly one UserCreatedEvent(id, companyId) is delivered, and the response holds the new id, the request's names and phone and the company body when the lookup returned one; any failure leaves the store and delivers nothing |
| `UserServiceImpl.UpdateUserStep` | user-service/src/main/java/example/userservice/service/UserServiceImpl.java:75-89 | NotFound for an unknown id and ValidationException for a changed phone, both with no call; otherwise success exactly when the change of company succeeds and the lookup of the new company does not throw; a failed change of company throws its error after its own calls, a failed lookup its translated fault after the association calls and the lookup; success stores the mapper's update after the association calls then the lookup, and answers the user's id, the request's fields and the company body when the lookup returned one; failure leaves the store; no event |
| `UserServiceImpl.DeleteUserStep` | user-service/src/main/java/example/userservice/service/UserServiceImpl.java:91-98 | NotFound for an unknown id; no call without a company; with one, the remove call is made first and the user is deleted exactly when it succeeds, otherwise ServiceUnavailable and the store is unchanged |
| `UserServiceImpl.AddCompanyToUserStep` | user-service/src/main/java/example/userservice/service/UserServiceImpl.java:119-136 | NotFound for an unknown user; otherwise one add call; success exactly when it succeeds, and then only the user's company id changes, to the argument; a 404 gives NotFound, any other fault ServiceUnavailable |
| `UserServiceImpl.FindByIdWithCompany` | user-service/src/main/java/example/userservice/service/UserServiceImpl.java:65-73 | NotFound for an unknown id; the one lookup only when the user has a company; success exactly unless that lookup throws, whose fault it then translates; success answers the user's fields with the company body when the lookup returned one and no company data otherwise |
| `UserServiceImpl.GetUsersByIds` | user-service/src/main/java/example/userservice/service/UserServiceImpl.java:100-117 | the keys are the requested ids that are stored; each value is the user without company data |
| `UserServiceImpl.DeliveryCalls` | user-service/src/main/java/example/userservice/service/UserServiceImpl.java:53-63 | one addEmployeeToCompany(companyId, userId) per delivered event, in order |
| `UserServiceImpl.CreateUserKeepsInvariant` | user-service/src/main/java/example/userservice/service/UserServiceImpl.java:37-51 | creating a user keeps ids matching keys and phones unique |
| `UserServiceImpl.UpdateUserKeepsInvariant` | user-service/src/main/java/example/userservice/service/UserServiceImpl.java:75-89 | updating a user keeps the store invariant |
| `UserServiceImpl.DeleteUserKeepsInvariant` | user-service/src/main/java/example/userservice/service/UserServiceImpl.java:91-98 | deleting a user keeps the store invariant |
| `UserServiceImpl.AddCompanyToUserKeepsInvariant` | user-service/src/main/java/example/userservice/service/UserServiceImpl.java:119-136 | setting a user's company keeps the store invariant |
| `UserServiceImpl.UserService.CreateUser` | user-service/src/main/java/example/userservice/service/UserServiceImpl.java:37-51 | result, new store, logged calls and delivered events are those of `CreateUserStep`; the invariant is kept |
| `UserServiceImpl.UserService.HandleUserCreatedEvent` | user-service/src/main/java/example/userservice/service/UserServiceImpl.java:53-63 | exactly one addEmployeeToCompany(companyId, userId) call, nothing thrown whatever the reply, the store untouched |
| `UserServiceImpl.UserService.CreateUserAndDeliver` | user-service/src/main/java/example/userservice/service/UserServiceImpl.java:37-63 | the listener runs once per event a committed create hands on, and never after a rollback |
| `UserServiceImpl.UserService.UpdateUser` | user-service/src/main/java/example/userservice/service/UserServiceImpl.java:75-89 | follows `UpdateUserStep` and keeps the invariant |
| `UserServiceImpl.UserService.DeleteUser` | user-service/src/main/java/example/userservice/service/UserServiceImpl.java:91-98 | follows `DeleteUserStep` and keeps the invariant |
| `UserServiceImpl.UserService.AddCompanyToUser` | user-service/src/main/java/example/userservice/service/UserServiceImpl.java:119-136 | follows `AddCompanyToUserStep` and keeps the invariant |
| `CompanyDto.FromEntity` | company-service/src/main/java/example/companyservice/dto/CompanyResponse.java:20-28 | copies id, name and budget, carries the given employee list, and the load error is null |
| `CompanyDto.RequestToEntity` | company-service/src/main/java/example/companyservice/dto/CompanyRequest.java:17-19 | a company with a null id, the request's name and budget, and its employee set, or the empty set for null |
| `CompanyDto.AllEmployeeIds` | company-service/src/main/java/example/companyservice/service/CompanyServiceImpl.java:194-196 | the union of the companies' employee sets: it contains each one and nothing else |
| `CompanyErrors.Handle` | company-service/src/main/java/example/companyservice/exception/GlobalExceptionHandler.java:14-55 | CompanyNotFound and EntityNotFound give 404; CompanyNameExists, EmployeeAlreadyExists, UserNotFound and IllegalArgument give 400; each with the message; anything else gives 500 with the "An unexpected error occurred: " prefix |
| `CompanyErrors.HandledStatuses` | company-service/src/main/java/example/companyservice/exception/GlobalExceptionHandler.java:14-55 | every status is 400, 404 or 500; a missing user is a 400, not a 404 |
| `CompanyMapper.ExtractEmployeeIds` | company-service/src/main/java/example/companyservice/mapper/CompanyMapper.java:69-72 | the requested set, or the empty set for null |
| `CompanyMapper.ToEntity` | company-service/src/main/java/example/companyservice/mapper/CompanyMapper.java:18-28 | null for null; otherwise copies name and budget, takes the extracted employee set, leaves the id unset |
| `CompanyMapper.UpdateEntity` | company-service/src/main/java/example/companyservice/mapper/CompanyMapper.java:30-38 | no change when either argument is null; otherwise name, budget and employees from the request and the old id |
| `CompanyMapper.UpdateEntityInPlace` | company-service/src/main/java/example/companyservice/mapper/CompanyMapper.java:30-38 | the three setters change the entity object to exactly `UpdateEntity` of its old value, and a null request changes nothing |
| `CompanyMapper.ToResponseWith` | company-service/src/main/java/example/companyservice/mapper/CompanyMapper.java:44-55 | null for null; copies id, name and budget; a null employee list becomes empty, otherwise it is passed through |
| `CompanyMapper.ToResponse` | company-service/src/main/java/example/companyservice/mapper/CompanyMapper.java:40-42 | null for null; no employees |
| `CompanyMapper.ToRequest` | company-service/src/main/java/example/companyservice/mapper/CompanyMapper.java:57-67 | null for null; otherwise name, budget and the employee set |
| `CompanyMapper.ToEntityToRequestRoundTrip` | company-service/src/main/java/example/companyservice/mapper/CompanyMapper.java:57-67 | `toEntity(toRequest(c))` is `c` without its id: same name, budget and employees |
| `CompanyMapper.ToRequestToEntityRoundTrip` | company-service/src/main/java/example/companyservice/mapper/CompanyMapper.java:18-28 | `toRequest(toEntity(r))` is `r` with a null employee set made empty |
| `CompanyMapper.ToResponseWithoutEmployees` | company-service/src/main/java/example/companyservice/mapper/CompanyMapper.java:40-42 | `toResponse(c)` equals `toResponse(c, null)` and `toResponse(c, [])` |
| `CompanyMapper.ToEntityAgreesWithRequest` | company-service/src/main/java/example/companyservice/mapper/CompanyMapper.java:18-28 | the mapper builds the same entity as `CompanyRequest.toEntity` |
| `CompanyMapper.UpdateEntityIsToEntityWithId` | company-service/src/main/java/example/companyservice/mapper/CompanyMapper.java:30-38 | an updated company is `toEntity` of the request with the old id, and updating twice equals updating once |
| `CompanyServiceImpl.CheckUserExists` | company-service/src/main/java/example/companyservice/service/CompanyServiceImpl.java:242-259 | true exactly for a `true` reply; a null body or a 404 is false; any other fault is rethrown |
| `CompanyServiceImpl.CheckEmployees` | company-service/src/main/java/example/companyservice/service/CompanyServiceImpl.java:74-81 | succeeds exactly when every id is confirmed, having checked each; otherwise it stopped at the first unconfirmed id, after one existence call per id up to it, throwing that id's rejection |
| `CompanyServiceImpl.CheckEmployeesStopsAt` | company-service/src/main/java/example/companyservice/service/CompanyServiceImpl.java:75-79 | for the first unconfirmed id, the loop fails with its rejection having made exactly the calls up to it |
| `CompanyServiceImpl.FetchEmployeesData` | company-service/src/main/java/example/companyservice/service/CompanyServiceImpl.java:220-232 | an empty id set gives an empty map with no call; a fault gives an empty map; a body is passed through, a null body stays null |
| `CompanyServiceImpl.Found` | company-service/src/main/java/example/companyservice/service/CompanyServiceImpl.java:236-239 | no longer than the id list; each listed user is the batch's entry for one of the ids; the entry of every id the batch holds is listed; one user per id when the batch holds them all, none when it holds none |
| `CompanyServiceImpl.FoundIn` | company-service/src/main/java/example/companyservice/service/CompanyServiceImpl.java:236-239 | over the ascending walk of a set: exactly the batch's entries for the ids, each id the batch holds listed, as many users as there are such ids; none from an empty batch |
| `CompanyServiceImpl.FoundCount` | company-service/src/main/java/example/companyservice/service/CompanyServiceImpl.java:236-239 | walking a set, one user is listed per id the batch holds |
| `CompanyServiceImpl.FetchEmployeesForCompany` | company-service/src/main/java/example/companyservice/service/CompanyServiceImpl.java:234-240 | a null batch body throws a NullPointerException; a batch fault gives an empty list; otherwise exactly the batch's entries for the ids: every id the batch holds listed, as many users as such ids, nothing else |
| `CompanyServiceImpl.Enriched` | company-service/src/main/java/example/companyservice/service/CompanyServiceImpl.java:201-213 | the company's own fields, and as employees exactly the batch's entries for the company's ids: every such id listed, as many users as such ids, nothing else; none from an empty batch |
| `CompanyServiceImpl.EnrichAll` | company-service/src/main/java/example/companyservice/service/CompanyServiceImpl.java:201-214 | one response per company, in the same order, with its id, name and budget, and as employees exactly the shared batch's entries for that company's ids, counted as above; every employee list empty when the batch is empty |
| `CompanyServiceImpl.EnrichCompaniesWithEmployees` | company-service/src/main/java/example/companyservice/service/CompanyServiceImpl.java:189-218 | an empty list for no companies; fails only on a null batch body; otherwise one response per company in the same order with its fields, and as employees exactly the single batch's entries for that company's ids (every such id listed, as many users as such ids, nothing else); empty lists after a batch fault |
| `CompanyServiceImpl.CreateCompanyStep` | company-service/src/main/java/example/companyservice/service/CompanyServiceImpl.java:63-94 | a taken name fails before any call; otherwise the requested ids are checked in turn as `CheckEmployees` states, a rejection throwing its error after exactly the check calls, and a passed check followed by the read-back batch call; success exactly when the name is free, every requested id is confirmed and the read-back batch is not null; then the request is stored under the next id, the response holds the new id, the request's name and budget and the employees read back, and a CompanyCreatedEvent(id, requested ids) is delivered exactly when that set is non-empty; failure leaves the store and delivers nothing |
| `CompanyServiceImpl.SaveCompanyStep` | company-service/src/main/java/example/companyservice/service/CompanyServiceImpl.java:83-93 | the save under the next id with its pending events, rolled back with a NullPointerException when the read-back batch body is null |
| `CompanyServiceImpl.UpdateCompanyStep` | company-service/src/main/java/example/companyservice/service/CompanyServiceImpl.java:112-128 | CompanyNotFound for an unknown id; a name conflict exactly when the name changes to one that is taken; without a conflict, success exactly unless the read-back batch body is null, which throws a NullPointerException; success replaces name, budget and employees, keeps the rest of the store, makes the batch call and answers the request's fields with the employees read back |
| `CompanyServiceImpl.DeleteCompanyStep` | company-service/src/main/java/example/companyservice/service/CompanyServiceImpl.java:130-139 | CompanyNotFound for an unknown id; otherwise the company is removed; no remote call |
| `CompanyServiceImpl.AddEmployeeToCompanyStep` | company-service/src/main/java/example/companyservice/service/CompanyServiceImpl.java:141-158 | CompanyNotFound for a missing company and EmployeeAlreadyExists for a member, both before any call; otherwise one existence call, success exactly when it confirms the user, adding the id to the set, and otherwise the rejection: the propagated fault, or UserNotFound for a false, null or 404 answer |
| `CompanyServiceImpl.RemoveEmployeeFromCompanyStep` | company-service/src/main/java/example/companyservice/service/CompanyServiceImpl.java:161-174 | CompanyNotFound for a missing company; otherwise success, the set minus the id, unchanged for a non-member; no remote call |
| `CompanyServiceImpl.GetCompanyById` | company-service/src/main/java/example/companyservice/service/CompanyServiceImpl.java:50-61 | CompanyNotFound for an unknown id; otherwise one batch call for a non-empty employee set, success exactly when the employees load, a NullPointerException otherwise, and a response with the company's id, name, budget and its loaded employees |
| `CompanyServiceImpl.GetCompaniesByIds` | company-service/src/main/java/example/companyservice/service/CompanyServiceImpl.java:176-187 | the stored companies among the ids, each with its id, name, budget and loaded employees, unless loading one of them throws a NullPointerException |
| `CompanyServiceImpl.DeliveryCalls` | company-service/src/main/java/example/companyservice/service/CompanyServiceImpl.java:96-111 | one addCompanyToUser call per employee id of the event |
| `CompanyServiceImpl.DeliveryCallsEachEmployeeOnce` | company-service/src/main/java/example/companyservice/service/CompanyServiceImpl.java:102-110 | the listener calls addCompanyToUser for each employee of the event, for no one else, never twice, always with the event's company |
| `CompanyServiceImpl.CreateCompanyKeepsInvariant` | company-service/src/main/java/example/companyservice/service/CompanyServiceImpl.java:63-94 | creating a company keeps ids matching keys and names unique |
| `CompanyServiceImpl.InsertKeepsInvariant` | company-service/src/main/java/example/companyservice/service/CompanyServiceImpl.java:68-83 | saving under a fresh id with a free name keeps the invariant |
| `CompanyServiceImpl.UpdateCompanyKeepsInvariant` | company-service/src/main/java/example/companyservice/service/CompanyServiceImpl.java:112-128 | updating a company keeps names unique |
| `CompanyServiceImpl.DeleteCompanyKeepsInvariant` | company-service/src/main/java/example/companyservice/service/CompanyServiceImpl.java:130-139 | deleting a company keeps the invariant |
| `CompanyServiceImpl.MembershipChangesKeepInvariant` | company-service/src/main/java/example/companyservice/service/CompanyServiceImpl.java:141-174 | adding or removing an employee keeps the invariant |
| `CompanyServiceImpl.CompanyService.CreateCompany` | company-service/src/main/java/example/companyservice/service/CompanyServiceImpl.java:63-94 | result, new store, logged calls and events are those of `CreateCompanyStep`; the invariant is kept |
| `CompanyServiceImpl.CompanyService.CreateUnderFreeName` | company-service/src/main/java/example/companyservice/service/CompanyServiceImpl.java:72-93 | with the name free, result, new store, logged calls and events are those of `CreateCompanyStep` |
| `CompanyServiceImpl.CompanyService.SaveCompany` | company-service/src/main/java/example/companyservice/service/CompanyServiceImpl.java:83-93 | follows `SaveCompanyStep` |
| `CompanyServiceImpl.CompanyService.CheckEmployeesExist` | company-service/src/main/java/example/companyservice/service/CompanyServiceImpl.java:74-81 | the loop returns what `CheckEmployees` does and logs exactly its calls |
| `CompanyServiceImpl.CompanyService.HandleCompanyCreatedEvent` | company-service/src/main/java/example/companyservice/service/CompanyServiceImpl.java:96-111 | one call per employee id, a refusal not stopping the rest; no call for an empty set; the store untouched |
| `CompanyServiceImpl.CompanyService.CreateCompanyAndDeliver` | company-service/src/main/java/example/companyservice/service/CompanyServiceImpl.java:63-111 | the listener runs only for the event of a committed create |
| `CompanyServiceImpl.CompanyService.UpdateCompany` | company-service/src/main/java/example/companyservice/service/CompanyServiceImpl.java:112-128 | follows `UpdateCompanyStep` and keeps the invariant |
| `CompanyServiceImpl.CompanyService.DeleteCompany` | company-service/src/main/java/example/companyservice/service/CompanyServiceImpl.java:130-139 | follows `DeleteCompanyStep` and keeps the invariant |
| `CompanyServiceImpl.CompanyService.AddEmployeeToCompany` | company-service/src/main/java/example/companyservice/service/CompanyServiceImpl.java:141-158 | follows `AddEmployeeToCompanyStep` and keeps the invariant |
| `CompanyServiceImpl.CompanyService.RemoveEmployeeFromCompany` | company-service/src/main/java/example/companyservice/service/CompanyServiceImpl.java:161-174 | follows `RemoveEmployeeFromCompanyStep` and keeps the invariant |
| `LegacyCompanyService.Entry` | company-service/src/main/java/example/companyservice/service/CompanyService.java:37-46 | the reply's map, null for a null reply, the {id, error "Failed to load user data"} placeholder for a failure |
| `LegacyCompanyService.EmployeesData` | company-service/src/main/java/example/companyservice/service/CompanyService.java:123-142 | empty once any read fails; otherwise exactly the ids whose reply is a map carrying "id", mapped to that reply |
| `LegacyCompanyService.EmployeeList` | company-service/src/main/java/example/companyservice/service/CompanyService.java:113-116 | one entry per employee id: its data, or the "Employee data not available" placeholder |
| `LegacyCompanyService.EnrichCompaniesWithEmployees` | company-service/src/main/java/example/companyservice/service/CompanyService.java:98-121 | one response per company, in order, with its fields; an empty list for a company without employees |
| `LegacyCompanyService.RawData` | company-service/src/main/java/example/companyservice/service/CompanyService.java:90-94 | exactly the keys id, name and budget, with the company's values |
| `LegacyCompanyService.EmployeesDataOfCompleteRead` | company-service/src/main/java/example/companyservice/service/CompanyService.java:128-141 | a loop that met no failure and kept exactly the replies carrying an id produced `EmployeesData` |
| `LegacyCompanyService.EmployeesDataOfFailedRead` | company-service/src/main/java/example/companyservice/service/CompanyService.java:136-139 | one failed read empties the whole result |
| `LegacyCompanyService.InOrder` | company-service/src/main/java/example/companyservice/service/CompanyService.java:24-27 | every stored company once, in key order |
| `LegacyCompanyService.LegacyCompanyService.FindById` | company-service/src/main/java/example/companyservice/service/CompanyService.java:29-51 | EntityNotFound for a missing company; otherwise its fields, no load error, and exactly one entry per employee id, a failed read becoming a placeholder |
| `LegacyCompanyService.LegacyCompanyService.CreateCompany` | company-service/src/main/java/example/companyservice/service/CompanyService.java:53-60 | a taken name is an IllegalArgument with no save; otherwise the request's entity is stored under the next id |
| `LegacyCompanyService.LegacyCompanyService.UpdateCompany` | company-service/src/main/java/example/companyservice/service/CompanyService.java:62-77 | EntityNotFound for an unknown id; a conflict exactly when the name changes to a taken one; without a conflict it succeeds, replacing name, budget and employees; a failure leaves the store |
| `LegacyCompanyService.LegacyCompanyService.DeleteCompany` | company-service/src/main/java/example/companyservice/service/CompanyService.java:79-84 | EntityNotFound for a missing id; otherwise the record is removed |
| `LegacyCompanyService.LegacyCompanyService.GetCompanyRawData` | company-service/src/main/java/example/companyservice/service/CompanyService.java:86-95 | EntityNotFound for a missing id; otherwise exactly the keys id, name and budget |
| `LegacyCompanyService.LegacyCompanyService.FetchEmployeesData` | company-service/src/main/java/example/companyservice/service/CompanyService.java:123-142 | the loop computes `EmployeesData` |
| `LegacyCompanyService.LegacyCompanyService.ReadEach` | company-service/src/main/java/example/companyservice/service/CompanyService.java:128-141 | the loop fails exactly when some read raises, and then returns nothing; it keeps every reply carrying an id and nothing else |
| `LegacyCompanyService.LegacyCompanyService.GetAllCompanies` | company-service/src/main/java/example/companyservice/service/CompanyService.java:24-27 | every company enriched with the employee data of all of them read together |
| `LegacyUserService.WithCompanyData` | user-service/src/main/java/example/userservice/service/UserService.java:46-54 | the user's fields with the company data for a reply, `withError` with the given text for a failure |
| `LegacyUserService.RawData` | user-service/src/main/java/example/userservice/service/UserService.java:109-112 | exactly the keys id, firstName, lastName and phoneNumber, with the user's values |
| `LegacyUserService.ListedUser` | user-service/src/main/java/example/userservice/service/UserService.java:89-97 | the user's own fields; `fromEntity` with the company data as read, `fromEntity` with no data for a null body, or `withError` "Company data unavailable" when the read throws |
| `LegacyUserService.AllUsers` | user-service/src/main/java/example/userservice/service/UserService.java:78-104 | empty for an empty store; otherwise one response per user, in key order: `fromEntity` with the data read, `fromEntity` with none for a null body, `withError` "Company data unavailable" for a failed read |
| `LegacyUserService.LegacyUserService.CreateUser` | user-service/src/main/java/example/userservice/service/UserService.java:25-32 | a taken phone is an IllegalArgument with no save; otherwise the request's entity is stored under the next id |
| `LegacyUserService.LegacyUserService.FindByIdWithCompany` | user-service/src/main/java/example/userservice/service/UserService.java:34-55 | EntityNotFound for a missing user; no call and no company without a company id; `fromEntity` with the data read, or with none for a null body; a failure gives `withError` with the "Failed to load company data: " prefix |
| `LegacyUserService.LegacyUserService.UpdateUser` | user-service/src/main/java/example/userservice/service/UserService.java:57-69 | EntityNotFound for an unknown id; IllegalArgument when the phone differs; otherwise it succeeds, firstName becoming the request's phone and lastName and companyId the request's; a failure leaves the store |
| `LegacyUserService.LegacyUserService.DeleteUser` | user-service/src/main/java/example/userservice/service/UserService.java:71-76 | EntityNotFound for a missing id; otherwise the user is removed |
| `LegacyUserService.LegacyUserService.GetAllUsers` | user-service/src/main/java/example/userservice/service/UserService.java:78-104 | empty for an empty store; one response per stored user, every user listed, in key order, each as `ListedUser` builds it from that user's own company reply |
| `LegacyUserService.LegacyUserService.GetUserRawData` | user-service/src/main/java/example/userservice/service/UserService.java:106-113 | EntityNotFound for a missing id; otherwise exactly the four keys |
| `Membership.AckOf` | user-service/src/main/java/example/userservice/client/CompanyClient.java:15-19 | a `void` Feign call returns normally exactly for a 2xx status, and otherwise raises a fault with the status and body |
| `Membership.UserPeerOf` | company-service/src/main/java/example/companyservice/client/UserClient.java:21-22 | the user service confirms exactly the stored users |
| `Membership.CreatedCompanyDoesNotReachItsEmployees` | company-service/src/main/java/example/companyservice/service/CompanyServiceImpl.java:96-111 | after a company is created with employees, the call back for a stored employee is refused with 400 EmployeeAlreadyExists, the user side answers ServiceUnavailable and the user's company is unchanged |
| `Membership.CreatedUserIsLinked` | user-service/src/main/java/example/userservice/service/UserServiceImpl.java:53-63 | a created user's event makes both records agree on the link |
| `Membership.UserForMissingCompanyIsRolledBack` | user-service/src/main/java/example/userservice/service/UserServiceImpl.java:44-48 | a user for a missing company is rolled back with NotFound, nothing stored, no event |
| `Membership.UserOfDeletedCompanyCannotBeDeleted` | user-service/src/main/java/example/userservice/service/UserServiceImpl.java:199-207 | once its company is deleted, the removal answers 404 and deleting the user fails with ServiceUnavailable |
| `Membership.FailedMoveUnlinksUser` | user-service/src/main/java/example/userservice/service/UserServiceImpl.java:175-197 | a move to a missing company fails but has already removed the user from the old company, which no longer lists it, while the user still names it |

## Left out

- HTTP routing, the controllers and JSON serialisation: the controllers only forward to the services. `Membership` assumes a `void` endpoint answers 204, as both controllers do.
- The Feign client interfaces and the network: each reply is a parameter (an oracle), and the calls made are kept in a ghost log.
- Spring Data repositories: each store is an in-memory `map` with a counter for new ids. Paging and sorting (`getAllUsers(Pageable)`, `getAllCompanies(Pageable)`, `findAllWithEmployees`) are not modelled, so neither is the paged `getAllUsers`/`getAllCompanies` of the `*Impl` classes; the older classes' unpaged `getAllUsers`/`getAllCompanies` are modelled.
- A failure of the store itself (a `DataAccessException`), and the legacy `getAllUsers`' wrapping of such a failure into a `RuntimeException`: the in-memory store does not fail.
- Logging, which has no observable effect.
- Concurrency between requests, timeouts and races between the services: each operation runs alone.
- Bean Validation (`@NotBlank`, `@Positive`, `@NotNull`, the phone pattern): it runs before the services are called.
- `UserMapper.UpdateEntityInPlace`: it takes a non-null entity; with a `null` entity the source's first setter throws a `NullPointerException`.
- `LegacyCompanyService.LegacyCompanyService.UpdateCompany`: the source calls `setEmployeeIds(request.employeeIds())`, which puts `null` into the entity for a request without ids. The model stores an empty set, which is what the `@ElementCollection` reads back after the save.
- GetCompaniesByIds: the ghost call log does not record its batch calls. `findAllById` returns the companies in an unspecified order and the stream stops at the first `NullPointerException`, so which batches were sent before a failure is not determined by the source.
- LegacyCompanyService.Kept: a raw value has no `null`, so a map with a present but `null` `"id"`, which `employee.get("id") != null` drops, cannot be written; every `"id"` entry counts as present.
- Iteration order of a `HashSet` or a repository result: Java leaves it unspecified; the model walks every set and store in ascending order of its ids (`Common.Elements`, `Common.KeysInOrder`). For the order of the remote calls and of listed results this is only a choice of one order; for `createCompany` it also decides the outcome: the existence checks stop at the first rejected id of the ascending walk, so which exception is thrown (`UserNotFoundException` or the user service's `FeignException`) and how many `existsById` calls are made hold for that walk only. With ids {1, 2}, `existsById(1)` answering false and `existsById(2)` failing with status 500, the model throws `UserNotFoundException(1)` after one call, while a set that yields 2 first throws the `FeignException`.
- The ids a store hands out stay used after a rollback in a real database; the model only advances the counter on commit.
- `existsById` (user side) is modelled as `UserServiceImpl.UserExists` and `Membership.UserPeerOf`; it is a plain map lookup and has no contract of its own.
