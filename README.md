# Job board API: a Dafny model

This project models the core of a small ASP.NET job-board API. The API keeps
job offers and the applications candidates send to them. It covers:

- the two-table store, with the cascade that deletes an offer's applications;
- the repositories that read and change the store;
- the services that wrap every repository call in a response envelope
  `{ IsSuccess, Message, Data }`;
- the controllers that turn an envelope into an HTTP status;
- the validation attributes of the job-offer DTOs;
- the validator for the initial users seeded at start-up;
- the role-administration controller over ASP.NET Identity.

The main invariant is referential integrity: no application references an
offer that does not exist. The model proves that every operation that changes
the store preserves it. Deleting an offer has the cascade. Adding an
application goes through an offer lookup first.

## Layout

- `envelopes.dfy` (`Envelopes`): `Option`, the response envelope, and the
  outcome of a call. An outcome is an envelope that was returned, or an
  exception that propagated.
- `models.dfy` (`Models`): the `JobOffer` and `JobApplication` entities.
- `text.dfy` (`Text`) covers three .NET string primitives:
  - white space, as `Char.IsWhiteSpace` and regex `\s` define it;
  - `string.Length` in UTF-16 code units;
  - `string.Trim`.
- `collections.dfy` (`Collections`): generic map and set lemmas.
- `job_offer_base_dto.dfy` (`JobOfferBase`): the attribute constraints shared by
  the create and update DTOs.
- `dtos.dfy` (`Dtos`): the DTOs and the field copies AutoMapper performs.
- `app_db_context.dfy` (`Data`): the database class, the navigation relation,
  the cascade, and the no-orphans invariant.
- `repositories.dfy` (`Repositories`): the two repository classes. They hold
  the database context and change its tables in place.
- `services.dfy` (`Services`): the two service classes.
- `controllers.dfy` (`Controllers`): the two REST controllers.
- `roles_controller.dfy` (`Roles`): the Identity store and `RolesController`.
- `initial_user_validator.dfy` (`Validations`): `InitialUserValidator.Validate`.

Inputs that come from outside the program become parameters:

- A `fault: bool` per store call says whether the database call throws.
- `now` is the value of `DateTime.UtcNow`.
- `created`, `deleted` and the `IdentityResult` values give the outcome of an
  Identity call.
- `newId` is the Guid Identity gives a new role.
- `modelValid` is the model-binding verdict for bodies whose validation
  attributes are not modelled.
- `parsesAsUserRole` is `Enum.TryParse<UserRole>`.

## Model

| member | source | states |
|---|---|---|
| Data.CascadeRemovesExactlyDependants | API/Data/AppDbContext.cs:21-25 | After the cascade for offer `o`, an application remains iff its JobOfferId is not `o`. The survivors are unchanged. `o` has no applications left, and every other offer keeps exactly its applications. |
| Data.CascadeRemovesAsManyAsDependants | API/Data/AppDbContext.cs:21-25 | The cascade deletes exactly as many rows as the offer has applications. |
| Data.CascadeKeepsNoOrphans | API/Data/AppDbContext.cs:21-25 | Deleting an offer together with its cascade keeps the no-orphans invariant. |
| Data.DeleteWithoutCascadeOrphans | API/Data/AppDbContext.cs:25 | Without the cascade, deleting an offer that has applications breaks the invariant. |
| Data.InsertKeepsNoOrphansIffOfferExists | API/Data/AppDbContext.cs:22-24 | Inserting an application keeps the invariant iff the offer it references exists. |
| Data.KeyedOffersCount | API/Models/JobOffer.cs:7-8 | A table keyed by Id holds one row per key. A row is stored iff it sits under its own Id. Two stored offers with one Id are the same offer. |
| Data.KeyedApplicationsCount | API/Models/JobApplication.cs:7-8 | The same three facts for the applications table. |
| Repositories.CounterAfter | API/Repositories/JobOfferRepository.cs:92-94 | After an insert, the identity counter is never lower than before and is above the key just used. |
| Repositories.JobOfferRepository.GetAllJobOffers | API/Repositories/JobOfferRepository.cs:24-36 | Throws iff the store fails. Otherwise returns exactly the stored offers, one per row. |
| Repositories.JobOfferRepository.GetJobOfferById | API/Repositories/JobOfferRepository.cs:43-58 | Throws iff the store fails. Otherwise returns an offer iff one with that Id is stored, and then it is that offer. A missing Id gives null, not an exception. |
| Repositories.JobOfferRepository.GetJobOfferWithApplicationsById | API/Repositories/JobOfferRepository.cs:65-81 | Finds the same offer as GetJobOfferById. It comes with exactly the applications whose JobOfferId is that offer's Id. |
| Repositories.JobOfferRepository.AddJobOffer | API/Repositories/JobOfferRepository.cs:87-101 | Succeeds iff the store does not fail and the Id is 0 or unused. Id 0 is replaced by the fresh counter value. Exactly one row is added, the other table is unchanged, and a lookup by the new Id returns the stored offer. |
| Repositories.JobOfferRepository.UpdateJobOffer | API/Repositories/JobOfferRepository.cs:107-130 | A missing Id throws and changes nothing. Otherwise it overwrites exactly Title, Description, Location, Salary and ContractType. Id, DatePosted, the other offers, the applications and the counters are unchanged. |
| Repositories.JobOfferRepository.DeleteJobOffer | API/Repositories/JobOfferRepository.cs:136-158 | A missing Id is a no-op. An existing offer is removed, the cascade removes its applications, and a later lookup returns null. The no-orphans invariant is preserved. |
| Repositories.JobApplicationRepository.AddJobApplication | API/Repositories/JobApplicationRepository.cs:23-37 | Succeeds iff the store does not fail, the Id is 0 or unused, and the referenced offer exists. An application naming a missing offer is refused by the database's foreign key and rethrown, with nothing changed. On success exactly one application is stored under the fresh Id, and a lookup returns it. The no-orphans invariant is always preserved. |
| Repositories.JobApplicationRepository.DeleteJobApplication | API/Repositories/JobApplicationRepository.cs:44-66 | A missing Id is a no-op. Otherwise only that application is removed, offers are untouched, a later lookup returns null, and the invariant is preserved. |
| Repositories.JobApplicationRepository.GetAllJobApplications | API/Repositories/JobApplicationRepository.cs:72-84 | Throws iff the store fails. Otherwise returns exactly the stored applications, one per row. |
| Repositories.JobApplicationRepository.GetJobApplicationById | API/Repositories/JobApplicationRepository.cs:91-111 | Throws iff the store fails. Otherwise returns an application iff one with that Id is stored, and then it is that application. |
| Services.OfferDtosOfTable | API/Services/JobOfferService.cs:49 | Mapping the stored offers gives one DTO per row. A DTO is in the result iff it is the image of the offer stored under its Id. |
| Services.ApplicationDtosOfTable | API/Services/JobOfferService.cs:285 | Mapping a set of stored applications gives one DTO per application, each the image of a member of the set. |
| Services.JobOfferService.GetAllJobOffers | API/Services/JobOfferService.cs:29-69 | Never throws, because the `throw;` after `return` is unreachable. A store failure gives `false` with the retrieval-error message. Otherwise it reports success: the "none available" message and empty data for an empty table, or one DTO per stored offer. |
| Services.JobOfferService.GetJobOfferById | API/Services/JobOfferService.cs:76-112 | Never throws. A missing Id gives `false` with no data. A present Id gives `true` with the mapped offer. A store failure gives `false` with the internal-error message and no data. |
| Services.JobOfferService.AddJobOffer | API/Services/JobOfferService.cs:120-145 | Rethrows a store failure and leaves the store unchanged. Otherwise it stores exactly one new offer under the fresh Id. The DTO fields become the offer's fields, and DatePosted is `now`. It returns `true` with Data mirroring the offer, including its Id. |
| Services.JobOfferService.UpdateJobOffer | API/Services/JobOfferService.cs:152-196 | A missing Id gives `false` with no data, and the store is unchanged. Otherwise the five DTO fields are copied, Id and DatePosted are kept, and it returns `true` with the updated offer. Both store failures are rethrown with nothing changed. |
| Services.JobOfferService.DeleteJobOffer | API/Services/JobOfferService.cs:203-242 | Never throws, and Data is always null. A missing Id gives `false` with the store unchanged. An existing Id removes the offer and its applications and gives `true`. A failure gives `false` with the deletion-error message and nothing changed. The invariant is preserved. |
| Services.JobOfferService.GetJobApplicationsByJobOfferId | API/Services/JobOfferService.cs:249-293 | A missing offer gives `false` with empty, not null, data. A childless offer gives `true` with empty data. Otherwise it gives `true` with exactly that offer's applications. A store failure is rethrown. |
| Services.JobApplicationService.GetAllJobApplications | API/Services/JobApplicationService.cs:32-65 | Rethrows a store failure. Otherwise it reports success with one DTO per stored application. An empty table has its own message; a non-empty one gets the offers' success message, as the source has it. |
| Services.JobApplicationService.GetJobApplicationById | API/Services/JobApplicationService.cs:72-108 | Never throws. A missing Id gives `false` with no data. A present Id gives `true` with the mapped application, whose CandidateName is the stored one. |
| Services.JobApplicationService.AddJobApplication | API/Services/JobApplicationService.cs:117-169 | Never throws. A missing offer gives `false` with no data and no insert. With an existing offer it stores exactly one application that refers to the looked-up offer, and returns `true` with CandidateName equal to the input. A successful add leaves the new row's offer present, and the invariant holds afterwards. |
| Services.JobApplicationService.DeleteJobApplication | API/Services/JobApplicationService.cs:175-215 | Never throws, and Data is always null. A missing Id gives `false` with no delete. An existing Id removes exactly that application and gives `true`. |
| Controllers.OkOrServerError | API/Controllers/JobOffersController.cs:44-46 | A returned envelope gives 200 carrying it unchanged. An exception gives the 500 answer. |
| Controllers.NotFoundUnlessFound | API/Controllers/JobOffersController.cs:82-84 | The status is 404 iff the envelope reports failure with null data, and 200 iff it came back otherwise. The body is the envelope itself. An exception gives 500. |
| Controllers.CreatedOrServerError | API/Controllers/JobOffersController.cs:128-130 | The status is 201 iff an envelope with data was returned, and the route id is `Data.Id`. In every other case it is the 500 answer. |
| Controllers.JobOffersController.GetAllJobOffers | API/Controllers/JobOffersController.cs:38-58 | Always 200 with the service's envelope unchanged. IsSuccess is false iff the store failed. |
| Controllers.JobOffersController.GetJobOfferById | API/Controllers/JobOffersController.cs:75-95 | 404 iff the offer is missing or the store failed, otherwise 200 with the mapped offer. |
| Controllers.JobOffersController.CreateJobOffer | API/Controllers/JobOffersController.cs:110-142 | A body failing the DTO predicate gives 400 with nothing changed and no service call. Otherwise it gives 201 with the new offer's Id as route id, or 500 when the store failed. |
| Controllers.JobOffersController.UpdateJobOffer | API/Controllers/JobOffersController.cs:161-194 | An invalid body gives 400 with no change. A missing offer gives 404 with no change. An existing offer gives 200 with the updated offer, exactly the five fields overwritten. A store failure gives 500. |
| Controllers.JobOffersController.DeleteJobOffer | API/Controllers/JobOffersController.cs:211-235 | 200 iff the offer existed and no store call failed. On 200 the offer and its applications are gone. Any other answer is 404 with nothing changed. The invariant is preserved. |
| Controllers.JobOffersController.GetJobApplicationsByJobOfferId | API/Controllers/JobOffersController.cs:252-273 | A missing offer gives 404, although the data is an empty list, not null. An existing offer gives 200 with as many DTOs as it has applications. A store failure gives 500. |
| Controllers.JobApplicationsController.GetAllJobApplications | API/Controllers/JobApplicationsController.cs:37-57 | 200 with the envelope unchanged, holding one DTO per application. A store failure gives 500. |
| Controllers.JobApplicationsController.GetJobApplicationById | API/Controllers/JobApplicationsController.cs:74-95 | 404 iff the application is missing or the store failed, otherwise 200 with the mapped application. |
| Controllers.JobApplicationsController.CreateJobApplication | API/Controllers/JobApplicationsController.cs:112-147 | An invalid body gives 400 with no service call. A missing offer gives 404, not the 400 the doc comment at line 103 promises, and so does any store failure, with nothing changed. Otherwise it gives 201 with the new Id as route id, exactly one row is added, and the invariant is preserved. |
| Controllers.JobApplicationsController.DeleteJobApplication | API/Controllers/JobApplicationsController.cs:164-187 | 200 iff the application existed and no store call failed. On 200 only that row is gone. Any other answer is 404 with nothing changed. |
| JobOfferBase.FailingFields | API/Dtos/JobOffer/Base/JobOfferBaseDto.cs:10-51 | Each field fails iff its own attribute rejects it. Title, Description, Location and ContractType must be non-blank and at least 5 long. Salary must be at least 1. |
| JobOfferBase.ValidIffAllConstraintsHold | API/Dtos/JobOffer/Base/JobOfferBaseDto.cs:15-50 | The DTO is valid iff all five constraints hold, each one spelled out: the four text fields non-blank with a UTF-16 length of at least 5, and Salary at least 1. |
| JobOfferBase.TextConstraintOnBasicPlane | API/Dtos/JobOffer/Base/JobOfferBaseDto.cs:15-18 | For text without supplementary-plane characters, a text field passes iff it has at least 5 characters and at least one of them is not white space. |
| JobOfferBase.BlankTitleRejected | API/Dtos/JobOffer/Base/JobOfferBaseDto.cs:15-18 | Every whitespace-only title is refused, however long it is, and Title is among the failing fields. |
| Dtos.OfferDtosCount | API/Mappings/JobMappingsProfile.cs:13 | Mapping a set of offers with distinct Ids gives as many DTOs as offers. |
| Dtos.ApplicationDtosCount | API/Mappings/JobMappingsProfile.cs:17 | Mapping a set of applications with distinct Ids gives as many DTOs as applications. |
| Text.Utf16Length | API/Dtos/JobOffer/Base/JobOfferBaseDto.cs:17 | The UTF-16 length is between the number of characters and twice it, and equals it for text without supplementary-plane characters. |
| Text.LeadingWhiteSpace | API/Configurations/InitialUsers/Validators/InitialUserValidator.cs:34 | The count of leading characters that `Trim` cuts off. All of them are white space, and the next character is not. |
| Text.LengthWithoutTrailingWhiteSpace | API/Configurations/InitialUsers/Validators/InitialUserValidator.cs:34 | The length of the text before its trailing white space. Everything after it is white space, and the character before it is not. |
| Text.TrimIsMaximalSlice | API/Configurations/InitialUsers/Validators/InitialUserValidator.cs:34 | `Trim` returns a contiguous piece of the input. What it cuts off on either side is white space, and the piece neither starts nor ends with white space. |
| Text.BlankIffTrimsToEmpty | API/Configurations/InitialUsers/Validators/InitialUserValidator.cs:31-34 | A string is whitespace-only iff it trims to the empty string. |
| Validations.EmailBodyIffShape | API/Configurations/InitialUsers/Validators/InitialUserValidator.cs:16 | `[^@\s]+@[^@\s]+\.[^@\s]+` matches a whole string iff it has no white space, exactly one '@' and that not first, and a '.' after it with at least one character on each side. |
| Validations.EmailPatternAccepts | API/Configurations/InitialUsers/Validators/InitialUserValidator.cs:16-17 | The anchored pattern accepts exactly a well-shaped address, or one followed by a single final newline, because `$` also matches before one. |
| Validations.EmailPatternAcceptsExamples | API/Configurations/InitialUsers/Validators/InitialUserValidator.cs:16 | Accepted: "hola@domain.com", a dotted domain "a@b.c.d", and "a@b.c" followed by a newline. |
| Validations.EmailPatternRefusesExamples | API/Configurations/InitialUsers/Validators/InitialUserValidator.cs:16 | Refused: no dot after the '@', an empty local part, an empty label before the dot, two '@'s, and white space. |
| Validations.Validate | API/Configurations/InitialUsers/Validators/InitialUserValidator.cs:9-38 | A null or blank Username gives false. Validate throws iff one of two things holds. Either the Email is null after a valid Username, or the Password is null once Username, Email and FullName have passed. The thrown field is named. |
| Validations.ValidateIsConjunction | API/Configurations/InitialUsers/Validators/InitialUserValidator.cs:9-38 | Validate returns true iff every check passes, each stated on its own terms. Username is not blank. Email is well shaped, optionally with a final newline. FullName is not blank. Password is at least 8 long with an upper-case letter, a lower-case letter and a digit. Role is not blank and its trimmed text parses as a UserRole. |
| Validations.WeakPasswordNeverAccepted | API/Configurations/InitialUsers/Validators/InitialUserValidator.cs:24-28 | A password shorter than 8, or lacking A-Z, a-z or a digit, never validates. |
| Validations.UnknownRoleNeverAccepted | API/Configurations/InitialUsers/Validators/InitialUserValidator.cs:31-35 | A blank role, or one whose trimmed text is not a UserRole, never validates. |
| Validations.MalformedEmailRefused | API/Configurations/InitialUsers/Validators/InitialUserValidator.cs:16-17 | After a valid Username, an ill-shaped Email returns false, whatever the later fields are. |
| Roles.WithoutRole | API/Controllers/RolesController.cs:64 | Deleting a role keeps every user. It takes the role's name out of each user's roles and leaves the other roles in place. |
| Roles.RoleResponsesDescribeEveryRole | API/Controllers/RolesController.cs:47-52 | The role list has exactly one entry per role. Each entry carries the role's Id and Name and the number of users in that role. |
| Roles.RemovingRoleRemovesItsName | API/Controllers/RolesController.cs:64 | Since role names are unique, removing a role removes exactly its name from the names in use. |
| Roles.RolesController.CreateRole | API/Controllers/RolesController.cs:28-41 | An invalid name gives 400 with the ModelState. An existing name gives 400 "Rol already exits". A failed create gives 400 "Role created failed". In all three cases nothing changes. Otherwise it gives 200 and exactly that role is added under the new Id. The status is 200 iff all three checks pass. |
| Roles.RolesController.GetRoles | API/Controllers/RolesController.cs:45-55 | Always 200. It gives one entry per role, with the role's name and its number of users. |
| Roles.RolesController.DeleteRole | API/Controllers/RolesController.cs:58-69 | An unknown Id gives 404 and changes nothing. A failed delete gives 400 and changes nothing. Otherwise the role is gone, no user holds it, and the other roles and users are kept. |
| Roles.RolesController.AssignRole | API/Controllers/RolesController.cs:72-109 | An unknown user or role gives 404 with no change. A user already holding the role gets 200 with no change. A failed removal of the current roles gives 400 with its error, or the fallback text, and the new role is not added. Otherwise all current roles are removed. On success the user holds exactly the new role. If the add fails, the user is left with no role at all. Other users are untouched throughout. |

## Left out

- Logging, the `async`/`await` machinery and concurrency are left out. Every call is sequential, so the race between the offer lookup and the insert of an application is not modelled.
- Entity Framework change tracking, the navigation properties as object graphs, and AutoMapper itself are left out. The tables are maps, and the mappings are the explicit field-copy functions of `Dtos`.
- The store is the SQLite database the program configures (API/Program.cs:34), whose foreign key refuses an application for a missing offer and whose `ON DELETE CASCADE` removes an offer's applications. The repository tests run on EF Core's in-memory provider, which does not check foreign keys; that provider is not modelled.
- `Services.JobApplicationService.AddJobApplication`: the `catch (ArgumentException)` branch is not modelled. Nothing on its path raises that exception, so every store failure takes the general handler and its message.
- Controllers marked `[ApiController]` answer an invalid body automatically with a ProblemDetails 400 before the action runs. The model follows the action's own 400 with the envelope. The body type of that 400 in UpdateJobOffer (an envelope over the create DTO) is not distinguished.
- The error paths differ from the documented ones. A store failure in the offer lookup, the offer deletion, and the application lookup, add and delete surfaces as 404. The reason is that the service returns a failed envelope without data. The doc comments promise 500.
- `EmailAddressAttribute` and the other attributes on the application DTO are left out; that verdict is the `modelValid` input.
- `Validations.Validate`: `\d` is modelled as the ASCII digits 0-9. .NET also matches other Unicode decimal digits, so the model refuses some passwords the source accepts.
- `Validations.Validate`: `Enum.TryParse<UserRole>` is the parameter `parsesAsUserRole`. The `UserRole` enum is not part of this model, and TryParse's acceptance of numeric and comma-separated text is not spelled out.
- `Roles.RolesController.CreateRole`: Identity compares role names after normalising them to upper case. The model compares names as given, so it treats names that differ only in case as distinct.
- The `UserManager` and `RoleManager` stores are reduced to a role map and a user-to-role-names map. Password rules, lockout, tokens and authorisation (`[Authorize(Roles = "Admin")]`) are left out.
- Time is a parameter: `DateTime.UtcNow` is the `now` argument.
- Salary is `decimal` in the source and `real` in the model. Overflow of the 32-bit identity counters is not modelled.
- The Angular client, program start-up and dependency injection are not part of this model.
