# User management and access control of nest-auth-jwt-starting

This project is a Dafny model of the request path that manages users in the NestJS starter `nest-auth-jwt-starting`. It covers:

- the user table as TypeORM serves it: search, ordering, pagination, merge-patch updates, hard deletes and the unique email index;
- `UserService`, a cache-through service. It namespaces its cache keys, skips values that are too large, and invalidates by key prefix while swallowing cache errors. It also hashes passwords, refuses SUPERADMIN on create, reports email conflicts and checks the old password;
- the access-control chain in front of it:
  - `JwtStrategy.validate`;
  - `RolesGuard.canActivate`;
  - the route table of `UserController`, with its roles and guard order;
- login and registration in `AuthService`;
- the validation rules of the DTOs and of the filter query;
- the response envelopes of `BaseController` and the map callbacks of `TransformInterceptor` and `PaginationInterceptor`;
- the upload MIME filter and the stored file name.

## How the model is organised

There is one module per source file, plus shared modules:
- `Domain`: the entity, the presenter, errors and envelopes;
- `Text`: lower-casing;
- `SqlLike`: PostgreSQL `LIKE`/`ILIKE`;
- `ClassValidator`: what the class-validator decorators accept.

Each `await` of the service is one step of a state passed along:
- `CacheState` holds the cache map and the tracked-key set;
- `seq<User>` is the table.

`UserService.UserService` and `UserRepo.Repo` are classes whose methods perform those steps in place. Each method's `ensures` is that it ends exactly where its step function (`CreateStep`, `FindOneStep`, …) says.

Abstractions:
- **bcrypt.** A digest function `Config.hash`, so `Compare(d, p, h)` is `d(p) == h`. An empty `Config.salt` is a service whose salt was never initialised.
- **The cache store.** A per-request flag `up`: `false` means every cache call fails.
- **Serialisation.** `JSON.stringify` of a query, and the length of a serialised user, are parameters of `Config`.
- **Validation.** `isEmail` and `isUuid` are parameters.
- **Tokens.** Signing is a `Signer` parameter. A token that passed verification is its `JwtPayload`.

Errors:
- an `HttpError(status, message)` is a Nest HTTP exception;
- a `Crash(reason)` is any other thrown error, which Nest answers with 500.

## Model

| member | source | states |
|---|---|---|
| Domain.RoleName | src/modules/user/entities/user.entity.ts:16-21 | every role has a non-empty name that parses back to it |
| Domain.ParseRole | src/modules/user/dto/create-user.dto.ts:36-38 | exactly "superadmin", "admin" and "user" are roles |
| Domain.ParseRoleInverse | src/modules/user/dto/create-user.dto.ts:36-38 | an accepted role string is the name of the role it parses to |
| Domain.StatusOf | src/common/base/base.controller.ts:76-89 | an error that is not an HTTP exception answers 500 |
| SqlLike.PercentMatchesAll | src/modules/user/services/user-repo.service.ts:31-33 | the pattern `%` matches every string |
| SqlLike.Like | src/modules/user/services/user-repo.service.ts:31-33 | PostgreSQL LIKE on a pattern; its meaning is stated by PercentMatchesAll, PlainPrefix, LeadingPercent and SubstringLike |
| SqlLike.ILike | src/modules/user/services/user-repo.service.ts:31-33 | LIKE after lower-casing both sides; SearchIsSubstring states it for the search pattern |
| SqlLike.PlainPrefix | src/modules/user/services/user-repo.service.ts:31-33 | for a term without pattern characters, `term%` matches exactly the strings starting with the term |
| SqlLike.LeadingPercent | src/modules/user/services/user-repo.service.ts:31-33 | `%rest` matches a string iff `rest` matches one of its suffixes |
| SqlLike.SubstringLike | src/modules/user/services/user-repo.service.ts:31-33 | for a plain term, `%term%` matches exactly the strings containing the term |
| SqlLike.SearchIsSubstring | src/modules/user/services/user-repo.service.ts:31-33 | ILIKE `%term%` is a substring test, ignoring the case of ASCII letters, for a plain term |
| SqlLike.UnderscoreTermMatchesAnyCharacter | src/modules/user/services/user-repo.service.ts:31-33 | the search is not escaped: the term `_` matches "x", which does not contain `_` |
| ClassValidator.CountedLength | src/modules/user/dto/create-user.dto.ts:27-28 | the length MinLength/MaxLength compare never exceeds the number of characters and equals it without variation selectors |
| ClassValidator.ValidationFailed | src/main.ts:39-44 | a failed constraint is a 400 |
| UserDtos.LookaheadIsHasClass | src/modules/user/dto/create-user.dto.ts:29 | on a string without line terminators each lookahead of the pattern finds exactly the classes that occur |
| UserDtos.PasswordPatternIsPolicy | src/modules/user/dto/create-user.dto.ts:29-32 | the password pattern holds iff the string is non-empty, has no line terminator, and contains an upper-case letter, a lower-case letter, a digit and a character outside `[A-Za-z0-9]` |
| UserDtos.ValidPasswordMeans | src/modules/user/dto/create-user.dto.ts:24-33 | a valid password is a string of 8 to 24 counted characters that meets the policy |
| UserDtos.ValidateCreateUser | src/modules/user/dto/create-user.dto.ts:13-39 | a body passes iff name, email, password and role all meet their constraints; the DTO carries exactly the body's values; any failure is the 400 |
| UserDtos.CreateRequiresName | src/modules/user/dto/create-user.dto.ts:14-17 | an accepted body has a non-empty string name |
| UserDtos.SuperadminPassesCreateValidation | src/modules/user/dto/create-user.dto.ts:35-38 | the role "superadmin" passes validation; only the service refuses it |
| UserDtos.SamplePasswordValid | src/modules/user/dto/create-user.dto.ts:24-33 | the constraints can be met: "Secret1!" is a valid password |
| UserDtos.ValidateUpdateUser | src/modules/user/dto/update-user.dto.ts:11-21 | a body passes iff every present field meets the create constraints and the old-password rule holds; the DTO carries the body's strings |
| UserDtos.EmptyUpdateIsValid | src/modules/user/dto/update-user.dto.ts:11 | every field is optional: the empty body passes as the empty DTO |
| UserDtos.UpdatePasswordNonEmpty | src/modules/user/dto/update-user.dto.ts:11 | a password that passed is not empty |
| UserDtos.OldPasswordIgnoredWithoutPassword | src/modules/user/dto/update-user.dto.ts:20 | without a truthy password the old password does not affect validation |
| UserDtos.OldPasswordCheckedWithPassword | src/modules/user/dto/update-user.dto.ts:12-21 | with a truthy password an accepted body has an old password of 8 to 24 characters that meets the policy |
| UserDtos.UpdateMayGrantSuperadmin | src/modules/user/dto/update-user.dto.ts:11 | an update body may carry the role "superadmin" |
| RegisterDtos.ValidateRegister | src/modules/auth/dto/register.dto.ts:11-25 | a body passes iff name, email, password and confirmPassword meet their constraints; any failure is the 400 |
| RegisterDtos.AsCreateUserDto | src/modules/auth/dto/register.dto.ts:11 | the DTO handed to create has no role and keeps name, email and password |
| RegisterDtos.RoleIsStripped | src/modules/auth/dto/register.dto.ts:11 | whatever role a register body carries, validation and its result are the same |
| RegisterDtos.ConfirmPasswordConstraints | src/modules/auth/dto/register.dto.ts:16-24 | an accepted confirmPassword is non-empty, 8 to 24 characters long and meets the policy |
| RegisterDtos.ConfirmationNeverCompared | src/modules/auth/dto/register.dto.ts:11-25 | replacing confirmPassword by any other valid password changes neither acceptance nor what create receives |
| BaseFilter.PaginationFlag | src/common/base/base-filter.dto.ts:28-33 | isPagination is true exactly for `true` and `'true'` |
| BaseFilter.NormalizeFilter | src/common/base/base-filter.dto.ts:14-74 | a query passes iff every constraint holds; page is then an integer ≥ 1 (default 1), limit an integer in [1,100] (default 10), search the given string |
| BaseFilter.OutOfRangeRejected | src/common/base/base-filter.dto.ts:40-56 | a limit above 100 or a non-integer page is a 400 |
| BaseFilter.EmptyQueryDefaults | src/common/base/base-filter.dto.ts:22-56 | the empty query becomes page 1, limit 10, no pagination |
| UserRepo.Matching | src/modules/user/services/user-repo.service.ts:28-36 | the selected rows are exactly the live rows that match the search |
| UserRepo.MatchingCounts | src/modules/user/services/user-repo.service.ts:28-36 | the selection holds each selected row as many times as the table does, and no other row |
| UserRepo.SearchIsSubstringOfEmailOrName | src/modules/user/services/user-repo.service.ts:28-36 | for a plain non-empty term a row matches iff the term is a substring of its email or its name, ignoring the case of ASCII letters |
| UserRepo.NoSearchSelectsAllLive | src/modules/user/services/user-repo.service.ts:28-39 | without a truthy search every live row is selected |
| UserRepo.InsertByNewestSpec | src/modules/user/services/user-repo.service.ts:26 | inserting into a list sorted newest first keeps it sorted and adds exactly that row |
| UserRepo.SortByNewestSpec | src/modules/user/services/user-repo.service.ts:26 | the query order is sorted by createdAt descending and is a permutation of the selected rows |
| UserRepo.EffectiveLimit | src/modules/user/services/user-repo.service.ts:47 | the limit used is the query's when it is positive, and 10 otherwise |
| UserRepo.EffectivePage | src/modules/user/services/user-repo.service.ts:48 | the page used is the query's when it is at least 1, and 1 otherwise |
| UserRepo.Window | src/modules/user/services/user-repo.service.ts:49-51 | skip/take is the run of at most `take` consecutive rows starting at `skip` |
| UserRepo.CeilDivIsLeastCover | src/modules/user/services/user-repo.service.ts:61 | totalPages is the least number of pages of `limit` rows that covers totalItems, and 0 exactly for no items |
| UserRepo.FindAll | src/modules/user/services/user-repo.service.ts:23-64 | no listed row carries the password |
| UserRepo.FindAllWithoutPagination | src/modules/user/services/user-repo.service.ts:38-45 | without pagination the page is every selected row, newest first, with `meta: null` |
| UserRepo.FindAllWithPagination | src/modules/user/services/user-repo.service.ts:47-63 | with pagination the entities are the ordered selection's rows from `(page-1)*limit` on, exactly `limit` of them (fewer on the last page, none past it), and meta is page, limit, the match count and its page count |
| UserRepo.TotalItemsIgnoresPage | src/modules/user/services/user-repo.service.ts:53-60 | totalItems does not depend on the page |
| UserRepo.NoPagesIffNoMatches | src/modules/user/services/user-repo.service.ts:61 | totalPages is 0 iff nothing matches |
| UserRepo.PageStartsInside | src/modules/user/services/user-repo.service.ts:49-61 | a page starts inside the selection iff its number is at most totalPages |
| UserRepo.PagesUpToTotalAreNonEmpty | src/modules/user/services/user-repo.service.ts:49-61 | a page has entities iff its number is at most totalPages |
| UserRepo.TwentyFiveRowsAtLimitTen | src/modules/user/services/user-repo.service.ts:47-62 | 25 matches at limit 10: page 3 has 5 entities and 3 pages in all |
| UserRepo.ValidatedFilterKeepsItsPaging | src/modules/user/services/user-repo.service.ts:47-48 | after validation the repository's defaults never replace the query's page and limit |
| UserRepo.StoredById | src/modules/user/services/user-repo.service.ts:66-69 | the live stored row with the id, with its password, exists iff some live row has that id |
| UserRepo.FirstLive | src/modules/user/services/user-repo.service.ts:66-100 | a row is found iff some live row matches the lookup; it is such a row, password included |
| UserRepo.FindOne | src/modules/user/services/user-repo.service.ts:66-69 | a live row with the id is found iff one exists; it comes without its password |
| UserRepo.FindOneByEmail | src/modules/user/services/user-repo.service.ts:84-100 | a row is found iff a live row has exactly that email; it is that row, password included |
| UserRepo.FoundByEmailIsTheRow | src/modules/user/services/user-repo.service.ts:84-100 | on a valid table the row found by email is the only live row with it, and it has a password |
| UserRepo.CreateOutcome | src/modules/user/services/user-repo.service.ts:18-21 | the insert fails with a unique violation iff any row, deleted or not, holds the email; otherwise the new row has the DTO's fields, role USER by default |
| UserRepo.NewRow | src/modules/user/services/user-repo.service.ts:18-21 | the row `create(dto)` builds; CreateOutcome and InsertKeepsValid state its fields and that both lookups find it |
| UserRepo.PatchKeepsTheRest | src/modules/user/services/user-repo.service.ts:71-78 | a merge-patch keeps id, createdAt, deletedAt and every field it does not name, and applying it twice equals applying it once |
| UserRepo.Patched | src/modules/user/services/user-repo.service.ts:71-78 | `{ ...user, ...dto }`; PatchKeepsTheRest, UpdatedRows and UpdateOutcome state what it keeps and writes |
| UserRepo.UpdatedRows | src/modules/user/services/user-repo.service.ts:71-78 | the saved table patches the rows with the id and keeps every other row |
| UserRepo.UpdateOutcome | src/modules/user/services/user-repo.service.ts:71-78 | save fails iff the new email is held by another row; otherwise it returns the found row with the patch applied |
| UserRepo.PhotoPatch | src/modules/user/services/user-repo.service.ts:102-109 | the photo update writes the photo and nothing else |
| UserRepo.WithoutId | src/modules/user/services/user-repo.service.ts:80-82 | delete removes every row with the id and keeps every other |
| UserRepo.WithoutIdKeepsValid | src/modules/user/services/user-repo.service.ts:80-82 | delete keeps ids and emails unique |
| UserRepo.RemovedIdIsGone | src/modules/user/services/user-repo.service.ts:80-82 | after delete the id is found neither with nor without the password: the row is gone, not soft-deleted |
| UserRepo.InsertKeepsValid | src/modules/user/services/user-repo.service.ts:18-21 | inserting a fresh id and a free email keeps the table valid, and both lookups then find the new row |
| UserRepo.PatchKeepsValid | src/modules/user/services/user-repo.service.ts:71-78 | a patch whose email is free keeps the table valid |
| UserRepo.UpdatedRowIsFound | src/modules/user/services/user-repo.service.ts:71-78 | after the patch the id finds the patched row |
| UserRepo.Repo.constructor | src/modules/user/services/user-repo.service.ts:13-16 | the repository starts over the given valid table |
| UserRepo.Repo.Create | src/modules/user/services/user-repo.service.ts:18-21 | returns the insert's outcome and appends the row exactly when it succeeds |
| UserRepo.Repo.Update | src/modules/user/services/user-repo.service.ts:71-78 | returns the save's outcome and patches the table exactly when it succeeds |
| UserRepo.Repo.UpdatePhoto | src/modules/user/services/user-repo.service.ts:102-109 | sets the row's photo and returns the patched row |
| UserRepo.Repo.Remove | src/modules/user/services/user-repo.service.ts:80-82 | the table loses exactly the rows with the id |
| UserService.IdKey | src/modules/user/services/user.service.ts:55-57 | the id key is `user:id:` followed by the id, so it starts with the namespace |
| UserService.EmailKey | src/modules/user/services/user.service.ts:63-65 | the email key is `user:email:` followed by the email |
| UserService.ListKey | src/modules/user/services/user.service.ts:59-61 | the list key is `user:list:` followed by the query's JSON |
| UserService.KeyFamiliesDisjoint | src/modules/user/services/user.service.ts:55-65 | id, email and list keys never collide, and only list keys carry the list prefix |
| UserService.KeysAreInjective | src/modules/user/services/user.service.ts:55-65 | different ids, emails or queries give different keys |
| UserService.PresentPage | src/modules/user/services/user.service.ts:181-184 | the page stored for a listing has each entity replaced by its presenter and the same meta |
| UserService.AfterSetCachedUser | src/modules/user/services/user.service.ts:71-80 | a user serialising below 100*1024 characters is stored as its presenter and tracked; a larger one changes nothing |
| UserService.AfterClearByPattern | src/modules/user/services/user.service.ts:82-110 | with the store answering, exactly the keys with the prefix are removed; with it failing nothing changes; the tracked set is untouched |
| UserService.InvalidateUserRemovesItsKeys | src/modules/user/services/user.service.ts:112-123 | after invalidating a user its id key, its email key and every list key are gone, no other entry changed, and the tracked set is empty |
| UserService.InvalidateAllRemovesEveryServiceKey | src/modules/user/services/user.service.ts:134-138 | after invalidate-all no key of the namespace is left, so every id, email and list key is gone |
| UserService.InvalidatorsSwallowCacheErrors | src/modules/user/services/user.service.ts:124-144 | with the store failing, neither invalidator fails or changes an entry |
| UserService.HashPassword | src/modules/user/services/user.service.ts:297-304 | fails iff the salt is not initialised; otherwise the hash compares equal to the password |
| UserService.FindOneIsRepeatable | src/modules/user/services/user.service.ts:190-206 | right after a successful findOne the same call succeeds with the same presenter and leaves the cache as it is |
| UserService.AfterInvalidateUser | src/modules/user/services/user.service.ts:112-132 | invalidateUserCache; InvalidateUserRemovesItsKeys and InvalidatorsSwallowCacheErrors state its effect |
| UserService.AfterInvalidateAll | src/modules/user/services/user.service.ts:134-145 | invalidateAllUserCache; InvalidateAllRemovesEveryServiceKey and InvalidatorsSwallowCacheErrors state its effect |
| UserService.FindOneStep | src/modules/user/services/user.service.ts:190-206 | findOne; FindOneHitIsServedFromCache, FindOneMiss, CoherentFindOneAgreesWithRepo and FindOneIsRepeatable state its outcome |
| UserService.FindOneByEmailStep | src/modules/user/services/user.service.ts:269-295 | findOneByEmail; FindOneByEmailSwallowsCacheErrors, FindOneByEmailMissingIsNull and CoherentFindOneByEmailAgreesWithRepo state its outcome |
| UserService.FindAllStep | src/modules/user/services/user.service.ts:171-188 | findAll with the corrected caching; ReadsKeepWellTyped, ReadsKeepCoherent and UserController.SecondListingRepeatsTheFirst state its outcome |
| UserService.FindAllStepAsWritten | src/modules/user/services/user.service.ts:183-184 | findAll as written, caching a blank presenter; UserController.AsWrittenSecondListingIsEmpty states what that answers |
| UserService.CreateStep | src/modules/user/services/user.service.ts:147-169 | create; CreateRejectsSuperadmin, CreateConflictsOnHeldEmail, CreateStoresTheHash and CreateKeepsCoherent state its outcome |
| UserService.UpdateStep | src/modules/user/services/user.service.ts:208-257 | update with the corrected password check; UpdateUnknownIdNotFound, UpdateConflictsOnOwnEmail, UpdatePasswordChecks, UpdateSavesTheOverlay and UpdateKeepsCoherent state its outcome |
| UserService.RemoveStep | src/modules/user/services/user.service.ts:259-267 | remove; RemoveTwiceIsNotFound, RemoveKeepsCoherent and RemoveWhileStoreDownLeavesStaleEntry state its outcome |
| UserService.PasswordStepAsWritten | src/modules/user/services/user.service.ts:239-242 | the password check as written; AsWrittenPasswordChangeAlwaysCrashes states that it always fails with 500 |
| UserService.ReadsKeepWellTyped | src/modules/user/services/user.service.ts:171-206 | the reads keep users under user keys and pages under list keys |
| UserService.FindOneHitIsServedFromCache | src/modules/user/services/user.service.ts:190-196 | a hit answers the cached presenter without consulting the table or changing the cache |
| UserService.FindOneMiss | src/modules/user/services/user.service.ts:198-205 | on a miss an unknown id is a 404 with the cache unchanged; a known one is loaded and cached iff it is small enough |
| UserService.FindOneByEmailSwallowsCacheErrors | src/modules/user/services/user.service.ts:269-295 | with the store failing, the email lookup still answers exactly what the table holds |
| UserService.FindOneByEmailMissingIsNull | src/modules/user/services/user.service.ts:283-294 | an email held by no live row is null, not an error, and nothing is cached |
| UserService.PasswordStep | src/modules/user/services/user.service.ts:234-249 | without a truthy new password nothing is hashed; without an old one it is a 400; a mismatching old one is a 400; on success the new password is hashed and the old one matched |
| UserService.UpdatePatch | src/modules/user/services/user.service.ts:232-251 | the update writes the DTO's name, email and role and the chosen password, and no photo |
| UserService.CreateRejectsSuperadmin | src/modules/user/services/user.service.ts:150-154 | create with role SUPERADMIN is a 400 that touches neither cache nor table |
| UserService.CreateConflictsOnHeldEmail | src/modules/user/services/user.service.ts:156-159 | an email findOneByEmail finds is a 409 and the table is unchanged |
| UserService.CreateStoresTheHash | src/modules/user/services/user.service.ts:161-168 | a successful create appends exactly one row with the DTO's fields and the hash of the password, keeps the table valid, and with the store answering leaves no id, email or list key for it |
| UserService.UpdateUnknownIdNotFound | src/modules/user/services/user.service.ts:212-215 | updating an unknown id is a 404 that changes nothing |
| UserService.UpdateConflictsOnOwnEmail | src/modules/user/services/user.service.ts:217-226 | resubmitting the user's own current email is a 409 |
| UserService.UpdatePasswordChecks | src/modules/user/services/user.service.ts:234-245 | a new password without the old one, or with an old one that does not match the stored hash, is a 400, and a failed update leaves the table as it was |
| UserService.UpdateSavesTheOverlay | src/modules/user/services/user.service.ts:232-256 | a successful update stores the row overlaid with the DTO, the new password hashed; the old password matched; the table stays valid and the namespace is cleared |
| UserService.RemoveTwiceIsNotFound | src/modules/user/services/user.service.ts:259-267 | remove of an unknown id is a 404 that changes nothing; after a successful remove the row is gone and a second remove is a 404 |
| UserService.AsWrittenPasswordChangeAlwaysCrashes | src/modules/user/services/user.service.ts:239-242 | as written, every password change compares against a row loaded without its password and fails with 500 |
| UserService.CorrectedPasswordChangeSucceeds | src/modules/user/services/user.service.ts:234-249 | compared against the stored hash, a matching old password yields the hash of the new one |
| UserService.CoherentFindOneAgreesWithRepo | src/modules/user/services/user.service.ts:190-206 | on a cache that agrees with the table, findOne fails iff the id is unknown and otherwise answers the presenter of the stored row |
| UserService.CoherentFindOneByEmailAgreesWithRepo | src/modules/user/services/user.service.ts:269-295 | on such a cache, the email lookup is null iff no live row holds the email and otherwise answers its presenter |
| UserService.CacheLoadedKeepsCoherent | src/modules/user/services/user.service.ts:71-80 | caching a user just loaded keeps the cache agreeing with the table |
| UserService.ReadsKeepCoherent | src/modules/user/services/user.service.ts:171-206 | the reads keep the cache agreeing with the table |
| UserService.CreateKeepsCoherent | src/modules/user/services/user.service.ts:147-169 | create keeps the cache agreeing with the table, whether or not the store answers |
| UserService.UpdateKeepsCoherent | src/modules/user/services/user.service.ts:208-257 | with the store answering, update keeps the cache agreeing with the table |
| UserService.RemoveKeepsCoherent | src/modules/user/services/user.service.ts:259-267 | with the store answering, remove keeps the cache agreeing with the table |
| UserService.RemoveWhileStoreDownLeavesStaleEntry | src/modules/user/services/user.service.ts:134-145 | a remove while the store fails succeeds but leaves the cached presenter, so a later findOne still finds the deleted user |
| UserService.UserService.constructor | src/modules/user/services/user.service.ts:30-40 | the service starts with an empty cache and no tracked keys |
| UserService.UserService.SetCachedUser | src/modules/user/services/user.service.ts:71-80 | ends in AfterSetCachedUser of the old state |
| UserService.UserService.ClearCacheByPattern | src/modules/user/services/user.service.ts:82-110 | deletes the matching keys one at a time and ends in AfterClearByPattern of the old state |
| UserService.UserService.InvalidateUserCache | src/modules/user/services/user.service.ts:112-132 | ends in AfterInvalidateUser of the old state |
| UserService.UserService.InvalidateAllUserCache | src/modules/user/services/user.service.ts:134-145 | ends in AfterInvalidateAll of the old state |
| UserService.UserService.FindOne | src/modules/user/services/user.service.ts:190-206 | answers and ends as FindOneStep says |
| UserService.UserService.FindOneByEmail | src/modules/user/services/user.service.ts:269-295 | answers and ends as FindOneByEmailStep says |
| UserService.UserService.FindAll | src/modules/user/services/user.service.ts:171-188 | answers and ends as FindAllStep says, the corrected caching |
| UserService.UserService.Create | src/modules/user/services/user.service.ts:147-169 | answers and leaves cache and table as CreateStep says |
| UserService.UserService.Update | src/modules/user/services/user.service.ts:208-257 | answers and leaves cache and table as UpdateStep says, with the corrected password check |
| UserService.UserService.Remove | src/modules/user/services/user.service.ts:259-267 | answers and leaves cache and table as RemoveStep says |
| RolesGuard.EffectiveRoles | src/common/guards/roles.guard.ts:44 | `roles` whenever present, even empty; else `[role]` for a truthy role; else none |
| RolesGuard.SomeRequiredHeld | src/common/guards/roles.guard.ts:46-48 | true iff some required role's name is among the held roles |
| RolesGuard.CanActivate | src/common/guards/roles.guard.ts:18-56 | no or empty required roles admit even without a user; required roles and no user deny; a user without role and roles is denied |
| RolesGuard.CanActivateIsPermits | src/common/guards/roles.guard.ts:18-56 | the guard admits iff nothing is required or the user's effective roles include a required one |
| RolesGuard.Permits | src/common/guards/roles.guard.ts:18-56 | the guard's intent on its own terms; CanActivateIsPermits proves CanActivate equal to it |
| RolesGuard.EmptyRolesOverrideRole | src/common/guards/roles.guard.ts:44 | a present empty `roles` denies every route that requires a role, whatever `role` says |
| RolesGuard.SingleRoleAdmission | src/common/guards/roles.guard.ts:24-56 | a user with one role and no `roles` is admitted iff nothing is required or that role is required |
| JwtStrategy.StrategySecret | src/modules/auth/strategy/jwt.strategy.ts:14-17 | construction fails iff JWT_SECRET is missing or empty; otherwise the secret is the verification key |
| JwtStrategy.Validate | src/modules/auth/strategy/jwt.strategy.ts:26-45 | an incomplete payload is a 401 before any lookup; an accepted payload yields the identity made of its own sub, email and role |
| JwtStrategy.ValidateIsTheSubjectLookup | src/modules/auth/strategy/jwt.strategy.ts:35-38 | a complete payload is accepted iff findOne of its subject succeeds, and fails with findOne's error |
| JwtStrategy.UnknownSubjectIsNotFound | src/modules/auth/strategy/jwt.strategy.ts:35-38 | with a coherent cache, a subject that is not stored fails with findOne's 404, not a 401 |
| JwtStrategy.ValidateTrustsTheToken | src/modules/auth/strategy/jwt.strategy.ts:40-44 | for a stored subject the identity is the token's email and role, not the stored ones |
| JwtStrategy.RemovedUserStillAuthenticates | src/modules/auth/strategy/jwt.strategy.ts:35-44 | a user removed while the store failed keeps authenticating once the store answers again |
| JwtStrategy.ValidateIsRepeatable | src/modules/auth/strategy/jwt.strategy.ts:26-45 | after a successful validate the same validate gives the same identity and cache |
| AuthService.ReadAuthConfig | src/modules/auth/auth.service.ts:43-44 | construction succeeds iff JWT_SECRET and JWT_EXPIRES_IN are both set, failing on the first one missing |
| AuthService.CreateJwtPayload | src/modules/auth/auth.service.ts:47-53 | the payload is the user's id as subject, the user's email, and the name of the user's role |
| AuthService.AsReceived | src/modules/auth/auth.service.ts:47-53 | a signed payload reaches validate with all three claims present |
| AuthService.ExpiryFor | src/modules/auth/auth.service.ts:92 | the configured lifetime iff rememberMe, otherwise "1d" |
| AuthService.Login | src/modules/auth/auth.service.ts:76-105 | login; LoginSucceedsIffCredentialsMatch, LoginWithoutStoredHashCrashes and LoginIssuesTheUsersToken state its outcome |
| AuthService.LoginWithoutStoredHashCrashes | src/modules/auth/auth.service.ts:77-85 | a live row with the email but no stored hash makes login fail with 500, not 401 |
| AuthService.LoginSucceedsIffCredentialsMatch | src/modules/auth/auth.service.ts:76-89 | on a valid table login succeeds iff a live row has the email and the hash of the password, and every failure is the same 401 "Invalid email or password" |
| AuthService.LoginIssuesTheUsersToken | src/modules/auth/auth.service.ts:91-104 | a successful login signs the user's payload with the chosen lifetime and the secret, reports that lifetime, and returns only the presenter fields |
| AuthService.IssuedPayloadValidates | src/modules/auth/auth.service.ts:47-53 | while the user is stored, what login signs passes validate as the user's id, email and role |
| AuthService.RegisterOutcome | src/modules/auth/auth.service.ts:65-74 | register fails iff create fails, always with 400 "Registration failed" and the table unchanged; a success is create's result, with role USER |
| AuthService.Register | src/modules/auth/auth.service.ts:65-74 | register; RegisterOutcome and RegisterHidesTheConflict state its outcome |
| AuthService.RegisterHidesTheConflict | src/modules/auth/auth.service.ts:65-74 | a taken email, a 409 in create, comes out of register as the same 400 |
| BaseController.FindSuccess | src/common/base/base.controller.ts:46-52 | 200, the data and the meta as given, "Found Successfully" by default |
| BaseController.CreateSuccess | src/common/base/base.controller.ts:54-58 | 201 with no data, "Created Successfully" by default |
| BaseController.UpdateSuccess | src/common/base/base.controller.ts:60-65 | 200 with the data, "Updated Successfully" by default |
| BaseController.DeleteSuccess | src/common/base/base.controller.ts:67-71 | 204 with no data, "Deleted Successfully" by default |
| BaseController.ThrowError | src/common/base/base.controller.ts:76-89 | the exception's HTTP status is the body's statusCode |
| BaseController.RaiseNotFound | src/common/base/base.controller.ts:92-94 | a 404, "Not Found" by default |
| BaseController.RaiseInternalServerError | src/common/base/base.controller.ts:96-101 | a 500, "Internal Server Error" by default |
| BaseController.RaiseBadRequest | src/common/base/base.controller.ts:103-105 | a 400, "Bad Request" by default |
| BaseController.RaiseUnauthorized | src/common/base/base.controller.ts:107-109 | a 401, "Unauthorized" by default |
| BaseController.RaiseForbidden | src/common/base/base.controller.ts:111-113 | a 403, "Forbidden" by default |
| BaseController.HelpersMatchNestExceptions | src/common/base/base.controller.ts:92-113 | each helper raises the same status and message as Nest's exception of that name |
| Interceptors.MessageOf | src/common/interceptors/transform.interceptor.ts:28 | the handler's message when non-empty, otherwise "Success"; never empty |
| Interceptors.Transform | src/common/interceptors/transform.interceptor.ts:27-37 | the response's status, the handler's message or "Success", and the handler's data |
| Interceptors.Paginate | src/common/interceptors/transform.interceptor.ts:61-87 | data without entities becomes the empty page with meta {1, 0, 0, 0}; data with entities passes unchanged |
| Interceptors.EnvelopeStatusIsDropped | src/common/interceptors/transform.interceptor.ts:24-35 | the envelope's own statusCode and meta never reach the client |
| Interceptors.EmptyEntitiesPassThrough | src/common/interceptors/transform.interceptor.ts:65-86 | an empty entity list is kept with its own meta, not replaced by the default page |
| MulterConfig.ImageFileFilter | src/common/config/multer.config.ts:17-35 | a file is accepted iff its mimetype is in the list; a rejection carries the 400 "Only image files are allowed!", an acceptance no error |
| MulterConfig.AcceptedImageTypes | src/common/config/multer.config.ts:22-28 | exactly JPEG, PNG, SVG and WebP pass; the test is exact, so "image/jpg" does not |
| MulterConfig.LastIndexOf | src/common/config/multer.config.ts:12 | the index of the last occurrence, or none iff the character does not occur |
| MulterConfig.Basename | src/common/config/multer.config.ts:12 | a name without slashes is its own base name |
| MulterConfig.ExtName | src/common/config/multer.config.ts:12 | the extension is empty or a dot followed by no further dot |
| MulterConfig.ExtNameOfPlain | src/common/config/multer.config.ts:12 | for a name without slashes, a final dot-part after a non-empty stem is the extension |
| MulterConfig.ExtNameOfPlainName | src/common/config/multer.config.ts:12 | `name.ext` has the extension `.ext` |
| MulterConfig.NoDotNoExtension | src/common/config/multer.config.ts:12 | a name without a dot has no extension |
| MulterConfig.DotFileHasNoExtension | src/common/config/multer.config.ts:12 | a name whose only dot is its first character has no extension |
| MulterConfig.GenerateFileName | src/common/config/multer.config.ts:6-15 | the stored name starts with `fieldname-` and ends with the original's extension, with the suffix in between |
| MulterConfig.StoredNameKeepsExtension | src/common/config/multer.config.ts:11-14 | the stored name has the same extension as the uploaded one |
| UserController.AsRequestUser | src/modules/auth/strategy/jwt.strategy.ts:40-44 | the request's user carries the validated role and no `roles` field |
| UserController.GuardsOf | src/modules/user/user.controller.ts:31-154 | the guards each route runs, class guard first; GuardOutcome and EveryRouteAuthenticates state their effect |
| UserController.RequiredRoles | src/modules/user/user.controller.ts:58-154 | each route's `@Roles` metadata; RolesDecideAsDeclared states whom each admits |
| UserController.RunGuards | src/modules/user/user.controller.ts:31-41 | the guards keep the cache well typed, and a request they let through has an identity once JwtAuthGuard ran |
| UserController.Guarded | src/modules/user/user.controller.ts:31-41 | a request the route's guards let through carries an identity |
| UserController.GuardOutcome | src/modules/user/user.controller.ts:31-41 | without a token every route is a 401 with nothing touched; otherwise validate's error passes through, and a validated identity goes on iff RolesGuard admits it, else 403; GET :id's second JwtAuthGuard changes nothing |
| UserController.RolesDecideAsDeclared | src/modules/user/user.controller.ts:58-60 | for one truthy role, RolesGuard on each route decides exactly the route's declared audience |
| UserController.RouteAdmission | src/modules/user/user.controller.ts:130-132 | for a stored subject, a route admits the request iff the token's role is one the route is declared for, else 403 |
| UserController.AdmittedRoleIsDeclared | src/modules/user/user.controller.ts:152-154 | whatever the cache holds, an admitted request carries a complete token whose role the route is declared for |
| UserController.GuardsKeepCoherent | src/modules/user/user.controller.ts:31 | running the guards keeps the cache agreeing with the table |
| UserController.ListBody | src/modules/user/user.controller.ts:70-84 | the listing's data has its entities as presenters and keeps the page's meta, whether loaded or cached |
| UserController.ListHandler | src/modules/user/user.controller.ts:70-84 | GET /user past its pipes; SecondListingRepeatsTheFirst states what a repeated listing answers |
| UserController.ListRequest | src/modules/user/user.controller.ts:58-84 | GET /user; EveryRouteAuthenticates and RouteAdmission state who reaches it |
| UserController.EveryRouteAuthenticates | src/modules/user/user.controller.ts:31 | without a token, create, list, get, update and delete all answer 401 and change neither cache nor table |
| UserController.CreateRequest | src/modules/user/user.controller.ts:40-56 | POST /user; AnyUserMayCreate and CreateAnswers201WithoutData state its outcome |
| UserController.GetRequest | src/modules/user/user.controller.ts:112-128 | GET /user/:id; GetAgreesWithRepo and MalformedIdIsRejected state its outcome |
| UserController.UpdateRequest | src/modules/user/user.controller.ts:130-150 | PATCH /user/:id; OnlyAdminsUpdate and MalformedIdIsRejected state its outcome |
| UserController.DeleteRequest | src/modules/user/user.controller.ts:152-165 | DELETE /user/:id; OnlySuperadminDeletes, DeleteAnswers200WithoutData and MalformedIdIsRejected state its outcome |
| UserController.OnlySuperadminDeletes | src/modules/user/user.controller.ts:152-154 | a DELETE that changes the table carried the role "superadmin" |
| UserController.OnlyAdminsUpdate | src/modules/user/user.controller.ts:130-132 | a PATCH that changes the table carried "admin" or "superadmin" |
| UserController.AnyUserMayCreate | src/modules/user/user.controller.ts:40-41 | POST /user declares no roles: a stored plain user's token passes the guards and creates exactly what create would |
| UserController.CreateAnswers201WithoutData | src/modules/user/user.controller.ts:51-56 | a successful POST answers 201 "User created successfully" without data, and appended one row with the new id |
| UserController.DeleteAnswers200WithoutData | src/modules/user/user.controller.ts:161-165 | a successful DELETE answers 200, not deleteSuccess's 204, with "User deleted successfully" and no data, and the id is gone |
| UserController.MalformedIdIsRejected | src/modules/user/user.controller.ts:112-128 | past the guards, a non-UUID id is the 400 "Validation failed (uuid is expected)" and update and delete leave the table |
| UserController.GetAgreesWithRepo | src/modules/user/user.controller.ts:124-128 | on a coherent cache, GET :id by a stored identity answers the stored row's presenter, or 404 exactly for an unknown id |
| UserController.SecondListingRepeatsTheFirst | src/modules/user/user.controller.ts:70-84 | with the corrected caching, a listing repeated right after the one that filled the cache answers the same page |
| UserController.ListBodyAsWritten | src/modules/user/user.controller.ts:70-84 | a cached blank has no entities; a loaded page is handled as before |
| UserController.ListHandlerAsWritten | src/modules/user/user.controller.ts:70-84 | GET /user over findAll as written; AsWrittenSecondListingIsEmpty states what a repeated listing answers |
| UserController.AsWrittenSecondListingIsEmpty | src/modules/user/services/user.service.ts:183-184 | as written, the listing that fills the cache answers the users and the identical listing after it answers the empty default page |

## Left out

- bcrypt itself: hashing is an abstract function.
- Salt generation in `initSalt`, its `'10'` fallback and the `SALT_ROUNDS` default of 13: the salt is a configuration value, and one that was never set is the empty string.
- The cache TTL and time-based expiry: there is no clock.
- Cache calls are all or nothing per request. A store that fails halfway, or the partial effect of `Promise.all` deletes, is not modelled.
- `cacheManager.stores.keys()` is read as "every key in the store". What it enumerates depends on the cache-manager version.
- class-transformer and class-validator internals:
  - only their effect is modelled: the presenter projection, and the constraint predicates behind one 400;
  - the list of validation messages is not modelled;
  - `@Type(() => Number)` conversion is modelled as already-parsed numbers;
  - the email syntax is the parameter `isEmail`, and the UUID syntax the parameter `isUuid`.
- The global ClassSerializerInterceptor is not modelled; the projection it applies is folded into the presenters.
- JWT signing and verification (signature and expiry): signing is a parameter, and a verified token is its payload.
- `timestamp` in the responses, and the `data` field of `throwError`'s body.
- The `updatePhoto` route: its handler calls `userService.updatePhoto`, which `UserService` does not define. The route's guards are modelled, its handler is not, and the repository's `updatePhoto` is.
- The upload suffix (`Date.now()` and `Math.random()`) is a parameter, and the 5 MB size limit is not modelled.
- Login DTO validation and the auth controller: they are not part of this model.
- A `null` in an update body is treated like an absent field.
- Concurrency between requests: the model runs one request at a time.
- `updatedAt`: the `@UpdateDateColumn` that every save refreshes is not a field of the modelled row, so no lemma says anything about it.
- SqlLike.ILike: lower-cases ASCII letters only. PostgreSQL's ILIKE also folds non-ASCII letters under a UTF-8 locale, so `SqlLike.SearchIsSubstring` and `UserRepo.SearchIsSubstringOfEmailOrName` are case-insensitive for ASCII letters only; locale-dependent folding is not modelled.
- UserRepo.Repo.Update: requires that the row exists. With no row TypeORM's `save` would insert one, but the service checks first.
- UserRepo.Repo.UpdatePhoto: requires that the row exists, for the same reason.
- UserService.UpdateStep: models the corrected password check. The code as written is `PasswordStepAsWritten`, under Findings.
- UserService.FindAllStep: models the corrected list caching. The code as written is `FindAllStepAsWritten`, under Findings.
- UserService.UpdateKeepsCoherent and UserService.RemoveKeepsCoherent: stated only for a store that answers. `RemoveWhileStoreDownLeavesStaleEntry` shows why.
- AuthService.Login: has no contract of its own. Its lemmas state what it does; `LoginWithoutStoredHashCrashes` covers the 500 for a row stored without a hash, which the NOT NULL password column keeps out of a valid table.
- `Coherent` does not cover list keys. A cached page may be stale after a write made while the store fails.

## Findings

| source | as written | input that shows it | evidently intended | confidence | as-written member | corrected member |
|---|---|---|---|---|---|---|
| src/modules/user/services/user.service.ts:239-242 | `update` compares `oldPassword` with `user.password` from `repo.findOne`, which does not select the `select: false` password column, so `bcrypt.compare` gets `undefined` and throws | PATCH /user/:id with `password` and `oldPassword` both set, for any stored user | compare against the stored hash and change the password when the old one matches | high — not executed | UserService.AsWrittenPasswordChangeAlwaysCrashes | UserService.CorrectedPasswordChangeSucceeds |
| src/modules/user/services/user.service.ts:183-184 | `findAll` caches `plainToInstance(UserPresenter, users)`, a presenter built from the page object that has no `entities`; the next identical query returns that truthy blank | GET /user twice with the same query, at least one matching user | cache the page with its entities as presenters, so the second listing repeats the first | high — not executed | UserController.AsWrittenSecondListingIsEmpty | UserController.SecondListingRepeatsTheFirst |
