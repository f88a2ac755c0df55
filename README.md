# User management service: in-memory table, record mapper, payload constraints

This project models three self-contained parts of a small Kotlin CRUD
service for "user" records and proves properties of them in Dafny.

- **The in-memory user table** (`resource/UserResource.kt`, package
  `resource`). A controller holds one shared list of users and an id
  counter. The list starts with one seed user of id 1 and the counter
  starts at 1. Create, list, get, update and delete work over that list.
  The model is the class `InMemoryResource.UserResource`:
  - `usersList: seq<User>` is the shared list;
  - `counter: int` is the AtomicInteger's value;
  - the ghost set `issued` records every id handed out.
  The invariant `Valid()` says three things. Ids in the list are distinct.
  Every listed id was issued. Every issued id lies in `1..counter`.
  Create keeps `Valid()`, and the id it hands out was never issued before.
  Update replaces only the first user with the path id and keeps that
  user's registration date. Delete removes exactly that one user and keeps
  the others in order. A miss answers `NotFound` and changes nothing.
  `find`, `indexOf` and `remove` are modelled by the functions `FirstWithId`
  and `IndexOf`, and the lemma `IndexOfFoundUser` shows that `indexOf` of the
  found user is the index `find` stopped at.
- **The record mapper** (`com/sapozhnikov/mapper/UserMapper.kt`). These are
  pure field copies between the domain `User`, the `CreateUser`/`UpdateUser`
  payloads and the storage row `UserEntity`. The lemmas cover three things:
  - the round trip between `User` and `UserEntity`;
  - where the id and the registration date come from;
  - the create and update mappings agree on equal inputs.
- **The payload constraints** (Bean Validation annotations on
  `model/domain/CreateUser.kt`, `models/CreateUser.kt` and
  `models/UpdateUser.kt`), written as predicates:
  - `NotBlank` means some character is above U+0020, as `trim()` sees it;
  - length and range bounds are inclusive;
  - the e-mail must match the whole pattern
    `[A-Za-z0-9._%-+]+@[A-Za-z0-9.-]+\.[A-Za-z]{2,4}`.

  The pattern is given twice. `MatchesPattern` is the declarative form: some
  placement of the '@' and the final '.' splits the string into the three
  character classes. `EmailMatches` is a decision procedure. They are proved
  equal. `%-+` in the first class is a range from '%' to '+', so a '-' before
  the '@' makes the match fail (`HyphenRejectedInLocalPart`).

Values that the source takes from the environment are parameters:
`LocalDate.now()` is the `today` argument of the constructor and of
`CreateNewUser`, and the UUIDs in the mapper are arguments as they are in
the source.

Files: `common.dfy` (LocalDate, Uuid, Int32 wrap-around), `constraints.dfy`,
`email_regex.dfy`, `models.dfy` (package `models`), `domain.dfy` (package
`com.sapozhnikov.model.domain`), `dao.dfy` (`UserEntity`), `user_mapper.dfy`,
`user_resource.dfy`.

## Model

| member | source | states |
|---|---|---|
| Common.Wrap32 | src/main/kotlin/resource/UserResource.kt:34 | `incrementAndGet` arithmetic: the result is a Kotlin Int congruent to the input modulo 2^32, and equal to it when the input already fits |
| EmailRegex.EmailMatchesIsPattern | src/main/kotlin/com/sapozhnikov/model/domain/CreateUser.kt:47 | the matcher accepts a string if and only if the whole pattern matches it (local part, '@', domain, '.', 2..4 letters) |
| EmailRegex.HyphenRejectedInLocalPart | src/main/kotlin/com/sapozhnikov/model/domain/CreateUser.kt:47 | a '-' before the first '@' makes the pattern fail, because `%-+` is a range and not a list of three characters |
| EmailRegex.RangeCharactersAllowedInLocalPart | src/main/kotlin/models/CreateUser.kt:49 | the local-part class is exactly letters, digits and `._%&'()*+` |
| EmailRegex.ComposedAddressMatches | src/main/kotlin/com/sapozhnikov/model/domain/CreateUser.kt:47 | any local part, '@', domain, '.' and 2..4-letter suffix drawn from the pattern's classes matches |
| EmailRegex.NoAtSignNoMatch | src/main/kotlin/com/sapozhnikov/model/domain/CreateUser.kt:47 | a string without '@' never matches |
| EmailRegex.MatchImpliesNotBlank | src/main/kotlin/models/UpdateUser.kt:27 | a matching e-mail is never blank, so UpdateUser's e-mail, which has no @NotBlank, accepts no blank string either |
| EmailRegex.FixtureEmailMatches | src/test/kotlin/com/sapozhnikov/resource/UserResourceTest.kt:43-51 | the fixture's e-mail `def.userModel@gmail.com` matches |
| EmailRegex.BaseEmailMatches | src/test/kotlin/com/sapozhnikov/resource/UserResourceTest.kt:199-245 | `def.user@gmail.com`, the e-mail the invalid test payloads keep, matches |
| EmailRegex.RejectedEmails | src/test/kotlin/com/sapozhnikov/resource/UserResourceTest.kt:237-299 | the test e-mails `def.user` and seven spaces do not match |
| EmailRegex.HyphenBeforeAtRejected | src/main/kotlin/com/sapozhnikov/model/domain/CreateUser.kt:47 | `jack-dawson@gmail.com` does not match |
| EmailRegex.PlusBeforeAtAccepted | src/main/kotlin/com/sapozhnikov/model/domain/CreateUser.kt:47 | `jack+dawson@gmail.com` matches |
| EmailRegex.HyphenAfterAtAccepted | src/main/kotlin/com/sapozhnikov/model/domain/CreateUser.kt:47 | `jack@mail-server.com` matches: the domain class does admit '-' |
| Models.SeedUser | src/main/kotlin/models/User.kt:60-64 | the seed user has id 1, login `defUser` and registration date `today` |
| Models.SeedUserProfileValid | src/main/kotlin/models/User.kt:62 | the seed user's profile satisfies the create constraints of package `models` |
| Models.CreateValidImpliesUpdateValid | src/main/kotlin/models/UpdateUser.kt:9-30 | every profile valid for the older CreateUser is valid for UpdateUser |
| Models.UpdateValidDiffersOnlyInLogin | src/main/kotlin/models/UpdateUser.kt:23-27 | for a profile UpdateUser accepts, CreateUser accepts it exactly when the login is not blank |
| Models.BlankLoginOnlyPassesUpdate | src/main/kotlin/models/UpdateUser.kt:23 | a login of four spaces passes UpdateUser's constraints and fails CreateUser's |
| Domain.OlderCreateValidImpliesCreateValid | src/main/kotlin/com/sapozhnikov/model/domain/CreateUser.kt:37-38 | the later CreateUser accepts every payload the older one accepts, and the converse holds whenever the login has 4 or more characters |
| Domain.ShortLoginNowAccepted | src/main/kotlin/models/CreateUser.kt:39-40 | a 2-character login passes the later constraints and fails the older ones |
| Domain.FixturePayloadValid | src/test/kotlin/com/sapozhnikov/resource/UserResourceTest.kt:87-112 | the fixture payload ("Default", "User", 20, "defUser", "def.userModel@gmail.com") satisfies every constraint |
| Domain.ResourceTestPayloadsRejected | src/test/kotlin/com/sapozhnikov/resource/UserResourceTest.kt:199-321 | every payload the test expects to be answered with 422 fails the constraints: blank names, login and e-mail; one-letter names and login; age 10; `def.user` |
| UserMapper.MapToUserEntity | src/main/kotlin/com/sapozhnikov/mapper/UserMapper.kt:11-21 | the row keeps the user's id and registration date |
| UserMapper.MapToUserModel | src/main/kotlin/com/sapozhnikov/mapper/UserMapper.kt:23-33 | the user it gives maps back to the same row (the inverse of MapToUserEntity) |
| UserMapper.MapCreateToUserEntity | src/main/kotlin/com/sapozhnikov/mapper/UserMapper.kt:35-45 | id and registration date come from the arguments, the five profile fields from CreateUser |
| UserMapper.MapUpdateToUserEntity | src/main/kotlin/com/sapozhnikov/mapper/UserMapper.kt:47-57 | id and registration date come from the arguments, the five profile fields from UpdateUser |
| UserMapper.ModelRoundTrip | src/main/kotlin/com/sapozhnikov/mapper/UserMapper.kt:11-33 | user to row and back is the identity |
| UserMapper.MapToUserEntityInjective | src/main/kotlin/com/sapozhnikov/mapper/UserMapper.kt:11-21 | distinct users map to distinct rows |
| UserMapper.UpdateKeepsIdAndDate | src/main/kotlin/com/sapozhnikov/mapper/UserMapper.kt:47-57 | updating a row with its own id and date changes only the five profile fields |
| UserMapper.CreateAndUpdateMappingsAgree | src/main/kotlin/com/sapozhnikov/mapper/UserMapper.kt:35-57 | equal id, date and profile fields give equal rows through either mapping |
| UserMapper.CreatedRowReadsBack | src/main/kotlin/com/sapozhnikov/mapper/UserMapper.kt:23-45 | a created row, read back, is the payload's profile with the given id and date |
| InMemoryResource.FirstWithId | src/main/kotlin/resource/UserResource.kt:57 | `find` by id: the index of the first user with that id, or the list's length when none has it |
| InMemoryResource.IndexOf | src/main/kotlin/resource/UserResource.kt:75 | `indexOf`: the index of the first equal user, -1 exactly when none is equal |
| InMemoryResource.IndexOfFoundUser | src/main/kotlin/resource/UserResource.kt:73-75 | `indexOf` of the user `find` returned is the index `find` stopped at |
| InMemoryResource.FindIsUnique | src/main/kotlin/resource/UserResource.kt:57 | with distinct ids, `find` returns the one user that carries the id |
| InMemoryResource.AppendKeepsIdsDistinct | src/main/kotlin/resource/UserResource.kt:34-35 | appending a user with a new id keeps ids distinct |
| InMemoryResource.ReplaceKeepsIdsDistinct | src/main/kotlin/resource/UserResource.kt:77-80 | replacing a user by one with the same id keeps ids distinct |
| InMemoryResource.RemoveKeepsIdsDistinct | src/main/kotlin/resource/UserResource.kt:97-101 | removing a user keeps ids distinct and leaves its id absent from the list |
| InMemoryResource.UserResource.constructor | src/main/kotlin/resource/UserResource.kt:20-24 | the list starts as the seed user alone and the counter at 1, with the invariant established |
| InMemoryResource.UserResource.CreateNewUser | src/main/kotlin/resource/UserResource.kt:31-37 | invalid payload: 422, nothing changes; otherwise the counter is incremented and the user with the new id, the payload's fields and today's date is appended and returned; the invariant is kept and the new id was never issued before (while the counter is below Int.MAX_VALUE) |
| InMemoryResource.UserResource.GetAllUsers | src/main/kotlin/resource/UserResource.kt:43-46 | returns the list as it stands and changes nothing |
| InMemoryResource.UserResource.GetUser | src/main/kotlin/resource/UserResource.kt:54-61 | NotFound exactly when no user has the id; otherwise the first user with the id; nothing changes |
| InMemoryResource.UserResource.UpdateUser | src/main/kotlin/resource/UserResource.kt:70-86 | a hit replaces only the first matching position with the path id, the new fields and the old registration date; a miss is NotFound with the list unchanged; the counter never changes and the invariant is kept |
| InMemoryResource.UserResource.DeleteUser | src/main/kotlin/resource/UserResource.kt:94-105 | a hit removes exactly the first matching user, keeps the others in order and returns it; a miss is NotFound with the list unchanged; the counter never changes, so the deleted id is not issued again |
| InMemoryResource.CreateGetDeleteGet | src/main/kotlin/resource/UserResource.kt:31-105 | on a fresh table, creating a valid user hands out id 2 and today's date; that user is then fetched, deleted and returned once, and a second get answers NotFound |

## Left out

- InMemoryResource.UserResource.CreateNewUser: the invariant and "the new id was never issued" are proved only while the counter is below Int.MAX_VALUE. At that bound `incrementAndGet` wraps to Int.MIN_VALUE. The model computes that value with `Wrap32` but states no uniqueness after the wrap.
- InMemoryResource.UserResource.UpdateUser: the route is modelled for every payload and does not refuse invalid ones. The constraints on `models/UpdateUser.kt` carry no `@get:` use-site target, and whether the validator enforces them there is not modelled. The declared predicate is `Models.UpdateUserValid`, which is studied on its own.
- Concurrency: the AtomicInteger and the list shared through a companion object are modelled as plain fields of one controller object, and requests run one at a time. A second controller sharing the same list is not modelled.
- HTTP: routing, JSON (de)serialisation, status codes other than 200/404/422, and 400 for malformed bodies are not modelled.
- The built-in e-mail check that Hibernate's `@Email` runs before the explicit pattern is not modelled; only the pattern is.
- String lengths count Dafny characters (Unicode scalar values), not UTF-16 code units as `String.length()` does.
- The domain `User` and `UpdateUser` classes are not part of this model's source files. Their fields are taken from the mapper and its test, and no constraint on the domain `UpdateUser` is modelled.
- The SQL data-access interfaces, the database-backed resource, the older duplicate mapper under `mappers/`, list pagination and sorting, and 409 conflict mapping. They are framework glue whose implementation is not among the modelled files. Uniqueness of login and e-mail is enforced by a database schema that is not modelled either.
- Bootstrap, dependency injection, Liquibase migration, configuration and Swagger metadata.
