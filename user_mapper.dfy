/** UserMapper: field-by-field translation between the domain User, the
    create and update payloads, and the storage row UserEntity. */
module UserMapper {
  import opened Common
  import opened Domain
  import opened Dao

  /** Domain user to storage row: all seven fields copied. */
  function MapToUserEntity(userModel: User): (e: UserEntity)
    ensures e.id == userModel.id && e.registrationDate == userModel.registrationDate
  {
    UserEntity(userModel.id, userModel.firstName, userModel.lastName, userModel.age,
               userModel.login, userModel.email, userModel.registrationDate)
  }

  /** Storage row to domain user: the inverse of MapToUserEntity. */
  function MapToUserModel(userEntity: UserEntity): (u: User)
    ensures MapToUserEntity(u) == userEntity
  {
    User(userEntity.id, userEntity.firstName, userEntity.lastName, userEntity.age,
         userEntity.login, userEntity.email, userEntity.registrationDate)
  }

  /** Storage row for a new user: the id and the registration date come from
      the caller, the five profile fields from the payload. */
  function MapCreateToUserEntity(id: Uuid, userToCreate: CreateUser, registrationDate: LocalDate): (e: UserEntity)
    ensures e.id == id && e.registrationDate == registrationDate
    ensures e.firstName == userToCreate.firstName && e.lastName == userToCreate.lastName
    ensures e.age == userToCreate.age && e.login == userToCreate.login && e.email == userToCreate.email
  {
    UserEntity(id, userToCreate.firstName, userToCreate.lastName, userToCreate.age,
               userToCreate.login, userToCreate.email, registrationDate)
  }

  /** Storage row replacing an existing user: the id and the registration
      date come from the caller, the five profile fields from the payload. */
  function MapUpdateToUserEntity(id: Uuid, userToUpdate: UpdateUser, registrationDate: LocalDate): (e: UserEntity)
    ensures e.id == id && e.registrationDate == registrationDate
    ensures e.firstName == userToUpdate.firstName && e.lastName == userToUpdate.lastName
    ensures e.age == userToUpdate.age && e.login == userToUpdate.login && e.email == userToUpdate.email
  {
    UserEntity(id, userToUpdate.firstName, userToUpdate.lastName, userToUpdate.age,
               userToUpdate.login, userToUpdate.email, registrationDate)
  }

  /** Domain user to row and back gives the same user. */
  lemma ModelRoundTrip(u: User)
    ensures MapToUserModel(MapToUserEntity(u)) == u
  {
  }

  /** Two users map to the same row only if they are equal. */
  lemma MapToUserEntityInjective(u1: User, u2: User)
    requires MapToUserEntity(u1) == MapToUserEntity(u2)
    ensures u1 == u2
  {
    ModelRoundTrip(u1);
    ModelRoundTrip(u2);
  }

  /** Mapping an update onto an existing row with that row's own id and date
      keeps both: only the five profile fields change. */
  lemma UpdateKeepsIdAndDate(row: UserEntity, userToUpdate: UpdateUser)
    ensures var e := MapUpdateToUserEntity(row.id, userToUpdate, row.registrationDate);
      e.id == row.id && e.registrationDate == row.registrationDate &&
      e == row.(firstName := userToUpdate.firstName, lastName := userToUpdate.lastName,
                age := userToUpdate.age, login := userToUpdate.login, email := userToUpdate.email)
  {
  }

  /** The create and the update mapping agree on equal inputs. */
  lemma CreateAndUpdateMappingsAgree(id: Uuid, c: CreateUser, u: UpdateUser, registrationDate: LocalDate)
    requires c.firstName == u.firstName && c.lastName == u.lastName && c.age == u.age
    requires c.login == u.login && c.email == u.email
    ensures MapCreateToUserEntity(id, c, registrationDate) == MapUpdateToUserEntity(id, u, registrationDate)
  {
  }

  /** A created row, read back, is the user the create route promises: the
      payload's fields with the given id and date. */
  lemma CreatedRowReadsBack(id: Uuid, c: CreateUser, registrationDate: LocalDate)
    ensures MapToUserModel(MapCreateToUserEntity(id, c, registrationDate))
      == User(id, c.firstName, c.lastName, c.age, c.login, c.email, registrationDate)
  {
  }
}
