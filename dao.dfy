/** The storage row of package `com.sapozhnikov.model.dao`, one per line of
    the USERS table. */
module Dao {
  import opened Common

  datatype UserEntity = UserEntity(
    id: Uuid,
    firstName: string,
    lastName: string,
    age: int,
    login: string,
    email: string,
    registrationDate: LocalDate)
}
