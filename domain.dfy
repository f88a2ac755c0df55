/** The records of package `com.sapozhnikov.model.domain`: the User the
    service returns, keyed by a UUID, and the payloads it accepts. */
module Domain {
  import opened Common
  import opened Constraints
  import opened EmailRegex
  import Models

  /** A user as the service returns it. */
  datatype User = User(
    id: Uuid,
    firstName: string,
    lastName: string,
    age: int,
    login: string,
    email: string,
    registrationDate: LocalDate)

  /** Payload of the create route. */
  datatype CreateUser = CreateUser(firstName: string, lastName: string, age: int, login: string, email: string)

  /** Payload of the update route. */
  datatype UpdateUser = UpdateUser(firstName: string, lastName: string, age: int, login: string, email: string)

  /** The constraints declared on CreateUser: every string non-blank, names and
      login with 2..50 characters, age in 16..99, e-mail matching the whole pattern. */
  predicate CreateUserValid(c: CreateUser) {
    NotBlank(c.firstName) && LengthBetween(c.firstName, 2, 50) &&
    NotBlank(c.lastName) && LengthBetween(c.lastName, 2, 50) &&
    InRange(c.age, 16, 99) &&
    NotBlank(c.login) && LengthBetween(c.login, 2, 50) &&
    NotBlank(c.email) && EmailMatches(c.email)
  }

  /** The same five fields as the older payload of package `models`. */
  function FromModels(c: Models.CreateUser): (d: CreateUser)
    ensures d.firstName == c.firstName && d.lastName == c.lastName && d.age == c.age
    ensures d.login == c.login && d.email == c.email
  {
    CreateUser(c.firstName, c.lastName, c.age, c.login, c.email)
  }

  /** The later constraints only relax the older ones: the login minimum went
      from 4 to 2, and nothing else changed. */
  lemma OlderCreateValidImpliesCreateValid(c: Models.CreateUser)
    ensures Models.CreateUserValid(c) ==> CreateUserValid(FromModels(c))
    ensures CreateUserValid(FromModels(c)) && |c.login| >= 4 ==> Models.CreateUserValid(c)
  {
  }

  /** A two-character login is accepted now and was refused before. */
  lemma ShortLoginNowAccepted()
    ensures CreateUserValid(CreateUser("Default", "User", 20, "du", "def.user@gmail.com"))
    ensures !Models.CreateUserValid(Models.CreateUser("Default", "User", 20, "du", "def.user@gmail.com"))
  {
    BaseEmailMatches();
    assert NotBlank("Default") by { assert "Default"[0] > ' '; }
    assert NotBlank("User") by { assert "User"[0] > ' '; }
    assert NotBlank("du") by { assert "du"[0] > ' '; }
    assert NotBlank("def.user@gmail.com") by { assert "def.user@gmail.com"[0] > ' '; }
  }

  /** The payload built from the resource tests' fixture satisfies every constraint. */
  lemma FixturePayloadValid()
    ensures CreateUserValid(CreateUser("Default", "User", 20, "defUser", "def.userModel@gmail.com"))
  {
    FixtureEmailMatches();
    assert NotBlank("Default") by { assert "Default"[0] > ' '; }
    assert NotBlank("User") by { assert "User"[0] > ' '; }
    assert NotBlank("defUser") by { assert "defUser"[0] > ' '; }
    assert NotBlank("def.userModel@gmail.com") by { assert "def.userModel@gmail.com"[0] > ' '; }
  }

  /** Each payload the resource tests expect to be refused fails the predicate:
      blank first name, last name, login and e-mail; one-letter first name,
      last name and login; age 10; an e-mail without '@'. */
  lemma ResourceTestPayloadsRejected()
    ensures !CreateUserValid(CreateUser("       ", "User", 20, "defUser", "def.user@gmail.com"))
    ensures !CreateUserValid(CreateUser("Default", "      ", 20, "defUser", "def.user@gmail.com"))
    ensures !CreateUserValid(CreateUser("Default", "User", 20, "      ", "def.user@gmail.com"))
    ensures !CreateUserValid(CreateUser("Default", "User", 20, "defUser", "       "))
    ensures !CreateUserValid(CreateUser("q", "User", 20, "defUser", "def.user@gmail.com"))
    ensures !CreateUserValid(CreateUser("Default", "Q", 20, "defUser", "def.user@gmail.com"))
    ensures !CreateUserValid(CreateUser("Default", "User", 10, "defUser", "def.user@gmail.com"))
    ensures !CreateUserValid(CreateUser("Default", "User", 20, "q", "def.user@gmail.com"))
    ensures !CreateUserValid(CreateUser("Default", "User", 20, "defUser", "def.user"))
  {
    RejectedEmails();
  }
}
