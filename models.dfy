/** The records of package `models`, used by the in-memory user table:
    the stored User, and the CreateUser / UpdateUser payloads with the
    constraints declared on their fields. */
module Models {
  import opened Common
  import opened Constraints
  import opened EmailRegex

  /** A stored user: a numeric id, five profile fields and the date of registration. */
  datatype User = User(
    id: int,
    firstName: string,
    lastName: string,
    age: int,
    login: string,
    email: string,
    registrationDate: LocalDate)

  /** Payload of the create route: the five profile fields. */
  datatype CreateUser = CreateUser(firstName: string, lastName: string, age: int, login: string, email: string)

  /** Payload of the update route: the five profile fields. */
  datatype UpdateUser = UpdateUser(firstName: string, lastName: string, age: int, login: string, email: string)

  /** The one user the shared list holds before any request: id 1,
      registered on the day the list is first loaded. */
  function SeedUser(today: LocalDate): (u: User)
    ensures u.id == 1 && u.registrationDate == today
    ensures u.login == "defUser" && u.email == "default.user@gmail.com"
  {
    User(1, "Default", "User", 18, "defUser", "default.user@gmail.com", today)
  }

  /** The constraints declared on CreateUser: names non-blank with 2..50
      characters, age in 16..99, login non-blank with 4..50 characters, e-mail
      non-blank and matching the whole pattern. */
  predicate CreateUserValid(c: CreateUser) {
    NotBlank(c.firstName) && LengthBetween(c.firstName, 2, 50) &&
    NotBlank(c.lastName) && LengthBetween(c.lastName, 2, 50) &&
    InRange(c.age, 16, 99) &&
    NotBlank(c.login) && LengthBetween(c.login, 4, 50) &&
    NotBlank(c.email) && EmailMatches(c.email)
  }

  /** The constraints declared on UpdateUser: as for CreateUser, except that
      the login carries only its length bound and the e-mail only its pattern. */
  predicate UpdateUserValid(u: UpdateUser) {
    NotBlank(u.firstName) && LengthBetween(u.firstName, 2, 50) &&
    NotBlank(u.lastName) && LengthBetween(u.lastName, 2, 50) &&
    InRange(u.age, 16, 99) &&
    LengthBetween(u.login, 4, 50) &&
    EmailMatches(u.email)
  }

  /** The same five fields as an update payload. */
  function AsUpdate(c: CreateUser): (u: UpdateUser)
    ensures u.firstName == c.firstName && u.lastName == c.lastName && u.age == c.age
    ensures u.login == c.login && u.email == c.email
  {
    UpdateUser(c.firstName, c.lastName, c.age, c.login, c.email)
  }

  /** The update constraints are implied by the create constraints ... */
  lemma CreateValidImpliesUpdateValid(c: CreateUser)
    requires CreateUserValid(c)
    ensures UpdateUserValid(AsUpdate(c))
  {
  }

  /** ... and the dropped e-mail @NotBlank changes nothing, since the pattern
      already refuses blank strings: the two predicates differ only on blank logins. */
  lemma UpdateValidDiffersOnlyInLogin(c: CreateUser)
    requires UpdateUserValid(AsUpdate(c))
    ensures CreateUserValid(c) <==> NotBlank(c.login)
  {
    MatchImpliesNotBlank(c.email);
  }

  /** A login of four spaces passes the update constraints and fails the create ones. */
  lemma BlankLoginOnlyPassesUpdate()
    ensures UpdateUserValid(UpdateUser("Jack", "Dawson", 25, "    ", "jack.dawson@gmail.com"))
    ensures !CreateUserValid(CreateUser("Jack", "Dawson", 25, "    ", "jack.dawson@gmail.com"))
  {
    ComposedAddressMatches("jack.dawson", "gmail", "com");
    assert "jack.dawson" + "@" + "gmail" + "." + "com" == "jack.dawson@gmail.com";
    assert NotBlank("Jack") by { assert "Jack"[0] > ' '; }
    assert NotBlank("Dawson") by { assert "Dawson"[0] > ' '; }
  }

  /** The seed user's profile satisfies the create constraints. */
  lemma SeedUserProfileValid(today: LocalDate)
    ensures var u := SeedUser(today);
      CreateUserValid(CreateUser(u.firstName, u.lastName, u.age, u.login, u.email))
  {
    ComposedAddressMatches("default.user", "gmail", "com");
    assert "default.user" + "@" + "gmail" + "." + "com" == "default.user@gmail.com";
    assert NotBlank("Default") by { assert "Default"[0] > ' '; }
    assert NotBlank("User") by { assert "User"[0] > ' '; }
    assert NotBlank("defUser") by { assert "defUser"[0] > ' '; }
    assert NotBlank("default.user@gmail.com") by { assert "default.user@gmail.com"[0] > ' '; }
  }
}
