/** The in-memory user table: a controller over one shared list of users
    and an id counter, with routes to create, list, get, update and delete. */
module InMemoryResource {
  import opened Common
  import opened Models

  /** What a route answers: 200 with a user, 404, or 422 when the framework
      refuses the payload before the route's body runs. */
  datatype Response = Ok(user: User) | NotFound | Unprocessable

  /** No two users in the list share an id. */
  predicate IdsDistinct(users: seq<User>) {
    forall i, j :: 0 <= i < j < |users| ==> users[i].id != users[j].id
  }

  /** `find { it.id == id }`, as the index of the first user carrying `id`,
      or |users| when no user does. */
  function FirstWithId(users: seq<User>, id: int): (k: nat)
    ensures k <= |users|
    ensures k < |users| ==> users[k].id == id
    ensures forall j :: 0 <= j < k ==> users[j].id != id
  {
    if |users| == 0 then 0
    else if users[0].id == id then 0
    else 1 + FirstWithId(users[1..], id)
  }

  /** `indexOf(x)`: the index of the first user equal to `x`, or -1. */
  function IndexOf(users: seq<User>, x: User): (k: int)
    ensures -1 <= k < |users|
    ensures k == -1 <==> x !in users
    ensures k >= 0 ==> users[k] == x && forall j :: 0 <= j < k ==> users[j] != x
  {
    if |users| == 0 then -1
    else if users[0] == x then 0
    else
      var k := IndexOf(users[1..], x);
      if k == -1 then -1 else k + 1
  }

  /** The user `find` returns has no equal before it, since any equal user
      carries the same id: `indexOf` of it is the index `find` stopped at. */
  lemma IndexOfFoundUser(users: seq<User>, id: int)
    requires FirstWithId(users, id) < |users|
    ensures IndexOf(users, users[FirstWithId(users, id)]) == FirstWithId(users, id)
  {
    var k := FirstWithId(users, id);
    var j := IndexOf(users, users[k]);
    assert users[j].id == id;
  }

  /** With distinct ids, a user carrying `id` is the one `find` returns. */
  lemma FindIsUnique(users: seq<User>, id: int, k: int)
    requires IdsDistinct(users)
    requires 0 <= k < |users| && users[k].id == id
    ensures FirstWithId(users, id) == k
  {
  }

  /** Appending a user whose id is new keeps the ids distinct. */
  lemma AppendKeepsIdsDistinct(users: seq<User>, u: User)
    requires IdsDistinct(users)
    requires forall j :: 0 <= j < |users| ==> users[j].id != u.id
    ensures IdsDistinct(users + [u])
  {
  }

  /** Replacing a user by one with the same id keeps the ids distinct. */
  lemma ReplaceKeepsIdsDistinct(users: seq<User>, k: int, u: User)
    requires IdsDistinct(users)
    requires 0 <= k < |users| && users[k].id == u.id
    ensures IdsDistinct(users[k := u])
  {
  }

  /** Removing one user keeps the ids distinct, and its id is then absent. */
  lemma RemoveKeepsIdsDistinct(users: seq<User>, k: int)
    requires IdsDistinct(users)
    requires 0 <= k < |users|
    ensures IdsDistinct(users[..k] + users[k + 1..])
    ensures FirstWithId(users[..k] + users[k + 1..], users[k].id) == |users| - 1
  {
    var rest := users[..k] + users[k + 1..];
    forall i | 0 <= i < |rest| ensures rest[i] == users[if i < k then i else i + 1] {
    }
  }

  class UserResource {
    /** The shared list of users (`User.usersList`). */
    var usersList: seq<User>
    /** The value of the AtomicInteger that generates ids. */
    var counter: int
    /** Every id handed out so far, the seed's included. */
    ghost var issued: set<int>

    /** Ids in the list are distinct and were issued; every issued id lies
        between 1 and the counter, so the next one is new. */
    ghost predicate Valid()
      reads this
    {
      1 <= counter <= Int32Max &&
      (forall i :: i in issued ==> 1 <= i <= counter) &&
      (forall k :: 0 <= k < |usersList| ==> usersList[k].id in issued) &&
      IdsDistinct(usersList)
    }

    /** The list starts with the seed user of id 1 and the counter at 1. */
    constructor (today: LocalDate)
      ensures Valid()
      ensures usersList == [SeedUser(today)] && counter == 1 && issued == {1}
    {
      usersList := [SeedUser(today)];
      counter := 1;
      issued := {1};
    }

    /** POST /user. A payload failing its constraints is refused with 422 and
        nothing changes. Otherwise the counter moves on by one and the user
        with that id, the payload's fields and `today` is appended and returned. */
    method CreateNewUser(newUser: CreateUser, today: LocalDate) returns (r: Response)
      modifies this
      ensures !CreateUserValid(newUser) ==> r == Unprocessable && unchanged(this)
      ensures CreateUserValid(newUser) ==>
        counter == Wrap32(old(counter) + 1) &&
        r == Ok(User(counter, newUser.firstName, newUser.lastName, newUser.age,
                     newUser.login, newUser.email, today)) &&
        usersList == old(usersList) + [r.user] &&
        issued == old(issued) + {counter}
      ensures old(Valid()) && old(counter) < Int32Max ==> Valid()
      ensures old(Valid()) && old(counter) < Int32Max && r.Ok? ==>
        r.user.id == old(counter) + 1 && r.user.id !in old(issued)
    {
      if !CreateUserValid(newUser) {
        return Unprocessable;
      }
      counter := Wrap32(counter + 1);
      var user := User(counter, newUser.firstName, newUser.lastName, newUser.age,
                       newUser.login, newUser.email, today);
      if Valid() {
        assert counter < Int32Max ==> forall j :: 0 <= j < |usersList| ==> usersList[j].id != counter + 1;
      }
      usersList := usersList + [user];
      issued := issued + {counter};
      r := Ok(user);
    }

    /** GET /user: the list as it stands. */
    method GetAllUsers() returns (users: seq<User>)
      ensures users == usersList
    {
      users := usersList;
    }

    /** GET /user/{id}: the first user carrying `id`, or 404 when none does. */
    method GetUser(id: int) returns (r: Response)
      ensures r.NotFound? <==> forall k :: 0 <= k < |usersList| ==> usersList[k].id != id
      ensures r.Ok? || r.NotFound?
      ensures r.Ok? ==> r.user.id == id && r.user == usersList[FirstWithId(usersList, id)]
    {
      var k := FirstWithId(usersList, id);
      if k < |usersList| {
        r := Ok(usersList[k]);
      } else {
        r := NotFound;
      }
    }

    /** PUT /user/{id}. When a user carries `id`, the first such user is
        replaced in place by one with that id, the payload's fields and the
        old registration date, which is returned; otherwise 404 and nothing changes. */
    method UpdateUser(id: int, userToUpdate: UpdateUser) returns (r: Response)
      modifies this
      ensures counter == old(counter) && issued == old(issued)
      ensures var k := FirstWithId(old(usersList), id);
        if k == |old(usersList)| then
          r == NotFound && usersList == old(usersList)
        else
          r == Ok(User(id, userToUpdate.firstName, userToUpdate.lastName, userToUpdate.age,
                       userToUpdate.login, userToUpdate.email, old(usersList)[k].registrationDate)) &&
          usersList == old(usersList)[k := r.user]
      ensures old(Valid()) ==> Valid()
    {
      var k := FirstWithId(usersList, id);
      if k == |usersList| {
        return NotFound;
      }
      var oldUser := usersList[k];
      var ind := IndexOf(usersList, oldUser);
      IndexOfFoundUser(usersList, id);
      var user := User(id, userToUpdate.firstName, userToUpdate.lastName, userToUpdate.age,
                       userToUpdate.login, userToUpdate.email, oldUser.registrationDate);
      if Valid() {
        ReplaceKeepsIdsDistinct(usersList, ind, user);
      }
      usersList := usersList[ind := user];
      r := Ok(user);
    }

    /** DELETE /user/{id}. When a user carries `id`, the first such user is
        removed, the others keep their order, and it is returned; otherwise
        404 and nothing changes. The counter never moves back, so a deleted id
        is not issued again. */
    method DeleteUser(id: int) returns (r: Response)
      modifies this
      ensures counter == old(counter) && issued == old(issued)
      ensures var k := FirstWithId(old(usersList), id);
        if k == |old(usersList)| then
          r == NotFound && usersList == old(usersList)
        else
          r == Ok(old(usersList)[k]) &&
          usersList == old(usersList)[..k] + old(usersList)[k + 1..]
      ensures old(Valid()) ==> Valid() && FirstWithId(usersList, id) == |usersList|
    {
      var k := FirstWithId(usersList, id);
      if k == |usersList| {
        return NotFound;
      }
      var user := usersList[k];
      var ind := IndexOf(usersList, user);
      IndexOfFoundUser(usersList, id);
      if Valid() {
        RemoveKeepsIdsDistinct(usersList, ind);
      }
      usersList := usersList[..ind] + usersList[ind + 1..];
      r := Ok(user);
    }
  }

  /** A client of a fresh table: creating a valid user hands out id 2, the
      user can then be fetched, deleted once, and is not found afterwards. */
  method CreateGetDeleteGet(payload: CreateUser, today: LocalDate)
    returns (created: Response, fetched: Response, deleted: Response, refetched: Response)
    requires CreateUserValid(payload)
    ensures created.Ok? && created.user.id == 2 && created.user.registrationDate == today
    ensures fetched == created && deleted == created && refetched == NotFound
  {
    var resource := new UserResource(today);
    created := resource.CreateNewUser(payload, today);
    fetched := resource.GetUser(created.user.id);
    deleted := resource.DeleteUser(created.user.id);
    refetched := resource.GetUser(created.user.id);
  }
}
