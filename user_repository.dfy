/** The in-memory user store: users kept by username, an id counter for new users. */
module UserRepository {
  import opened Wrappers
  import opened JavaLong
  import opened UserModel

  /**
   * The store. Java keeps the map and the counter in static fields shared by every instance;
   * here they are the fields of one repository object.
   */
  class InMemoryUserRepository {
    var storage: map<string, UserRecord>
    var idCounter: Long

    /** Every user is stored under their own username. */
    ghost predicate Valid()
      reads this
    {
      forall name :: name in storage ==> storage[name].username == name
    }

    constructor ()
      ensures Valid() && storage == map[] && idCounter == 0
    {
      storage := map[];
      idCounter := 0;
    }

    /** The user stored under the name; empty for a name never saved. */
    function FindByUsername(username: string): (r: Option<UserRecord>)
      reads this
      ensures r.Some? <==> username in storage
      ensures r.Some? ==> r.value == storage[username]
      ensures Valid() && r.Some? ==> r.value.username == username
    {
      if username in storage then Some(storage[username]) else None
    }

    /**
     * A user with id 0 gets the next counter value as id; any other id is kept. The user is
     * stored under their username, replacing an earlier user of that name, and the same
     * user object is returned.
     */
    method Save(user: User) returns (saved: User)
      requires Valid()
      modifies this, user
      ensures Valid()
      ensures saved == user
      ensures old(user.id) == 0 ==> idCounter == IncrementAndGet(old(idCounter)) && user.id == idCounter
      ensures old(user.id) != 0 ==> user.id == old(user.id) && idCounter == old(idCounter)
      ensures user.Value() == old(user.Value()).(id := user.id)
      ensures storage == old(storage)[user.username := user.Value()]
      ensures FindByUsername(user.username) == Some(user.Value())
      ensures forall name :: name != user.username ==> FindByUsername(name) == old(FindByUsername(name))
    {
      if user.id == 0 {
        idCounter := IncrementAndGet(idCounter);
        user.SetId(idCounter);
      }
      storage := storage[user.username := user.Value()];
      saved := user;
    }
  }
}
