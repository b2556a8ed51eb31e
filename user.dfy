/** The user entity: id, login name, verbatim password and role. */
module UserModel {
  import Text
  import opened JavaLong

  /** The two roles a user can hold. */
  datatype Role = ADMIN | USER

  /** The value of a user at one moment. The password is stored and compared verbatim. */
  datatype UserRecord = UserRecord(id: Long, username: string, passwordHash: string, role: Role)

  /** The record with its password blanked: everything that user equality looks at. */
  function Identity(u: UserRecord): UserRecord
  {
    u.(passwordHash := "")
  }

  /** The name Java prints for an enum constant. */
  function RoleName(r: Role): (s: string)
    ensures s == "ADMIN" || s == "USER"
    ensures s == "ADMIN" <==> r == ADMIN
  {
    match r
    case ADMIN => "ADMIN"
    case USER => "USER"
  }

  /**
   * Java's toString of a user: id, quoted username and role, never the password.
   * The result opens with the id and the quoted username, closes with the role, and has
   * nothing in between: its length is the three parts' plus the 29 fixed characters.
   */
  function UserToString(u: UserRecord): (s: string)
    ensures "User{id=" + Text.IntToString(u.id) + ", username='" + u.username + "'" <= s
    ensures |s| == |Text.IntToString(u.id)| + |u.username| + |RoleName(u.role)| + 29
    ensures |s| >= |RoleName(u.role)| + 8 && s[|s| - |RoleName(u.role)| - 8..] == ", role=" + RoleName(u.role) + "}"
  {
    "User{id=" + Text.IntToString(u.id) + ", username='" + u.username + "'" +
    ", role=" + RoleName(u.role) + "}"
  }

  /** Changing the password never changes what toString prints. */
  lemma ToStringIgnoresPassword(u: UserRecord, password: string)
    ensures UserToString(u.(passwordHash := password)) == UserToString(u)
  {
  }

  /** A user object; the repository assigns its id through the setter. */
  class User {
    var id: Long
    var username: string
    var passwordHash: string
    var role: Role

    function Value(): UserRecord
      reads this
    {
      UserRecord(id, username, passwordHash, role)
    }

    /** The four-argument constructor stores exactly the given fields. */
    constructor (id: Long, username: string, passwordHash: string, role: Role)
      ensures Value() == UserRecord(id, username, passwordHash, role)
    {
      this.id := id;
      this.username := username;
      this.passwordHash := passwordHash;
      this.role := role;
    }

    method SetId(id: Long)
      modifies this
      ensures Value() == old(Value()).(id := id)
    {
      this.id := id;
    }

    method SetUsername(username: string)
      modifies this
      ensures Value() == old(Value()).(username := username)
    {
      this.username := username;
    }

    method SetPasswordHash(passwordHash: string)
      modifies this
      ensures Value() == old(Value()).(passwordHash := passwordHash)
      ensures Identity(Value()) == old(Identity(Value()))
    {
      this.passwordHash := passwordHash;
    }

    method SetRole(role: Role)
      modifies this
      ensures Value() == old(Value()).(role := role)
    {
      this.role := role;
    }

    /**
     * Java's equals: the same object, or equal id, username and role. The password is
     * deliberately ignored: two users are equal exactly when their records agree once the
     * passwords are blanked.
     */
    function Equals(o: User): (r: bool)
      reads this, o
      ensures r <==> Identity(Value()) == Identity(o.Value())
    {
      this == o || (id == o.id && username == o.username && role == o.role)
    }
  }

  /** Two users with the same id, username and role are equal, whatever their passwords. */
  lemma EqualsIgnoresPassword(a: User, b: User)
    requires a.id == b.id && a.username == b.username && a.role == b.role
    ensures a.Equals(b)
  {
  }
}
