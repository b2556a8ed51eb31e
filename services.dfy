/**
 * The audit service and the authentication service. Each holds a reference to the other:
 * authentication is built with the audit service, and the audit service receives the
 * authentication service afterwards through a setter, so both live in one module.
 */
module Services {
  import opened Wrappers
  import opened UserModel
  import opened UserRepository
  import opened AuditRepository

  /** The actor name used when nobody can be named. */
  const DEFAULT_AUDIT_USERNAME: string := "SYSTEM"

  /** The name an entry is attributed to, given the session the authentication service reports. */
  function ActorName(current: Option<UserRecord>): (name: string)
    ensures current.None? ==> name == DEFAULT_AUDIT_USERNAME
    ensures current.Some? ==> name == current.value.username
  {
    match current
    case None => DEFAULT_AUDIT_USERNAME
    case Some(user) => user.username
  }

  /**
   * One audit line: `[<timestamp>] User: [<name>] - Action: [<action>]`. Its length is the
   * three parts' plus the 24 characters of the fixed frame.
   */
  function FormatEntry(timestamp: string, username: string, action: string): (entry: string)
    ensures |entry| == |timestamp| + |username| + |action| + 24
  {
    "[" + timestamp + "] User: [" + username + "] - Action: [" + action + "]"
  }

  /** An audit line opens with the timestamp and the name and closes with the action. */
  lemma EntryLayout(timestamp: string, username: string, action: string)
    ensures var entry := FormatEntry(timestamp, username, action);
            && "[" + timestamp + "] User: [" + username <= entry
            && entry[|entry| - |action| - 14..] == "] - Action: [" + action + "]"
  {
  }

  /** For the same timestamp and action, the entry determines the name it is attributed to. */
  lemma EntryDeterminesActor(timestamp: string, a: string, b: string, action: string)
    requires FormatEntry(timestamp, a, action) == FormatEntry(timestamp, b, action)
    ensures a == b
  {
    var e := FormatEntry(timestamp, a, action);
    var start := |timestamp| + 10;
    EntryLayout(timestamp, a, action);
    EntryLayout(timestamp, b, action);
    assert |a| == |b|;
    assert e[start..start + |a|] == a;
    assert FormatEntry(timestamp, b, action)[start..start + |b|] == b;
  }

  class AuditService {
    const auditRepository: InMemoryAuditRepository
    /** Null until the setter wires in the authentication service. */
    var authService: AuthService?

    /** Built from the trail alone; no authentication service yet. */
    constructor (auditRepository: InMemoryAuditRepository)
      ensures this.auditRepository == auditRepository && authService == null
    {
      this.auditRepository := auditRepository;
      authService := null;
    }

    /** The late-binding setter that completes the cycle between the two services. */
    method SetAuthService(authService: AuthService?)
      modifies this
      ensures this.authService == authService
    {
      this.authService := authService;
    }

    /**
     * Who an entry written now is attributed to: SYSTEM before the authentication service is
     * wired in or while nobody is logged in, otherwise the logged-in user's username.
     */
    function CurrentActor(): (name: string)
      reads this, authService
      ensures authService == null ==> name == DEFAULT_AUDIT_USERNAME
      ensures authService != null && authService.currentUser.None? ==> name == DEFAULT_AUDIT_USERNAME
      ensures authService != null && authService.currentUser.Some? ==> name == authService.currentUser.value.username
    {
      if authService == null then DEFAULT_AUDIT_USERNAME else ActorName(authService.GetCurrentUser())
    }

    /**
     * Appends exactly one formatted entry to the trail, attributed to the actor at the moment
     * of the call. The timestamp is the formatted clock reading, passed in.
     */
    method LogAction(action: string, timestamp: string)
      modifies auditRepository
      ensures auditRepository.auditLog == old(auditRepository.auditLog) + [FormatEntry(timestamp, CurrentActor(), action)]
    {
      var username := DEFAULT_AUDIT_USERNAME;
      if authService != null {
        var userOpt := authService.GetCurrentUser();
        if userOpt.Some? {
          username := userOpt.value.username;
        }
      }
      var logEntry := FormatEntry(timestamp, username, action);
      auditRepository.Save(logEntry);
    }

    /** The whole trail, in insertion order, as the repository returns it. */
    method GetAuditHistory() returns (history: seq<string>)
      ensures history == auditRepository.auditLog
    {
      history := auditRepository.FindAll();
    }
  }

  class AuthService {
    const userRepository: InMemoryUserRepository
    const auditService: AuditService
    /** The session: the logged-in user, or None. */
    var currentUser: Option<UserRecord>

    /** Nobody is logged in at startup. */
    constructor (userRepository: InMemoryUserRepository, auditService: AuditService)
      ensures this.userRepository == userRepository && this.auditService == auditService
      ensures currentUser == None
    {
      this.userRepository := userRepository;
      this.auditService := auditService;
      currentUser := None;
    }

    /**
     * Succeeds exactly when the username is stored and its password equals the given one
     * verbatim; the session then holds that user, who is returned. On failure the session
     * is left as it was. A login while someone is logged in replaces that user.
     */
    method Login(username: string, password: string) returns (r: Option<UserRecord>)
      modifies this
      ensures r.Some? <==> (username in userRepository.storage &&
                            userRepository.storage[username].passwordHash == password)
      ensures r.Some? ==> r == userRepository.FindByUsername(username) && currentUser == r
      ensures r.None? ==> currentUser == old(currentUser)
    {
      var userOpt := userRepository.FindByUsername(username);
      if userOpt.Some? {
        var user := userOpt.value;
        if user.passwordHash == password {
          currentUser := Some(user);
          return Some(user);
        }
      }
      return None;
    }

    /** Ends the session; with nobody logged in it changes nothing. */
    method Logout()
      modifies this
      ensures currentUser == None
      ensures old(currentUser).None? ==> currentUser == old(currentUser)
    {
      if currentUser.Some? {
        currentUser := None;
      }
    }

    /** The session's user: present exactly when somebody is logged in. */
    function GetCurrentUser(): (r: Option<UserRecord>)
      reads this
      ensures r.Some? <==> currentUser.Some?
      ensures r.Some? ==> r.value == currentUser.value
    {
      currentUser
    }

    /** True exactly when somebody is logged in and their role is ADMIN. */
    function IsAdmin(): (r: bool)
      reads this
      ensures r <==> GetCurrentUser().Some? && GetCurrentUser().value.role == ADMIN
    {
      currentUser.Some? && currentUser.value.role == ADMIN
    }
  }

  /**
   * The actor is read when an entry is written: with the services wired and nobody logged in,
   * an entry goes to SYSTEM; after a successful login the next entry carries the username.
   */
  method LoginChangesAttribution(audit: AuditService, auth: AuthService, username: string, password: string,
                                 first: string, second: string, t1: string, t2: string)
    requires audit.authService == auth && auth.currentUser == None
    requires auth.userRepository.Valid()
    requires username in auth.userRepository.storage && auth.userRepository.storage[username].passwordHash == password
    modifies auth, audit.auditRepository
    ensures audit.auditRepository.auditLog ==
            old(audit.auditRepository.auditLog) +
            [FormatEntry(t1, DEFAULT_AUDIT_USERNAME, first), FormatEntry(t2, username, second)]
  {
    audit.LogAction(first, t1);
    var user := auth.Login(username, password);
    audit.LogAction(second, t2);
  }
}
