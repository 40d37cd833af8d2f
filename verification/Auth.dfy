/**
 The AUTH callbacks of the module (src/auth.rs) over the ACL users of the server.
 */
module Auth {
  import opened Wrappers
  import opened LdapErrors
  import opened AclTokens
  import opened Login

  type Acl = map<string, AclUser>

  // The configuration values the callbacks read.  Exemption stands for the compiled pattern.
  datatype Config = Config(authEnabled: bool, fallback: bool, exempt: string -> bool, defaultRules: seq<string>)

  // AUTH_HANDLED, AUTH_NOT_HANDLED or an error reply.
  datatype Answer = Handled | NotHandled | Denied(message: string)

  type LdapResult = Result<seq<string>, VkLdapError>

  const NOT_FOUND := "User not found in LDAP"
  const UNAVAILABLE := "LDAP server unavailable"
  const REJECTED := "LDAP authentication failed"
  const UNKNOWN_ERROR := "Unknown error during authentication, check the server logs"

  // ACL SETUSER takes all of its rules or none; it creates the user when needed.
  function SetUser(acl: Acl, username: string, rules: seq<string>, refuses: bool): Option<Acl> {
    match ApplyTokens(if username in acl then acl[username] else NEW_USER, rules)
    case None => None
    case Some(user) => if refuses then None else Some(acl[username := user])
  }

  // ACL DELUSER fails for the users that the server protects, such as `default`.
  function DelUser(acl: Acl, undeletable: set<string>, username: string): Option<Acl> {
    if username in undeletable then None else Some(acl - {username})
  }

  // The server's own check of a name and a password.
  predicate LocallyAccepts(acl: Acl, username: string, password: string) {
    username in acl && acl[username].enabled && (acl[username].nopass || Password(password) in acl[username].passwords)
  }

  // ---- What a reply does

  function AfterSuccess(acl: Acl, config: Config, username: string, password: string, ldapTokens: seq<string>,
                        refuses: bool): (Acl, Answer)
  {
    match SetUser(acl, username, RuleTokens(config.defaultRules, ldapTokens, config.fallback, password), refuses)
    case None => (acl, Denied("Failed to apply ACL rules"))
    case Some(acl') => (acl', if acl'[username].enabled then Handled else Denied("Failed to authenticate with ACL"))
  }

  function AfterDelete(acl: Acl, undeletable: set<string>, username: string): Acl {
    match DelUser(acl, undeletable, username)
    case None => acl
    case Some(acl') => acl'
  }

  function AfterReply(acl: Acl, config: Config, undeletable: set<string>, username: string, password: string,
                      result: Option<LdapResult>, refuses: bool): (Acl, Answer)
  {
    match result
    case None => (acl, Denied(UNKNOWN_ERROR))
    case Some(Ok(ldapTokens)) => AfterSuccess(acl, config, username, password, ldapTokens, refuses)
    case Some(Err(err)) =>
      if IsUserNotFound(err) then
        (if config.exempt(username) then acl else AfterDelete(acl, undeletable, username), Denied(NOT_FOUND))
      else if IsServerUnavailable(err) then
        (acl, if config.fallback then NotHandled else Denied(UNAVAILABLE))
      else
        (AfterDelete(acl, undeletable, username), Denied(REJECTED))
  }

  // ---- The callbacks

  class ValkeyServer {
    var acl: Acl
    var config: Config
    const undeletable: set<string>

    constructor (acl: Acl, config: Config, undeletable: set<string>)
      ensures this.acl == acl && this.config == config && this.undeletable == undeletable
    {
      this.acl, this.config, this.undeletable := acl, config, undeletable;
    }

    // ctx.call("ACL", args)
    method AclCommand(args: seq<string>, refuses: bool) returns (ok: bool)
      requires |args| >= 2 && (args[0] == "SETUSER" || (args[0] == "DELUSER" && |args| == 2))
      modifies this`acl
      ensures var done := if args[0] == "SETUSER" then SetUser(old(acl), args[1], args[2..], refuses)
                          else DelUser(old(acl), undeletable, args[1]);
              ok == done.Some? && acl == if ok then done.value else old(acl)
    {
      var done := if args[0] == "SETUSER" then SetUser(acl, args[1], args[2..], refuses)
                  else DelUser(acl, undeletable, args[1]);
      ok := done.Some?;
      if ok {
        acl := done.value;
      }
    }

    method ApplyLdapUserAcl(username: string, password: string, ldapTokens: seq<string>, refuses: bool)
      returns (answer: Answer)
      modifies this`acl
      ensures (acl, answer) == AfterSuccess(old(acl), config, username, password, ldapTokens, refuses)
    {
      var ruleTokens: seq<string> := [];
      ruleTokens := ruleTokens + ["resetkeys"];
      ruleTokens := ruleTokens + ["resetchannels"];
      ruleTokens := ruleTokens + ["-@all"];
      ruleTokens := ruleTokens + config.defaultRules;
      ruleTokens := ruleTokens + ldapTokens;
      if config.fallback {
        ruleTokens := ruleTokens + ["resetpass"];
        ruleTokens := ruleTokens + [">" + password];
      }
      assert ruleTokens == RuleTokens(config.defaultRules, ldapTokens, config.fallback, password);

      var args := ["SETUSER"];
      args := args + [username];
      args := args + ruleTokens;
      assert args[2..] == ruleTokens;
      var ok := AclCommand(args, refuses);
      if !ok {
        return Denied("Failed to apply ACL rules");
      }
      // authenticate_client_with_acl_user
      if acl[username].enabled {
        answer := Handled;
      } else {
        answer := Denied("Failed to authenticate with ACL");
      }
    }

    method HandleUserNotFound(username: string) returns (answer: Answer)
      modifies this`acl
      ensures answer == Denied(NOT_FOUND)
      ensures acl == if config.exempt(username) then old(acl) else AfterDelete(old(acl), undeletable, username)
    {
      if config.exempt(username) {
        return Denied(NOT_FOUND);
      }
      var _ := AclCommand(["DELUSER", username], false);
      answer := Denied(NOT_FOUND);
    }

    method HandleServerUnavailable() returns (answer: Answer)
      ensures answer == if config.fallback then NotHandled else Denied(UNAVAILABLE)
    {
      if config.fallback {
        answer := NotHandled;
      } else {
        answer := Denied(UNAVAILABLE);
      }
    }

    method HandleCredentialRejection(username: string) returns (answer: Answer)
      modifies this`acl
      ensures answer == Denied(REJECTED) && acl == AfterDelete(old(acl), undeletable, username)
    {
      var _ := AclCommand(["DELUSER", username], false);
      answer := Denied(REJECTED);
    }

    method AuthReply(username: string, password: string, result: Option<LdapResult>, refuses: bool)
      returns (answer: Answer)
      modifies this`acl
      ensures (acl, answer) == AfterReply(old(acl), config, undeletable, username, password, result, refuses)
      ensures answer == Handled ==> result.Some? && result.value.Ok? && username in acl && acl[username].enabled
      ensures answer == NotHandled ==> config.fallback && result.Some? && result.value.Err?
    {
      match result {
        case None => answer := Denied(UNKNOWN_ERROR);
        case Some(Ok(ldapTokens)) => answer := ApplyLdapUserAcl(username, password, ldapTokens, refuses);
        case Some(Err(err)) =>
          if IsUserNotFound(err) {
            answer := HandleUserNotFound(username);
          } else if IsServerUnavailable(err) {
            answer := HandleServerUnavailable();
          } else {
            answer := HandleCredentialRejection(username);
          }
      }
    }

    // The gate in front of a login: whether one is started, and what AUTH is told now.
    method AuthBlocking(username: string, submitted: bool) returns (started: bool, answer: Answer)
      ensures started <==> Starts(config, username) && submitted
      ensures started <==> config.authEnabled && !config.exempt(username) && submitted
      ensures answer == if started then Handled else NotHandled
    {
      if !config.authEnabled {
        return false, NotHandled;
      }
      if config.exempt(username) {
        return false, NotHandled;
      }
      if submitted {
        return true, Handled;
      }
      return false, NotHandled;
    }
  }

  predicate Starts(config: Config, username: string) {
    config.authEnabled && !config.exempt(username)
  }

  // ---- What a reply means

  // The user that a successful login makes of the entry it finds, or of a new user without any
  // right; None if a rule is wrong or the server refuses the command.
  function UserAfterLogin(acl: Acl, config: Config, username: string, password: string, ldapTokens: seq<string>,
                          refuses: bool): Option<AclUser>
  {
    var nobody := AclUser(false, false, {}, Root(false, [], false, [], Commands(false, [])));
    var cached := if config.fallback then ["resetpass", ">" + password] else [];
    var rules := ["resetkeys", "resetchannels", "-@all"] + config.defaultRules + ldapTokens + cached;
    if refuses then None else ApplyTokens(if username in acl then acl[username] else nobody, rules)
  }

  // The answer to every reply, and with it the entry after a success: AUTH succeeds exactly if LDAP
  // accepted the login, the server took the rules and the user they make is enabled; a refusal of
  // any kind is an error with the message of its class.
  lemma ReplyAnswers(acl: Acl, config: Config, undeletable: set<string>, username: string, password: string,
                     result: Option<LdapResult>, refuses: bool)
    ensures var (acl', answer) := AfterReply(acl, config, undeletable, username, password, result, refuses);
            match result
            case None => answer == Denied("Unknown error during authentication, check the server logs") && acl' == acl
            case Some(Ok(tokens)) =>
              (match UserAfterLogin(acl, config, username, password, tokens, refuses)
               case None => answer == Denied("Failed to apply ACL rules") && acl' == acl
               case Some(user) =>
                 && acl' == acl[username := user]
                 && answer == if user.enabled then Handled else Denied("Failed to authenticate with ACL"))
            case Some(Err(err)) =>
              answer == if IsUserNotFound(err) then Denied("User not found in LDAP")
                        else if !IsServerUnavailable(err) then Denied("LDAP authentication failed")
                        else if config.fallback then NotHandled
                        else Denied("LDAP server unavailable")
  {
  }

  lemma HandledExactlyWhen(acl: Acl, config: Config, undeletable: set<string>, username: string, password: string,
                           result: Option<LdapResult>, refuses: bool)
    ensures AfterReply(acl, config, undeletable, username, password, result, refuses).1 == Handled
       <==> result.Some? && result.value.Ok?
            && var user := UserAfterLogin(acl, config, username, password, result.value.value, refuses);
               user.Some? && user.value.enabled
  {
    ReplyAnswers(acl, config, undeletable, username, password, result, refuses);
  }

  // So whoever is let in has been accepted by a directory, and may do what the rules that this
  // directory listed make of the entry.
  lemma {:induction false} HandledMeansVouched(
      attempts: seq<Attempt>, settings: LdapSettings, mode: Mode, username: string, password: string,
      acl: Acl, config: Config, undeletable: set<string>, refuses: bool) returns (k: nat, rules: seq<string>)
    requires var result := LoginOutcome(attempts, settings, mode, username, password);
             AfterReply(acl, config, undeletable, username, password, result, refuses).1 == Handled
    ensures k < |attempts| && FailedOver(attempts, k, settings, mode, username, password) && attempts[k].OnServer?
    ensures Vouches(attempts[k].directory, settings, mode, username, password, rules)
    ensures var result := LoginOutcome(attempts, settings, mode, username, password);
            var acl' := AfterReply(acl, config, undeletable, username, password, result, refuses).0;
            && username in acl' && acl'[username].enabled
            && Some(acl'[username]) == UserAfterLogin(acl, config, username, password, rules, refuses)
  {
    var result := LoginOutcome(attempts, settings, mode, username, password);
    ReplyAnswers(acl, config, undeletable, username, password, result, refuses);
    rules := result.value.value;
    LoginSound(attempts, settings, mode, username, password, rules);
    k :| 0 <= k < |attempts| && FailedOver(attempts, k, settings, mode, username, password)
      && attempts[k].OnServer? && Vouches(attempts[k].directory, settings, mode, username, password, rules);
  }

  // Fallback exactness, from the failover loop to the answer: local authentication is reached
  // exactly when fallback is enabled and the loop ended for want of a server.
  lemma FallbackExactness(attempts: seq<Attempt>, settings: LdapSettings, mode: Mode,
                          username: string, password: string, acl: Acl, config: Config,
                          undeletable: set<string>, refuses: bool)
    requires LoginOutcome(attempts, settings, mode, username, password).Some?
    ensures var result := LoginOutcome(attempts, settings, mode, username, password);
            AfterReply(acl, config, undeletable, username, password, result, refuses).1 == NotHandled
            <==> config.fallback && EndsInLookup(attempts, settings, mode, username, password)
  {
    UnavailableMeansNoServer(attempts, settings, mode, username, password);
  }

  // A reply touches no entry but the user's own, and none at all when no server was there to decide.
  lemma ReplyFrame(acl: Acl, config: Config, undeletable: set<string>, username: string, password: string,
                   result: Option<LdapResult>, refuses: bool, other: string)
    ensures var acl' := AfterReply(acl, config, undeletable, username, password, result, refuses).0;
            && (other != username ==> (other in acl' <==> other in acl) && (other in acl ==> acl'[other] == acl[other]))
            && (result.None? || (result.value.Err? && IsServerUnavailable(result.value.error)) ==> acl' == acl)
  {
  }

  // Exactly when a reply removes the user.
  predicate Removes(config: Config, undeletable: set<string>, username: string, result: Option<LdapResult>) {
    && result.Some? && result.value.Err?
    && !IsServerUnavailable(result.value.error)
    && username !in undeletable
    && (IsUserNotFound(result.value.error) ==> !config.exempt(username))
  }

  lemma RemovedExactlyWhen(acl: Acl, config: Config, undeletable: set<string>, username: string, password: string,
                           result: Option<LdapResult>, refuses: bool)
    requires username in acl
    ensures username !in AfterReply(acl, config, undeletable, username, password, result, refuses).0
       <==> Removes(config, undeletable, username, result)
  {
  }

  // What the directory must have answered for a login to remove its user: the first attempt that
  // kept its connection was denied, and if the user is unknown there, the user is not exempt.
  ghost predicate DeniedAt(attempts: seq<Attempt>, k: nat, settings: LdapSettings, mode: Mode,
                           username: string, password: string, config: Config)
  {
    && k < |attempts| && FailedOver(attempts, k, settings, mode, username, password)
    && attempts[k].OnServer?
    && Denies(attempts[k].directory, settings, mode, username, password)
    && (UserUnknown(attempts[k].directory, settings, mode, username, password) ==> !config.exempt(username))
  }

  lemma LoginRemovesExactlyWhen(attempts: seq<Attempt>, settings: LdapSettings, mode: Mode,
                                username: string, password: string, config: Config, undeletable: set<string>)
    ensures Removes(config, undeletable, username, LoginOutcome(attempts, settings, mode, username, password))
       <==> username !in undeletable
            && exists k: nat :: DeniedAt(attempts, k, settings, mode, username, password, config)
  {
    var k := DecidedByOneAttempt(attempts, settings, mode, username, password);
    if k < |attempts| && attempts[k].OnServer? {
      var dir := attempts[k].directory;
      DeniedExactlyWhen(dir, settings, mode, username, password);
      NotFoundComesFromTheUser(dir, settings, mode, username, password);
      AttemptErrors(dir, settings, mode, username, password);
      assert DeniedAt(attempts, k, settings, mode, username, password, config)
        <==> Denies(dir, settings, mode, username, password)
             && (UserUnknown(dir, settings, mode, username, password) ==> !config.exempt(username));
    }
    forall j: nat | DeniedAt(attempts, j, settings, mode, username, password, config) ensures j == k {
      DeniedExactlyWhen(attempts[j].directory, settings, mode, username, password);
    }
  }

  // The documentation promises deletion only for users that LDAP does not know.  A refused bind of
  // the service account, before the user was even looked at, deletes the user as well.
  lemma ServiceAccountFailureDeletes(settings: LdapSettings, dir: Directory, username: string, password: string,
                                     acl: Acl, config: Config, undeletable: set<string>)
    requires settings.searchBindDn.Some? && settings.searchBindPasswd.Some?
    requires dir.bind(SEARCH_ADMIN_BIND, settings.searchBindDn.value, settings.searchBindPasswd.value).Refused?
    requires username !in undeletable
    ensures var result := LoginOutcome([OnServer(dir)], settings, SearchAndBind, username, password);
            && result.Some?
            && username !in AfterReply(acl, config, undeletable, username, password, result, false).0
  {
  }
}
