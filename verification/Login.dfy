/**
 One login: ldap_bind_and_group_rules and ldap_search_bind_and_group_rules in
 src/vkldap/context.rs, with the connection calls of src/vkldap/connection.rs they make.

 What find_server yields in each iteration of the failover loop, and how the directory behind
 that server answers, is given as a sequence of attempts; other tasks may do anything in
 between.  A loop that has used up its attempts without an end is still running.
 */
module Login {
  import opened Wrappers
  import opened LdapErrors
  import opened GroupRules

  type Values = values: seq<string> | values != [] witness [""]

  type SearchEntry = map<string, Values>

  // The answers of one directory to one attempt: to a bind with a DN and a password, and to a search
  // with a base, a filter and the attribute asked for.  Each call of the attempt has a number, so
  // that a directory may change its mind between two calls that ask the same.
  datatype Directory = Directory(
    bind: (nat, string, string) -> Call<()>,
    search: (nat, string, string, string) -> Call<seq<SearchEntry>>
  )

  const SEARCH_ADMIN_BIND := 0
  const USER_SEARCH := 1
  const USER_BIND := 2
  const GROUPS_ADMIN_BIND := 3
  const GROUPS_SEARCH := 4

  datatype LdapSettings = LdapSettings(
    bindDbPrefix: string,
    bindDbSuffix: string,
    searchBase: Option<string>,
    searchFilter: Option<string>,
    searchAttribute: Option<string>,
    searchBindDn: Option<string>,
    searchBindPasswd: Option<string>,
    searchDnAttribute: string,
    groupsSearchBase: Option<string>,
    groupsFilter: Option<string>,
    groupsMemberAttribute: string,
    groupsRulesAttribute: string,
    // library functions
    escape: string -> string,
    isSpace: char -> bool
  )

  datatype Mode = Bind | SearchAndBind

  datatype Attempt = NoneConfigured | NoneHealthy | OnServer(directory: Directory)

  function GetOr<T>(value: Option<T>, default: T): T {
    match value
    case Some(v) => v
    case None => default
  }

  // The bind of the service account, if one is configured.
  function AdminCall(dir: Directory, n: nat, settings: LdapSettings): Call<()> {
    if settings.searchBindDn.Some? && settings.searchBindPasswd.Some? then
      dir.bind(n, settings.searchBindDn.value, settings.searchBindPasswd.value)
    else Accepted(())
  }

  function AdminBind(dir: Directory, n: nat, settings: LdapSettings): Result<(), VkLdapError> {
    HandleLdapError(AdminCall(dir, n, settings), e => LdapAdminBindError(e))
  }

  function UserFilter(settings: LdapSettings, username: string): string {
    "(&(" + GetOr(settings.searchFilter, "objectClass=*") + ")(" +
    GetOr(settings.searchAttribute, "uid") + "=" + username + "))"
  }

  function GroupBase(settings: LdapSettings): string {
    if settings.groupsSearchBase.Some? then settings.groupsSearchBase.value else GetOr(settings.searchBase, "")
  }

  function GroupFilter(settings: LdapSettings, dn: string): string {
    "(&(" + GetOr(settings.groupsFilter, "objectClass=groupOfNames") + ")(" +
    settings.groupsMemberAttribute + "=" + settings.escape(dn) + "))"
  }

  function UserCall(dir: Directory, settings: LdapSettings, username: string): Call<seq<SearchEntry>> {
    dir.search(USER_SEARCH, GetOr(settings.searchBase, ""), UserFilter(settings, username), settings.searchDnAttribute)
  }

  function GroupsCall(dir: Directory, settings: LdapSettings, dn: string): Call<seq<SearchEntry>> {
    dir.search(GROUPS_SEARCH, GroupBase(settings), GroupFilter(settings, dn), settings.groupsRulesAttribute)
  }

  // VkLdapConnection::search: the DN of the one entry of the user.
  function SearchUser(dir: Directory, settings: LdapSettings, username: string): Result<string, VkLdapError> {
    match AdminBind(dir, SEARCH_ADMIN_BIND, settings)
    case Err(err) => Err(err)
    case Ok(_) =>
      var filter := UserFilter(settings, username);
      match HandleLdapError(UserCall(dir, settings, username), e => LdapSearchError(e))
      case Err(err) => Err(err)
      case Ok(entries) =>
        if |entries| == 0 then Err(NoLdapEntryFound(filter))
        else if |entries| > 1 then Err(MultipleEntryFound(filter))
        else if settings.searchDnAttribute !in entries[0] then Err(InvalidDNAttribute(settings.searchDnAttribute))
        else Ok(entries[0][settings.searchDnAttribute][0])
  }

  function RulesValues(entries: seq<SearchEntry>, attribute: string): seq<Entry> {
    seq(|entries|, i requires 0 <= i < |entries| =>
      if attribute in entries[i] then Some(entries[i][attribute]) else None)
  }

  // VkLdapConnection::search_groups_rules
  function SearchRules(dir: Directory, settings: LdapSettings, dn: string): Result<seq<string>, VkLdapError> {
    match AdminBind(dir, GROUPS_ADMIN_BIND, settings)
    case Err(err) => Err(err)
    case Ok(_) =>
      match HandleLdapError(GroupsCall(dir, settings, dn), e => LdapSearchError(e))
      case Err(err) => Err(err)
      case Ok(entries) => Ok(Dedup(EntryTokens(RulesValues(entries, settings.groupsRulesAttribute), settings.isSpace)))
  }

  function UserDn(dir: Directory, settings: LdapSettings, mode: Mode, username: string): Result<string, VkLdapError> {
    match mode
    case Bind => Ok(settings.bindDbPrefix + username + settings.bindDbSuffix)
    case SearchAndBind => SearchUser(dir, settings, username)
  }

  // What one attempt on one directory comes to.
  function Attempted(dir: Directory, settings: LdapSettings, mode: Mode, username: string, password: string)
    : Result<seq<string>, VkLdapError>
  {
    match UserDn(dir, settings, mode, username)
    case Err(err) => Err(err)
    case Ok(dn) =>
      match HandleLdapError(dir.bind(USER_BIND, dn, password), e => LdapBindError(e))
      case Err(err) => Err(err)
      case Ok(_) => SearchRules(dir, settings, dn)
  }

  class ResultCell {
    var value: Option<seq<string>>

    constructor ()
      ensures value == None
    {
      value := None;
    }
  }

  // The operation that the failover loop runs; the rules leave it through the shared cell.
  method LoginOp(dir: Directory, settings: LdapSettings, mode: Mode, username: string, password: string,
                 cell: ResultCell)
    returns (res: Outcome)
    modifies cell
    ensures match Attempted(dir, settings, mode, username, password)
            case Ok(rules) => res == Ok(()) && cell.value == Some(rules)
            case Err(err) => res == Err(err) && cell.value == old(cell.value)
  {
    var dn;
    match mode {
      case Bind => dn := Ok(settings.bindDbPrefix + username + settings.bindDbSuffix);
      case SearchAndBind => dn := SearchUser(dir, settings, username);
    }
    if dn.Err? {
      return Err(dn.error);
    }
    var bound := HandleLdapError(dir.bind(USER_BIND, dn.value, password), e => LdapBindError(e));
    if bound.Err? {
      return Err(bound.error);
    }
    var rules := SearchRules(dir, settings, dn.value);
    if rules.Err? {
      return Err(rules.error);
    }
    cell.value := Some(rules.value);
    res := Ok(());
  }

  // The outcome of a login, or None while it is still failing over.
  function LoginOutcome(attempts: seq<Attempt>, settings: LdapSettings, mode: Mode, username: string, password: string)
    : Option<Result<seq<string>, VkLdapError>>
    decreases |attempts|
  {
    if attempts == [] then None
    else
      match attempts[0]
      case NoneConfigured => Some(Err(NoServerConfigured))
      case NoneHealthy => Some(Err(NoHealthyServerAvailable))
      case OnServer(dir) =>
        var tried := Attempted(dir, settings, mode, username, password);
        if tried.Err? && tried.error.LdapConnectionError? then
          LoginOutcome(attempts[1..], settings, mode, username, password)
        else Some(tried)
  }

  method LdapLogin(attempts: seq<Attempt>, settings: LdapSettings, mode: Mode, username: string, password: string)
    returns (outcome: Option<Result<seq<string>, VkLdapError>>)
    ensures outcome == LoginOutcome(attempts, settings, mode, username, password)
  {
    var rulesOut := new ResultCell();
    var i := 0;
    var opRes: Outcome := Ok(());
    while i < |attempts|
      invariant i <= |attempts|
      invariant LoginOutcome(attempts[i..], settings, mode, username, password)
             == LoginOutcome(attempts, settings, mode, username, password)
    {
      assert attempts[i..][1..] == attempts[i + 1..];
      match attempts[i] {
        case NoneConfigured => return Some(Err(NoServerConfigured));
        case NoneHealthy => return Some(Err(NoHealthyServerAvailable));
        case OnServer(dir) =>
          opRes := LoginOp(dir, settings, mode, username, password, rulesOut);
      }
      if !IsConnectionFailure(opRes) {
        if opRes.Err? {
          return Some(Err(opRes.error));
        }
        // unwrap_or_default
        return Some(Ok(GetOr(rulesOut.value, [])));
      }
      i := i + 1;
    }
    outcome := None;
  }

  // ---- What the search for the user asks

  // The characters that RFC 4515, section 3, reserves in an assertion value.
  predicate Reserved(c: char) {
    c == '\0' || c == '(' || c == ')' || c == '*' || c == '\\'
  }

  function HexDigit(c: char): Option<int> {
    if '0' <= c <= '9' then Some((c - '0') as int)
    else if 'a' <= c <= 'f' then Some((c - 'a') as int + 10)
    else if 'A' <= c <= 'F' then Some((c - 'A') as int + 10)
    else None
  }

  // The value that a text stands for in an equality assertion, by the same section: a backslash and
  // two hexadecimal digits are one octet, and other reserved characters end or change the assertion.
  function AssertedValue(text: string): Option<string>
    decreases |text|
  {
    if text == [] then Some([])
    else if text[0] == '\\' then
      if |text| < 3 || HexDigit(text[1]).None? || HexDigit(text[2]).None? then None
      else
        match AssertedValue(text[3..])
        case None => None
        case Some(rest) => Some([(16 * HexDigit(text[1]).value + HexDigit(text[2]).value) as char] + rest)
    else if Reserved(text[0]) then None
    else
      match AssertedValue(text[1..])
      case None => None
      case Some(rest) => Some([text[0]] + rest)
  }

  lemma {:induction false} AssertedIsNoLonger(text: string)
    ensures AssertedValue(text).Some? ==> |AssertedValue(text).value| <= |text|
    decreases |text|
  {
    if text != [] {
      AssertedIsNoLonger(text[1..]);
      if |text| >= 3 {
        AssertedIsNoLonger(text[3..]);
      }
    }
  }

  lemma {:induction false} NameStandsForItself(username: string)
    ensures AssertedValue(username) == Some(username) <==> forall i :: 0 <= i < |username| ==> !Reserved(username[i])
    decreases |username|
  {
    if username == [] {
    } else if username[0] == '\\' {
      if |username| >= 3 {
        AssertedIsNoLonger(username[3..]);
      }
      assert Reserved(username[0]);
    } else if Reserved(username[0]) {
    } else {
      var rest := username[1..];
      NameStandsForItself(rest);
      assert username == [username[0]] + rest;
      assert AssertedValue(username) == Some(username) <==> AssertedValue(rest) == Some(rest) by {
        var asserted := AssertedValue(rest);
        assert asserted.Some? ==> ([username[0]] + asserted.value)[1..] == asserted.value;
      }
    }
  }

  // The name goes into the filter as it is.  So the search asks for an entry whose attribute equals
  // this very name exactly when the name has no reserved character; the DN of a group search, which
  // is escaped, has no such condition.
  lemma SearchAsksForTheName(settings: LdapSettings, username: string)
    ensures UserFilter(settings, username) ==
              "(&(" + (match settings.searchFilter case Some(filter) => filter case None => "objectClass=*") + ")(" +
              (match settings.searchAttribute case Some(attribute) => attribute case None => "uid") +
              "=" + username + "))"
    ensures AssertedValue(username) == Some(username) <==> forall i :: 0 <= i < |username| ==> !Reserved(username[i])
  {
    NameStandsForItself(username);
  }

  // ---- What an outcome tells

  // The attempts before the k-th all lost their connection.
  ghost predicate FailedOver(attempts: seq<Attempt>, k: nat, settings: LdapSettings, mode: Mode,
                             username: string, password: string)
    requires k <= |attempts|
  {
    forall i :: 0 <= i < k ==>
      && attempts[i].OnServer?
      && var tried := Attempted(attempts[i].directory, settings, mode, username, password);
         tried.Err? && tried.error.LdapConnectionError?
  }

  // A finished login is decided by one attempt, the first that did not lose its connection.
  lemma {:induction false} DecidedByOneAttempt(attempts: seq<Attempt>, settings: LdapSettings, mode: Mode,
                                               username: string, password: string) returns (k: nat)
    ensures k <= |attempts| && FailedOver(attempts, k, settings, mode, username, password)
    ensures LoginOutcome(attempts, settings, mode, username, password) ==
            if k == |attempts| then None
            else match attempts[k]
                 case NoneConfigured => Some(Err(NoServerConfigured))
                 case NoneHealthy => Some(Err(NoHealthyServerAvailable))
                 case OnServer(dir) => Some(Attempted(dir, settings, mode, username, password))
    ensures k < |attempts| && attempts[k].OnServer? ==>
              var tried := Attempted(attempts[k].directory, settings, mode, username, password);
              tried.Err? ==> !tried.error.LdapConnectionError?
    decreases |attempts|
  {
    if attempts == [] {
      k := 0;
    } else if FailedOver(attempts, 1, settings, mode, username, password) {
      var later := DecidedByOneAttempt(attempts[1..], settings, mode, username, password);
      k := later + 1;
      forall i | 0 <= i < k
        ensures attempts[i].OnServer?
             && var tried := Attempted(attempts[i].directory, settings, mode, username, password);
                tried.Err? && tried.error.LdapConnectionError?
      {
        assert i > 0 ==> attempts[i] == attempts[1..][i - 1];
      }
    } else {
      k := 0;
    }
  }

  // The service account, if one is configured, is accepted at call `n`.
  predicate AdminAccepted(dir: Directory, n: nat, settings: LdapSettings) {
    settings.searchBindDn.Some? && settings.searchBindPasswd.Some? ==>
      dir.bind(n, settings.searchBindDn.value, settings.searchBindPasswd.value).Accepted?
  }

  // The calls with their arguments written out.
  function SearchOfUser(dir: Directory, settings: LdapSettings, username: string): Call<seq<SearchEntry>> {
    var base := match settings.searchBase case Some(base) => base case None => "";
    var filter := match settings.searchFilter case Some(filter) => filter case None => "objectClass=*";
    var attribute := match settings.searchAttribute case Some(attribute) => attribute case None => "uid";
    dir.search(1, base, "(&(" + filter + ")(" + attribute + "=" + username + "))", settings.searchDnAttribute)
  }

  function SearchOfGroups(dir: Directory, settings: LdapSettings, dn: string): Call<seq<SearchEntry>> {
    var base := match settings.groupsSearchBase
                case Some(base) => base
                case None => match settings.searchBase case Some(base) => base case None => "";
    var filter := match settings.groupsFilter case Some(filter) => filter case None => "objectClass=groupOfNames";
    dir.search(4, base, "(&(" + filter + ")(" + settings.groupsMemberAttribute + "=" + settings.escape(dn) + "))",
               settings.groupsRulesAttribute)
  }

  // The DN that is bound: in bind mode the name between prefix and suffix; otherwise the first value
  // of the DN attribute of the one entry that the search for the user finds.
  predicate IsDnOf(dir: Directory, settings: LdapSettings, mode: Mode, username: string, dn: string) {
    match mode
    case Bind => dn == settings.bindDbPrefix + username + settings.bindDbSuffix
    case SearchAndBind =>
      && AdminAccepted(dir, 0, settings)
      && match SearchOfUser(dir, settings, username)
         case Accepted(entries) =>
           && |entries| == 1 && settings.searchDnAttribute in entries[0]
           && dn == entries[0][settings.searchDnAttribute][0]
         case _ => false
  }

  lemma UserDnExactlyWhen(dir: Directory, settings: LdapSettings, mode: Mode, username: string, dn: string)
    ensures UserDn(dir, settings, mode, username) == Ok(dn) <==> IsDnOf(dir, settings, mode, username, dn)
    ensures UserCall(dir, settings, username) == SearchOfUser(dir, settings, username)
    ensures GroupsCall(dir, settings, dn) == SearchOfGroups(dir, settings, dn)
    ensures AdminCall(dir, SEARCH_ADMIN_BIND, settings).Accepted? <==> AdminAccepted(dir, 0, settings)
    ensures AdminCall(dir, GROUPS_ADMIN_BIND, settings).Accepted? <==> AdminAccepted(dir, 3, settings)
  {
  }

  // The rules that group entries list: the words of the values of the rules attribute.
  ghost predicate ListsRule(entries: seq<SearchEntry>, attribute: string, word: string, isSpace: char -> bool) {
    exists i :: 0 <= i < |entries| && attribute in entries[i] && ListedIn(entries[i][attribute], word, isSpace)
  }

  lemma RulesAreListed(entries: seq<SearchEntry>, attribute: string, word: string, isSpace: char -> bool)
    ensures word in Dedup(EntryTokens(RulesValues(entries, attribute), isSpace))
       <==> ListsRule(entries, attribute, word, isSpace)
  {
    var values := RulesValues(entries, attribute);
    MergedRules(values, isSpace);
    if Listed(values, word, isSpace) {
      var i :| 0 <= i < |values| && values[i].Some? && ListedIn(values[i].value, word, isSpace);
      assert attribute in entries[i] && ListedIn(entries[i][attribute], word, isSpace);
    }
    if ListsRule(entries, attribute, word, isSpace) {
      var i :| 0 <= i < |entries| && attribute in entries[i] && ListedIn(entries[i][attribute], word, isSpace);
      assert values[i] == Some(entries[i][attribute]);
    }
  }

  // The directory accepts this user with this password and lists these rules.
  ghost predicate Vouches(dir: Directory, settings: LdapSettings, mode: Mode, username: string, password: string,
                          rules: seq<string>)
  {
    exists dn: string, entries: seq<SearchEntry> ::
      && IsDnOf(dir, settings, mode, username, dn)
      && dir.bind(2, dn, password).Accepted?
      && AdminAccepted(dir, 3, settings)
      && SearchOfGroups(dir, settings, dn) == Accepted(entries)
      && AreRulesOf(rules, entries, settings)
  }

  // The words of the rules attribute of all entries, each once.
  ghost predicate AreRulesOf(rules: seq<string>, entries: seq<SearchEntry>, settings: LdapSettings) {
    && rules == Dedup(EntryTokens(RulesValues(entries, settings.groupsRulesAttribute), settings.isSpace))
    && forall word :: word in rules <==> ListsRule(entries, settings.groupsRulesAttribute, word, settings.isSpace)
  }

  lemma MergedAreRules(entries: seq<SearchEntry>, settings: LdapSettings)
    ensures AreRulesOf(Dedup(EntryTokens(RulesValues(entries, settings.groupsRulesAttribute), settings.isSpace)),
                       entries, settings)
  {
    var attribute := settings.groupsRulesAttribute;
    forall word
      ensures word in Dedup(EntryTokens(RulesValues(entries, attribute), settings.isSpace))
         <==> ListsRule(entries, attribute, word, settings.isSpace)
    {
      RulesAreListed(entries, attribute, word, settings.isSpace);
    }
  }

  // An attempt succeeds with these rules exactly when the directory accepts all that is asked of it.
  lemma SucceedsExactlyWhen(dir: Directory, settings: LdapSettings, mode: Mode, username: string, password: string,
                            rules: seq<string>)
    ensures Attempted(dir, settings, mode, username, password) == Ok(rules)
       <==> Vouches(dir, settings, mode, username, password, rules)
  {
    var tried := Attempted(dir, settings, mode, username, password);
    if tried.Ok? {
      var dn := UserDn(dir, settings, mode, username).value;
      var entries := GroupsCall(dir, settings, dn).value;
      UserDnExactlyWhen(dir, settings, mode, username, dn);
      MergedAreRules(entries, settings);
      assert SearchOfGroups(dir, settings, dn) == Accepted(entries);
      assert Vouches(dir, settings, mode, username, password, tried.value);
    }
    if Vouches(dir, settings, mode, username, password, rules) {
      var dn: string, entries: seq<SearchEntry> :|
        && IsDnOf(dir, settings, mode, username, dn)
        && dir.bind(2, dn, password).Accepted?
        && AdminAccepted(dir, 3, settings)
        && SearchOfGroups(dir, settings, dn) == Accepted(entries)
        && AreRulesOf(rules, entries, settings);
      UserDnExactlyWhen(dir, settings, mode, username, dn);
    }
  }

  // Success means that one and the same directory, in the deciding attempt, accepted the bind of
  // the user's own DN with the given password and listed exactly the rules returned.
  lemma {:induction false} LoginSound(attempts: seq<Attempt>, settings: LdapSettings, mode: Mode,
                                      username: string, password: string, rules: seq<string>)
    requires LoginOutcome(attempts, settings, mode, username, password) == Some(Ok(rules))
    ensures exists k :: 0 <= k < |attempts|
              && FailedOver(attempts, k, settings, mode, username, password)
              && attempts[k].OnServer?
              && Vouches(attempts[k].directory, settings, mode, username, password, rules)
  {
    var k := DecidedByOneAttempt(attempts, settings, mode, username, password);
    SucceedsExactlyWhen(attempts[k].directory, settings, mode, username, password, rules);
  }

  predicate LosesConnection<T>(call: Call<T>) {
    call.Failed? && call.err.kind.Other?
  }

  // The directory was reached, and did not accept.
  predicate Rejects<T>(call: Call<T>) {
    !call.Accepted? && !LosesConnection(call)
  }

  predicate AdminRejected(dir: Directory, n: nat, settings: LdapSettings) {
    && settings.searchBindDn.Some? && settings.searchBindPasswd.Some?
    && Rejects(dir.bind(n, settings.searchBindDn.value, settings.searchBindPasswd.value))
  }

  // The search for the user gives no DN: it is rejected, or does not find one entry with that attribute.
  predicate FindsNoDn(dir: Directory, settings: LdapSettings, username: string) {
    var found := SearchOfUser(dir, settings, username);
    || AdminRejected(dir, 0, settings)
    || (AdminAccepted(dir, 0, settings) && Rejects(found))
    || (&& AdminAccepted(dir, 0, settings) && found.Accepted?
        && (|found.value| != 1 || settings.searchDnAttribute !in found.value[0]))
  }

  // The directory turns down the user's DN, or the service account that asks for the groups.
  predicate TurnsDown(dir: Directory, settings: LdapSettings, dn: string, password: string) {
    var bound := dir.bind(2, dn, password);
    || Rejects(bound)
    || (bound.Accepted? && AdminRejected(dir, 3, settings))
    || (bound.Accepted? && AdminAccepted(dir, 3, settings) && Rejects(SearchOfGroups(dir, settings, dn)))
  }

  ghost predicate Denies(dir: Directory, settings: LdapSettings, mode: Mode, username: string, password: string) {
    || (mode == SearchAndBind && FindsNoDn(dir, settings, username))
    || exists dn: string :: IsDnOf(dir, settings, mode, username, dn) && TurnsDown(dir, settings, dn, password)
  }

  // An attempt ends in a refusal, rather than in success or a lost connection, exactly when a
  // directory that was reached denies it.
  lemma DeniedExactlyWhen(dir: Directory, settings: LdapSettings, mode: Mode, username: string, password: string)
    ensures var tried := Attempted(dir, settings, mode, username, password);
            tried.Err? && !tried.error.LdapConnectionError? <==> Denies(dir, settings, mode, username, password)
  {
    forall dn { UserDnExactlyWhen(dir, settings, mode, username, dn); }
    var dn := UserDn(dir, settings, mode, username);
    if dn.Ok? {
      assert IsDnOf(dir, settings, mode, username, dn.value);
    }
  }

  lemma AttemptErrors(dir: Directory, settings: LdapSettings, mode: Mode, username: string, password: string)
    ensures var tried := Attempted(dir, settings, mode, username, password);
            tried.Err? ==>
              && !tried.error.NoServerConfigured?
              && !tried.error.NoHealthyServerAvailable?
              && !tried.error.SchedulerNotReady?
  {
  }

  // The loop ends in the lookup of a server, because none is configured or none is healthy.
  ghost predicate EndsInLookup(attempts: seq<Attempt>, settings: LdapSettings, mode: Mode,
                               username: string, password: string)
  {
    exists k :: 0 <= k < |attempts|
      && FailedOver(attempts, k, settings, mode, username, password)
      && !attempts[k].OnServer?
  }

  // The unavailable class comes from the lookup of a server alone: as soon as a directory answers,
  // it is out of reach.
  lemma {:induction false} UnavailableMeansNoServer(attempts: seq<Attempt>, settings: LdapSettings, mode: Mode,
                                                    username: string, password: string)
    ensures var outcome := LoginOutcome(attempts, settings, mode, username, password);
            && (outcome.Some? && outcome.value.Err? ==>
                  !outcome.value.error.LdapConnectionError? && !outcome.value.error.SchedulerNotReady?)
            && ((outcome.Some? && outcome.value.Err? && IsServerUnavailable(outcome.value.error))
                <==> EndsInLookup(attempts, settings, mode, username, password))
  {
    var k := DecidedByOneAttempt(attempts, settings, mode, username, password);
    if k < |attempts| && attempts[k].OnServer? {
      AttemptErrors(attempts[k].directory, settings, mode, username, password);
    }
  }

  // An answer to the bind of a user that means there is no such user.
  predicate SaysNoSuchUser(call: Call<()>) {
    match call
    case Accepted(_) => false
    case Refused(rc, text) => MeansNoSuchUser(rc, text)
    case Failed(err) => err.kind.LdapResult? && MeansNoSuchUser(err.kind.rc, err.text)
  }

  predicate MeansNoSuchUser(rc: int, text: string) {
    rc == 32 || (rc == 49 && SaysUserNotFound(text))
  }

  // The directory says of this very user that there is none.
  ghost predicate UserUnknown(dir: Directory, settings: LdapSettings, mode: Mode, username: string, password: string) {
    || (&& mode == SearchAndBind && AdminAccepted(dir, 0, settings)
        && SearchOfUser(dir, settings, username) == Accepted([]))
    || exists dn: string ::
         IsDnOf(dir, settings, mode, username, dn) && SaysNoSuchUser(dir.bind(2, dn, password))
  }

  // A user is reported as not found exactly on the word of the directory about that very user.
  lemma NotFoundComesFromTheUser(dir: Directory, settings: LdapSettings, mode: Mode, username: string, password: string)
    ensures var tried := Attempted(dir, settings, mode, username, password);
            tried.Err? && IsUserNotFound(tried.error) <==> UserUnknown(dir, settings, mode, username, password)
  {
    forall dn { UserDnExactlyWhen(dir, settings, mode, username, dn); }
    var dn := UserDn(dir, settings, mode, username);
    if dn.Ok? {
      assert IsDnOf(dir, settings, mode, username, dn.value);
    }
  }
}
