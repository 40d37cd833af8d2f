/**
 Whole runs of logins over one ACL store: any number of AUTH requests in flight, replies in any
 order, and changes of the configuration in between.
 */
module AuthRuns {
  import opened Wrappers
  import opened LdapErrors
  import opened GroupRules
  import opened AclTokens
  import opened Auth
  import L = Login

  type RequestId = nat

  datatype Request = Request(username: string, password: string)

  datatype AuthState = AuthState(
    acl: Acl,
    config: Config,
    undeletable: set<string>,
    pending: map<RequestId, Request>
  )

  datatype Event =
    | Submit(id: RequestId, request: Request, submitted: bool)
    | Reply(id: RequestId, result: Option<LdapResult>, refuses: bool)
    | Configure(config: Config)

  // A reply answers a pending request; a request has a number of its own.
  predicate Possible(s: AuthState, e: Event) {
    match e
    case Submit(id, _, _) => id !in s.pending
    case Reply(id, _, _) => id in s.pending
    case Configure(_) => true
  }

  function After(s: AuthState, e: Event): AuthState {
    if !Possible(s, e) then s
    else
      match e
      case Submit(id, request, submitted) =>
        if Starts(s.config, request.username) && submitted then s.(pending := s.pending[id := request]) else s
      case Reply(id, result, refuses) =>
        var r := s.pending[id];
        s.(acl := AfterReply(s.acl, s.config, s.undeletable, r.username, r.password, result, refuses).0,
           pending := s.pending - {id})
      case Configure(config) => s.(config := config)
  }

  function Run(s: AuthState, events: seq<Event>): AuthState {
    if events == [] then s
    else After(Run(s, events[..|events| - 1]), events[|events| - 1])
  }

  // A login is in flight from its submission, past the gate, to its reply.
  lemma PendingExactlyWhen(s: AuthState, e: Event, id: RequestId)
    ensures id in After(s, e).pending <==>
              if id in s.pending then !(e.Reply? && e.id == id)
              else
                && e.Submit? && e.id == id && e.submitted
                && s.config.authEnabled && !s.config.exempt(e.request.username)
    ensures id in After(s, e).pending ==>
              After(s, e).pending[id] == if id in s.pending then s.pending[id] else e.request
  {
  }

  // ---- Decisions about one user

  datatype Decision =
    | Undecided              // no reply about the user has been decided by LDAP
    | Cached(password: string)
    | Passwordless           // success while fallback was disabled
    | Removed

  predicate About(s: AuthState, e: Event, username: string) {
    e.Reply? && Possible(s, e) && s.pending[e.id].username == username
  }

  function Decide(s: AuthState, e: Event, username: string, earlier: Decision): Decision {
    if !About(s, e, username) then earlier
    else
      match e.result
      case None => earlier
      case Some(Ok(_)) => if s.config.fallback then Cached(s.pending[e.id].password) else Passwordless
      case Some(Err(err)) => if IsServerUnavailable(err) then earlier else Removed
  }

  // The latest outcome about the user, in reply order, that LDAP decided.
  function LatestDecision(s: AuthState, events: seq<Event>, username: string): Decision {
    if events == [] then Undecided
    else
      var n := |events| - 1;
      Decide(Run(s, events[..n]), events[n], username, LatestDecision(s, events[..n], username))
  }

  // A reply about the user that LDAP decided.
  predicate Decides(s: AuthState, e: Event, username: string) {
    About(s, e, username) && e.result.Some? && (e.result.value.Err? ==> !IsServerUnavailable(e.result.value.error))
  }

  function Setting(s: AuthState, e: Event, username: string): Option<Acl>
    requires About(s, e, username) && e.result.Some? && e.result.value.Ok?
  {
    SetUser(s.acl, username,
            RuleTokens(s.config.defaultRules, e.result.value.value, s.config.fallback, s.pending[e.id].password),
            e.refuses)
  }

  // A decided reply about the user is carried out in full: the rules are accepted and clear the
  // passwords, and a removal is neither prevented by the server nor by an exemption.
  ghost predicate CarriedOut(s: AuthState, e: Event, username: string) {
    Decides(s, e, username) ==>
      match e.result.value
      case Ok(tokens) =>
        Setting(s, e, username).Some? && (s.config.fallback || ClearsPasswords(s.config.defaultRules + tokens))
      case Err(_) => Removes(s.config, s.undeletable, username, e.result)
  }

  // The latest decision was; it does not matter whether the ones before were.
  ghost predicate LatestCarriedOut(s: AuthState, events: seq<Event>, username: string) {
    events == [] ||
    var n := |events| - 1;
    var before := Run(s, events[..n]);
    if Decides(before, events[n], username) then CarriedOut(before, events[n], username)
    else LatestCarriedOut(s, events[..n], username)
  }

  // The stored entry of the user says no more than the decision.
  ghost predicate Reflects(acl: Acl, initial: Acl, username: string, decision: Decision) {
    match decision
    case Undecided =>
      (username in acl <==> username in initial) && (username in acl ==> acl[username] == initial[username])
    case Cached(password) =>
      username in acl && acl[username].passwords == {Password(password)} && !acl[username].nopass
    case Passwordless => username in acl && acl[username].passwords == {} && !acl[username].nopass
    case Removed => username !in acl
  }

  lemma SuccessIsReflected(s: AuthState, e: Event, username: string)
    requires About(s, e, username) && CarriedOut(s, e, username)
    requires e.result.Some? && e.result.value.Ok?
    ensures Reflects(After(s, e).acl, s.acl, username,
                     if s.config.fallback then Cached(s.pending[e.id].password) else Passwordless)
  {
    var user := if username in s.acl then s.acl[username] else NEW_USER;
    var password, tokens := s.pending[e.id].password, e.result.value.value;
    if s.config.fallback {
      CachedPasswordIsExact(user, s.config.defaultRules, tokens, password);
    } else {
      NoPasswordWithoutFallback(user, s.config.defaultRules, tokens, password);
    }
  }

  lemma UndecidedKeepsEntry(s: AuthState, e: Event, username: string)
    requires !Decides(s, e, username)
    ensures username in After(s, e).acl <==> username in s.acl
    ensures username in s.acl ==> After(s, e).acl[username] == s.acl[username]
  {
    if e.Reply? && Possible(s, e) {
      var r := s.pending[e.id];
      ReplyFrame(s.acl, s.config, s.undeletable, r.username, r.password, e.result, e.refuses, username);
    }
  }

  lemma StepReflects(s: AuthState, e: Event, username: string, initial: Acl, earlier: Decision)
    requires Decides(s, e, username) || Reflects(s.acl, initial, username, earlier)
    requires CarriedOut(s, e, username)
    ensures Reflects(After(s, e).acl, initial, username, Decide(s, e, username, earlier))
  {
    if Decides(s, e, username) {
      if e.result.value.Ok? {
        SuccessIsReflected(s, e, username);
      }
    } else {
      UndecidedKeepsEntry(s, e, username);
    }
  }

  lemma {:induction false} RunReflects(s: AuthState, events: seq<Event>, username: string)
    requires LatestCarriedOut(s, events, username)
    ensures Reflects(Run(s, events).acl, s.acl, username, LatestDecision(s, events, username))
  {
    if events != [] {
      var n := |events| - 1;
      var before := Run(s, events[..n]);
      if !Decides(before, events[n], username) {
        RunReflects(s, events[..n], username);
      }
      StepReflects(before, events[n], username, s.acl, LatestDecision(s, events[..n], username));
    }
  }

  predicate NoLocalPassword(acl: Acl, username: string) {
    username in acl ==> acl[username].passwords == {} && !acl[username].nopass
  }

  // Cached-password safety: after any run whose latest decision about the user was carried out, the
  // server accepts a password for the user only if that decision was a success with that very
  // password while fallback was enabled; and then it does so for as long as the user is enabled.
  lemma {:induction false} CachedPasswordSafety(s: AuthState, events: seq<Event>, username: string, password: string)
    requires LatestDecision(s, events, username).Undecided? ==> NoLocalPassword(s.acl, username)
    requires LatestCarriedOut(s, events, username)
    ensures var acl := Run(s, events).acl;
            LocallyAccepts(acl, username, password) <==>
              LatestDecision(s, events, username) == Cached(password) && username in acl && acl[username].enabled
  {
    RunReflects(s, events, username);
  }

  // In particular on the fallback path.
  lemma FallbackAcceptsOnlyTheLatest(s: AuthState, events: seq<Event>, id: RequestId, result: Option<LdapResult>)
    requires id in Run(s, events).pending
    requires var r := Run(s, events).pending[id];
             && LatestCarriedOut(s, events, r.username)
             && (LatestDecision(s, events, r.username).Undecided? ==> NoLocalPassword(s.acl, r.username))
    requires var now := Run(s, events);
             var r := now.pending[id];
             var (acl, answer) :=
               AfterReply(now.acl, now.config, now.undeletable, r.username, r.password, result, false);
             answer == NotHandled && LocallyAccepts(acl, r.username, r.password)
    ensures var r := Run(s, events).pending[id];
            LatestDecision(s, events, r.username) == Cached(r.password)
  {
    var r := Run(s, events).pending[id];
    CachedPasswordSafety(s, events, r.username, r.password);
  }

  // Assumptions that are enough for a decision to be carried out: the server takes the rules and
  // protects the user neither by itself nor by an exemption; the default rules contain
  // `resetpass`, and no rule adds a password.
  ghost predicate WellBehaved(s: AuthState, e: Event, username: string) {
    Decides(s, e, username) ==>
      && username !in s.undeletable
      && !s.config.exempt(username)
      && "resetpass" in s.config.defaultRules
      && (e.result.value.Ok? ==>
            && (forall rule :: rule in s.config.defaultRules || rule in e.result.value.value ==> !AddsPassword(rule))
            && Setting(s, e, username).Some?)
  }

  lemma WellBehavedIsCarriedOut(s: AuthState, e: Event, username: string)
    requires WellBehaved(s, e, username)
    ensures CarriedOut(s, e, username)
  {
    if Decides(s, e, username) && e.result.value.Ok? {
      ResetPassClears(s.config.defaultRules, e.result.value.value);
    }
  }

  // The shipped default rules contain `resetpass`.
  lemma ShippedDefaultsAreCarriedOut(s: AuthState, e: Event, username: string, isSpace: char -> bool)
    requires isSpace(' ') && forall c :: 'a' <= c <= 'z' ==> !isSpace(c)
    requires s.config.defaultRules == DefaultAclRules("on" + [' '] + "resetpass", isSpace)
    requires Decides(s, e, username) && e.result.value.Ok?
    requires (forall rule :: rule in e.result.value.value ==> !AddsPassword(rule)) && Setting(s, e, username).Some?
    ensures CarriedOut(s, e, username)
  {
    ShippedDefaultRules(isSpace);
    ParseResetPass();
    ParseOn();
    ResetPassClears(s.config.defaultRules, e.result.value.value);
  }

  // ---- The password that is held, over every run

  // What the events leave in the user's entry: a success that the server takes caches its password
  // with fallback enabled, and without it clears if its rules do; a refusal clears if it removes
  // the user; nothing else matters.
  ghost function HeldAfter(s: AuthState, e: Event, username: string, earlier: Option<string>): Option<string> {
    if !Decides(s, e, username) then earlier
    else
      match e.result.value
      case Ok(tokens) =>
        if Setting(s, e, username).None? then earlier
        else if s.config.fallback then Some(s.pending[e.id].password)
        else if ClearsPasswords(s.config.defaultRules + tokens) then None
        else earlier
      case Err(_) => if Removes(s.config, s.undeletable, username, e.result) then None else earlier
  }

  ghost function HeldPassword(s: AuthState, events: seq<Event>, username: string): Option<string> {
    if events == [] then None
    else
      var n := |events| - 1;
      HeldAfter(Run(s, events[..n]), events[n], username, HeldPassword(s, events[..n], username))
  }

  // Rules that are set with fallback disabled, and do not clear the passwords, do not speak of any.
  ghost predicate RulesKeepPasswords(s: AuthState, e: Event, username: string) {
    Decides(s, e, username) && e.result.value.Ok? && Setting(s, e, username).Some? && !s.config.fallback ==>
      var rules := s.config.defaultRules + e.result.value.value;
      ClearsPasswords(rules) || PlainRules(rules)
  }

  ghost predicate AllRulesKeepPasswords(s: AuthState, events: seq<Event>, username: string) {
    forall n :: 0 <= n < |events| ==> RulesKeepPasswords(Run(s, events[..n]), events[n], username)
  }

  predicate Stores(acl: Acl, username: string, held: Option<string>) {
    match held
    case Some(password) =>
      username in acl && acl[username].passwords == {Password(password)} && !acl[username].nopass
    case None => NoLocalPassword(acl, username)
  }

  lemma StepStores(s: AuthState, e: Event, username: string, earlier: Option<string>)
    requires Stores(s.acl, username, earlier) && RulesKeepPasswords(s, e, username)
    ensures Stores(After(s, e).acl, username, HeldAfter(s, e, username, earlier))
  {
    if !Decides(s, e, username) {
      UndecidedKeepsEntry(s, e, username);
    } else if e.result.value.Ok? && Setting(s, e, username).Some? {
      if CarriedOut(s, e, username) {
        SuccessIsReflected(s, e, username);
      } else {
        var user := if username in s.acl then s.acl[username] else NEW_USER;
        PlainRulesKeepPasswords(user, s.config.defaultRules, e.result.value.value, s.pending[e.id].password);
      }
    }
  }

  lemma {:induction false} RunStores(s: AuthState, events: seq<Event>, username: string)
    requires NoLocalPassword(s.acl, username) && AllRulesKeepPasswords(s, events, username)
    ensures Stores(Run(s, events).acl, username, HeldPassword(s, events, username))
  {
    if events != [] {
      var n := |events| - 1;
      forall k | 0 <= k < n ensures RulesKeepPasswords(Run(s, events[..n][..k]), events[..n][k], username) {
        assert events[..n][..k] == events[..k];
      }
      RunStores(s, events[..n], username);
      StepStores(Run(s, events[..n]), events[n], username, HeldPassword(s, events[..n], username));
    }
  }

  // Over every run, carried out or not: a password is locally accepted exactly when it is the held
  // one and the user is enabled.
  lemma {:induction false} LocalCheckIsExact(s: AuthState, events: seq<Event>, username: string, password: string)
    requires NoLocalPassword(s.acl, username) && AllRulesKeepPasswords(s, events, username)
    ensures var acl := Run(s, events).acl;
            LocallyAccepts(acl, username, password) <==>
              HeldPassword(s, events, username) == Some(password) && username in acl && acl[username].enabled
  {
    RunStores(s, events, username);
  }

  // The password that a decision means to leave.
  function Meant(decision: Decision): Option<string> {
    match decision
    case Cached(password) => Some(password)
    case _ => None
  }

  // The password held just before the latest decision.
  ghost function HeldBeforeLatest(s: AuthState, events: seq<Event>, username: string): Option<string> {
    if events == [] then None
    else
      var n := |events| - 1;
      if Decides(Run(s, events[..n]), events[n], username) then HeldPassword(s, events[..n], username)
      else HeldBeforeLatest(s, events[..n], username)
  }

  // The held password is what the latest decision meant exactly when that decision was carried out,
  // or had been held before anyway.
  lemma {:induction false} HeldAgreesExactlyWhen(s: AuthState, events: seq<Event>, username: string)
    ensures HeldPassword(s, events, username) == Meant(LatestDecision(s, events, username))
       <==> LatestCarriedOut(s, events, username)
            || HeldBeforeLatest(s, events, username) == Meant(LatestDecision(s, events, username))
  {
    if events != [] {
      HeldAgreesExactlyWhen(s, events[..|events| - 1], username);
    }
  }

  // For this user, the local check accepts what the latest decision meant and nothing else.
  ghost predicate ChecksLatest(s: AuthState, events: seq<Event>, username: string) {
    forall password :: LocallyAccepts(Run(s, events).acl, username, password) <==>
                         LatestDecision(s, events, username) == Cached(password)
  }

  // Exactly when cached-password safety holds, for a user that is there and enabled.
  lemma {:induction false} SafetyExactlyWhen(s: AuthState, events: seq<Event>, username: string)
    requires NoLocalPassword(s.acl, username) && AllRulesKeepPasswords(s, events, username)
    requires username in Run(s, events).acl && Run(s, events).acl[username].enabled
    ensures ChecksLatest(s, events, username)
       <==> LatestCarriedOut(s, events, username)
            || HeldBeforeLatest(s, events, username) == Meant(LatestDecision(s, events, username))
  {
    var acl := Run(s, events).acl;
    var held, meant := HeldPassword(s, events, username), Meant(LatestDecision(s, events, username));
    forall password ensures LocallyAccepts(acl, username, password) <==> held == Some(password) {
      LocalCheckIsExact(s, events, username, password);
    }
    HeldAgreesExactlyWhen(s, events, username);
    if held != meant {
      var password := if held.Some? then held.value else meant.value;
      assert LocallyAccepts(acl, username, password) <==> held == Some(password);
    }
  }

  // ---- From the directory to the local check

  // The directories there are, and the settings that were ever configured.  A directory that
  // changes over time counts as several.
  datatype World = World(serves: L.Directory -> bool, configured: (L.LdapSettings, L.Mode) -> bool)

  // The reply carries the outcome of a login with the request's own name and password, made with a
  // configured setting on directories of this world.
  ghost predicate Genuine(world: World, s: AuthState, e: Event) {
    e.Reply? && Possible(s, e) && e.result.Some? ==>
      exists attempts: seq<L.Attempt>, settings: L.LdapSettings, mode: L.Mode ::
        && world.configured(settings, mode)
        && (forall k :: 0 <= k < |attempts| && attempts[k].OnServer? ==> world.serves(attempts[k].directory))
        && L.LoginOutcome(attempts, settings, mode, s.pending[e.id].username, s.pending[e.id].password)
           == Some(e.result.value)
  }

  ghost predicate AllGenuine(world: World, s: AuthState, events: seq<Event>) {
    forall n :: 0 <= n < |events| ==> Genuine(world, Run(s, events[..n]), events[n])
  }

  // A directory of this world accepts this user with this password, under a configured setting.
  ghost predicate Vouched(world: World, username: string, password: string) {
    exists dir: L.Directory, settings: L.LdapSettings, mode: L.Mode, rules: seq<string> ::
      && world.serves(dir) && world.configured(settings, mode)
      && L.Vouches(dir, settings, mode, username, password, rules)
  }

  lemma SuccessIsVouched(world: World, s: AuthState, e: Event)
    requires e.Reply? && Possible(s, e) && Genuine(world, s, e)
    requires e.result.Some? && e.result.value.Ok?
    ensures Vouched(world, s.pending[e.id].username, s.pending[e.id].password)
  {
    var r := s.pending[e.id];
    var rules := e.result.value.value;
    var attempts: seq<L.Attempt>, settings: L.LdapSettings, mode: L.Mode :|
      && world.configured(settings, mode)
      && (forall k :: 0 <= k < |attempts| && attempts[k].OnServer? ==> world.serves(attempts[k].directory))
      && L.LoginOutcome(attempts, settings, mode, r.username, r.password) == Some(e.result.value);
    L.LoginSound(attempts, settings, mode, r.username, r.password, rules);
    var k :| 0 <= k < |attempts| && attempts[k].OnServer?
      && L.Vouches(attempts[k].directory, settings, mode, r.username, r.password, rules);
  }

  lemma {:induction false} HeldIsVouched(world: World, s: AuthState, events: seq<Event>,
                                         username: string, password: string)
    requires AllGenuine(world, s, events)
    requires HeldPassword(s, events, username) == Some(password)
    ensures Vouched(world, username, password)
  {
    var n := |events| - 1;
    var before, e := Run(s, events[..n]), events[n];
    if HeldPassword(s, events[..n], username) == Some(password) {
      forall k | 0 <= k < n ensures Genuine(world, Run(s, events[..n][..k]), events[..n][k]) {
        assert events[..n][..k] == events[..k];
      }
      HeldIsVouched(world, s, events[..n], username, password);
    } else {
      assert Genuine(world, before, e);
      SuccessIsVouched(world, before, e);
    }
  }

  // The server never accepts a password for an LDAP user that no directory accepts.
  lemma {:induction false} LocalPasswordsAreVouched(world: World, s: AuthState, events: seq<Event>,
                                                    username: string, password: string)
    requires NoLocalPassword(s.acl, username) && AllRulesKeepPasswords(s, events, username)
    requires AllGenuine(world, s, events)
    requires LocallyAccepts(Run(s, events).acl, username, password)
    ensures Vouched(world, username, password)
  {
    LocalCheckIsExact(s, events, username, password);
    HeldIsVouched(world, s, events, username, password);
  }

  // ---- Deletion over runs

  // Every pending request passed the gate: its user was not exempt when it was submitted.
  lemma {:induction false} PendingPassedTheGate(s: AuthState, events: seq<Event>, id: RequestId) returns (i: nat)
    requires s.pending == map[] && id in Run(s, events).pending
    ensures i < |events| && events[i] == Submit(id, Run(s, events).pending[id], true)
    ensures Starts(Run(s, events[..i]).config, Run(s, events).pending[id].username)
  {
    var n := |events| - 1;
    var before := Run(s, events[..n]);
    if id in before.pending {
      i := PendingPassedTheGate(s, events[..n], id);
      assert events[..n][..i] == events[..i];
    } else {
      i := n;
    }
  }

  // A user that is there at some moment `m` of a run and gone at its end was submitted while not
  // exempt, and then, after `m`, refused by a reply that LDAP decided, on the not-found path while
  // not exempt at that moment either.
  lemma {:induction false} RemovalHasItsReasons(s: AuthState, events: seq<Event>, m: nat, username: string)
    returns (i: nat, j: nat)
    requires s.pending == map[] && m <= |events|
    requires username in Run(s, events[..m]).acl && username !in Run(s, events).acl
    ensures i < j < |events| && m <= j
    ensures events[i].Submit? && events[i].submitted && events[i].request.username == username
    ensures Starts(Run(s, events[..i]).config, username)
    ensures events[j].Reply? && events[j].id == events[i].id
    ensures Removes(Run(s, events[..j]).config, Run(s, events[..j]).undeletable, username, events[j].result)
  {
    assert events[..|events|] == events;
    var n := |events| - 1;
    var before := Run(s, events[..n]);
    if username !in before.acl {
      assert events[..n][..m] == events[..m];
      i, j := RemovalHasItsReasons(s, events[..n], m, username);
      assert events[..n][..i] == events[..i] && events[..n][..j] == events[..j];
    } else {
      var e := events[n];
      var r := before.pending[e.id];
      ReplyFrame(before.acl, before.config, before.undeletable, r.username, r.password, e.result, e.refuses, username);
      RemovedExactlyWhen(before.acl, before.config, before.undeletable, r.username, r.password, e.result, e.refuses);
      i := PendingPassedTheGate(s, events[..n], e.id);
      assert events[..n][..i] == events[..i];
      j := n;
    }
  }

  // The documentation promises that exempted users are never deleted.  A user exempted while a
  // login is in flight can be.
  lemma ExemptUserIsDeleted(s: AuthState, username: string, password: string, exempting: Config)
    returns (events: seq<Event>)
    requires s.pending == map[] && username in s.acl && username !in s.undeletable
    requires Starts(s.config, username) && exempting.exempt(username)
    ensures Run(s, events).config.exempt(username) && username !in Run(s, events).acl
  {
    var e0 := Submit(0, Request(username, password), true);
    var e1 := Configure(exempting);
    var e2 := Reply(0, Some(Err(MultipleEntryFound(""))), false);
    events := [e0, e1, e2];
    assert events[..2] == [e0, e1] && events[..2][..1] == [e0] && events[..2][..1][..0] == [];
    assert Run(s, [e0]) == After(s, e0);
    assert Run(s, [e0, e1]) == After(After(s, e0), e1);
  }

  // ---- Decisions that are not carried out

  // Once a password is cached, a refusal by LDAP takes it away exactly when it removes the user:
  // not for a protected user, and not on the not-found path while the user is exempt.
  lemma RefusalMustRemove(s: AuthState, e: Event, username: string, password: string, earlier: Decision)
    requires About(s, e, username)
    requires e.result.Some? && e.result.value.Err? && !IsServerUnavailable(e.result.value.error)
    requires LocallyAccepts(s.acl, username, password)
    ensures Decide(s, e, username, earlier) == Decision.Removed
    ensures LocallyAccepts(After(s, e).acl, username, password)
       <==> !Removes(s.config, s.undeletable, username, e.result)
  {
  }

  // A success whose rules the server refuses leaves an older password in place.
  lemma RefusedRulesKeepOldPassword(s: AuthState, e: Event, username: string, password: string, earlier: Decision)
    requires About(s, e, username)
    requires e.result.Some? && e.result.value.Ok? && e.refuses && s.config.fallback
    requires LocallyAccepts(s.acl, username, password) && s.pending[e.id].password != password
    ensures Decide(s, e, username, earlier) == Cached(s.pending[e.id].password)
    ensures LocallyAccepts(After(s, e).acl, username, password)
  {
  }

  // A run that shows it: for a user whom the server protects, the password of an earlier success
  // is still accepted after LDAP has refused the user.
  lemma ProtectedUserKeepsPassword(s: AuthState, username: string, good: string, bad: string)
    returns (events: seq<Event>)
    requires s.pending == map[] && username in s.undeletable && NoLocalPassword(s.acl, username)
    requires Starts(s.config, username) && s.config.fallback
    requires var acl := SetUser(s.acl, username, RuleTokens(s.config.defaultRules, [], true, good), false);
             acl.Some? && acl.value[username].enabled
    ensures LatestDecision(s, events, username) == Decision.Removed
    ensures LocallyAccepts(Run(s, events).acl, username, good)
  {
    var e0 := Submit(0, Request(username, good), true);
    var e1 := Submit(1, Request(username, bad), true);
    var e2 := Reply(0, Some(Ok([])), false);
    var e3 := Reply(1, Some(Err(MultipleEntryFound(""))), false);
    var s1 := After(s, e0);
    var s2 := After(s1, e1);
    var s3 := After(s2, e2);
    events := [e0, e1, e2, e3];
    assert events[..3] == [e0, e1, e2] && events[..3][..2] == [e0, e1] && events[..3][..2][..1] == [e0];
    assert events[..3][..2][..1][..0] == [];
    assert Run(s, [e0]) == s1;
    assert Run(s, [e0, e1]) == s2;
    assert Run(s, [e0, e1, e2]) == s3;
    assert About(s2, e2, username);
    CachedPasswordIsExact(if username in s.acl then s.acl[username] else NEW_USER, s.config.defaultRules, [], good);
    assert LocallyAccepts(s3.acl, username, good);
    assert About(s3, e3, username);
    RefusalMustRemove(s3, e3, username, good, LatestDecision(s, events[..3], username));
  }
}
