/**
 A small model of ACL users: what the rule tokens of ACL SETUSER do to passwords, the on/off
 flag, keys, channels and commands of the root permissions.  Selectors are left aside, and the
 server may refuse a command for reasons of its own.
 */
module AclTokens {
  import opened Wrappers
  import opened LdapErrors

  datatype Credential = Password(text: string) | Digest(hash: string)

  // Every command when `all`, else none, and then the single rules in order.
  datatype Commands = Commands(all: bool, rules: seq<string>)

  // The root permissions.
  datatype Root = Root(allKeys: bool, keys: seq<string>, allChannels: bool, channels: seq<string>, commands: Commands)

  datatype AclUser = AclUser(enabled: bool, nopass: bool, passwords: set<Credential>, root: Root)

  const NO_PERMISSIONS := Root(false, [], false, [], Commands(false, []))

  const NEW_USER := AclUser(false, false, {}, NO_PERMISSIONS)

  datatype Token =
    | On | Off
    | ResetPass | NoPass | AddCredential(c: Credential) | RemoveCredential(c: Credential)
    | ResetKeys | AllKeys | AddKey(pattern: string)
    | ResetChannels | AllChannels | AddChannel(pattern: string)
    | NoCommands | AllCommands | CommandRule(rule: string)
    | Reset
    | Unknown

  // Keywords are not case sensitive.
  function Keyword(text: string): Token {
    var word := ToLower(text);
    if word == "on" then On
    else if word == "off" then Off
    else if word == "resetpass" then ResetPass
    else if word == "nopass" then NoPass
    else if word == "resetkeys" then ResetKeys
    else if word == "allkeys" then AllKeys
    else if word == "resetchannels" then ResetChannels
    else if word == "allchannels" then AllChannels
    else if word == "nocommands" then NoCommands
    else if word == "allcommands" then AllCommands
    else if word == "reset" then Reset
    else Unknown
  }

  function Parse(text: string): Token {
    if text == [] then Unknown
    else
      match text[0]
      case '>' => AddCredential(Password(text[1..]))
      case '<' => RemoveCredential(Password(text[1..]))
      case '#' => AddCredential(Digest(text[1..]))
      case '!' => RemoveCredential(Digest(text[1..]))
      case '~' => if text[1..] == "*" then AllKeys else AddKey(text)
      case '%' => AddKey(text)
      case '&' => if text[1..] == "*" then AllChannels else AddChannel(text)
      case '+' => if ToLower(text[1..]) == "@all" then AllCommands else CommandRule(text)
      case '-' => if ToLower(text[1..]) == "@all" then NoCommands else CommandRule(text)
      case _ => Keyword(text)
  }

  // A pattern after the all-keys or all-channels flag, a password to remove that is not there and
  // an unknown token are errors.
  function ApplyRoot(root: Root, token: Token): Option<Root> {
    match token
    case ResetKeys => Some(root.(allKeys := false, keys := []))
    case AllKeys => Some(root.(allKeys := true, keys := []))
    case AddKey(pattern) => if root.allKeys then None else Some(root.(keys := root.keys + [pattern]))
    case ResetChannels => Some(root.(allChannels := false, channels := []))
    case AllChannels => Some(root.(allChannels := true, channels := []))
    case AddChannel(pattern) => if root.allChannels then None else Some(root.(channels := root.channels + [pattern]))
    case NoCommands => Some(root.(commands := Commands(false, [])))
    case AllCommands => Some(root.(commands := Commands(true, [])))
    case CommandRule(rule) => Some(root.(commands := root.commands.(rules := root.commands.rules + [rule])))
    case Reset => Some(NO_PERMISSIONS)
    case Unknown => None
    case _ => Some(root)
  }

  function ApplyToken(user: AclUser, token: Token): Option<AclUser> {
    match ApplyRoot(user.root, token)
    case None => None
    case Some(root) =>
      var user := user.(root := root);
      match token
      case On => Some(user.(enabled := true))
      case Off => Some(user.(enabled := false))
      case ResetPass => Some(user.(nopass := false, passwords := {}))
      case NoPass => Some(user.(nopass := true, passwords := {}))
      case AddCredential(c) => Some(user.(nopass := false, passwords := user.passwords + {c}))
      case RemoveCredential(c) => if c in user.passwords then Some(user.(passwords := user.passwords - {c})) else None
      case Reset => Some(user.(enabled := false, nopass := false, passwords := {}))
      case _ => Some(user)
  }

  function ApplyTokens(user: AclUser, tokens: seq<string>): Option<AclUser> {
    if tokens == [] then Some(user)
    else
      var last := |tokens| - 1;
      match ApplyTokens(user, tokens[..last])
      case None => None
      case Some(before) => ApplyToken(before, Parse(tokens[last]))
  }

  function ApplyRoots(root: Root, tokens: seq<string>): Option<Root> {
    if tokens == [] then Some(root)
    else
      var last := |tokens| - 1;
      match ApplyRoots(root, tokens[..last])
      case None => None
      case Some(before) => ApplyRoot(before, Parse(tokens[last]))
  }

  lemma {:induction false} ApplyTokensConcat(user: AclUser, a: seq<string>, b: seq<string>)
    ensures ApplyTokens(user, a + b) ==
            match ApplyTokens(user, a) case None => None case Some(middle) => ApplyTokens(middle, b)
    decreases |b|
  {
    if b == [] {
      assert a + b == a;
    } else {
      var last := |b| - 1;
      assert (a + b)[..|a + b| - 1] == a + b[..last];
      ApplyTokensConcat(user, a, b[..last]);
    }
  }

  // The root permissions after a list of tokens depend on those before alone.
  lemma {:induction false} RootsAreIndependent(user: AclUser, tokens: seq<string>)
    ensures var after := ApplyTokens(user, tokens);
            after.Some? ==> ApplyRoots(user.root, tokens) == Some(after.value.root)
  {
    if tokens != [] {
      RootsAreIndependent(user, tokens[..|tokens| - 1]);
    }
  }

  // ---- The rules of an LDAP user

  const RESET_RULES: seq<string> := ["resetkeys", "resetchannels", "-@all"]

  function PasswordRules(fallback: bool, password: string): seq<string> {
    if fallback then ["resetpass", ">" + password] else []
  }

  function RuleTokens(defaults: seq<string>, ldap: seq<string>, fallback: bool, password: string): seq<string> {
    RESET_RULES + defaults + ldap + PasswordRules(fallback, password)
  }

  lemma LowerCaseIsFixed(text: string)
    requires forall i :: 0 <= i < |text| ==> !('A' <= text[i] <= 'Z')
    ensures ToLower(text) == text
  {
  }

  lemma ParseResetKeys()
    ensures Parse("resetkeys") == ResetKeys
  {
    var word := "resetkeys";
    LowerCaseIsFixed(word);
    assert word[5] == 'k' && "resetpass"[5] == 'p';
  }

  lemma ParseResetChannels()
    ensures Parse("resetchannels") == ResetChannels
  {
    LowerCaseIsFixed("resetchannels");
  }

  lemma ParseNoCommands()
    ensures Parse("-@all") == NoCommands
  {
  }

  lemma ParseResetPass()
    ensures Parse("resetpass") == ResetPass
  {
  }

  lemma ParseOn()
    ensures Parse("on") == On
  {
  }

  lemma ApplyOneToken(user: AclUser, token: string)
    ensures ApplyTokens(user, [token]) == ApplyToken(user, Parse(token))
  {
  }

  // What single rules do to a user.
  lemma SwitchRules(user: AclUser)
    ensures ApplyTokens(user, ["on"]) == Some(user.(enabled := true))
    ensures ApplyTokens(user, ["off"]) == Some(user.(enabled := false))
  {
    ApplyOneToken(user, "on");
    ApplyOneToken(user, "off");
  }

  lemma PasswordSwitchRules(user: AclUser)
    ensures ApplyTokens(user, ["nopass"]) == Some(user.(nopass := true, passwords := {}))
    ensures ApplyTokens(user, ["resetpass"]) == Some(user.(nopass := false, passwords := {}))
  {
    ApplyOneToken(user, "nopass");
    ApplyOneToken(user, "resetpass");
  }

  lemma AllCommandsRules(user: AclUser)
    ensures ApplyTokens(user, ["+@all"]) == Some(user.(root := user.root.(commands := Commands(true, []))))
    ensures ApplyTokens(user, ["-@all"]) == Some(user.(root := user.root.(commands := Commands(false, []))))
  {
    ApplyOneToken(user, "+@all");
    ApplyOneToken(user, "-@all");
  }

  lemma AllKeysRules(user: AclUser)
    ensures ApplyTokens(user, ["~*"]) == Some(user.(root := user.root.(allKeys := true, keys := [])))
    ensures ApplyTokens(user, ["resetkeys"]) == Some(user.(root := user.root.(allKeys := false, keys := [])))
  {
    ParseResetKeys();
    ApplyOneToken(user, "~*");
    ApplyOneToken(user, "resetkeys");
  }

  lemma AllChannelsRules(user: AclUser)
    ensures ApplyTokens(user, ["&*"]) == Some(user.(root := user.root.(allChannels := true, channels := [])))
    ensures ApplyTokens(user, ["resetchannels"])
         == Some(user.(root := user.root.(allChannels := false, channels := [])))
  {
    ParseResetChannels();
    ApplyOneToken(user, "&*");
    ApplyOneToken(user, "resetchannels");
  }

  // Other spellings, in any letter case.
  lemma AliasRules(user: AclUser)
    ensures ApplyTokens(user, ["allkeys"]) == ApplyTokens(user, ["~*"])
    ensures ApplyTokens(user, ["allcommands"]) == ApplyTokens(user, ["+@all"])
  {
    var word := "allcommands";
    LowerCaseIsFixed(word);
    assert word[4] == 'o' && "allchannels"[4] == 'h';
    ApplyOneToken(user, "allkeys");
    ApplyOneToken(user, "~*");
    ApplyOneToken(user, "allcommands");
    ApplyOneToken(user, "+@all");
  }

  lemma MoreAliasRules(user: AclUser)
    ensures ApplyTokens(user, ["allchannels"]) == ApplyTokens(user, ["&*"])
    ensures ApplyTokens(user, ["nocommands"]) == ApplyTokens(user, ["-@all"])
  {
    ApplyOneToken(user, "allchannels");
    ApplyOneToken(user, "&*");
    ApplyOneToken(user, "nocommands");
    ApplyOneToken(user, "-@all");
  }

  lemma ResetRule(user: AclUser)
    ensures ApplyTokens(user, ["reset"])
         == Some(AclUser(false, false, {}, Root(false, [], false, [], Commands(false, []))))
    ensures ApplyTokens(user, [""]) == None
  {
    ApplyOneToken(user, "reset");
    ApplyOneToken(user, "");
  }

  lemma KeywordsIgnoreCase(text: string)
    ensures Keyword(ToLower(text)) == Keyword(text)
  {
    assert ToLower(ToLower(text)) == ToLower(text);
  }

  // Rules with a name in them: a password, a pattern or a command.
  lemma PasswordNamingRules(user: AclUser, name: string)
    ensures ApplyTokens(user, [">" + name])
         == Some(user.(nopass := false, passwords := user.passwords + {Password(name)}))
    ensures ApplyTokens(user, ["<" + name])
         == if Password(name) !in user.passwords then None
            else Some(user.(passwords := user.passwords - {Password(name)}))
  {
    ApplyOneToken(user, ">" + name);
    ApplyOneToken(user, "<" + name);
    assert (">" + name)[1..] == ("<" + name)[1..] == name;
  }

  lemma DigestNamingRules(user: AclUser, hash: string)
    ensures ApplyTokens(user, ["#" + hash])
         == Some(user.(nopass := false, passwords := user.passwords + {Digest(hash)}))
    ensures ApplyTokens(user, ["!" + hash])
         == if Digest(hash) !in user.passwords then None
            else Some(user.(passwords := user.passwords - {Digest(hash)}))
  {
    ApplyOneToken(user, "#" + hash);
    ApplyOneToken(user, "!" + hash);
    assert ("#" + hash)[1..] == ("!" + hash)[1..] == hash;
  }

  lemma PatternNamingRules(user: AclUser, name: string)
    requires name != "*"
    ensures ApplyTokens(user, ["~" + name])
         == if user.root.allKeys then None else Some(user.(root := user.root.(keys := user.root.keys + ["~" + name])))
    ensures ApplyTokens(user, ["&" + name])
         == if user.root.allChannels then None
            else Some(user.(root := user.root.(channels := user.root.channels + ["&" + name])))
  {
    ApplyOneToken(user, "~" + name);
    ApplyOneToken(user, "&" + name);
    assert ("~" + name)[1..] == ("&" + name)[1..] == name;
  }

  lemma CommandNamingRules(user: AclUser, sign: char, name: string)
    requires (sign == '+' || sign == '-') && ToLower(name) != "@all"
    ensures var commands := user.root.commands;
            ApplyTokens(user, [[sign] + name])
            == Some(user.(root := user.root.(commands := commands.(rules := commands.rules + [[sign] + name]))))
  {
    ApplyOneToken(user, [sign] + name);
    assert ([sign] + name)[1..] == name;
  }

  lemma ApplyThreeTokens(user: AclUser, a: string, b: string, c: string)
    ensures ApplyTokens(user, [a, b, c]) ==
            match ApplyToken(user, Parse(a))
            case None => None
            case Some(first) =>
              match ApplyToken(first, Parse(b))
              case None => None
              case Some(second) => ApplyToken(second, Parse(c))
  {
    assert [a, b, c][..2] == [a, b] && [a, b][..1] == [a];
    ApplyOneToken(user, a);
  }

  lemma ResetRulesForget(user: AclUser)
    ensures ApplyTokens(user, RESET_RULES) == Some(user.(root := NO_PERMISSIONS))
  {
    ParseResetKeys();
    ParseResetChannels();
    ParseNoCommands();
    ApplyThreeTokens(user, "resetkeys", "resetchannels", "-@all");
  }

  // No accumulation: what the user could do before leaves no trace in the root permissions.
  lemma NoAccumulation(a: AclUser, b: AclUser, defaults: seq<string>, ldap: seq<string>,
                       fallback: bool, password: string, password': string)
    requires ApplyTokens(a, RuleTokens(defaults, ldap, fallback, password)).Some?
    requires ApplyTokens(b, RuleTokens(defaults, ldap, fallback, password')).Some?
    ensures ApplyTokens(a, RuleTokens(defaults, ldap, fallback, password)).value.root
         == ApplyTokens(b, RuleTokens(defaults, ldap, fallback, password')).value.root
  {
    RootOfRules(a, defaults, ldap, fallback, password);
    RootOfRules(b, defaults, ldap, fallback, password');
  }

  // It is what the configured and the LDAP rules make of a user without permissions.
  lemma RootOfRules(user: AclUser, defaults: seq<string>, ldap: seq<string>, fallback: bool, password: string)
    requires ApplyTokens(user, RuleTokens(defaults, ldap, fallback, password)).Some?
    ensures Some(ApplyTokens(user, RuleTokens(defaults, ldap, fallback, password)).value.root)
         == ApplyRoots(NO_PERMISSIONS, defaults + ldap)
  {
    var cleared := user.(root := NO_PERMISSIONS);
    var rules := PasswordRules(fallback, password);
    assert RuleTokens(defaults, ldap, fallback, password) == RESET_RULES + (defaults + ldap + rules);
    ResetRulesForget(user);
    ApplyTokensConcat(user, RESET_RULES, defaults + ldap + rules);
    ApplyTokensConcat(cleared, defaults + ldap, rules);
    RootsAreIndependent(cleared, defaults + ldap);
    PasswordRulesKeepRoot(ApplyTokens(cleared, defaults + ldap).value, fallback, password);
  }

  lemma PasswordRulesSet(user: AclUser, password: string)
    ensures ApplyTokens(user, PasswordRules(true, password))
         == Some(user.(nopass := false, passwords := {Password(password)}))
  {
    var add := ">" + password;
    assert add[0] == '>' && add[1..] == password;
    ParseResetPass();
    assert PasswordRules(true, password) == ["resetpass"] + [add];
    ApplyTokensConcat(user, ["resetpass"], [add]);
    ApplyOneToken(user, "resetpass");
    ApplyOneToken(user.(nopass := false, passwords := {}), add);
    assert {} + {Password(password)} == {Password(password)};
  }

  lemma PasswordRulesKeepRoot(user: AclUser, fallback: bool, password: string)
    ensures var after := ApplyTokens(user, PasswordRules(fallback, password));
            after.Some? && after.value.root == user.root
  {
    if fallback {
      PasswordRulesSet(user, password);
    }
  }

  // With fallback enabled the supplied password is the only one, whatever the other rules say.
  lemma CachedPasswordIsExact(user: AclUser, defaults: seq<string>, ldap: seq<string>, password: string)
    requires ApplyTokens(user, RuleTokens(defaults, ldap, true, password)).Some?
    ensures var after := ApplyTokens(user, RuleTokens(defaults, ldap, true, password)).value;
            after.passwords == {Password(password)} && !after.nopass
  {
  }

  // Some token clears the passwords and none after it adds one.
  ghost predicate ClearsPasswords(tokens: seq<string>) {
    exists i :: 0 <= i < |tokens| && ClearsAt(tokens, i)
  }

  ghost predicate ClearsAt(tokens: seq<string>, i: nat)
    requires i < |tokens|
  {
    && (Parse(tokens[i]).ResetPass? || Parse(tokens[i]).Reset?)
    && forall j :: i < j < |tokens| ==> !Parse(tokens[j]).AddCredential? && !Parse(tokens[j]).NoPass?
  }

  lemma {:induction false} ClearedPasswords(user: AclUser, tokens: seq<string>, i: nat)
    requires i < |tokens| && ClearsAt(tokens, i) && ApplyTokens(user, tokens).Some?
    ensures var after := ApplyTokens(user, tokens).value;
            after.passwords == {} && !after.nopass
  {
    var last := |tokens| - 1;
    if i < last {
      assert forall j :: i <= j < last ==> tokens[..last][j] == tokens[j];
      ClearedPasswords(user, tokens[..last], i);
    }
  }

  // With fallback disabled no password is left, provided the rules clear them.
  lemma NoPasswordWithoutFallback(user: AclUser, defaults: seq<string>, ldap: seq<string>, password: string)
    requires ClearsPasswords(defaults + ldap)
    requires ApplyTokens(user, RuleTokens(defaults, ldap, false, password)).Some?
    ensures var after := ApplyTokens(user, RuleTokens(defaults, ldap, false, password)).value;
            after.passwords == {} && !after.nopass
  {
    var rules := defaults + ldap;
    var i :| 0 <= i < |rules| && ClearsAt(rules, i);
    assert RuleTokens(defaults, ldap, false, password) == RESET_RULES + rules;
    ApplyTokensConcat(user, RESET_RULES, rules);
    ResetRulesForget(user);
    ClearedPasswords(user.(root := NO_PERMISSIONS), rules, i);
  }

  predicate TouchesPasswords(token: Token) {
    token.ResetPass? || token.NoPass? || token.AddCredential? || token.RemoveCredential? || token.Reset?
  }

  lemma {:induction false} OtherTokensKeepPasswords(user: AclUser, tokens: seq<string>)
    requires forall i :: 0 <= i < |tokens| ==> !TouchesPasswords(Parse(tokens[i]))
    requires ApplyTokens(user, tokens).Some?
    ensures var after := ApplyTokens(user, tokens).value;
            after.passwords == user.passwords && after.nopass == user.nopass
  {
    if tokens != [] {
      OtherTokensKeepPasswords(user, tokens[..|tokens| - 1]);
    }
  }

  // Rules that neither clear the passwords nor name one keep them, with fallback disabled.
  lemma PlainRulesKeepPasswords(user: AclUser, defaults: seq<string>, ldap: seq<string>, password: string)
    requires !ClearsPasswords(defaults + ldap) && PlainRules(defaults + ldap)
    requires ApplyTokens(user, RuleTokens(defaults, ldap, false, password)).Some?
    ensures var after := ApplyTokens(user, RuleTokens(defaults, ldap, false, password)).value;
            after.passwords == user.passwords && after.nopass == user.nopass
  {
    var rules := defaults + ldap;
    forall i | 0 <= i < |rules| ensures !TouchesPasswords(Parse(rules[i])) {
      assert !ClearsAt(rules, i);
    }
    assert RuleTokens(defaults, ldap, false, password) == RESET_RULES + rules;
    ApplyTokensConcat(user, RESET_RULES, rules);
    ResetRulesForget(user);
    OtherTokensKeepPasswords(user.(root := NO_PERMISSIONS), rules);
  }

  // No rule adds a password, takes one away or does without.
  predicate PlainRules(tokens: seq<string>) {
    forall i :: 0 <= i < |tokens| ==> !AddsPassword(tokens[i]) && !Parse(tokens[i]).RemoveCredential?
  }

  predicate AddsPassword(text: string) {
    Parse(text).AddCredential? || Parse(text).NoPass?
  }

  // Default rules with `resetpass` clear the passwords when no rule adds one.
  lemma ResetPassClears(defaults: seq<string>, ldap: seq<string>)
    requires "resetpass" in defaults
    requires forall rule :: rule in defaults || rule in ldap ==> !AddsPassword(rule)
    ensures ClearsPasswords(defaults + ldap)
  {
    var rules := defaults + ldap;
    var i :| 0 <= i < |defaults| && defaults[i] == "resetpass";
    ParseResetPass();
    forall j | i < j < |rules| ensures !Parse(rules[j]).AddCredential? && !Parse(rules[j]).NoPass? {
      assert rules[j] in defaults || rules[j] in ldap;
    }
    assert ClearsAt(rules, i);
  }

  // Applying the same rules twice gives the root permissions of applying them once.
  lemma SecondLoginAddsNothing(user: AclUser, defaults: seq<string>, ldap: seq<string>, fallback: bool,
                               password: string)
    requires var once := ApplyTokens(user, RuleTokens(defaults, ldap, fallback, password));
             once.Some? && ApplyTokens(once.value, RuleTokens(defaults, ldap, fallback, password)).Some?
    ensures var once := ApplyTokens(user, RuleTokens(defaults, ldap, fallback, password)).value;
            ApplyTokens(once, RuleTokens(defaults, ldap, fallback, password)).value.root == once.root
  {
    var once := ApplyTokens(user, RuleTokens(defaults, ldap, fallback, password)).value;
    NoAccumulation(user, once, defaults, ldap, fallback, password, password);
  }
}
