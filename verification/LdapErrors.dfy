/**
 Errors of the LDAP back end and how they are told apart (src/vkldap/errors.rs).
 */
module LdapErrors {
  import opened Wrappers

  // The errors of the ldap3 library that the classification names; `Other` stands for all the
  // rest: I/O and TLS failures, timeouts, closed connections.
  datatype ErrorKind =
    | LdapResult(rc: int)
    | FilterParsing
    | DecodingUTF8
    | InvalidScopeString
    | AddNoValues
    | AdapterInit
    | Other

  // `text` is what the error prints.
  datatype LdapError = LdapError(kind: ErrorKind, text: string)

  datatype VkLdapError =
    | IOError(message: string, cause: string)
    | NoTLSKeyPathSet
    | TLSError(message: string, cause: string)
    | LdapBindError(err: LdapError)
    | LdapAdminBindError(err: LdapError)
    | LdapSearchError(err: LdapError)
    | LdapConnectionError(err: LdapError)
    | LdapServerPingError(err: LdapError)
    | NoLdapEntryFound(filter: string)
    | MultipleEntryFound(filter: string)
    | InvalidDNAttribute(attribute: string)
    | NoServerConfigured
    | NoHealthyServerAvailable
    | FailedToStopFailureDetectorThread
    | FailedToShutdownJobScheduler
    | FailedToSendJobToScheduler(message: string)
    | SchedulerNotReady

  type Outcome = Result<(), VkLdapError>

  function RemoveNulls(text: string): string {
    if text == [] then []
    else (if text[0] == '\0' then [] else [text[0]]) + RemoveNulls(text[1..])
  }

  function LowerChar(c: char): char {
    if 'A' <= c <= 'Z' then c - 'A' + 'a' else c
  }

  function ToLower(text: string): string {
    seq(|text|, i requires 0 <= i < |text| => LowerChar(text[i]))
  }

  predicate OccursAt(text: string, part: string, i: nat) {
    i + |part| <= |text| && text[i..i + |part|] == part
  }

  predicate Contains(text: string, part: string) {
    exists i: nat | i <= |text| :: OccursAt(text, part, i)
  }

  // The diagnostic texts that mark result code 49 as "no such user".
  predicate SaysUserNotFound(text: string) {
    var lowered := ToLower(RemoveNulls(text));
    Contains(lowered, " data 525") || Contains(lowered, "user not found") || Contains(lowered, "no such object")
  }

  predicate IsUserNotFound(err: VkLdapError) {
    match err
    case NoLdapEntryFound(_) => true
    case LdapBindError(LdapError(LdapResult(rc), text)) => rc == 32 || (rc == 49 && SaysUserNotFound(text))
    case _ => false
  }

  predicate IsServerUnavailable(err: VkLdapError) {
    err.NoHealthyServerAvailable? || err.LdapConnectionError? || err.NoServerConfigured? || err.SchedulerNotReady?
  }

  // Any error that is not one of the named ones counts as a lost connection.
  predicate IsLdapConnectionError(err: LdapError) {
    err.kind.Other?
  }

  function ConnectionErrorMessage(err: LdapError): string {
    "LDAP connection failure: " + RemoveNulls(err.text)
  }

  // What a call on an LDAP connection came to: the server accepted it, the server refused it
  // with a result code, or the call itself failed.
  datatype Call<+T> = Accepted(value: T) | Refused(rc: int, text: string) | Failed(err: LdapError)

  // The handle_ldap_error! macro.
  function HandleLdapError<T>(call: Call<T>, wrap: LdapError -> VkLdapError): Result<T, VkLdapError> {
    match call
    case Accepted(value) => Ok(value)
    case Refused(rc, text) => Err(wrap(LdapError(LdapResult(rc), text)))
    case Failed(err) => if IsLdapConnectionError(err) then Err(LdapConnectionError(err)) else Err(wrap(err))
  }

  predicate IsConnectionFailure(outcome: Outcome) {
    outcome.Err? && outcome.error.LdapConnectionError?
  }

  // Null characters and letter case in the diagnostic text do not matter.
  lemma {:induction false} RemoveNullsIdempotent(text: string)
    ensures RemoveNulls(RemoveNulls(text)) == RemoveNulls(text)
  {
    if text != [] {
      var rest := RemoveNulls(text[1..]);
      RemoveNullsIdempotent(text[1..]);
      assert ([text[0]] + rest)[1..] == rest;
      assert [] + rest == rest;
    }
  }

  lemma LowerConcat(a: string, b: string)
    ensures ToLower(a + b) == ToLower(a) + ToLower(b)
  {
  }

  lemma {:induction false} LowerRemoveNulls(text: string)
    ensures ToLower(RemoveNulls(ToLower(text))) == ToLower(RemoveNulls(text))
  {
    if text != [] {
      var rest := text[1..];
      LowerRemoveNulls(rest);
      assert ToLower(text)[1..] == ToLower(rest);
      var head := if text[0] == '\0' then [] else [text[0]];
      var lowered := if text[0] == '\0' then [] else [LowerChar(text[0])];
      LowerConcat(head, RemoveNulls(rest));
      LowerConcat(lowered, RemoveNulls(ToLower(rest)));
      assert ToLower(lowered) == ToLower(head);
    } else {
      assert ToLower(text) == [];
    }
  }

  lemma {:induction false} NotFoundIgnoresNullsAndCase(text: string)
    ensures IsUserNotFound(LdapBindError(LdapError(LdapResult(49), RemoveNulls(text))))
        <==> IsUserNotFound(LdapBindError(LdapError(LdapResult(49), text)))
    ensures IsUserNotFound(LdapBindError(LdapError(LdapResult(49), ToLower(text))))
        <==> IsUserNotFound(LdapBindError(LdapError(LdapResult(49), text)))
  {
    RemoveNullsIdempotent(text);
    LowerRemoveNulls(text);
  }

  // Removing null characters is letter by letter, and so is lowering the case.
  lemma {:induction false} RemoveNullsMeaning(a: string, b: string, c: char)
    ensures RemoveNulls(a + b) == RemoveNulls(a) + RemoveNulls(b)
    ensures RemoveNulls([c]) == if c == '\0' then [] else [c]
    ensures '\0' !in RemoveNulls(a)
  {
    assert [c][1..] == [];
    if a == [] {
      assert a + b == b;
    } else {
      assert (a + b)[1..] == a[1..] + b;
      RemoveNullsMeaning(a[1..], b, c);
    }
  }

  // Result code 49 means an unknown user exactly if its text, with null characters removed and in
  // lower case, has one of these three parts.
  lemma UserNotFoundTexts(text: string)
    ensures IsUserNotFound(LdapBindError(LdapError(LdapResult(49), text))) <==>
              exists before: string, after: string ::
                || ToLower(RemoveNulls(text)) == before + " data 525" + after
                || ToLower(RemoveNulls(text)) == before + "user not found" + after
                || ToLower(RemoveNulls(text)) == before + "no such object" + after
  {
    var lowered := ToLower(RemoveNulls(text));
    ContainsMeaning(lowered, " data 525");
    ContainsMeaning(lowered, "user not found");
    ContainsMeaning(lowered, "no such object");
  }

  lemma ContainsMeaning(text: string, part: string)
    ensures Contains(text, part) <==> exists before: string, after: string :: text == before + part + after
  {
    if Contains(text, part) {
      var i: nat :| i <= |text| && OccursAt(text, part, i);
      assert text == text[..i] + part + text[i + |part|..];
    }
    if before: string, after: string :| text == before + part + after {
      assert OccursAt(text, part, |before|);
    }
  }

  // The other result codes and errors of a bind.
  lemma UserNotFoundErrors(err: VkLdapError)
    ensures IsUserNotFound(err) ==>
              || err.NoLdapEntryFound?
              || (err.LdapBindError? && err.err.kind in {LdapResult(32), LdapResult(49)})
    ensures err.NoLdapEntryFound? || (err.LdapBindError? && err.err.kind == LdapResult(32)) ==> IsUserNotFound(err)
  {
  }

  // The errors that mean nobody was there to decide are these four, and no other.
  lemma ServerUnavailableErrors(err: VkLdapError)
    ensures IsServerUnavailable(err) <==>
              match err
              case NoHealthyServerAvailable => true
              case LdapConnectionError(_) => true
              case NoServerConfigured => true
              case SchedulerNotReady => true
              case _ => false
    ensures !(IsServerUnavailable(err) && IsUserNotFound(err))
  {
  }

  // What a call comes to, whatever wraps its errors: its value, the result code and text of a
  // refusal, or its own failure; and it counts as a lost connection exactly if it failed with none
  // of the named errors.
  lemma ClassifyCall<T>(call: Call<T>, wrap: LdapError -> VkLdapError)
    requires forall e :: !wrap(e).LdapConnectionError?
    ensures var res := HandleLdapError(call, wrap);
            && (res.Err? && res.error.LdapConnectionError? <==> call.Failed? && call.err.kind.Other?)
            && (res.Ok? <==> call.Accepted?)
            && (call.Accepted? ==> res == Ok(call.value))
            && (call.Refused? ==> res == Err(wrap(LdapError(LdapResult(call.rc), call.text))))
            && (call.Failed? ==>
                  res == Err(if call.err.kind.Other? then LdapConnectionError(call.err) else wrap(call.err)))
  {
  }
}
