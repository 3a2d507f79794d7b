/**
 * The registration form: blank-field and password checks, the companion
 * "server" account derived from the chosen username, and how the two
 * registration replies are reported. The replies are parameters: `None`
 * stands for a request that raised.
 */
module Registration {
  import opened Wrappers

  /** Python's `str.isspace` for one character. */
  predicate IsSpace(c: char) {
    ('\U{9}' <= c <= '\U{D}') || ('\U{1C}' <= c <= '\U{20}') || c == '\U{85}' || c == '\U{A0}' ||
    c == '\U{1680}' || ('\U{2000}' <= c <= '\U{200A}') || c == '\U{2028}' || c == '\U{2029}' ||
    c == '\U{202F}' || c == '\U{205F}' || c == '\U{3000}'
  }

  ghost predicate AllSpace(s: string) {
    forall k :: 0 <= k < |s| ==> IsSpace(s[k])
  }

  /** `s.lstrip()`: drops leading whitespace only. */
  function TrimStart(s: string): (r: string)
    ensures |r| <= |s| && r == s[|s| - |r|..]
    ensures AllSpace(s[..|s| - |r|])
    ensures r == [] || !IsSpace(r[0])
    decreases |s|
  {
    if s != [] && IsSpace(s[0]) then TrimStart(s[1..]) else s
  }

  /** `s.rstrip()`: drops trailing whitespace only. */
  function TrimEnd(s: string): (r: string)
    ensures |r| <= |s| && r == s[..|r|]
    ensures AllSpace(s[|r|..])
    ensures r == [] || !IsSpace(r[|r| - 1])
    decreases |s|
  {
    if s != [] && IsSpace(s[|s| - 1]) then
      var r := TrimEnd(s[..|s| - 1]);
      assert s[|r|..] == s[..|s| - 1][|r|..] + [s[|s| - 1]];
      r
    else s
  }

  /** `s.strip()`. */
  function Strip(s: string): (r: string)
    ensures r == [] || (!IsSpace(r[0]) && !IsSpace(r[|r| - 1]))
  {
    TrimEnd(TrimStart(s))
  }

  /**
   * Cutting a whitespace prefix off `s`, leaving `t`, and then a whitespace
   * suffix off `t`, leaving `r`, keeps the characters of `s` from position
   * `|s| - |t|` on, with only whitespace on either side of them.
   */
  lemma {:induction false} MiddleSlice(s: string, t: string, r: string)
    requires |t| <= |s| && t == s[|s| - |t|..] && AllSpace(s[..|s| - |t|])
    requires |r| <= |t| && r == t[..|r|] && AllSpace(t[|r|..])
    ensures |s| - |t| + |r| <= |s|
    ensures forall k :: 0 <= k < |r| ==> r[k] == s[|s| - |t| + k]
    ensures AllSpace(s[..|s| - |t|]) && AllSpace(s[|s| - |t| + |r|..])
  {
    assert t[|r|..] == s[|s| - |t| + |r|..];
  }

  /**
   * `s.strip()` is the middle of `s`: it is `s` from the end of the leading
   * whitespace on, character for character, and what it drops on either side
   * is all whitespace.
   */
  lemma {:induction false} StripIsMiddle(s: string)
    ensures |s| - |TrimStart(s)| + |Strip(s)| <= |s|
    ensures forall k :: 0 <= k < |Strip(s)| ==> Strip(s)[k] == s[|s| - |TrimStart(s)| + k]
    ensures AllSpace(s[..|s| - |TrimStart(s)|])
    ensures AllSpace(s[|s| - |TrimStart(s)| + |Strip(s)|..])
  {
    MiddleSlice(s, TrimStart(s), Strip(s));
  }

  lemma {:induction false} TrimStartEmptyIff(s: string)
    ensures TrimStart(s) == [] <==> AllSpace(s)
    decreases |s|
  {
    if s != [] {
      TrimStartEmptyIff(s[1..]);
      assert forall k :: 1 <= k < |s| ==> s[k] == s[1..][k - 1];
    }
  }

  lemma {:induction false} TrimEndEmptyIff(s: string)
    ensures TrimEnd(s) == [] <==> AllSpace(s)
    decreases |s|
  {
    if s != [] {
      TrimEndEmptyIff(s[..|s| - 1]);
      assert forall k :: 0 <= k < |s| - 1 ==> s[k] == s[..|s| - 1][k];
    }
  }

  /** A field is blank after stripping exactly when it holds nothing but whitespace. */
  lemma StripEmptyIff(s: string)
    ensures Strip(s) == [] <==> AllSpace(s)
  {
    TrimStartEmptyIff(s);
    TrimEndEmptyIff(TrimStart(s));
  }

  /** The five fields of the form; the account type selector is read but never used. */
  datatype Form = Form(fullName: string, username: string, email: string, password: string, confirmation: string)

  /** The body of one registration request. */
  datatype Account = Account(username: string, email: string, password: string, kind: string)

  /** A registration reply: its status code and the `detail` field of its JSON body, if any. */
  datatype Response = Response(status: int, detail: Option<string>)

  datatype Outcome =
    | FieldsMissing
    | PasswordsDiffer
    | Registered(client: string, server: string)
    | Rejected(errors: seq<string>)
    | NetworkError

  /** The form check: refused with its reason, or the two accounts to register. */
  datatype Validation = Refused(reason: Outcome) | Accepted(client: Account, server: Account)

  function ServerUsername(username: string): string {
    username + "_server"
  }

  function ServerEmail(username: string): string {
    username + "_server@example.com"
  }

  /** The client username a server account was derived from. */
  function ClientUsername(serverName: string): string
    requires |serverName| >= 7
  {
    serverName[..|serverName| - 7]
  }

  /** The server account's name is derived injectively: the client's name is recovered from it. */
  lemma ServerUsernameInverse(username: string)
    ensures ClientUsername(ServerUsername(username)) == username
    ensures ServerUsername(username) != username
    ensures ServerEmail(username) == ServerUsername(username) + "@example.com"
  {
    assert ServerUsername(username)[..|username|] == username;
  }

  /**
   * Checks the form: a blank field (name, username and e-mail after stripping,
   * the passwords as typed) refuses first; then differing passwords refuse.
   */
  function Validate(form: Form): (r: Validation)
    ensures r == Refused(FieldsMissing) <==>
      (Strip(form.fullName) == [] || Strip(form.username) == [] || Strip(form.email) == [] ||
       form.password == [] || form.confirmation == [])
    ensures r == Refused(PasswordsDiffer) <==>
      (r != Refused(FieldsMissing) && form.password != form.confirmation)
    ensures r.Refused? ==> r.reason == FieldsMissing || r.reason == PasswordsDiffer
    ensures r.Accepted? ==>
      var name := Strip(form.username);
      name != [] && r.client == Account(name, Strip(form.email), form.password, "cliente") &&
      r.server == Account(ServerUsername(name), ServerEmail(name), form.password, "server")
  {
    var name := Strip(form.username);
    if Strip(form.fullName) == [] || name == [] || Strip(form.email) == [] ||
       form.password == [] || form.confirmation == [] then Refused(FieldsMissing)
    else if form.password != form.confirmation then Refused(PasswordsDiffer)
    else Accepted(Account(name, Strip(form.email), form.password, "cliente"),
                  Account(ServerUsername(name), ServerEmail(name), form.password, "server"))
  }

  /** A field made only of whitespace, or an empty password, refuses before any request. */
  lemma BlankFieldRefused(form: Form)
    requires AllSpace(form.fullName) || AllSpace(form.username) || AllSpace(form.email) ||
             form.password == [] || form.confirmation == []
    ensures Validate(form) == Refused(FieldsMissing)
  {
    StripEmptyIff(form.fullName);
    StripEmptyIff(form.username);
    StripEmptyIff(form.email);
  }

  /** One error line: the role, then the reply's `detail` or a fixed fallback. */
  function ErrorLine(role: string, r: Response): string {
    role + ": " + (if r.detail.Some? then r.detail.value else "Error desconocido")
  }

  /** The error lines for the replies that did not answer 200, in order. */
  function Errors(replies: seq<(Response, string)>): seq<string>
    decreases |replies|
  {
    if replies == [] then []
    else
      var last := replies[|replies| - 1];
      Errors(replies[..|replies| - 1]) + (if last.0.status != 200 then [ErrorLine(last.1, last.0)] else [])
  }

  /** There is no error line exactly when every reply answered 200. */
  lemma {:induction false} ErrorsEmptyIff(replies: seq<(Response, string)>)
    ensures Errors(replies) == [] <==> forall k :: 0 <= k < |replies| ==> replies[k].0.status == 200
    decreases |replies|
  {
    if replies != [] {
      var prefix := replies[..|replies| - 1];
      ErrorsEmptyIff(prefix);
      assert forall k :: 0 <= k < |prefix| ==> prefix[k] == replies[k];
    }
  }

  /** Builds the error list by appending one line per failed reply. */
  method CollectErrors(replies: seq<(Response, string)>) returns (errors: seq<string>)
    ensures errors == Errors(replies)
  {
    errors := [];
    for i := 0 to |replies|
      invariant errors == Errors(replies[..i])
    {
      assert replies[..i + 1][..i] == replies[..i];
      var (r, role) := replies[i];
      if r.status != 200 {
        errors := errors + [ErrorLine(role, r)];
      }
    }
    assert replies[..|replies|] == replies;
  }

  /**
   * The reported outcome once the form passed: a network error when either
   * request raised, success exactly when both answered 200, and otherwise one
   * error line per failed reply, the client's before the server's.
   */
  function Combine(client: Option<Response>, server: Option<Response>, name: string): (r: Outcome)
    ensures r.Registered? <==> (client.Some? && server.Some? && client.value.status == 200 && server.value.status == 200)
    ensures r.Registered? ==> r == Registered(name, ServerUsername(name))
    ensures r.NetworkError? <==> (client.None? || server.None?)
    ensures r.Rejected? <==>
      (client.Some? && server.Some? && !(client.value.status == 200 && server.value.status == 200))
    ensures r.Rejected? ==>
      r.errors == (if client.value.status != 200 then [ErrorLine("cliente", client.value)] else []) +
                  (if server.value.status != 200 then [ErrorLine("server", server.value)] else []) &&
      1 <= |r.errors| <= 2
  {
    if client.None? || server.None? then NetworkError
    else if client.value.status == 200 && server.value.status == 200 then Registered(name, ServerUsername(name))
    else
      ErrorsOfPair(client.value, server.value);
      Rejected(Errors([(client.value, "cliente"), (server.value, "server")]))
  }

  /** With two replies, the client's error line comes before the server's. */
  lemma ErrorsOfPair(client: Response, server: Response)
    ensures Errors([(client, "cliente"), (server, "server")]) ==
      (if client.status != 200 then [ErrorLine("cliente", client)] else []) +
      (if server.status != 200 then [ErrorLine("server", server)] else [])
  {
    var replies := [(client, "cliente"), (server, "server")];
    var first := replies[..1];
    assert first == [(client, "cliente")];
    assert first[..0] == [];
    assert Errors(first) == (if client.status != 200 then [ErrorLine("cliente", client)] else []);
    assert replies[..|replies| - 1] == first;
  }

  /**
   * The register button. It returns the outcome and the accounts whose
   * requests were sent, in order: none when the form is refused, the server
   * account only after the client request returned.
   */
  method RegisterUser(form: Form, clientReply: Option<Response>, serverReply: Option<Response>)
    returns (outcome: Outcome, sent: seq<Account>)
    ensures Validate(form).Refused? ==> outcome == Validate(form).reason && sent == []
    ensures Validate(form).Accepted? ==>
      var v := Validate(form);
      sent == (if clientReply.None? then [v.client] else [v.client, v.server]) &&
      outcome == Combine(clientReply, serverReply, v.client.username)
  {
    var check := Validate(form);
    if check.Refused? {
      return check.reason, [];
    }
    sent := [check.client];
    if clientReply.None? {
      return NetworkError, sent;
    }
    var usernameServer := ServerUsername(check.client.username);
    sent := sent + [check.server];
    if serverReply.None? {
      return NetworkError, sent;
    }
    var c, s := clientReply.value, serverReply.value;
    if c.status == 200 && s.status == 200 {
      outcome := Registered(check.client.username, usernameServer);
    } else {
      var errors := CollectErrors([(c, "cliente"), (s, "server")]);
      outcome := Rejected(errors);
    }
  }
}
