/** The sign-in form (src/components/Login.tsx): the guards on its inputs, the translation of a failed
    sign-in into a message for the user, and the styling class chosen for that message. */
module Login {
  import opened Wrappers
  import opened Text
  import Js

  // Wording the translator looks for.
  const AccountLocked := "Account is locked"
  const BadCredentials := "Invalid username or password"
  const NonNullable := "Cannot return null for non-nullable field"

  // Messages the form shows.
  const InvalidCredentials := "Invalid username or password. Please try again."
  const UserNotFound := "User not found. Please check your username."
  const AuthenticationFailed := "Authentication failed. Please check your credentials."
  const UnableToConnect := "Unable to connect to server. Please check your internet connection."
  const TimedOut := "Request timed out. Please try again."
  const ConnectionFailed := "Connection error. Please try again later."
  const ServerError := "Server error. Please try again later."
  const ServiceNotFound := "Service not found. Please contact support."
  const LoginFailed := "Login failed. Please check your credentials and try again."
  const UsernameRequired := "Please enter your username"
  const PasswordRequired := "Please enter your password"

  /** What a failed sign-in throws. In an object, a missing or falsy string is "", and
      `graphqlErrors` holds the messages of `data.errors` when that is an array. */
  datatype LoginError =
    | StringError(text: string)
    | ObjectError(message: string, graphqlErrors: Option<seq<string>>, dataError: string)
    | OtherError

  /** `message.split(':')[0].trim()`: the message without the request details after a colon. */
  function ActualMessage(message: string): (r: string)
    ensures ':' !in r && |r| <= |message|
    ensures exists a, b :: PaddedSlice(BeforeFirst(message, ':'), r, a, b)
    ensures r == [] || (!IsWhitespace(r[0]) && !IsWhitespace(r[|r| - 1]))
  {
    var head := BeforeFirst(message, ':');
    var r := Trim(head);
    assert ':' !in r by {
      assert forall c :: c in r ==> c in head;
    }
    r
  }

  /** Lockouts, attempt warnings and bad-credential notices are shown exactly as the server words them. */
  predicate ShownVerbatim(m: string) {
    || Contains(m, AccountLocked)
    || (Contains(m, "attempt") && Contains(m, "remaining"))
    || Contains(m, BadCredentials)
  }

  /** Wording the translator replaces by a message of its own. */
  predicate Rewritten(m: string) {
    Contains(m, NonNullable) || Contains(m, "User not found") || Contains(m, "Authentication failed")
  }

  /** The message shown for the first GraphQL error. */
  function GraphqlMessage(message: string): (r: string)
    ensures ShownVerbatim(message) ==> r == message
    ensures !ShownVerbatim(message) && Contains(message, NonNullable) ==> r == InvalidCredentials
    ensures !ShownVerbatim(message) && !Rewritten(message) ==> r == message
    ensures r in {message, InvalidCredentials, UserNotFound, AuthenticationFailed}
  {
    if ShownVerbatim(message) then message
    else if Contains(message, NonNullable) then InvalidCredentials
    else if Contains(message, "User not found") then UserNotFound
    else if Contains(message, "Authentication failed") then AuthenticationFailed
    else message
  }

  const CannedTexts: set<string> :=
    {UnableToConnect, InvalidCredentials, UserNotFound, TimedOut, ConnectionFailed, ServerError, ServiceNotFound}

  /** The canned message for a lowercased error message, when one of the rules for connection
      failures, credentials, time-outs and HTTP statuses matches it. */
  function CannedMessage(lower: string): (r: Option<string>)
    ensures Contains(lower, "fetch") || Contains(lower, "networkerror") ==> r == Some(UnableToConnect)
    ensures r.Some? ==> r.value in CannedTexts
  {
    if Contains(lower, "fetch") || Contains(lower, "networkerror") || Contains(lower, "failed to fetch") then
      Some(UnableToConnect)
    else if Contains(lower, "invalid username or password") || Contains(lower, "cannot return null")
      || Contains(lower, "authentication failed") then
      Some(InvalidCredentials)
    else if Contains(lower, "user not found") then Some(UserNotFound)
    else if Contains(lower, "timeout") then Some(TimedOut)
    else if Contains(lower, "cors") then Some(ConnectionFailed)
    else if Contains(lower, "500") || Contains(lower, "internal server error") then Some(ServerError)
    else if Contains(lower, "404") || Contains(lower, "not found") then Some(ServiceNotFound)
    else None
  }

  /** A message short enough and free of technical words to be shown as it is. */
  predicate Presentable(message: string) {
    var lower := LowerAscii(message);
    && |message| < 100
    && !Contains(lower, "graphql") && !Contains(lower, "json") && !Contains(lower, "object")
    && !Contains(lower, "undefined") && !Contains(lower, "null")
  }

  /** The rules applied to the error's own message, case-insensitively. */
  function MessageRule(message: string): (r: Option<string>)
    ensures CannedMessage(LowerAscii(message)).Some? ==> r == CannedMessage(LowerAscii(message))
    ensures CannedMessage(LowerAscii(message)).None? ==> (r.Some? <==> Presentable(message))
    ensures r.Some? && r.value != message ==> r == CannedMessage(LowerAscii(message))
  {
    var canned := CannedMessage(LowerAscii(message));
    if canned.Some? then canned
    else if Presentable(message) then Some(message)
    else None
  }

  /** `error.data.errors[0].message`, or "" when there is none. */
  function FirstGraphqlMessage(e: LoginError): string {
    if e.ObjectError? && e.graphqlErrors.Some? && |e.graphqlErrors.value| > 0 then e.graphqlErrors.value[0] else ""
  }

  /** `getErrorMessage`: the text the form shows for a failed sign-in. */
  function ErrorMessage(e: LoginError): (r: string)
    ensures e.ObjectError? && e.message != "" && ShownVerbatim(ActualMessage(e.message)) ==>
      r == ActualMessage(e.message) && ':' !in r
    ensures e.ObjectError? && !(e.message != "" && ShownVerbatim(ActualMessage(e.message))) ==>
      FirstGraphqlMessage(e) != "" ==> r == GraphqlMessage(FirstGraphqlMessage(e))
    ensures e.ObjectError? && !(e.message != "" && ShownVerbatim(ActualMessage(e.message))) ==>
      FirstGraphqlMessage(e) == "" && e.dataError != "" ==> r == e.dataError
    ensures e.ObjectError? && !(e.message != "" && ShownVerbatim(ActualMessage(e.message))) ==>
      FirstGraphqlMessage(e) == "" && e.dataError == "" && e.message != "" && MessageRule(e.message).Some? ==>
      r == MessageRule(e.message).value
    ensures e.OtherError? ==> r == LoginFailed
    ensures e.StringError? ==> r == (if |e.text| < 100 then e.text else LoginFailed)
    ensures e.ObjectError? && !(e.message != "" && ShownVerbatim(ActualMessage(e.message))) ==>
      FirstGraphqlMessage(e) == "" && e.dataError == "" && (e.message == "" || MessageRule(e.message).None?) ==>
      r == LoginFailed
  {
    match e
    case ObjectError(message, graphqlErrors, dataError) =>
      if message != "" && ShownVerbatim(ActualMessage(message)) then ActualMessage(message)
      else if FirstGraphqlMessage(e) != "" then GraphqlMessage(FirstGraphqlMessage(e))
      else if dataError != "" then dataError
      else if message != "" && MessageRule(message).Some? then MessageRule(message).value
      else LoginFailed
    case StringError(text) => if |text| < 100 then text else LoginFailed
    case OtherError => LoginFailed
  }

  lemma ContainsNonEmpty(s: string, sub: string)
    requires sub != [] && Contains(s, sub)
    ensures s != []
  {
  }

  /** The canned texts are never empty. */
  lemma CannedNonEmpty(lower: string)
    ensures CannedMessage(lower).Some? ==> CannedMessage(lower).value != ""
  {
    assert "" !in CannedTexts;
  }

  /** The form always has something to show, unless what was thrown is the empty string. */
  lemma {:induction false} MessageEmptyOnlyForEmptyString(e: LoginError)
    ensures ErrorMessage(e) == "" <==> e == StringError("")
  {
    match e {
      case StringError(_) =>
      case OtherError =>
      case ObjectError(message, _, dataError) =>
        if message != "" && ShownVerbatim(ActualMessage(message)) {
          var m := ActualMessage(message);
          if Contains(m, AccountLocked) {
            ContainsNonEmpty(m, AccountLocked);
          } else if Contains(m, "attempt") {
            ContainsNonEmpty(m, "attempt");
          } else {
            ContainsNonEmpty(m, BadCredentials);
          }
        } else if FirstGraphqlMessage(e) != "" {
          assert "" !in {FirstGraphqlMessage(e), InvalidCredentials, UserNotFound, AuthenticationFailed};
        } else if dataError == "" && message != "" && MessageRule(message).Some? {
          CannedNonEmpty(LowerAscii(message));
        }
    }
  }

  /** The styling classes of the form's error banner. */
  datatype ErrorType = Auth | Network | Server | Validation

  /** The class as the form picks it: case-sensitive tests of the message shown. */
  function ErrorTypeAsWritten(userMessage: string): (r: ErrorType)
    ensures r == Network <==>
      Contains(userMessage, "connection") || Contains(userMessage, "network") || Contains(userMessage, "internet")
    ensures r == Server <==>
      && !(Contains(userMessage, "connection") || Contains(userMessage, "network") || Contains(userMessage, "internet"))
      && (Contains(userMessage, "server") || Contains(userMessage, "500") || Contains(userMessage, "timeout"))
    ensures r != Validation
  {
    if Contains(userMessage, "connection") || Contains(userMessage, "network") || Contains(userMessage, "internet") then
      Network
    else if Contains(userMessage, "server") || Contains(userMessage, "500") || Contains(userMessage, "timeout") then
      Server
    else
      Auth
  }

  /** The class with the same tests made regardless of case, as `userMessage.toLowerCase()` would
      have them (`Text.CaselessIsLowered`). */
  function ErrorTypeOf(userMessage: string): (r: ErrorType)
    ensures r == Network <==>
      ContainsCaseless(userMessage, "connection") || ContainsCaseless(userMessage, "network")
      || ContainsCaseless(userMessage, "internet")
    ensures r == Server <==>
      && !(ContainsCaseless(userMessage, "connection") || ContainsCaseless(userMessage, "network")
           || ContainsCaseless(userMessage, "internet"))
      && (ContainsCaseless(userMessage, "server") || ContainsCaseless(userMessage, "500")
          || ContainsCaseless(userMessage, "timeout"))
    ensures r != Validation
  {
    if ContainsCaseless(userMessage, "connection") || ContainsCaseless(userMessage, "network")
      || ContainsCaseless(userMessage, "internet") then
      Network
    else if ContainsCaseless(userMessage, "server") || ContainsCaseless(userMessage, "500")
      || ContainsCaseless(userMessage, "timeout") then
      Server
    else
      Auth
  }

  /** The corrected class is the written one applied to the lowercased message. */
  lemma ErrorTypeOfIsLowered(userMessage: string)
    ensures ErrorTypeOf(userMessage) == ErrorTypeAsWritten(LowerAscii(userMessage))
  {
    CaselessIsLowered(userMessage, "connection");
    CaselessIsLowered(userMessage, "network");
    CaselessIsLowered(userMessage, "internet");
    CaselessIsLowered(userMessage, "server");
    CaselessIsLowered(userMessage, "500");
    CaselessIsLowered(userMessage, "timeout");
  }

  lemma TooLong(s: string, sub: string)
    requires |s| < |sub|
    ensures !Contains(s, sub)
  {
  }

  lemma Canned500()
    ensures CannedMessage("500") == Some(ServerError)
  {
    var words := ["fetch", "networkerror", "failed to fetch", "invalid username or password",
      "cannot return null", "authentication failed", "user not found", "timeout", "cors"];
    forall w | w in words ensures !Contains("500", w) {
      TooLong("500", w);
    }
    assert OccursAt("500", "500", 0);
  }

  lemma NotVerbatim500()
    ensures !ShownVerbatim(ActualMessage("500"))
  {
    var actual := ActualMessage("500");
    TooLong(actual, AccountLocked);
    TooLong(actual, "attempt");
    TooLong(actual, BadCredentials);
  }

  lemma Rule500()
    ensures MessageRule("500") == Some(ServerError)
  {
    assert LowerAscii("500") == "500";
    Canned500();
  }

  /** An object error carrying only a message that no earlier branch takes is translated by the
      lowercase rules. */
  lemma TranslatedByRule(message: string)
    ensures message != "" && !ShownVerbatim(ActualMessage(message)) && MessageRule(message).Some? ==>
      ErrorMessage(ObjectError(message, None, "")) == MessageRule(message).value
  {
  }

  /** An HTTP 500 is translated to the canned server-error message. */
  lemma Status500Message(e: LoginError)
    requires e == ObjectError("500", None, "")
    ensures ErrorMessage(e) == ServerError
  {
    NotVerbatim500();
    Rule500();
    TranslatedByRule("500");
  }

  // The canned server-error and time-out messages lack every word the case-sensitive tests look
  // for: each word is longer than most words of the message, and a character of it is missing
  // from the others.

  const ServerErrorWords := ["Server", "error.", "Please", "try", "again", "later."]
  const TimedOutWords := ["Request", "timed", "out.", "Please", "try", "again."]

  lemma ServerErrorInWords()
    ensures ServerError == Words(ServerErrorWords)
  {
  }

  lemma TimedOutInWords()
    ensures TimedOut == Words(TimedOutWords)
  {
  }

  lemma ServerErrorLacksLongWords(w: string)
    requires w in {"connection", "network", "internet", "timeout"}
    ensures !Contains(ServerError, w)
  {
    ServerErrorInWords();
    NotInWords(ServerErrorWords, w);
  }

  lemma ServerErrorLacksServer()
    ensures !Contains(ServerError, "server")
  {
    AbsentChar("Server", "server", 0);
    AbsentChar("error.", "server", 0);
    AbsentChar("Please", "server", 3);
    ServerErrorInWords();
    NotInWords(ServerErrorWords, "server");
  }

  lemma ServerErrorLacks500()
    ensures !Contains(ServerError, "500")
  {
    AbsentChar(ServerError, "500", 0);
  }

  lemma TimedOutLacksLongWords(w: string)
    requires w in {"connection", "internet"}
    ensures !Contains(TimedOut, w)
  {
    TimedOutInWords();
    NotInWords(TimedOutWords, w);
  }

  lemma TimedOutLacksNetwork()
    ensures !Contains(TimedOut, "network")
  {
    AbsentChar("Request", "network", 0);
    TimedOutInWords();
    NotInWords(TimedOutWords, "network");
  }

  lemma TimedOutLacksServer()
    ensures !Contains(TimedOut, "server")
  {
    AbsentChar("Request", "server", 3);
    AbsentChar("Please", "server", 3);
    TimedOutInWords();
    NotInWords(TimedOutWords, "server");
  }

  lemma TimedOutLacks500()
    ensures !Contains(TimedOut, "500")
  {
    AbsentChar(TimedOut, "500", 0);
  }

  lemma TimedOutLacksTimeout()
    ensures !Contains(TimedOut, "timeout")
  {
    AbsentChar("Request", "timeout", 2);
    TimedOutInWords();
    NotInWords(TimedOutWords, "timeout");
  }

  /** As written, the messages for server errors and time-outs are styled as credentials errors. */
  lemma ServerMessagesStyledAsAuth()
    ensures ErrorTypeAsWritten(ServerError) == Auth
    ensures ErrorTypeAsWritten(TimedOut) == Auth
  {
    ServerErrorLacksLongWords("connection");
    ServerErrorLacksLongWords("network");
    ServerErrorLacksLongWords("internet");
    ServerErrorLacksServer();
    ServerErrorLacks500();
    ServerErrorLacksLongWords("timeout");
    TimedOutLacksLongWords("connection");
    TimedOutLacksNetwork();
    TimedOutLacksLongWords("internet");
    TimedOutLacksServer();
    TimedOutLacks500();
    TimedOutLacksTimeout();
  }

  /** As written, the message the form shows for an HTTP 500 is styled as a credentials error. */
  lemma Status500StyledAsAuth(e: LoginError)
    requires e == ObjectError("500", None, "")
    ensures ErrorTypeAsWritten(ErrorMessage(e)) == Auth
  {
    Status500Message(e);
    ServerMessagesStyledAsAuth();
  }

  lemma CaselessServerErrorLacksNetworkWords(w: string)
    requires w in {"connection", "network", "internet"}
    ensures !ContainsCaseless(ServerError, w)
  {
    ServerErrorInWords();
    NotInWordsCaseless(ServerErrorWords, w);
  }

  lemma CaselessServerErrorHasServer()
    ensures ContainsCaseless(ServerError, "server")
  {
    assert OccursAtCaseless(ServerError, "server", 0);
  }

  /** With the corrected tests, the canned server-error message is styled as a server error. */
  lemma ServerErrorClassified()
    ensures ErrorTypeOf(ServerError) == Server
  {
    CaselessServerErrorLacksNetworkWords("connection");
    CaselessServerErrorLacksNetworkWords("network");
    CaselessServerErrorLacksNetworkWords("internet");
    CaselessServerErrorHasServer();
  }

  /** The canned connection-failure messages are styled as network errors, with the corrected tests. */
  lemma ConnectionFailedClassified()
    ensures ErrorTypeOf(ConnectionFailed) == Network
  {
    assert OccursAtCaseless(ConnectionFailed, "connection", 0);
  }

  lemma UnableToConnectClassified()
    ensures ErrorTypeOf(UnableToConnect) == Network
  {
    assert OccursAtCaseless(UnableToConnect, "connection", 56);
  }

  /** With the corrected tests, the message for an HTTP 500 is styled as a server error. */
  lemma Status500StyledAsServer(e: LoginError)
    requires e == ObjectError("500", None, "")
    ensures ErrorTypeOf(ErrorMessage(e)) == Server
  {
    Status500Message(e);
    ServerErrorClassified();
  }

  datatype Credentials = Credentials(username: string, password: string)

  /** The server's answer to a sign-in request. */
  datatype LoginResponse = SignedIn(token: string, user: Js.JsValue) | Rejected(error: LoginError)

  /** What the form keeps between submissions. */
  datatype FormState = FormState(
    error: string, errorType: ErrorType, touchedUsername: bool, touchedPassword: bool,
    isSuccess: bool, token: Option<string>, user: Option<Js.JsValue>)

  /** The new form state, and the sign-in request made, if any; `response` is what the server
      answers when a request is made. */
  datatype SubmitResult = SubmitResult(state: FormState, request: Option<Credentials>)

  /** `handleSubmit`: blank fields are reported, the username first, and stop the submission;
      otherwise the fields are sent as typed and the answer is shown. */
  function Submit(state: FormState, username: string, password: string, response: LoginResponse): (r: SubmitResult)
    ensures r.request.Some? <==> !IsBlank(username) && !IsBlank(password)
    ensures r.request.Some? ==> r.request.value == Credentials(username, password)
    ensures IsBlank(username) ==>
      r.state == state.(error := UsernameRequired, errorType := Validation, touchedUsername := true)
    ensures !IsBlank(username) && IsBlank(password) ==>
      r.state == state.(error := PasswordRequired, errorType := Validation, touchedPassword := true)
    ensures r.request.Some? && response.SignedIn? ==>
      r.state == state.(error := "", isSuccess := true, token := Some(response.token), user := Some(response.user))
    ensures r.request.Some? && response.Rejected? ==>
      && r.state == state.(error := ErrorMessage(response.error), errorType := ErrorTypeOf(r.state.error))
      && (r.state.error == "" <==> response.error == StringError(""))
  {
    if Trim(username) == "" then
      SubmitResult(state.(error := UsernameRequired, errorType := Validation, touchedUsername := true), None)
    else if Trim(password) == "" then
      SubmitResult(state.(error := PasswordRequired, errorType := Validation, touchedPassword := true), None)
    else
      var request := Some(Credentials(username, password));
      match response
      case SignedIn(token, user) =>
        SubmitResult(state.(error := "", isSuccess := true, token := Some(token), user := Some(user)), request)
      case Rejected(error) =>
        MessageEmptyOnlyForEmptyString(error);
        var message := ErrorMessage(error);
        SubmitResult(state.(error := message, errorType := ErrorTypeOf(message)), request)
  }
}
