/** The server actions: user-facing error messages for the authentication
    calls, the food-truck lookup, and the guard chain that decides whether
    a booking request reaches the CMS. Cookies, fetches and cache
    revalidation are parameters or left out: the access token, each CMS
    reply and the clock are inputs. */
module Actions {
  import opened Common
  import opened Clock
  import opened Policy
  import opened Directus

  /** What a `catch (error)` receives: an `Error` with its message, or
      some other thrown value. */
  datatype Thrown = ErrorWith(message: string) | NonError

  /** The outcome of one awaited CMS call. */
  datatype Call<T> = Returned(value: T) | Threw(error: Thrown)

  /** The `{ success, data | error }` object every action returns. */
  datatype ActionResult<T> = Success(data: T) | Failure(error: string)

  /** The JSON payload of a successful call, or the `{}` put in its place. */
  datatype Json = EmptyJson | JsonValue(text: string)

  /** `error instanceof Error ? error.message : fallback`. */
  function MessageOr(e: Thrown, fallback: string): (m: string)
    ensures e.ErrorWith? ==> m == e.message
    ensures e.NonError? ==> m == fallback
  {
    match e
    case ErrorWith(msg) => msg
    case NonError => fallback
  }

  /** The cookie is present and non-empty (`!token` fails otherwise). */
  predicate HasToken(token: Option<string>) {
    token.Some? && token.value != ""
  }

  const NOT_AUTHENTICATED := "Not authenticated"
  const UNREACHABLE := "Unable to connect to the server. " + "Please check your internet connection."
  const REGISTERED_HINT := "If your email is registered, " + "you will receive a password reset link."
  const LINK_EXPIRED := "Your password reset link has expired or is invalid. " + "Please request a new one."

  predicate MentionsNetwork(msg: string) {
    Contains(msg, "network") || Contains(msg, "connection")
  }

  // -----------------------------------------------------------------------
  // Authentication error messages
  // -----------------------------------------------------------------------

  /** The message `login` reports for a thrown error. */
  function LoginErrorMessage(e: Thrown): (m: string)
    ensures e.NonError? ==> m == "Failed to login"
    ensures e.ErrorWith? ==> m == INVALID_LOGIN || m == UNREACHABLE || m == e.message
  {
    match e
    case NonError => "Failed to login"
    case ErrorWith(msg) =>
      if Contains(msg, "401") || Contains(msg, "Invalid credentials") then INVALID_LOGIN
      else if MentionsNetwork(msg) then UNREACHABLE
      else msg
  }

  /** The credential rule comes first: a message naming both a 401 (or
      invalid credentials) and the network reads as a credential error; a
      message naming neither passes through unchanged. */
  lemma {:induction false} LoginErrorPrecedence(msg: string)
    ensures (Contains(msg, "401") || Contains(msg, "Invalid credentials")) ==>
              LoginErrorMessage(ErrorWith(msg)) == INVALID_LOGIN
    ensures !Contains(msg, "401") && !Contains(msg, "Invalid credentials") && MentionsNetwork(msg) ==>
              LoginErrorMessage(ErrorWith(msg)) == UNREACHABLE
    ensures !Contains(msg, "401") && !Contains(msg, "Invalid credentials") && !MentionsNetwork(msg) ==>
              LoginErrorMessage(ErrorWith(msg)) == msg
    ensures LoginErrorMessage(ErrorWith("Request failed: 401, network down")) == INVALID_LOGIN
  {
    var probe := "Request failed: 401, network down";
    assert probe[16..19] == "401";
    ContainsAt(probe, "401", 16);
  }

  /** `requestPasswordReset`: a returned reply is a success whose data is
      the reply's, or `{}` when it has none (a 204). An error naming a
      missing account is reported as success too, so the form does not
      reveal which addresses exist. */
  function RequestPasswordReset(reply: Call<Option<string>>): (r: ActionResult<Json>)
    ensures reply.Returned? ==> r == Success(if reply.value.None? then EmptyJson else JsonValue(reply.value.value))
    ensures reply.Threw? && reply.error.ErrorWith? &&
            (Contains(reply.error.message, "not found") || Contains(reply.error.message, "no matching user")) ==>
              r == Success(EmptyJson)
    ensures reply.Threw? && reply.error.ErrorWith? &&
            !Contains(reply.error.message, "not found") && !Contains(reply.error.message, "no matching user") ==>
              r == Failure(if MentionsNetwork(reply.error.message) then UNREACHABLE else reply.error.message)
    ensures reply == Threw(NonError) ==> r == Failure("Failed to request password reset")
    ensures r.Failure? ==>
              (reply.Threw? &&
               (r.error == UNREACHABLE || r.error == "Failed to request password reset" ||
                (reply.error.ErrorWith? && r.error == reply.error.message)))
  {
    match reply
    case Returned(d) => Success(if d.None? then EmptyJson else JsonValue(d.value))
    case Threw(NonError) => Failure("Failed to request password reset")
    case Threw(ErrorWith(msg)) =>
      if Contains(msg, "not found") || Contains(msg, "no matching user") then Success(EmptyJson)
      else if MentionsNetwork(msg) then Failure(UNREACHABLE)
      else Failure(msg)
  }

  /** The message `resetPassword` reports for a thrown error. */
  function ResetPasswordErrorMessage(e: Thrown): (m: string)
    ensures e.NonError? ==> m == "Failed to reset password"
    ensures e.ErrorWith? ==> m == LINK_EXPIRED || m == UNREACHABLE || m == e.message
  {
    match e
    case NonError => "Failed to reset password"
    case ErrorWith(msg) =>
      if Contains(msg, "expired") || Contains(msg, "invalid token") then LINK_EXPIRED
      else if MentionsNetwork(msg) then UNREACHABLE
      else msg
  }

  /** The expiry rule comes before the network rule; anything else is
      passed through. */
  lemma {:induction false} ResetPasswordErrorPrecedence(msg: string)
    ensures (Contains(msg, "expired") || Contains(msg, "invalid token")) ==>
              ResetPasswordErrorMessage(ErrorWith(msg)) == LINK_EXPIRED
    ensures !Contains(msg, "expired") && !Contains(msg, "invalid token") && MentionsNetwork(msg) ==>
              ResetPasswordErrorMessage(ErrorWith(msg)) == UNREACHABLE
    ensures !Contains(msg, "expired") && !Contains(msg, "invalid token") && !MentionsNetwork(msg) ==>
              ResetPasswordErrorMessage(ErrorWith(msg)) == msg
    ensures ResetPasswordErrorMessage(ErrorWith("token expired")) == LINK_EXPIRED
  {
    var probe := "token expired";
    assert probe[6..] == "expired";
    ContainsAt(probe, "expired", 6);
  }

  /** The phrases the authentication actions rewrite on. */
  predicate NamesAuthKeyword(m: string) {
    Contains(m, "401") || Contains(m, "Invalid credentials") || MentionsNetwork(m) ||
    Contains(m, "expired") || Contains(m, "invalid token")
  }

  /** The phrases `requestPasswordReset` treats as "no such account". */
  predicate NamesMissingAccount(m: string) {
    Contains(m, "not found") || Contains(m, "no matching user")
  }

  /** A message lacking the characters `cs`, among them 4, k and x and
      enough of the others, names none of the authentication keywords. */
  lemma AuthKeywordsAbsent(m: string, cs: string)
    requires Lacks(m, cs) && '4' in cs && 'k' in cs && 'x' in cs
    requires 'c' in cs || 'I' in cs
    requires 'c' in cs || 'i' in cs || 't' in cs || NoAdjacent(m, 'n', 'n')
    ensures !NamesAuthKeyword(m)
  {
    LacksMember(m, cs, '4');
    LacksMember(m, cs, 'k');
    LacksMember(m, cs, 'x');
    NotContainsMissingChar(m, "401", 0);
    NotContainsMissingChar(m, "network", 6);
    NotContainsMissingChar(m, "expired", 1);
    NotContainsMissingChar(m, "invalid token", 10);
    if 'c' in cs {
      LacksMember(m, cs, 'c');
      NotContainsMissingChar(m, "Invalid credentials", 8);
      NotContainsMissingChar(m, "connection", 0);
    } else {
      LacksMember(m, cs, 'I');
      NotContainsMissingChar(m, "Invalid credentials", 0);
      if 'i' in cs {
        LacksMember(m, cs, 'i');
        NotContainsMissingChar(m, "connection", 7);
      } else if 't' in cs {
        LacksMember(m, cs, 't');
        NotContainsMissingChar(m, "connection", 6);
      } else {
        NotContainsMissingPair(m, "connection", 2);
      }
    }
  }

  /** A message lacking f, and g or h, names no missing account. */
  lemma AccountPhrasesAbsent(m: string, cs: string)
    requires Lacks(m, cs) && 'f' in cs && ('g' in cs || 'h' in cs)
    ensures !NamesMissingAccount(m)
  {
    LacksMember(m, cs, 'f');
    NotContainsMissingChar(m, "not found", 4);
    if 'g' in cs {
      LacksMember(m, cs, 'g');
      NotContainsMissingChar(m, "no matching user", 10);
    } else {
      LacksMember(m, cs, 'h');
      NotContainsMissingChar(m, "no matching user", 7);
    }
  }

  lemma InvalidLoginUnflagged()
    ensures !NamesAuthKeyword(INVALID_LOGIN) && !NamesMissingAccount(INVALID_LOGIN)
  {
    var a, b := "Invalid email ", "or password";
    assert Lacks(a, "4kxcfg") && Lacks(b, "4kxcfg");
    LacksConcat(a, b, "4kxcfg");
    AuthKeywordsAbsent(INVALID_LOGIN, "4kxcfg");
    AccountPhrasesAbsent(INVALID_LOGIN, "4kxcfg");
  }

  lemma NoPermissionUnflagged()
    ensures !NamesAuthKeyword(NO_PERMISSION) && !NamesMissingAccount(NO_PERMISSION)
  {
    NoPermissionLacks();
    NoPermissionNoDoubleN();
    AuthKeywordsAbsent(NO_PERMISSION, "4kxIfg");
    AccountPhrasesAbsent(NO_PERMISSION, "4kxIfg");
  }

  lemma NoPermissionLacks()
    ensures Lacks(NO_PERMISSION, "4kxIfg")
  {
    var a, b, c := "You don't have ", "permission to access ", "this resource";
    assert Lacks(a, "4kxIfg") && Lacks(b, "4kxIfg") && Lacks(c, "4kxIfg");
    LacksConcat(a, b, "4kxIfg");
    LacksConcat(a + b, c, "4kxIfg");
  }

  lemma NoPermissionNoDoubleN()
    ensures NoAdjacent(NO_PERMISSION, 'n', 'n')
  {
    var a, b, c := "You don't have ", "permission to access ", "this resource";
    assert NoAdjacent(a, 'n', 'n') && NoAdjacent(b, 'n', 'n') && NoAdjacent(c, 'n', 'n');
    NoAdjacentConcat(a, b, 'n', 'n');
    NoAdjacentConcat(a + b, c, 'n', 'n');
  }

  lemma NotFoundNamesMissingAccount()
    ensures !NamesAuthKeyword(NOT_FOUND) && NamesMissingAccount(NOT_FOUND)
  {
    var a, b := "The requested ", "resource was not found";
    assert Lacks(a, "4kxIi") && Lacks(b, "4kxIi");
    LacksConcat(a, b, "4kxIi");
    AuthKeywordsAbsent(NOT_FOUND, "4kxIi");
    assert b[13..] == "not found";
    assert NOT_FOUND[27..] == b[13..];
    ContainsAt(NOT_FOUND, "not found", 27);
  }

  lemma TooManyUnflagged()
    ensures !NamesAuthKeyword(TOO_MANY) && !NamesMissingAccount(TOO_MANY)
  {
    var a, b := "Too many requests, ", "please try again later";
    assert Lacks(a, "4kxcfh") && Lacks(b, "4kxcfh");
    LacksConcat(a, b, "4kxcfh");
    AuthKeywordsAbsent(TOO_MANY, "4kxcfh");
    AccountPhrasesAbsent(TOO_MANY, "4kxcfh");
  }

  lemma ServerErrorUnflagged()
    ensures !NamesAuthKeyword(SERVER_ERROR) && !NamesMissingAccount(SERVER_ERROR)
  {
    var a, b := "Server error, ", "please try again later";
    assert Lacks(a, "4kxcfh") && Lacks(b, "4kxcfh");
    LacksConcat(a, b, "4kxcfh");
    AuthKeywordsAbsent(SERVER_ERROR, "4kxcfh");
    AccountPhrasesAbsent(SERVER_ERROR, "4kxcfh");
  }

  lemma GenericErrorUnflagged()
    ensures !NamesAuthKeyword(GENERIC_ERROR) && !NamesMissingAccount(GENERIC_ERROR)
  {
    assert Lacks(GENERIC_ERROR, "4kxIifg");
    AuthKeywordsAbsent(GENERIC_ERROR, "4kxIifg");
    AccountPhrasesAbsent(GENERIC_ERROR, "4kxIifg");
  }

  /** With the CMS client as written, the rewriting rules of `login` and
      `resetPassword` never fire on an HTTP error: its message reaches the
      user unchanged. A password-reset request answered 404 is reported as
      a success; every other status is reported as a failure. */
  lemma {:induction false} ServerErrorsThroughAuthActions(status: int, body: ErrorBody)
    ensures LoginErrorMessage(ErrorWith(RequestErrorAsWritten(status, body))) == RequestErrorAsWritten(status, body)
    ensures ResetPasswordErrorMessage(ErrorWith(RequestErrorAsWritten(status, body))) == RequestErrorAsWritten(status, body)
    ensures RequestPasswordReset(Threw(ErrorWith(RequestErrorAsWritten(status, body)))) ==
            if status == 404 then Success(EmptyJson) else Failure(RequestErrorAsWritten(status, body))
  {
    if status == 401 { InvalidLoginUnflagged(); }
    else if status == 403 { NoPermissionUnflagged(); }
    else if status == 404 { NotFoundNamesMissingAccount(); }
    else if status == 429 { TooManyUnflagged(); }
    else if status >= 500 { ServerErrorUnflagged(); }
    else { GenericErrorUnflagged(); }
  }

  /** With the corrected CMS client the rules see the CMS's own message: a
      400 whose message names invalid credentials reads as a failed login,
      where the client as written reports only the generic error. */
  lemma {:induction false} CmsMessagesReachAuthRules(status: int, msg: string)
    requires msg != ""
    ensures LoginErrorMessage(ErrorWith(RequestErrorIntended(status, ErrorJson(Some(msg))))) ==
            LoginErrorMessage(ErrorWith(msg))
    ensures RequestPasswordReset(Threw(ErrorWith(RequestErrorIntended(status, ErrorJson(Some(msg)))))) ==
            RequestPasswordReset(Threw(ErrorWith(msg)))
    ensures LoginErrorMessage(ErrorWith(RequestErrorIntended(400, ErrorJson(Some("Invalid credentials"))))) == INVALID_LOGIN
    ensures LoginErrorMessage(ErrorWith(RequestErrorAsWritten(400, ErrorJson(Some("Invalid credentials"))))) == GENERIC_ERROR
  {
    ContainsAt("Invalid credentials", "Invalid credentials", 0);
    GenericErrorUnflagged();
  }

  // -----------------------------------------------------------------------
  // The user's food truck
  // -----------------------------------------------------------------------

  /** `getUserFoodTruck`: the first truck the CMS lists for the user, or
      `null` when it lists none. */
  function GetUserFoodTruck(token: Option<string>, reply: Call<Option<seq<FoodTruck>>>): (r: ActionResult<Option<FoodTruck>>)
    ensures !HasToken(token) ==> r == Failure(NOT_AUTHENTICATED)
    ensures HasToken(token) && reply.Returned? ==>
              r.Success? &&
              (r.data.Some? <==> reply.value.Some? && |reply.value.value| > 0) &&
              (r.data.Some? ==> r.data.value == reply.value.value[0])
    ensures HasToken(token) && reply.Threw? ==>
              r == Failure(MessageOr(reply.error, "Failed to get food truck data"))
  {
    if !HasToken(token) then Failure(NOT_AUTHENTICATED)
    else match reply
      case Threw(e) => Failure(MessageOr(e, "Failed to get food truck data"))
      case Returned(data) =>
        Success(if data.Some? && |data.value| > 0 then Some(data.value[0]) else None)
  }

  // -----------------------------------------------------------------------
  // createBooking
  // -----------------------------------------------------------------------

  /** The booking sent by the client; `start` is `None` when it does not
      parse as a date. */
  datatype BookingRequest = BookingRequest(foodtruck: string, space: string, startText: string, start: Option<int>, end: string)

  /** Why `createBooking` refused a request. */
  datatype Refusal =
    | NotAuthenticated
    | RulesUnavailable
    | TruckUnavailable
    | BookingsUnavailable
    | CapReached(maximum: int)
    | TooFarAhead(days: int)
    | CmsFailed(thrown: Thrown)

  /** The message the action returns for each refusal. */
  function RefusalMessage(r: Refusal): string {
    match r
    case NotAuthenticated => NOT_AUTHENTICATED
    case RulesUnavailable => "Failed to check booking rules"
    case TruckUnavailable => "Failed to get food truck information"
    case BookingsUnavailable => "Failed to check current bookings"
    case CapReached(n) =>
      "You already have " + IntToString(n) + " future bookings, which is the maximum allowed"
    case TooFarAhead(d) => "Bookings can only be made up to " + IntToString(d) + " days in advance"
    case CmsFailed(e) => MessageOr(e, "Failed to create booking")
  }

  /** What one run of `createBooking` ends with, and whether the CMS's
      create call was made. */
  datatype Attempt = Attempt(outcome: Result, sentToCms: bool)
  datatype Result = Created(data: Json) | Refused(why: Refusal)

  /** `bookingsResult.data || []`. */
  function BookingsOrEmpty(data: Option<seq<Booking>>): seq<Booking> {
    if data.Some? then data.value else []
  }

  /** The rules' horizon: a start strictly later than `maximum_days_ahead`
      days from `horizonNow` is too far ahead. An unparsable start compares false
      and is never too far. */
  predicate BeyondHorizon(rules: Rules, start: Option<int>, horizonNow: int) {
    start.Some? && start.value > horizonNow + rules.maximumDaysAhead * MS_PER_DAY
  }

  /** Every guard of `createBooking` passes: the token is there, the
      three lookups succeeded, the truck exists, the bookings after `now`
      are below the cap and the start is within the horizon counted from
      `horizonNow`. */
  predicate PassesGuards(token: Option<string>, rulesReply: Call<Rules>,
                         truckReply: Call<Option<seq<FoodTruck>>>,
                         bookingsReply: Call<Option<seq<Booking>>>,
                         start: Option<int>, now: int, horizonNow: int) {
    HasToken(token) && rulesReply.Returned? &&
    truckReply.Returned? && truckReply.value.Some? && |truckReply.value.value| > 0 &&
    bookingsReply.Returned? &&
    CountFuture(BookingsOrEmpty(bookingsReply.value), now) < rulesReply.value.maximumFutureBookings &&
    !BeyondHorizon(rulesReply.value, start, horizonNow)
  }

  /** `createBooking`: the guard chain, in the source's order, and then the
      CMS call, whose reply (`cms`) decides the outcome. The clock is read
      twice: `now` before the bookings are fetched, for the cap, and
      `horizonNow` after that call has returned, for the horizon. */
  function CreateBooking(token: Option<string>, rulesReply: Call<Rules>,
                         truckReply: Call<Option<seq<FoodTruck>>>,
                         bookingsReply: Call<Option<seq<Booking>>>,
                         request: BookingRequest, now: int, horizonNow: int, cms: Call<Json>): (a: Attempt)
    ensures a.sentToCms <==> PassesGuards(token, rulesReply, truckReply, bookingsReply, request.start, now, horizonNow)
    ensures !HasToken(token) ==> a.outcome == Refused(NotAuthenticated)
    ensures a.outcome.Created? <==> a.sentToCms && cms.Returned?
    ensures a.outcome.Created? ==> a.outcome.data == cms.value
  {
    if !HasToken(token) then Attempt(Refused(NotAuthenticated), false)
    else if rulesReply.Threw? then Attempt(Refused(RulesUnavailable), false)
    else
      var rules := rulesReply.value;
      var truck := GetUserFoodTruck(token, truckReply);
      if truck.Failure? || truck.data.None? then Attempt(Refused(TruckUnavailable), false)
      else if bookingsReply.Threw? then Attempt(Refused(BookingsUnavailable), false)
      else
        var future := FutureBookings(BookingsOrEmpty(bookingsReply.value), now);
        if |future| >= rules.maximumFutureBookings then
          Attempt(Refused(CapReached(rules.maximumFutureBookings)), false)
        else if BeyondHorizon(rules, request.start, horizonNow) then
          Attempt(Refused(TooFarAhead(rules.maximumDaysAhead)), false)
        else match cms
          case Returned(data) => Attempt(Created(data), true)
          case Threw(e) => Attempt(Refused(CmsFailed(e)), true)
  }

  /** At the cap the server refuses every start, last-minute or not, with
      the cap message; and when the start is also too far ahead the cap
      message still wins. */
  lemma {:induction false} ServerCapHasNoOverride(token: Option<string>, rules: Rules,
                                                  trucks: seq<FoodTruck>, bookings: seq<Booking>,
                                                  request: BookingRequest, now: int, horizonNow: int, cms: Call<Json>)
    requires HasToken(token) && |trucks| > 0
    requires CountFuture(bookings, now) >= rules.maximumFutureBookings
    ensures CreateBooking(token, Returned(rules), Returned(Some(trucks)), Returned(Some(bookings)), request, now, horizonNow, cms)
            == Attempt(Refused(CapReached(rules.maximumFutureBookings)), false)
    ensures RefusalMessage(CapReached(rules.maximumFutureBookings)) ==
            "You already have " + IntToString(rules.maximumFutureBookings) + " future bookings, which is the maximum allowed"
  {
  }

  /** The horizon is inclusive and counted from the second clock reading: a
      start exactly `maximum_days_ahead` days after `horizonNow` reaches the
      CMS, a start one millisecond later is refused, whatever `now` was. */
  lemma {:induction false} HorizonBoundary(token: Option<string>, rules: Rules,
                                           trucks: seq<FoodTruck>, bookings: seq<Booking>,
                                           request: BookingRequest, now: int, horizonNow: int, cms: Call<Json>)
    requires HasToken(token) && |trucks| > 0
    requires CountFuture(bookings, now) < rules.maximumFutureBookings
    ensures var edge := request.(start := Some(horizonNow + rules.maximumDaysAhead * MS_PER_DAY));
            CreateBooking(token, Returned(rules), Returned(Some(trucks)), Returned(Some(bookings)), edge, now, horizonNow, cms).sentToCms
    ensures var late := request.(start := Some(horizonNow + rules.maximumDaysAhead * MS_PER_DAY + 1));
            CreateBooking(token, Returned(rules), Returned(Some(trucks)), Returned(Some(bookings)), late, now, horizonNow, cms)
            == Attempt(Refused(TooFarAhead(rules.maximumDaysAhead)), false)
    ensures var unparsable := request.(start := None);
            CreateBooking(token, Returned(rules), Returned(Some(trucks)), Returned(Some(bookings)), unparsable, now, horizonNow, cms).sentToCms
  {
  }

  /** The client lets a last-minute booking through at the cap, but the
      server turns the same booking down: the booking page opens its
      confirmation dialog, and `createBooking` answers with the cap message. */
  lemma {:induction false} ClientOverrideRefusedByServer(token: Option<string>, rules: Rules,
                                                         trucks: seq<FoodTruck>, bookings: seq<Booking>,
                                                         request: BookingRequest, now: int, horizonNow: int, cms: Call<Json>)
    requires HasToken(token) && |trucks| > 0
    requires CountFuture(bookings, now) >= rules.maximumFutureBookings
    requires request.start.Some? && IsLastMinute(Some(rules), request.start.value, now)
    ensures BookSpaceGate(true, Some(rules), CountFuture(bookings, now), request.start, now)
            == OpenConfirm
    ensures CreateBooking(token, Returned(rules), Returned(Some(trucks)), Returned(Some(bookings)), request, now, horizonNow, cms).outcome
            == Refused(CapReached(rules.maximumFutureBookings))
  {
    ServerCapHasNoOverride(token, rules, trucks, bookings, request, now, horizonNow, cms);
  }
}
