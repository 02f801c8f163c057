/**
  The bearer-token cache: two transient slots, the token and its expiry
  timestamp. A token is reused while it is set, truthy, and its expiry lies
  more than a minute ahead; otherwise the plugin logs in, stores what a
  successful login returns with a lifetime clamped to [1 minute, 3 days],
  and clears both slots when the login is refused. A login that cannot be
  attempted (missing configuration) or whose request fails in transport
  leaves the slots as they were.

  The clock is the parameter `now`; the login reply is an input, used only
  when a login request is actually sent.
 */
module Tokens {
  import opened Options
  import opened Strings
  import opened Numeric
  import opened Values
  import opened Delivery

  /** The plugin's constants; None when a constant is not defined. */
  datatype Config = Config(baseUrl: Option<string>, loginEndpoint: Option<string>,
                           createEndpoint: Option<string>,
                           username: Option<string>, password: Option<string>)

  /** Defined and truthy: !$x and empty($x) are both its negation. */
  predicate Configured(x: Option<string>)
    // defined, and neither "" nor "0"
    ensures Configured(x) <==> x.Some? && x.value != "" && x.value != "0"
  {
    x.Some? && Truthy(Str(x.value))
  }

  /** The buffer before expiry and the bounds on a token's lifetime, in seconds. */
  const Buffer: int := 60
  const MinLifetime: int := 60
  const MaxLifetime: int := 3 * 86400

  // ---------------------------------------------------------------------
  // (int) cast of the decoded expires_in

  /** m / 10 rounded toward zero, as PHP's integer conversion rounds. */
  function TenthTowardZero(m: int): (r: int)
    ensures (m >= 0 ==> 0 <= 10 * r <= m < 10 * r + 10) && (m < 0 ==> 10 * r - 10 < m <= 10 * r <= 0)
  {
    if m >= 0 then m / 10 else -((-m) / 10)
  }

  /** The decimal m / 10^k truncated toward zero, one digit at a time. */
  function Truncate(m: int, k: nat): (r: int)
    ensures m == 0 ==> r == 0
    decreases k
  {
    if k == 0 then m else Truncate(TenthTowardZero(m), k - 1)
  }

  /** The leading integer of a string that is not numeric as a whole:
      whitespace, an optional sign, then as many digits as there are. */
  function LeadingInt(s: string): (r: int)
    // a leading '-' gives a number <= 0, a leading '+' or digit one >= 0,
    // and any other first character (or no character) gives 0
    ensures s != [] && s[0] == '-' ==> r <= 0
    ensures s != [] && (s[0] == '+' || IsDigit(s[0])) ==> r >= 0
    ensures s == [] || (!IsNumericSpace(s[0]) && s[0] != '-' && s[0] != '+' && !IsDigit(s[0])) ==> r == 0
    decreases |s|
  {
    if s != [] && IsNumericSpace(s[0]) then LeadingInt(s[1..])
    else
      var u := if s != [] && (s[0] == '-' || s[0] == '+') then s[1..] else s;
      var d := DigitsValue(u[..DigitRun(u)]);
      if s != [] && s[0] == '-' then -(d as int) else d
  }

  /** PHP's (int) cast of a decoded JSON value. */
  function IntCast(v: Value): (r: int)
    // every value that is empty() casts to 0
    ensures !Truthy(v) ==> r == 0
    decreases if v.Str? then 2 else 0
  {
    match v
    case Null => 0
    case Bool(b) => if b then 1 else 0
    case Int(i) => i
    case Float(m, k) => Truncate(m, k)
    case Str(s) => StrCast(s)
    case Arr(es) => if es == [] then 0 else 1
  }

  /** A string is cast through the number it denotes when it is numeric,
      and through its leading integer otherwise. */
  function StrCast(s: string): (r: int)
    ensures s == "" || s == "0" ==> r == 0
    decreases 1
  {
    ZeroTexts();
    match ParseNumeric(s)
    case Some(n) => IntCast(Float(Scaled(n).0, Scaled(n).1))
    case None => LeadingInt(s)
  }

  /** "" is not numeric, and "0" denotes zero. */
  lemma ZeroTexts()
    ensures ParseNumeric("") == None && LeadingInt("") == 0
    ensures ParseNumeric("0").Some? && Scaled(ParseNumeric("0").value) == (0, 0)
  {
    assert IntToString(0) == "0";
    IntToStringNumeric(0);
    ScaledInt(0);
  }

  /** An expires_in sent as the text of an integer casts to that integer. */
  lemma IntCastOfText(i: int)
    ensures IntCast(Str(IntToString(i))) == i
  {
    var t := IntToString(i);
    IntToStringNumeric(i);
    ScaledInt(i);
    assert StrCast(t) == IntCast(Float(i, 0));
    assert IntCast(Str(t)) == StrCast(t);
  }

  /** max(60, min($expires_in, 3 * DAY_IN_SECONDS)) */
  function Lifetime(expiresIn: int): (r: int)
    ensures MinLifetime <= r <= MaxLifetime
    ensures MinLifetime <= expiresIn <= MaxLifetime ==> r == expiresIn
    ensures expiresIn < MinLifetime ==> r == MinLifetime
    ensures expiresIn > MaxLifetime ==> r == MaxLifetime
  {
    var capped := if expiresIn < MaxLifetime then expiresIn else MaxLifetime;
    if capped > MinLifetime then capped else MinLifetime
  }

  // ---------------------------------------------------------------------
  // The slots and the login

  datatype Slots = Slots(token: Option<Value>, expiry: Option<int>)

  const Cleared := Slots(None, None)

  /** The stored token may be used at time now. */
  predicate Fresh(s: Slots, now: int)
    // with a truthy token and a positive expiry, it is usable until 60
    // seconds before that expiry
    ensures s.token.Some? && Truthy(s.token.value) && s.expiry.Some? && s.expiry.value > 0 ==>
              (Fresh(s, now) <==> now < s.expiry.value - Buffer)
  {
    s.token.Some? && Truthy(s.token.value)
    && s.expiry.Some? && s.expiry.value != 0 && s.expiry.value > now + Buffer
  }

  /** The login request: its URL and the credentials in its JSON body. */
  datatype LoginRequest = LoginRequest(url: string, email: string, password: string)

  /** What the login call gave back: a transport failure, or a status code
      with the decoded body (null when the body is not JSON). */
  datatype LoginResponse = LoginTransportError | LoginReply(code: int, data: Value)

  /** Everything a token request does: the slots afterwards, the token or
      false, and the login request sent, if any. */
  datatype TokenStep = TokenStep(slots: Slots, result: Value, request: Option<LoginRequest>)

  /** The login request, when the configuration allows one. */
  function LoginRequestFor(c: Config): (r: Option<LoginRequest>)
    ensures r.Some? <==> Configured(c.baseUrl) && Configured(c.loginEndpoint)
                         && Configured(c.username) && Configured(c.password)
    ensures r.Some? ==> r.value.url == JoinUrl(c.baseUrl.value, c.loginEndpoint.value)
  {
    if !Configured(c.baseUrl) || !Configured(c.loginEndpoint) then None
    else if !Configured(c.username) || !Configured(c.password) then None
    else Some(LoginRequest(JoinUrl(c.baseUrl.value, c.loginEndpoint.value),
                           c.username.value, c.password.value))
  }

  /** A login reply that grants a token: status 200 with both fields set. */
  predicate Grants(reply: LoginResponse)
    // a granting reply's body decoded to a JSON object
    ensures Grants(reply) ==> reply.LoginReply? && reply.code == 200 && reply.data.Arr?
  {
    reply.LoginReply? && reply.code == 200
    && At(reply.data, ["token"]) != Null && At(reply.data, ["expires_in"]) != Null
  }

  /** mfla_login_to_laravel_api, as a function of the slots before. */
  function AfterLogin(c: Config, s: Slots, now: int, reply: LoginResponse): (r: TokenStep)
    // the request sent is the one the configuration allows, and the slots
    // change only when that request was sent and answered
    ensures r.request == LoginRequestFor(c)
    ensures r.slots != s ==> r.request.Some? && reply.LoginReply?
  {
    Settled(LoginRequestFor(c), s, now, reply)
  }

  /** The login once its request is known (None: not attempted). */
  function Settled(request: Option<LoginRequest>, s: Slots, now: int, reply: LoginResponse): (r: TokenStep)
    // the slots change only on an answer to a request sent, and a token
    // handed out is the one now stored
    ensures r.request == request
    ensures r.slots != s ==> request.Some? && reply.LoginReply?
    ensures r.result != Bool(false) ==> r.slots.token == Some(r.result)
  {
    if request.None? || reply.LoginTransportError? then TokenStep(s, Bool(false), request)
    else if Grants(reply) then
      var token := At(reply.data, ["token"]);
      var life := Lifetime(IntCast(At(reply.data, ["expires_in"])));
      TokenStep(Slots(Some(token), Some(now + life)), token, request)
    else TokenStep(Cleared, Bool(false), request)
  }

  /** mfla_get_laravel_api_token, as a function of the slots before. */
  function AfterGetToken(c: Config, s: Slots, now: int, reply: LoginResponse): (r: TokenStep)
    // a login is sent exactly when the cache is not fresh and the
    // configuration allows one; without it the slots stay as they were
    ensures r.request.Some? <==> !Fresh(s, now) && LoginRequestFor(c).Some?
    ensures r.request.Some? ==> r.request == LoginRequestFor(c)
    ensures r.request.None? ==> r.slots == s
  {
    if Fresh(s, now) then TokenStep(s, s.token.value, None)
    else AfterLogin(c, s, now, reply)
  }

  // ---------------------------------------------------------------------
  // The transients, updated in place

  class TokenStore {
    var token: Option<Value>
    var expiry: Option<int>

    function State(): Slots
      reads this
    {
      Slots(token, expiry)
    }

    constructor (s: Slots)
      ensures State() == s
    {
      token := s.token;
      expiry := s.expiry;
    }

    /** Both set_transient calls: the token and its expiry timestamp. */
    method Store(newToken: Value, newExpiry: int)
      modifies this
      ensures State() == Slots(Some(newToken), Some(newExpiry))
    {
      token := Some(newToken);
      expiry := Some(newExpiry);
    }

    /** delete_transient on both slots. */
    method Invalidate()
      modifies this
      ensures State() == Cleared
    {
      token := None;
      expiry := None;
    }

    method Login(c: Config, now: int, reply: LoginResponse)
        returns (result: Value, request: Option<LoginRequest>)
      modifies this
      ensures TokenStep(State(), result, request) == AfterLogin(c, old(State()), now, reply)
    {
      request := LoginRequestFor(c);
      if request.None? || reply.LoginTransportError? {
        FailureKeepsSlots(c, State(), now, reply);
        return Bool(false), request;
      }
      result := Settle(request, now, reply);
    }

    /** The login reply decides: store the granted token, or clear both
        slots. */
    method Settle(ghost request: Option<LoginRequest>, now: int, reply: LoginResponse) returns (result: Value)
      requires request.Some? && reply.LoginReply?
      modifies this
      ensures TokenStep(State(), result, request) == Settled(request, old(State()), now, reply)
    {
      var data := reply.data;
      if reply.code == 200 && At(data, ["token"]) != Null && At(data, ["expires_in"]) != Null {
        result := Grant(request, now, reply);
      } else {
        ghost var before := State();
        RefusalClears(request, before, now, reply);
        Invalidate();
        result := Bool(false);
      }
    }

    /** A granting reply: the token is stored with now plus its lifetime,
        (int) of expires_in clamped to [1 minute, 3 days], and returned. */
    method Grant(ghost request: Option<LoginRequest>, now: int, reply: LoginResponse) returns (result: Value)
      requires request.Some? && Grants(reply)
      modifies this
      ensures TokenStep(State(), result, request) == Settled(request, old(State()), now, reply)
    {
      ghost var expected := Settled(request, State(), now, reply);
      GrantedStep(request, State(), now, reply);
      var newToken := At(reply.data, ["token"]);
      var expiresIn := IntCast(At(reply.data, ["expires_in"]));
      expiresIn := Lifetime(expiresIn);
      assert expected == TokenStep(Slots(Some(newToken), Some(now + expiresIn)), newToken, request);
      Store(newToken, now + expiresIn);
      result := newToken;
    }

    method GetToken(c: Config, now: int, reply: LoginResponse)
        returns (result: Value, request: Option<LoginRequest>)
      modifies this
      ensures TokenStep(State(), result, request) == AfterGetToken(c, old(State()), now, reply)
    {
      var t := token;
      var e := expiry;
      if t.Some? && Truthy(t.value) && e.Some? && e.value != 0 && e.value > now + Buffer {
        return t.value, None;
      }
      result, request := Login(c, now, reply);
    }
  }

  // ---------------------------------------------------------------------
  // Properties

  /** A login is requested whenever the configuration allows one. */
  lemma LoginRequested(c: Config, s: Slots, now: int, reply: LoginResponse)
    ensures AfterLogin(c, s, now, reply).request == LoginRequestFor(c)
  {
  }

  /** The cached token is used, with no login, exactly when it is fresh. */
  lemma ReusedExactlyWhenFresh(c: Config, s: Slots, now: int, reply: LoginResponse)
    requires LoginRequestFor(c).Some?
    ensures var r := AfterGetToken(c, s, now, reply);
      (r.request.None? <==> Fresh(s, now))
      && (Fresh(s, now) ==> r.slots == s && r.result == s.token.value)
  {
    LoginRequested(c, s, now, reply);
  }

  /** The step a granted login takes. */
  lemma GrantedStep(request: Option<LoginRequest>, s: Slots, now: int, reply: LoginResponse)
    requires request.Some? && Grants(reply)
    ensures var token := At(reply.data, ["token"]);
      Settled(request, s, now, reply)
        == TokenStep(Slots(Some(token), Some(now + Lifetime(IntCast(At(reply.data, ["expires_in"]))))),
                     token, request)
  {
    var token := At(reply.data, ["token"]);
    var life := Lifetime(IntCast(At(reply.data, ["expires_in"])));
    assert Settled(request, s, now, reply) == TokenStep(Slots(Some(token), Some(now + life)), token, request);
  }

  /** A granted login stores the token, returns it, and sets an expiry
      between one minute and three days ahead. */
  lemma GrantStores(c: Config, s: Slots, now: int, reply: LoginResponse)
    requires LoginRequestFor(c).Some? && Grants(reply)
    ensures var r := AfterLogin(c, s, now, reply);
      r.slots.token == Some(r.result) && r.result == At(reply.data, ["token"])
      && r.slots.expiry.Some?
      && now + MinLifetime <= r.slots.expiry.value <= now + MaxLifetime
  {
  }

  /** A reply that does not grant a token clears both slots and gives false. */
  lemma RefusalClears(request: Option<LoginRequest>, s: Slots, now: int, reply: LoginResponse)
    requires request.Some? && reply.LoginReply? && !Grants(reply)
    ensures Settled(request, s, now, reply) == TokenStep(Cleared, Bool(false), request)
  {
  }

  /** A login that is not attempted, or fails in transport, gives false and
      leaves both slots as they were. */
  lemma FailureKeepsSlots(c: Config, s: Slots, now: int, reply: LoginResponse)
    requires LoginRequestFor(c).None? || reply.LoginTransportError?
    ensures var r := AfterLogin(c, s, now, reply);
      r.slots == s && r.result == Bool(false)
  {
  }

  /** The transients change only when a login request was sent. */
  lemma SlotsChangeOnlyByLogin(c: Config, s: Slots, now: int, reply: LoginResponse)
    ensures var t := AfterGetToken(c, s, now, reply);
      t.slots != s ==> t.request.Some?
  {
  }

  /** Whatever happens, a truthy token handed out is the one in the slots. */
  lemma TokenHandedOutIsStored(c: Config, s: Slots, now: int, reply: LoginResponse)
    ensures var r := AfterGetToken(c, s, now, reply);
      Truthy(r.result) ==> r.slots.token == Some(r.result)
  {
  }

  /** A token just granted with lifetime L is reused at time t exactly when
      t < now + L - 60 (the token itself being truthy). In particular a
      token granted with expires_in of 60 seconds or less is never reused. */
  lemma ReuseWindow(c: Config, s: Slots, now: int, reply: LoginResponse, t: int)
    requires LoginRequestFor(c).Some? && Grants(reply) && now >= 0
    requires Truthy(At(reply.data, ["token"]))
    ensures var r := AfterLogin(c, s, now, reply);
      var life := Lifetime(IntCast(At(reply.data, ["expires_in"])));
      (Fresh(r.slots, t) <==> t < now + life - Buffer)
      && (life == MinLifetime ==> (Fresh(r.slots, t) <==> t < now))
  {
  }
}
