/**
  The scheduled action that relays one submission: check the configuration
  and the data, obtain a token, map and prune the payload, check the NID and
  the payload, post it to the create endpoint, and settle the action by the
  reply. Returning ends the action; throwing makes Action Scheduler record a
  failure (and possibly run it again). A 401 reply also clears the cached
  token.
 */
module Relay {
  import opened Options
  import opened Values
  import opened Transformers
  import opened FieldAccess
  import opened Pruning
  import opened Mapping
  import opened Checks
  import opened Delivery
  import opened Tokens

  /** The create request: URL, bearer token and the pruned payload. */
  datatype Request = Request(url: string, bearer: Value, payload: Value)

  datatype Ending = Returned | Threw

  /** Everything one run does: the token slots afterwards, the login
      request and the create request sent (if any), and how the run ended. */
  datatype RelayStep = RelayStep(slots: Slots, login: Option<LoginRequest>,
                                 sent: Option<Request>, ending: Ending)

  /** The run after the token was obtained: pruned payload, the two guards,
      the call and its verdict. */
  function AfterToken(c: Config, t: TokenStep, p: Value, reply: Response): (r: RelayStep)
    requires Configured(c.baseUrl) && Configured(c.createEndpoint)
    ensures r.sent.Some? ==> r.sent.value == Request(JoinUrl(c.baseUrl.value, c.createEndpoint.value), t.result, p)
    ensures r.login == t.request
  {
    if !Truthy(t.result) then RelayStep(t.slots, t.request, None, Threw)
    else if NidMissing(p) || EffectivelyEmpty(p) then RelayStep(t.slots, t.request, None, Returned)
    else
      var request := Request(JoinUrl(c.baseUrl.value, c.createEndpoint.value), t.result, p);
      var verdict := Classify(reply);
      RelayStep(if verdict == Unauthorized then Cleared else t.slots, t.request, Some(request),
                if Throws(verdict) then Threw else Returned)
  }

  /** mfla_process_action_scheduler_submission, as a function of the token
      slots before the run. */
  function AfterRelay(c: Config, s: Slots, data: seq<Field>, san: Sanitizers, now: int,
                      loginReply: LoginResponse, reply: Response): (r: RelayStep)
    // what is posted is the pruned payload, past the NID guard, with a truthy bearer
    ensures r.sent.Some? ==>
              r.sent.value.payload == Prune(Payload(data, san)) && !NidMissing(r.sent.value.payload)
              && Truthy(r.sent.value.bearer)
    // the transients change only when a login or a post was made
    ensures r.slots != s ==> r.login.Some? || r.sent.Some?
  {
    if !Configured(c.baseUrl) || !Configured(c.createEndpoint) || data == [] then
      RelayStep(s, None, None, Returned)
    else
      var t := AfterGetToken(c, s, now, loginReply);
      var p := Prune(Payload(data, san));
      AfterTokenGuarded(c, t, p, reply);
      AfterTokenSlots(c, t, p, reply);
      SlotsChangeOnlyByLogin(c, s, now, loginReply);
      AfterToken(c, t, p, reply)
  }

  method ProcessSubmission(store: TokenStore, c: Config, data: seq<Field>, san: Sanitizers, now: int,
                           loginReply: LoginResponse, reply: Response)
      returns (login: Option<LoginRequest>, sent: Option<Request>, ending: Ending)
    modifies store
    ensures RelayStep(store.State(), login, sent, ending)
              == AfterRelay(c, old(store.State()), data, san, now, loginReply, reply)
  {
    login, sent := None, None;
    if !Configured(c.baseUrl) || !Configured(c.createEndpoint) {
      return login, sent, Returned;
    }
    if data == [] {
      return login, sent, Returned;
    }
    ghost var before := store.State();
    var token;
    token, login := store.GetToken(c, now, loginReply);
    ghost var t := TokenStep(store.State(), token, login);
    assert t == AfterGetToken(c, before, now, loginReply);
    if !Truthy(token) {
      return login, sent, Threw;
    }
    sent, ending := MapAndSend(store, c, data, san, t, token, reply);
  }

  /** With a truthy token: map and prune the payload, then send it. */
  method MapAndSend(store: TokenStore, c: Config, data: seq<Field>, san: Sanitizers,
                    ghost t: TokenStep, token: Value, reply: Response)
      returns (sent: Option<Request>, ending: Ending)
    requires Configured(c.baseUrl) && Configured(c.createEndpoint)
    requires t.slots == store.State() && t.result == token && Truthy(token)
    modifies store
    ensures RelayStep(store.State(), t.request, sent, ending)
              == AfterToken(c, t, Prune(Payload(data, san)), reply)
  {
    var payload := MapSubmission(data, san);
    payload := Prune(payload);
    sent, ending := Send(store, c, t, token, payload, reply);
  }

  /** The guards, the call and the verdict, for a truthy token. */
  method Send(store: TokenStore, c: Config, ghost t: TokenStep, token: Value, payload: Value,
              reply: Response)
      returns (sent: Option<Request>, ending: Ending)
    requires Configured(c.baseUrl) && Configured(c.createEndpoint)
    requires t.slots == store.State() && t.result == token && Truthy(token)
    modifies store
    ensures RelayStep(store.State(), t.request, sent, ending) == AfterToken(c, t, payload, reply)
  {
    sent := None;
    if NidMissing(payload) {
      return sent, Returned;
    }
    if EffectivelyEmpty(payload) {
      return sent, Returned;
    }
    var url := JoinUrl(c.baseUrl.value, c.createEndpoint.value);
    sent := Some(Request(url, token, payload));
    ending := Settle(store, reply);
  }

  /** The verdict on the reply: a 401 clears the cached token; a 401, a
      transport error and any status other than 2xx and 422 throw. */
  method Settle(store: TokenStore, reply: Response) returns (ending: Ending)
    modifies store
    ensures store.State() == (if Classify(reply) == Unauthorized then Cleared else old(store.State()))
    ensures ending == (if Throws(Classify(reply)) then Threw else Returned)
  {
    var verdict := Classify(reply);
    if verdict == Delivered {
      ending := Returned;
    } else if verdict == Unauthorized {
      store.Invalidate();
      ending := Threw;
    } else if verdict == Unprocessable {
      ending := Returned;
    } else {
      ending := Threw;
    }
  }

  // ---------------------------------------------------------------------
  // Properties

  /** The relay reaches the token step. */
  predicate Attempted(c: Config, data: seq<Field>) {
    Configured(c.baseUrl) && Configured(c.createEndpoint) && data != []
  }

  /** A payload is posted exactly when the run is attempted, a truthy token
      is obtained and the cedula leaves a NID other than "" and "0"; what
      is posted is the pruned payload, with the token, to the joined URL. */
  lemma SentExactly(c: Config, s: Slots, data: seq<Field>, san: Sanitizers, now: int,
                    loginReply: LoginResponse, reply: Response)
    ensures var r := AfterRelay(c, s, data, san, now, loginReply, reply);
      var t := AfterGetToken(c, s, now, loginReply);
      var raw := Lookup(data, "cedula");
      (r.sent.Some? <==>
         Attempted(c, data) && Truthy(t.result)
         && !(Blank(raw) || DigitsOnly(raw) in {"", "0"}))
      && (r.sent.Some? ==>
            r.sent.value == Request(JoinUrl(c.baseUrl.value, c.createEndpoint.value),
                                    t.result, Prune(Payload(data, san))))
  {
    if Attempted(c, data) {
      NidGuard(data, san);
      SubmissionNeverEffectivelyEmpty(data, san);
    }
  }

  /** After the token step: an exception exactly when the token is falsy
      or the posted payload's reply throws. */
  lemma AfterTokenThrows(c: Config, t: TokenStep, p: Value, reply: Response)
    requires Configured(c.baseUrl) && Configured(c.createEndpoint)
    ensures var r := AfterToken(c, t, p, reply);
      r.ending == Threw <==> !Truthy(t.result) || (r.sent.Some? && Throws(Classify(reply)))
  {
  }

  /** The run throws exactly when a token cannot be obtained, or when the
      payload is posted and the reply is a transport error or a status
      other than 2xx and 422. */
  lemma ThrowsExactlyWhen(c: Config, s: Slots, data: seq<Field>, san: Sanitizers, now: int,
                          loginReply: LoginResponse, reply: Response)
    ensures var r := AfterRelay(c, s, data, san, now, loginReply, reply);
      var t := AfterGetToken(c, s, now, loginReply);
      r.ending == Threw <==>
        Attempted(c, data) && (!Truthy(t.result) || (r.sent.Some? && Throws(Classify(reply))))
  {
    if Attempted(c, data) {
      AfterTokenThrows(c, AfterGetToken(c, s, now, loginReply), Prune(Payload(data, san)), reply);
    }
  }

  /** After the token step: only a posted payload answered with 401 clears
      the slots. */
  lemma AfterTokenSlots(c: Config, t: TokenStep, p: Value, reply: Response)
    requires Configured(c.baseUrl) && Configured(c.createEndpoint)
    ensures var r := AfterToken(c, t, p, reply);
      r.slots == (if r.sent.Some? && reply.Reply? && reply.code == 401 then Cleared else t.slots)
  {
    UnauthorizedExactly(reply);
  }

  /** A posted payload answered with 401 clears both token slots; any other
      run leaves the slots as the token step left them. */
  lemma UnauthorizedClearsToken(c: Config, s: Slots, data: seq<Field>, san: Sanitizers, now: int,
                                loginReply: LoginResponse, reply: Response)
    requires Attempted(c, data)
    ensures var r := AfterRelay(c, s, data, san, now, loginReply, reply);
      var t := AfterGetToken(c, s, now, loginReply);
      r.slots == (if r.sent.Some? && reply.Reply? && reply.code == 401 then Cleared else t.slots)
  {
    AfterTokenSlots(c, AfterGetToken(c, s, now, loginReply), Prune(Payload(data, san)), reply);
  }

  /** After the token step: what is posted passed the NID guard. */
  lemma AfterTokenGuarded(c: Config, t: TokenStep, p: Value, reply: Response)
    requires Configured(c.baseUrl) && Configured(c.createEndpoint)
    ensures var r := AfterToken(c, t, p, reply);
      r.sent.Some? ==> r.sent.value.payload == p && !NidMissing(p) && Truthy(r.sent.value.bearer)
  {
  }

  /** A posted payload never lacks its NID, always carries terms, and goes
      with a truthy bearer token. */
  lemma SentPayloadShape(c: Config, s: Slots, data: seq<Field>, san: Sanitizers, now: int,
                         loginReply: LoginResponse, reply: Response)
    ensures var r := AfterRelay(c, s, data, san, now, loginReply, reply);
      r.sent.Some? ==>
        !NidMissing(r.sent.value.payload) && At(r.sent.value.payload, ["terms"]).Bool?
        && Truthy(r.sent.value.bearer)
  {
    if Attempted(c, data) {
      AfterTokenGuarded(c, AfterGetToken(c, s, now, loginReply), Prune(Payload(data, san)), reply);
      TermsAlwaysSent(data, san);
    }
  }
}
