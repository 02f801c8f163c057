/**
  The create call's two pure ends: the URL it is posted to, joined from the
  configured base URL and endpoint the way WordPress' trailingslashit and
  PHP's ltrim join them, and what each reply means for the scheduled action
  (complete, or fail by exception so that it is retried) and for the cached
  token.
 */
module Delivery {

  // ---------------------------------------------------------------------
  // URL joining

  predicate IsTrailingSlash(c: char) {
    c == '/' || c == '\\'
  }

  /** rtrim($s, '/\\') */
  function TrimTrailingSlashes(s: string): (r: string)
    ensures |r| <= |s| && r == s[..|r|]
    ensures r == [] || !IsTrailingSlash(r[|r| - 1])
    ensures forall i :: |r| <= i < |s| ==> IsTrailingSlash(s[i])
  {
    s[..SlashesBefore(s, |s|)]
  }

  /** Where the run of '/' and '\\' that ends at position j starts. */
  function SlashesBefore(s: string, j: nat): (i: nat)
    requires j <= |s|
    ensures i <= j
    ensures i == 0 || !IsTrailingSlash(s[i - 1])
    ensures forall k :: i <= k < j ==> IsTrailingSlash(s[k])
    decreases j
  {
    if j > 0 && IsTrailingSlash(s[j - 1]) then SlashesBefore(s, j - 1) else j
  }

  /** ltrim($s, '/') */
  function TrimLeadingSlashes(s: string): (r: string)
    ensures |r| <= |s| && r == s[|s| - |r|..]
    ensures r == [] || r[0] != '/'
    ensures forall i :: 0 <= i < |s| - |r| ==> s[i] == '/'
  {
    s[SlashesFrom(s, 0)..]
  }

  /** Where the run of '/' that starts at position i ends. */
  function SlashesFrom(s: string, i: nat): (j: nat)
    requires i <= |s|
    ensures i <= j <= |s|
    ensures j == |s| || s[j] != '/'
    ensures forall k :: i <= k < j ==> s[k] == '/'
    decreases |s| - i
  {
    if i < |s| && s[i] == '/' then SlashesFrom(s, i + 1) else i
  }

  /** trailingslashit($base) . ltrim($endpoint, '/'): the trimmed base and
      the trimmed endpoint meet at exactly one '/'. */
  function JoinUrl(base: string, endpoint: string): (r: string)
    ensures var b := TrimTrailingSlashes(base);
      |b| < |r| && r[|b|] == '/'
      && (|b| == 0 || !IsTrailingSlash(r[|b| - 1]))
      && (|b| + 1 == |r| || r[|b| + 1] != '/')
      && |r| == |b| + 1 + |TrimLeadingSlashes(endpoint)|
  {
    TrimTrailingSlashes(base) + "/" + TrimLeadingSlashes(endpoint)
  }

  /** Slashes already at the end of the base, or at the start of the
      endpoint, make no difference: the two parts meet at exactly one '/'. */
  lemma JoinUrlIgnoresExtraSlashes(base: string, endpoint: string)
    ensures JoinUrl(base + "/", endpoint) == JoinUrl(base, endpoint)
    ensures JoinUrl(base, "/" + endpoint) == JoinUrl(base, endpoint)
  {
    TrailingSlashAbsorbed(base);
    LeadingSlashAbsorbed(endpoint);
  }

  /** r is s without its trailing slashes. */
  predicate TrimmedTrailing(s: string, r: string) {
    |r| <= |s| && r == s[..|r|]
    && (r == [] || !IsTrailingSlash(r[|r| - 1]))
    && (forall i :: |r| <= i < |s| ==> IsTrailingSlash(s[i]))
  }

  /** r is s without its leading slashes. */
  predicate TrimmedLeading(s: string, r: string) {
    |r| <= |s| && r == s[|s| - |r|..]
    && (r == [] || r[0] != '/')
    && (forall i :: 0 <= i < |s| - |r| ==> s[i] == '/')
  }

  lemma TrimmedTrailingUnique(s: string, r1: string, r2: string)
    requires TrimmedTrailing(s, r1) && TrimmedTrailing(s, r2)
    ensures r1 == r2
  {
    TrimmedTrailingShorter(s, r1, r2);
    TrimmedTrailingShorter(s, r2, r1);
  }

  /** The last character kept is not a slash, and everything after the
      other trimmed prefix is one. */
  lemma TrimmedTrailingShorter(s: string, r1: string, r2: string)
    requires TrimmedTrailing(s, r1) && TrimmedTrailing(s, r2)
    ensures |r1| <= |r2|
  {
    if r1 != [] {
      assert r1[|r1| - 1] == s[|r1| - 1];
    }
  }

  lemma TrimmedLeadingUnique(s: string, r1: string, r2: string)
    requires TrimmedLeading(s, r1) && TrimmedLeading(s, r2)
    ensures r1 == r2
  {
    TrimmedLeadingShorter(s, r1, r2);
    TrimmedLeadingShorter(s, r2, r1);
  }

  /** The first character kept is not a slash, and everything before the
      other trimmed suffix is one. */
  lemma TrimmedLeadingShorter(s: string, r1: string, r2: string)
    requires TrimmedLeading(s, r1) && TrimmedLeading(s, r2)
    ensures |r1| <= |r2|
  {
    if r1 != [] {
      assert r1[0] == s[|s| - |r1|];
    }
  }

  lemma TrailingSlashAbsorbed(base: string)
    ensures TrimTrailingSlashes(base + "/") == TrimTrailingSlashes(base)
  {
    var b := base + "/";
    var r := TrimTrailingSlashes(base);
    assert r == b[..|r|] by {
      assert b[..|base|] == base;
    }
    assert forall i :: |r| <= i < |b| ==> IsTrailingSlash(b[i]) by {
      forall i | |r| <= i < |b| ensures IsTrailingSlash(b[i]) {
        if i < |base| {
          assert b[i] == base[i];
        }
      }
    }
    TrimmedTrailingUnique(b, TrimTrailingSlashes(b), r);
  }

  lemma LeadingSlashAbsorbed(endpoint: string)
    ensures TrimLeadingSlashes("/" + endpoint) == TrimLeadingSlashes(endpoint)
  {
    var e := "/" + endpoint;
    var r := TrimLeadingSlashes(endpoint);
    assert r == e[|e| - |r|..] by {
      assert e[1..] == endpoint;
    }
    assert forall i :: 0 <= i < |e| - |r| ==> e[i] == '/' by {
      forall i | 0 <= i < |e| - |r| ensures e[i] == '/' {
        if i > 0 {
          assert e[i] == endpoint[i - 1];
        }
      }
    }
    TrimmedLeadingUnique(e, TrimLeadingSlashes(e), r);
  }

  /** Joining a base that does not end in a slash with an endpoint that does
      not start with one just puts a '/' between them. */
  lemma JoinUrlPlain(base: string, endpoint: string)
    requires base == [] || !IsTrailingSlash(base[|base| - 1])
    requires endpoint == [] || endpoint[0] != '/'
    ensures JoinUrl(base, endpoint) == base + "/" + endpoint
  {
  }

  // ---------------------------------------------------------------------
  // Reply classification

  /** What wp_remote_post gave back: a transport failure (WP_Error) or a
      reply with its status code and body. */
  datatype Response = TransportError(message: string) | Reply(code: int, body: string)

  /** How the scheduled action ends after the call. */
  datatype Verdict =
    | Delivered      // 2xx: success
    | Unprocessable  // 422: validation error, logged, not retried
    | Unauthorized   // 401: token invalidated, exception thrown
    | Failed         // transport error or any other status: exception thrown

  function Classify(r: Response): (v: Verdict)
    ensures v == Delivered ==> r.Reply? && 200 <= r.code < 300
    ensures v == Unauthorized ==> r.Reply? && r.code == 401
    ensures v == Unprocessable ==> r.Reply? && r.code == 422
  {
    match r
    case TransportError(_) => Failed
    case Reply(code, _) =>
      if 200 <= code < 300 then Delivered
      else if code == 401 then Unauthorized
      else if code == 422 then Unprocessable
      else Failed
  }

  /** An exception is thrown, so that Action Scheduler marks the action
      failed and may run it again. */
  predicate Throws(v: Verdict) {
    v == Unauthorized || v == Failed
  }

  /** The call throws exactly on a transport error and on every status that
      is neither 2xx nor 422. */
  lemma ThrowsExactly(r: Response)
    ensures Throws(Classify(r)) <==>
              r.TransportError? || !(200 <= r.code < 300 || r.code == 422)
  {
  }

  /** Only a 401 reply invalidates the cached token. */
  lemma UnauthorizedExactly(r: Response)
    ensures Classify(r) == Unauthorized <==> r.Reply? && r.code == 401
  {
  }

  /** Every 2xx status is a success, and nothing else is. */
  lemma DeliveredExactly(r: Response)
    ensures Classify(r) == Delivered <==> r.Reply? && 200 <= r.code < 300
  {
  }
}
