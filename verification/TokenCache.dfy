/** The cache of identity/token_manager.py: reuse of one access token until thirty seconds before
    its recorded expiry. Tokens are granted as in section 2.1 of RFC 7523; times are in seconds. */
module TokenCache {
  import opened Text

  const MARGIN := 30.0

  /** An empty token counts as none. */
  datatype Cache = Cache(token: string, expiresAt: real)

  /** The token endpoint issues a token at some moment, or the acquisition raises. */
  datatype Reply = Issued(token: string, at: real) | Failed

  /** One `get_token` call: the clock when it starts, and when an acquisition has come back. */
  datatype Call = Call(now: real, reply: Reply, done: real)

  predicate Serves(c: Cache, now: real) {
    c.token != "" && now < c.expiresAt - MARGIN
  }

  function After(c: Cache, q: Call, ttl: real): Cache {
    if Serves(c, q.now) || q.reply.Failed? then c else Cache(q.reply.token, q.done + ttl)
  }

  function Answer(c: Cache, q: Call): Option<string> {
    if Serves(c, q.now) then Some(c.token) else if q.reply.Failed? then None else Some(q.reply.token)
  }

  class TokenManager {
    const ttl: real
    var cachedToken: string
    var tokenExpiresAt: real

    constructor (ttl: real)
      ensures this.ttl == ttl && cachedToken == "" && tokenExpiresAt == 0.0
    {
      this.ttl, cachedToken, tokenExpiresAt := ttl, "", 0.0;
    }

    /** No answer stands for the exception of a failed acquisition, which changes nothing. */
    method GetToken(q: Call) returns (token: Option<string>)
      modifies this
      ensures Cache(cachedToken, tokenExpiresAt) == After(old(Cache(cachedToken, tokenExpiresAt)), q, ttl)
      ensures token == Answer(old(Cache(cachedToken, tokenExpiresAt)), q)
      ensures token == None ==> cachedToken == old(cachedToken) && tokenExpiresAt == old(tokenExpiresAt)
      ensures token == None <==>
        q.reply.Failed? && !(old(cachedToken) != "" && q.now < old(tokenExpiresAt) - 30.0)
    {
      if cachedToken != "" && q.now < tokenExpiresAt - MARGIN {
        return Some(cachedToken);
      }
      match q.reply
      case Failed => return None;
      case Issued(t, _) =>
        cachedToken, tokenExpiresAt := t, q.done + ttl;
        return Some(t);
    }
  }

  // ------------------------------------------------------------------------ runs

  /** The cache, with the acquisition it came from. */
  datatype State = State(cache: Cache, source: Call)

  function Run(calls: seq<Call>, ttl: real): State {
    if calls == [] then State(Cache("", 0.0), Call(0.0, Failed, 0.0))
    else
      var s, q := Run(calls[..|calls| - 1], ttl), calls[|calls| - 1];
      State(After(s.cache, q, ttl), if Acquires(s, q) then q else s.source)
  }

  predicate Acquires(s: State, q: Call) {
    !Serves(s.cache, q.now) && q.reply.Issued?
  }

  /** The answer comes back soon enough for the margin: `lifetime` is the server's, `ttl` the
      configured one. */
  predicate Timely(q: Call, ttl: real, lifetime: real) {
    q.reply.Issued? ==> q.done - q.reply.at <= MARGIN + lifetime - ttl && q.done - q.reply.at < lifetime
  }

  /** The cache is what the last acquisition left. */
  lemma {:induction false} CacheHasSource(calls: seq<Call>, ttl: real)
    ensures var s := Run(calls, ttl);
      && (s.source.reply.Issued? ==>
            s.source in calls && s.cache == Cache(s.source.reply.token, s.source.done + ttl))
      && (s.source.reply.Failed? ==> s.cache.token == "")
  {
    if calls != [] {
      CacheHasSource(calls[..|calls| - 1], ttl);
    }
  }

  /** In any sequence of timely calls, whatever the clock does in between, whatever token is handed out
      has not expired at the server: it is the one the last acquisition brought, at the time of the
      call, or a new one at the time it arrives. */
  lemma NoExpiredTokenIsReturned(calls: seq<Call>, q: Call, ttl: real, lifetime: real, t: string)
    requires Timely(q, ttl, lifetime) && forall c | c in calls :: Timely(c, ttl, lifetime)
    requires Answer(Run(calls, ttl).cache, q) == Some(t)
    ensures var held := Run(calls, ttl).source.reply;
      || (held.Issued? && held.token == t && q.now < held.at + lifetime)
      || (q.reply.Issued? && q.reply.token == t && q.done < q.reply.at + lifetime)
  {
    CacheHasSource(calls, ttl);
  }

  /** When there is an answer, and which: the held token exactly while more than 30 s are left to its
      recorded expiry, otherwise what the acquisition brings, and nothing if that fails. */
  lemma AnswerTells(calls: seq<Call>, q: Call, ttl: real)
    ensures var held := Run(calls, ttl).source;
      var usable := held.reply.Issued? && held.reply.token != "" && q.now < held.done + ttl - 30.0;
      && (Answer(Run(calls, ttl).cache, q) == None <==> !usable && q.reply.Failed?)
      && (usable ==> Answer(Run(calls, ttl).cache, q) == Some(held.reply.token))
      && (!usable && q.reply.Issued? ==> Answer(Run(calls, ttl).cache, q) == Some(q.reply.token))
      && Run(calls + [q], ttl).source == if !usable && q.reply.Issued? then q else held
  {
    CacheHasSource(calls, ttl);
    assert (calls + [q])[..|calls|] == calls;
  }

  /** The latency bound is exact: a cached token is safe to serve at every later moment if and only
      if the answer came back within it, or the cache is never used at all. */
  lemma LatencyBoundIsExact(c: Cache, at: real, done: real, ttl: real, lifetime: real)
    requires c.token != "" && c.expiresAt == done + ttl
    ensures (forall now | now >= done && Serves(c, now) :: now < at + lifetime)
       <==> (done - at <= 30.0 + lifetime - ttl || ttl <= 30.0)
  {
    if done - at > MARGIN + lifetime - ttl && ttl > MARGIN {
      var now := if done < at + lifetime then at + lifetime else done;
      assert now >= done && Serves(c, now) && !(now < at + lifetime);
    }
  }

  predicate InOrder(calls: seq<Call>) {
    && (forall i | 0 <= i < |calls| :: calls[i].now <= calls[i].done)
    && (forall i, j | 0 <= i < j < |calls| :: calls[i].done <= calls[j].now)
  }

  lemma {:induction false} LastAcquisition(calls: seq<Call>, ttl: real, i: nat)
    requires InOrder(calls) && i < |calls| && Acquires(Run(calls[..i], ttl), calls[i])
    requires forall k | 0 <= k < |calls| && calls[k].reply.Issued? :: calls[k].reply.token != ""
    ensures var s := Run(calls, ttl);
      s.cache.token != "" && s.cache.expiresAt >= calls[i].done + ttl
  {
    var n := |calls| - 1;
    if i < n {
      assert calls[..n][..i] == calls[..i];
      LastAcquisition(calls[..n], ttl, i);
      assert calls[i].done <= calls[n].now <= calls[n].done;
    }
  }

  /** On a clock that does not go back, successful acquisitions are at least `ttl - 30` apart. */
  lemma AcquisitionsAreSpaced(calls: seq<Call>, ttl: real, i: nat, j: nat)
    requires InOrder(calls) && i < j < |calls|
    requires forall k | 0 <= k < |calls| && calls[k].reply.Issued? :: calls[k].reply.token != ""
    requires Acquires(Run(calls[..i], ttl), calls[i]) && Acquires(Run(calls[..j], ttl), calls[j])
    ensures calls[j].now >= calls[i].done + ttl - 30.0
  {
    assert calls[..j][..i] == calls[..i];
    LastAcquisition(calls[..j], ttl, i);
  }
}
