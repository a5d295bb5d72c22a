/**
 * The cache-fill protocol with the proxy's own key and policy, and what it guarantees about the
 * entries the cache may hold.
 */
module Handler {
  import opened Strings
  import opened Http
  import opened Policy
  import CacheKey
  import Path
  import Query
  import CacheFill
  import CacheFillAnswers
  import CacheFillPurge
  import CacheFillTheorems
  import CacheFillWitness
  import L = Lru

  /** `handleWithCache`'s first test; the header is the mark the WAF leaves, under its canonical name. */
  predicate BypassesCache(policy: Policy, req: Request) {
    !Cacheable(policy, req) || HeaderGet(req.headers, "X-Openflare-No-Cache") == "1"
  }

  function AcceptOf(req: Request): string {
    HeaderGet(req.headers, "Accept-Encoding")
  }

  function KeyOf(req: Request): string {
    CacheKey.CacheKey(req.verb, req.host, req.path, req.query, AcceptOf(req))
  }

  /** The parts the key is printed from. */
  function PartsOf(req: Request): (parts: CacheKey.Parts)
    ensures CacheKey.KeyFrom(parts) == KeyOf(req)
  {
    CacheKey.Parts(CacheKey.KeyMethod(req.verb), ToLower(req.host), Path.Normal(req.path), Query.Canonical(req.query),
                   CacheKey.AcceptEncoding(AcceptOf(req)))
  }

  function Configured(policy: Policy): CacheFill.Rules {
    CacheFill.Rules(
      req => BypassesCache(policy, req),
      KeyOf,
      (status, headers) => Storable(policy, status, headers),
      (path, headers) => TtlOf(policy, path, headers))
  }

  /**
   * Whatever the policy, every entry the cache ever holds answers a cacheable request with the
   * entry's key: a 2xx that a proper reading of `Cache-Control` allows to store and that sets no cookie
   * if that counts, with the lifetime of the request's path, and a key that starts with `GET|`. The
   * request carries no header that the policy keeps out.
   */
  lemma {:induction false} CachedIsPublic(policy: Policy, s: CacheFill.State, key: string, entry: L.Entry) returns (req: Request)
    requires CacheFill.Reachable(Configured(policy), s)
    requires L.Find(s.cache.items, key) == Some(entry)
    ensures KeyOf(req) == key && Cacheable(policy, req)
    ensures "GET|" <= key
    ensures 200 <= entry.status < 300
    ensures forall name <- ["no-store", "private", "no-cache"] :: !HasDirective(entry.headers, name)
    ensures entry.ttl == TtlOf(policy, req.path, entry.headers)
    ensures policy.neverStoreOnSetCookie ==> HeaderGet(entry.headers, "Set-Cookie") == ""
    ensures req.verb in ["GET", "HEAD"]
    ensures policy.bypassOnAuthorization ==> HeaderGet(req.headers, "Authorization") == ""
    ensures policy.bypassOnCookie ==> HeaderGet(req.headers, "Cookie") == ""
  {
    var j, request, origin, replied := CacheFillTheorems.CachedFromOrigin(Configured(policy), s, key, entry);
    req := request;
    StorableIsSafe(policy, origin.status, origin.headers);
    StorableIff(policy, origin.status, origin.headers);
    CacheableIff(policy, req);
    CacheKey.HandlerKey(req.verb, req.host, req.path, req.query, HeaderGet(req.headers, "Accept-Encoding"));
  }

  /**
   * In every reachable state a request has been answered without the cache exactly if it is no GET or
   * HEAD, carries a header that the policy keeps out or the mark of the WAF, or its first matching
   * rule does not let it.
   */
  lemma BypassedIff(policy: Policy, s: CacheFill.State, id: nat)
    requires CacheFill.Reachable(Configured(policy), s) && id in s.procs && s.procs[id].stage.Done?
    ensures var req := s.procs[id].req;
      s.procs[id].stage.response.Bypassed? <==>
        || req.verb !in ["GET", "HEAD"] || CarriesSecret(policy, req)
        || HeaderGet(req.headers, "X-Openflare-No-Cache") == "1"
        || exists i: nat :: MatchesFirst(policy.rules, i, req) && !policy.rules[i].eligible
  {
    CacheFillAnswers.BypassedIff(Configured(policy), s, id);
    CacheableIff(policy, s.procs[id].req);
  }

  /**
   * And every answer of the origin that is a 2xx, mentions none of the words and sets no cookie, if
   * that counts, has been stored when its request is answered.
   */
  lemma PublicIsCached(policy: Policy, s: CacheFill.State, id: nat, req: Request, origin: CacheFill.Origin, at: int)
    requires CacheFill.Reachable(Configured(policy), s) && CacheFill.Replied(id, req, origin, at) in s.log
    requires origin.Reply? && 200 <= origin.status <= 299
    requires forall word <- FORBIDDEN :: !Mentions(HeaderGet(origin.headers, "Cache-Control"), word)
    requires policy.neverStoreOnSetCookie ==> HeaderGet(origin.headers, "Set-Cookie") == ""
    requires id in s.procs && s.procs[id].stage.Done?
    ensures CacheFillAnswers.HasStored(s.log, id, KeyOf(req))
  {
    StorableIff(policy, origin.status, origin.headers);
    CacheFillAnswers.StorableIsStored(Configured(policy), s, id, req, origin, at);
  }

  // ----- HEAD and GET

  /** HEAD and GET of one resource share a key, though the origin is asked with the request's own method. */
  lemma {:induction false} HeadSharesKeyWithGet(req: Request)
    ensures KeyOf(req.(verb := "HEAD")) == KeyOf(req.(verb := "GET"))
  {
    CacheKey.KeyMethodGet("HEAD");
    CacheKey.KeyMethodGet("GET");
  }

  /**
   * So a GET can be answered with what the origin said to a HEAD: for every cacheable request and
   * every storable answer with a non-negative lifetime there is a run in which that happens.
   */
  lemma HeadAnswersGet(policy: Policy, maxEntries: int, maxBytes: int, req: Request, origin: CacheFill.Origin)
    returns (s: CacheFill.State)
    requires maxEntries >= 1 && maxBytes >= 0
    requires !BypassesCache(policy, req.(verb := "HEAD")) && !BypassesCache(policy, req.(verb := "GET"))
    requires origin.Reply? && Storable(policy, origin.status, origin.headers)
    requires TtlOf(policy, req.path, origin.headers) >= 0
    ensures CacheFill.Reachable(Configured(policy), s) && CacheFillWitness.Within(s, maxEntries, maxBytes)
    ensures 1 in s.procs && s.procs[1].req == req.(verb := "GET")
    ensures s.procs[1].stage.Done? && s.procs[1].stage.response.Hit?
    ensures s.procs[1].stage.response.entry.body == origin.body
  {
    HeadSharesKeyWithGet(req);
    s := CacheFillWitness.SharedEntry(
      Configured(policy), maxEntries, maxBytes, 0, req.(verb := "HEAD"), req.(verb := "GET"), origin);
  }

  /** Every entry the cache holds is the origin's answer to a GET. */
  ghost predicate OnlyGets(s: CacheFill.State) {
    forall key: string, id: nat | CacheFillPurge.HoldsFrom(s, key, id) ::
      id in s.procs && s.procs[id].req.verb == "GET"
  }

  ghost predicate AlwaysOnlyGets(policy: Policy) {
    forall s | CacheFill.Reachable(Configured(policy), s) :: OnlyGets(s)
  }

  /** What is held was fetched for a request that the policy lets into the cache. */
  lemma HolderCacheable(policy: Policy, s: CacheFill.State, key: string, id: nat)
    requires CacheFill.Reachable(Configured(policy), s) && CacheFillPurge.HoldsFrom(s, key, id)
    ensures id in s.procs && !BypassesCache(policy, s.procs[id].req)
    ensures s.procs[id].req.verb in ["GET", "HEAD"]
  {
    CacheFillPurge.HolderEngaged(Configured(policy), s, key, id);
  }

  /**
   * Whatever happens, every cached entry answers a GET, exactly if the policy lets no HEAD request
   * into the cache.
   */
  lemma OnlyGetsIff(policy: Policy)
    ensures AlwaysOnlyGets(policy) <==> forall req: Request | req.verb == "HEAD" :: BypassesCache(policy, req)
  {
    if req: Request :| req.verb == "HEAD" && !BypassesCache(policy, req) {
      var plain := CacheFill.Reply(200, map[], "");
      assert Storable(policy, 200, map[]);
      var s := CacheFillWitness.FirstStore(Configured(policy), 1, 0, 0, req, plain);
      assert !OnlyGets(s);
    } else {
      forall s | CacheFill.Reachable(Configured(policy), s) ensures OnlyGets(s) {
        forall key: string, id: nat | CacheFillPurge.HoldsFrom(s, key, id)
          ensures id in s.procs && s.procs[id].req.verb == "GET"
        {
          HolderCacheable(policy, s, key, id);
        }
      }
    }
  }

  predicate IsGet(req: Request) {
    req.verb == "GET"
  }

  /** A HEAD and a GET that the policy lets into the cache under one key. */
  predicate HeadMeetsGet(policy: Policy, head: Request, get: Request) {
    && head.verb == "HEAD" && get.verb == "GET" && KeyOf(head) == KeyOf(get)
    && !BypassesCache(policy, head) && !BypassesCache(policy, get)
  }

  lemma MeetsIsHead(policy: Policy, a: Request, b: Request)
    ensures CacheFillWitness.Meet(Configured(policy), IsGet, a, b) <==> HeadMeetsGet(policy, a, b)
  {
  }

  /**
   * In every reachable state every hit and every miss of a GET is what the origin told a GET with the
   * same key, exactly if the policy never lets a HEAD and a GET with one key into the cache.
   */
  lemma GetAnswersIff(policy: Policy)
    ensures CacheFillWitness.AlwaysApart(Configured(policy), IsGet)
      <==> forall head, get :: !HeadMeetsGet(policy, head, get)
  {
    CacheFillWitness.AlwaysApartIff(Configured(policy), IsGet, CacheFill.Reply(500, map[], ""));
    forall a, b ensures CacheFillWitness.Meet(Configured(policy), IsGet, a, b) <==> HeadMeetsGet(policy, a, b) {
      MeetsIsHead(policy, a, b);
    }
  }
}
