/** The broker as it runs (src/capabilities/execution/effect-broker.ts): replay ticket, lease, header cleaning,
    secret injection and the redirect loop, proved against `Redirects.Sent`. */
module EffectBroker {
  import opened Optional
  import opened Redirects

  /** The network adapter: it keeps a log of what was sent. */
  class Network {
    const net: Net
    var sent: seq<Hop>

    constructor (net: Net)
      ensures this.net == net && sent == []
    {
      this.net, sent := net, [];
    }

    method Fetch(n: nat, hop: Hop) returns (reply: Reply)
      modifies this
      ensures sent == old(sent) + [hop] && reply == net.reply(n)
    {
      sent := sent + [hop];
      reply := net.reply(n);
    }
  }

  datatype Lease = Lease(requestId: string, actionDigest: string, expiresAt: nat)

  /** Header names in the order the loops visit them. */
  method Names(headers: Headers) returns (names: seq<string>)
    ensures forall k :: k in names <==> k in headers
  {
    names := [];
    var left := headers.Keys;
    while left != {}
      invariant left <= headers.Keys
      invariant forall k :: k in names <==> k in headers && k !in left
      decreases |left|
    {
      var k :| k in left;
      names, left := names + [k], left - {k};
    }
  }

  method CleanHeaders(rules: Rules, headers: Headers) returns (clean: Headers)
    ensures clean == Without(headers, k => rules.lower(k) in FORBIDDEN_HEADERS)
    ensures Clean(rules, clean, false)
  {
    var names := Names(headers);
    clean := map[];
    for i := 0 to |names|
      invariant forall k :: k in clean <==> k in names[..i] && rules.lower(k) !in FORBIDDEN_HEADERS
      invariant forall k :: k in clean ==> clean[k] == headers[k]
    {
      assert names[..i + 1] == names[..i] + [names[i]];
      if rules.lower(names[i]) !in FORBIDDEN_HEADERS {
        clean := clean[names[i] := headers[names[i]]];
      }
    }
    assert names[..|names|] == names;
  }

  function Canonical(ref: string): string {
    if ref == "tavily" then "tavilyApiKey" else ref
  }

  /** `resolveSecret(canonical) ?? resolveSecret(ref)`; an empty secret counts as none. */
  function SecretFor(resolve: string -> Option<string>, ref: string): string {
    var first := resolve(Canonical(ref));
    var found := if first.Some? then first else resolve(ref);
    if found.Some? then found.value else ""
  }

  /** Puts secrets under `authorization`. `ok` is false when a secret is required and not there. */
  method Inject(rules: Rules, resolve: string -> Option<string>, multi: bool, host: Host, refs: seq<string>, clean: Headers)
    returns (ok: bool, headers: Headers, injected: bool)
    requires Clean(rules, clean, false)
    ensures Clean(rules, headers, injected)
    ensures forall k :: k != "authorization" ==> (k in headers <==> k in clean) && (k in headers ==> headers[k] == clean[k])
    ensures !injected ==> headers == clean
    ensures injected ==>
              "authorization" in headers
              && exists ref :: (ref in refs || (refs == [] && host == "api.tavily.com")) && SecretFor(resolve, ref) != ""
                               && headers["authorization"] == "Bearer " + SecretFor(resolve, ref)
    ensures refs != [] ==> (ok <==> forall ref :: ref in refs ==> SecretFor(resolve, ref) != "")
    ensures refs == [] ==> (ok <==> !(multi && host == "api.tavily.com" && SecretFor(resolve, "tavily") == ""))
    ensures refs == [] && host == "api.tavily.com" ==> (injected <==> SecretFor(resolve, "tavily") != "")
  {
    headers, injected := clean, false;
    if refs != [] {
      for i := 0 to |refs|
        invariant Clean(rules, headers, injected)
        invariant forall k :: k != "authorization" ==> (k in headers <==> k in clean) && (k in headers ==> headers[k] == clean[k])
        invariant !injected ==> headers == clean
        invariant injected ==>
                    "authorization" in headers
                    && exists ref :: ref in refs && SecretFor(resolve, ref) != ""
                                     && headers["authorization"] == "Bearer " + SecretFor(resolve, ref)
        invariant forall j :: 0 <= j < i ==> SecretFor(resolve, refs[j]) != ""
      {
        var val := SecretFor(resolve, refs[i]);
        if val == "" {
          return false, headers, injected;
        }
        assert refs[i] in refs;
        if Canonical(refs[i]) == "tavilyApiKey" || host == "api.tavily.com" || "authorization" !in headers
           || headers["authorization"] == "" {
          headers, injected := headers["authorization" := "Bearer " + val], true;
        }
      }
      return true, headers, injected;
    }
    if host == "api.tavily.com" {
      var val := SecretFor(resolve, "tavily");
      if val == "" && multi {
        return false, headers, injected;
      }
      if val != "" {
        headers, injected := headers["authorization" := "Bearer " + val], true;
      }
    }
    return true, headers, injected;
  }

  /** Follows one redirect: the next request, or None when it is refused. */
  method Redirect(rules: Rules, o: Origin, net: Net, n: nat, hop: Hop) returns (next: Option<Hop>)
    requires n < MAX_REDIRECTS && net.reply(n).Reply? && Redirecting(net.reply(n).status) && net.reply(n).location != ""
    ensures Judge(rules, o, net, n, hop) == if next.Some? then Go(next.value) else Stop(Refused)
  {
    var reply, currentHeaders := net.reply(n), hop.headers;
    var target := net.parse(reply.location, hop.dest);
    if target.None? {
      return None;
    }
    if CrossHost(rules, o, target.value) {
      if o.injected && (reply.status == 307 || reply.status == 308) {
        return None;
      }
      currentHeaders := KeepAllowed(rules, currentHeaders);
    }
    if !Authorised(rules, target.value) || rules.lower(target.value.host) in DENIED_HOSTS {
      return None;
    }
    var nextIps := net.resolve(n + 1, target.value.host);
    if nextIps.None? || !Safe(rules, nextIps.value) {
      return None;
    }
    var currentMethod, currentBody := hop.verb, hop.body;
    if reply.status == 303
       || (currentMethod != "GET" && currentMethod != "HEAD" && (reply.status == 301 || reply.status == 302)) {
      currentMethod, currentBody := "GET", None;
    }
    return Some(Hop(target.value, currentMethod, currentBody, currentHeaders, nextIps.value));
  }

  /** The redirect loop. */
  method SendAll(network: Network, rules: Rules, request: Request, clean: Headers, injected: bool) returns (outcome: Outcome)
    modifies network
    ensures network.sent == old(network.sent) + Sent(rules, network.net, request, clean, injected).0
    ensures outcome == Sent(rules, network.net, request, clean, injected).1
  {
    var net, first := network.net, First(rules, network.net, request, clean);
    if first.None? {
      return Refused;
    }
    var o := Origin(request.dest.host, injected);
    var currentDest, currentMethod, currentBody := request.dest, request.verb, request.body;
    var currentHeaders, resolvedIps, redirectCount := clean, first.value.addresses, 0;
    ghost var start, log := network.sent, [];
    assert Sent(rules, net, request, clean, injected) == Follow(rules, o, net, 0, first.value);
    assert [] + Follow(rules, o, net, 0, first.value).0 == Follow(rules, o, net, 0, first.value).0;
    while true
      invariant redirectCount <= MAX_REDIRECTS
      invariant network.sent == start + log
      invariant var rest := Follow(rules, o, net, redirectCount,
                                   Hop(currentDest, currentMethod, currentBody, currentHeaders, resolvedIps));
                Sent(rules, net, request, clean, injected) == (log + rest.0, rest.1)
      decreases MAX_REDIRECTS - redirectCount
    {
      var hop := Hop(currentDest, currentMethod, currentBody, currentHeaders, resolvedIps);
      if net.late(redirectCount) {
        return Refused;
      }
      var reply := network.Fetch(redirectCount, hop);
      Appended(start, log, hop);
      ghost var before := log;
      log := log + [hop];
      if reply.Throws? {
        return FetchFailed;
      }
      if Redirecting(reply.status) {
        if redirectCount >= MAX_REDIRECTS {
          return Refused;
        }
        if reply.location != "" {
          var next := Redirect(rules, o, net, redirectCount, hop);
          if next.None? {
            return Refused;
          }
          Chained(before, hop, Follow(rules, o, net, redirectCount + 1, next.value).0);
          currentDest, currentMethod, currentBody := next.value.dest, next.value.verb, next.value.body;
          currentHeaders, resolvedIps, redirectCount := next.value.headers, next.value.addresses, redirectCount + 1;
          continue;
        }
      }
      if reply.size > rules.maxBytes || (reply.effectiveIp != "" && reply.effectiveIp !in resolvedIps) {
        return Refused;
      }
      return Succeeded(reply.status);
    }
  }

  lemma Appended(start: seq<Hop>, log: seq<Hop>, hop: Hop)
    ensures (start + log) + [hop] == start + (log + [hop])
  {
  }

  lemma Chained(log: seq<Hop>, hop: Hop, rest: seq<Hop>)
    ensures log + ([hop] + rest) == (log + [hop]) + rest
  {
  }

  method KeepAllowed(rules: Rules, headers: Headers) returns (kept: Headers)
    ensures kept == Without(headers, k => rules.lower(k) !in KEPT_CROSS_HOST)
  {
    var names := Names(headers);
    kept := map[];
    for i := 0 to |names|
      invariant forall k :: k in kept <==> k in names[..i] && rules.lower(k) in KEPT_CROSS_HOST
      invariant forall k :: k in kept ==> kept[k] == headers[k]
    {
      assert names[..i + 1] == names[..i] + [names[i]];
      if rules.lower(names[i]) in KEPT_CROSS_HOST {
        kept := kept[names[i] := headers[names[i]]];
      }
    }
    assert names[..|names|] == names;
  }

  class Broker {
    const rules: Rules
    const multi: bool
    const secrets: string -> Option<string>
    var consumed: set<string>

    constructor (rules: Rules, multi: bool, secrets: string -> Option<string>)
      ensures this.rules == rules && this.multi == multi && this.secrets == secrets && consumed == {}
    {
      this.rules, this.multi, this.secrets, consumed := rules, multi, secrets, {};
    }

    /** One brokered HTTP effect. A request id is good for one attempt, whatever comes of it; nothing is sent
        without an unexpired lease for this very request and action; and what is sent is safe at every hop. */
    method Execute(network: Network, requestId: string, request: Request, refs: seq<string>, envelopeDigest: Option<string>,
                   lease: Lease, now: nat) returns (outcome: Outcome, ghost hops: seq<Hop>, ghost injected: bool)
      modifies this, network
      ensures consumed == old(consumed) + if requestId == "" then {} else {requestId}
      ensures network.sent == old(network.sent) + hops
      ensures hops != [] ==>
                requestId != "" && requestId !in old(consumed) && now <= lease.expiresAt
                && lease.requestId == requestId && envelopeDigest == Some(lease.actionDigest)
      ensures |hops| <= 6 && forall i :: 0 <= i < |hops| ==> HopSafe(rules, Origin(request.dest.host, injected), hops[i])
      ensures injected ==> refs != [] || request.dest.host == "api.tavily.com"
      ensures injected && Bodied(request.verb) ==>
                forall i :: 0 <= i < |hops| && CrossHost(rules, Origin(request.dest.host, injected), hops[i].dest) ==>
                  hops[i].body.None?
      ensures hops == [] ==> !outcome.Succeeded?
    {
      assert network.sent == old(network.sent) + [];
      if requestId == "" {
        return Refused, [], false;
      }
      var unused := requestId !in consumed;
      consumed := consumed + {requestId};
      if !unused || now > lease.expiresAt || lease.requestId != requestId || envelopeDigest != Some(lease.actionDigest) {
        return Refused, [], false;
      }
      var clean := CleanHeaders(rules, request.headers);
      if First(rules, network.net, request, clean).None? {
        return Refused, [], false;
      }
      var ok, headers, secret := Inject(rules, secrets, multi, request.dest.host, refs, clean);
      if !ok {
        return Refused, [], false;
      }
      injected := secret;
      outcome := SendAll(network, rules, request, headers, secret);
      hops := Sent(rules, network.net, request, headers, injected).0;
      SentSafe(rules, network.net, request, headers, injected);
      if injected && Bodied(request.verb) {
        BodyStays(rules, network.net, request, headers);
      }
    }
  }
}
