/** The broker's HTTP effect (src/capabilities/execution/effect-broker.ts): a redirect loop against a server
    that answers anything. `Follow` says which requests are sent; its properties hold for every server, every
    resolver and every URL parser. */
module Redirects {
  import opened Optional

  type Host = string
  type Address = string
  type Body = string
  type Headers = map<string, string>

  datatype Destination = Destination(scheme: string, host: Host, port: Option<nat>, path: string)

  /** A `network-destination` capability of the envelope. */
  datatype NetworkCap = NetworkCap(scheme: string, host: Host, port: Option<nat>)

  datatype Reply = Throws | Reply(status: nat, location: string, size: nat, effectiveIp: Address)

  /** The world outside, by hop number: replies, resolver, clock and the URL parser. */
  datatype Net = Net(
    reply: nat -> Reply, resolve: (nat, Host) -> Option<seq<Address>>, late: nat -> bool,
    parse: (string, Destination) -> Option<Destination>)

  datatype Rules = Rules(lower: string -> string, deniedAddress: Address -> bool, maxBytes: nat, caps: seq<NetworkCap>)

  datatype Request = Request(dest: Destination, verb: string, body: Option<Body>, headers: Headers)

  /** One request as it goes out. */
  datatype Hop = Hop(dest: Destination, verb: string, body: Option<Body>, headers: Headers, addresses: seq<Address>)

  datatype Outcome = Refused | FetchFailed | Succeeded(status: nat)
  datatype Ruling = Stop(outcome: Outcome) | Go(hop: Hop)

  /** What the loop needs to remember of the start. */
  datatype Origin = Origin(host: Host, injected: bool)

  const MAX_REDIRECTS: nat := 5

  const DENIED_HOSTS: set<Host> := {
    "localhost", "metadata.google.internal", "metadata.aws.internal", "169.254.169.254", "fd00:ec2::254", "[::1]"
  }

  const KEPT_CROSS_HOST: set<string> := {"accept", "accept-language", "accept-encoding", "user-agent", "range"}

  const FORBIDDEN_HEADERS: set<string> := {
    "authorization", "cookie", "host", "proxy", "proxy-authorization", "forwarded", "x-forwarded-for",
    "x-forwarded-host", "connection", "transfer-encoding", "upgrade"
  }

  predicate Redirecting(status: nat) {
    status == 301 || status == 302 || status == 303 || status == 307 || status == 308
  }

  predicate Matches(c: NetworkCap, d: Destination) {
    && c.scheme == d.scheme && (c.host == d.host || c.host == "*")
    && (c.port.None? || c.port == Some(0) || c.port == d.port)
  }

  predicate Authorised(rules: Rules, d: Destination) {
    exists i :: 0 <= i < |rules.caps| && Matches(rules.caps[i], d)
  }

  predicate Safe(rules: Rules, addresses: seq<Address>) {
    addresses != [] && forall i :: 0 <= i < |addresses| ==> !rules.deniedAddress(addresses[i])
  }

  predicate CrossHost(rules: Rules, o: Origin, d: Destination) {
    rules.lower(d.host) != rules.lower(o.host)
  }

  function Without(headers: Headers, dropped: string -> bool): Headers {
    map k | k in headers && !dropped(k) :: headers[k]
  }

  // ---- Where the loop goes from one reply

  /** Section 6.4 of RFC 7231: 303 turns into a bodiless GET, and so do 301 and 302 unless the method is
      GET or HEAD already; everything else keeps method and body. */
  predicate TurnsToGet(verb: string, status: nat) {
    status == 303 || (verb != "GET" && verb != "HEAD" && (status == 301 || status == 302))
  }

  function Redirected(rules: Rules, o: Origin, hop: Hop, status: nat, target: Destination, addresses: seq<Address>): Hop {
    var headers :=
      if CrossHost(rules, o, target) then Without(hop.headers, k => rules.lower(k) !in KEPT_CROSS_HOST) else hop.headers;
    if TurnsToGet(hop.verb, status) then Hop(target, "GET", None, headers, addresses)
    else Hop(target, hop.verb, hop.body, headers, addresses)
  }

  function Judge(rules: Rules, o: Origin, net: Net, n: nat, hop: Hop): Ruling {
    match net.reply(n)
    case Throws => Stop(FetchFailed)
    case Reply(status, location, size, effectiveIp) =>
      if Redirecting(status) && n >= MAX_REDIRECTS then Stop(Refused)
      else if Redirecting(status) && location != "" then
        var parsed := net.parse(location, hop.dest);
        if parsed.None? then Stop(Refused)
        else if CrossHost(rules, o, parsed.value) && o.injected && (status == 307 || status == 308) then Stop(Refused)
        else if !Authorised(rules, parsed.value) || rules.lower(parsed.value.host) in DENIED_HOSTS then Stop(Refused)
        else
          var addresses := net.resolve(n + 1, parsed.value.host);
          if addresses.None? || !Safe(rules, addresses.value) then Stop(Refused)
          else Go(Redirected(rules, o, hop, status, parsed.value, addresses.value))
      else if size > rules.maxBytes || (effectiveIp != "" && effectiveIp !in hop.addresses) then Stop(Refused)
      else Stop(Succeeded(status))
  }

  /** All requests sent from hop `n` on, and the outcome. */
  function Follow(rules: Rules, o: Origin, net: Net, n: nat, hop: Hop): (r: (seq<Hop>, Outcome))
    requires n <= MAX_REDIRECTS
    decreases MAX_REDIRECTS - n
  {
    if net.late(n) then ([], Refused)
    else
      match Judge(rules, o, net, n, hop)
      case Stop(outcome) => ([hop], outcome)
      case Go(next) =>
        // `Judge` stops at the cap
        if n == MAX_REDIRECTS then ([hop], Refused)
        else var rest := Follow(rules, o, net, n + 1, next); ([hop] + rest.0, rest.1)
  }

  /** The first request, or None when the destination is refused before anything is sent. */
  function First(rules: Rules, net: Net, request: Request, headers: Headers): Option<Hop> {
    var addresses := net.resolve(0, request.dest.host);
    if !Authorised(rules, request.dest) || (request.dest.scheme != "https" && request.dest.scheme != "http")
       || rules.lower(request.dest.host) in DENIED_HOSTS || addresses.None? || !Safe(rules, addresses.value)
    then None
    else Some(Hop(request.dest, request.verb, request.body, headers, addresses.value))
  }

  /** Every request an execution sends, and its outcome. */
  function Sent(rules: Rules, net: Net, request: Request, headers: Headers, injected: bool): (seq<Hop>, Outcome) {
    var first := First(rules, net, request, headers);
    if first.None? then ([], Refused) else Follow(rules, Origin(request.dest.host, injected), net, 0, first.value)
  }

  // ---- Safety of every request sent

  /** The header names of the first request: nothing forbidden, but for an `authorization` the broker injected. */
  predicate Clean(rules: Rules, headers: Headers, injected: bool) {
    forall k :: k in headers && rules.lower(k) in FORBIDDEN_HEADERS ==> k == "authorization" && injected
  }

  predicate HopSafe(rules: Rules, o: Origin, hop: Hop) {
    && Authorised(rules, hop.dest) && rules.lower(hop.dest.host) !in DENIED_HOSTS && Safe(rules, hop.addresses)
    && Clean(rules, hop.headers, o.injected)
    && (CrossHost(rules, o, hop.dest) ==> forall k :: k in hop.headers ==> rules.lower(k) in KEPT_CROSS_HOST)
  }

  predicate Bodied(verb: string) {
    verb != "GET" && verb != "HEAD"
  }

  /** The body discipline of a chain that began with a method other than GET and HEAD. */
  predicate BodyHome(rules: Rules, o: Origin, hop: Hop) {
    && (!Bodied(hop.verb) ==> hop.body.None?)
    && (o.injected && CrossHost(rules, o, hop.dest) ==> hop.body.None?)
  }

  lemma JudgeSafe(rules: Rules, o: Origin, net: Net, n: nat, hop: Hop)
    requires HopSafe(rules, o, hop) && Judge(rules, o, net, n, hop).Go?
    ensures n < MAX_REDIRECTS && HopSafe(rules, o, Judge(rules, o, net, n, hop).hop)
    ensures BodyHome(rules, o, hop) ==> BodyHome(rules, o, Judge(rules, o, net, n, hop).hop)
  {
  }

  /** For every server: at most six requests, each to an authorised host off the denied list with a non-empty
      address list free of denied addresses, and with only allow-listed headers once it leaves the host. */
  lemma {:induction false} FollowSafe(rules: Rules, o: Origin, net: Net, n: nat, hop: Hop)
    requires n <= MAX_REDIRECTS && HopSafe(rules, o, hop)
    ensures |Follow(rules, o, net, n, hop).0| <= MAX_REDIRECTS + 1 - n
    ensures forall i :: 0 <= i < |Follow(rules, o, net, n, hop).0| ==> HopSafe(rules, o, Follow(rules, o, net, n, hop).0[i])
    ensures BodyHome(rules, o, hop) ==>
              forall i :: 0 <= i < |Follow(rules, o, net, n, hop).0| ==> BodyHome(rules, o, Follow(rules, o, net, n, hop).0[i])
    decreases MAX_REDIRECTS - n
  {
    var ruling := Judge(rules, o, net, n, hop);
    if ruling.Go? {
      JudgeSafe(rules, o, net, n, hop);
      FollowSafe(rules, o, net, n + 1, ruling.hop);
    }
  }

  /** The first request is the one asked for, over HTTP. */
  predicate Opens(request: Request, headers: Headers, first: Hop) {
    && first.dest == request.dest && (first.dest.scheme == "https" || first.dest.scheme == "http")
    && first.verb == request.verb && first.body == request.body && first.headers == headers
  }

  lemma SentSafe(rules: Rules, net: Net, request: Request, headers: Headers, injected: bool)
    requires Clean(rules, headers, injected)
    ensures var o := Origin(request.dest.host, injected);
            var hops := Sent(rules, net, request, headers, injected).0;
            && |hops| <= 6 && (forall i :: 0 <= i < |hops| ==> HopSafe(rules, o, hops[i]))
            && (hops != [] ==> Opens(request, headers, hops[0]))
  {
    var first := First(rules, net, request, headers);
    if first.Some? {
      FollowSafe(rules, Origin(request.dest.host, injected), net, 0, first.value);
    }
  }

  /** `after` is what section 6.4 of RFC 7231 makes of `before` on this status. */
  predicate Rewritten(before: Hop, status: nat, after: Hop) {
    if status == 303 then after.verb == "GET" && after.body.None?
    else if status == 307 || status == 308 then after.verb == before.verb && after.body == before.body
    else (status == 301 || status == 302)
         && if Bodied(before.verb) then after.verb == "GET" && after.body.None?
            else after.verb == before.verb && after.body == before.body
  }

  predicate Answered(net: Net, n: nat, before: Hop, after: Hop) {
    && net.reply(n).Reply? && Rewritten(before, net.reply(n).status, after)
    && net.parse(net.reply(n).location, before.dest) == Some(after.dest)
    && net.resolve(n + 1, after.dest.host) == Some(after.addresses)
    && after.headers.Keys <= before.headers.Keys
  }

  /** Each request follows from the reply to the one before it. */
  lemma {:induction false} FollowChains(rules: Rules, o: Origin, net: Net, n: nat, hop: Hop)
    requires n <= MAX_REDIRECTS
    ensures var hops := Follow(rules, o, net, n, hop).0;
            && (hops != [] ==> hops[0] == hop)
            && (forall i :: 0 <= i < |hops| - 1 ==> Answered(net, n + i, hops[i], hops[i + 1]))
    decreases MAX_REDIRECTS - n
  {
    var ruling := Judge(rules, o, net, n, hop);
    if !net.late(n) && ruling.Go? {
      FollowChains(rules, o, net, n + 1, ruling.hop);
      JudgeAnswers(rules, o, net, n, hop);
      var rest := Follow(rules, o, net, n + 1, ruling.hop).0;
      ChainLonger(net, n, hop, rest);
    }
  }

  lemma JudgeAnswers(rules: Rules, o: Origin, net: Net, n: nat, hop: Hop)
    requires Judge(rules, o, net, n, hop).Go?
    ensures n < MAX_REDIRECTS && Answered(net, n, hop, Judge(rules, o, net, n, hop).hop)
  {
  }

  lemma ChainLonger(net: Net, n: nat, hop: Hop, rest: seq<Hop>)
    requires rest != [] ==> Answered(net, n, hop, rest[0])
    requires forall i :: 0 <= i < |rest| - 1 ==> Answered(net, n + 1 + i, rest[i], rest[i + 1])
    ensures var hops := [hop] + rest; forall i :: 0 <= i < |hops| - 1 ==> Answered(net, n + i, hops[i], hops[i + 1])
  {
    var hops := [hop] + rest;
    forall i | 0 <= i < |hops| - 1 ensures Answered(net, n + i, hops[i], hops[i + 1]) {
      if i > 0 {
        assert Answered(net, n + 1 + (i - 1), rest[i - 1], rest[i]);
      }
    }
  }

  /** A reply that may be reported as success for this request: no redirect that could be followed, within the
      size cap, from a validated address. */
  predicate Acceptable(rules: Rules, reply: Reply, hop: Hop, status: nat) {
    && reply.Reply? && reply.status == status && reply.size <= rules.maxBytes
    && !(Redirecting(reply.status) && reply.location != "")
    && (reply.effectiveIp == "" || reply.effectiveIp in hop.addresses)
  }

  lemma {:induction false} FollowOn(rules: Rules, o: Origin, net: Net, n: nat, hop: Hop)
    requires n <= MAX_REDIRECTS && !net.late(n) && Judge(rules, o, net, n, hop).Go?
    ensures n < MAX_REDIRECTS
    ensures var rest := Follow(rules, o, net, n + 1, Judge(rules, o, net, n, hop).hop);
            Follow(rules, o, net, n, hop) == ([hop] + rest.0, rest.1)
  {
  }

  lemma JudgeAccepts(rules: Rules, o: Origin, net: Net, n: nat, hop: Hop)
    requires Judge(rules, o, net, n, hop).Stop? && Judge(rules, o, net, n, hop).outcome.Succeeded?
    ensures Acceptable(rules, net.reply(n), hop, Judge(rules, o, net, n, hop).outcome.status)
  {
  }

  predicate LastAccepted(rules: Rules, net: Net, n: nat, hops: seq<Hop>, outcome: Outcome) {
    && outcome.Succeeded? && hops != []
    && Acceptable(rules, net.reply(n + |hops| - 1), hops[|hops| - 1], outcome.status)
  }

  lemma LastOnward(rules: Rules, net: Net, n: nat, hop: Hop, rest: seq<Hop>, outcome: Outcome)
    requires LastAccepted(rules, net, n + 1, rest, outcome)
    ensures LastAccepted(rules, net, n, [hop] + rest, outcome)
  {
    assert n + 1 + |rest| - 1 == n + |[hop] + rest| - 1;
  }

  /** A success reports the reply to the last request. */
  lemma {:induction false} SuccessIsLast(rules: Rules, o: Origin, net: Net, n: nat, hop: Hop)
    requires n <= MAX_REDIRECTS && Follow(rules, o, net, n, hop).1.Succeeded?
    ensures var (hops, outcome) := Follow(rules, o, net, n, hop); LastAccepted(rules, net, n, hops, outcome)
    decreases MAX_REDIRECTS - n
  {
    var ruling := Judge(rules, o, net, n, hop);
    if ruling.Go? {
      FollowOn(rules, o, net, n, hop);
      SuccessIsLast(rules, o, net, n + 1, ruling.hop);
      var rest := Follow(rules, o, net, n + 1, ruling.hop);
      LastOnward(rules, net, n, hop, rest.0, rest.1);
    } else {
      JudgeAccepts(rules, o, net, n, hop);
    }
  }

  // ---- Does a secret-bearing request's body stay on its host?

  ghost predicate BodyEscapes(rules: Rules, net: Net, request: Request, headers: Headers, injected: bool) {
    exists i ::
      && 0 <= i < |Sent(rules, net, request, headers, injected).0|
      && CrossHost(rules, Origin(request.dest.host, injected), Sent(rules, net, request, headers, injected).0[i].dest)
      && Sent(rules, net, request, headers, injected).0[i].body.Some?
  }

  /** The envelope and the address rules let a request to `d` out. */
  predicate Reachable(rules: Rules, d: Destination, address: Address) {
    Authorised(rules, d) && rules.lower(d.host) !in DENIED_HOSTS && !rules.deniedAddress(address)
  }

  lemma BodyStays(rules: Rules, net: Net, request: Request, headers: Headers)
    requires Clean(rules, headers, true)
    requires Bodied(request.verb) || request.body.None?
    ensures !BodyEscapes(rules, net, request, headers, true)
  {
    var first := First(rules, net, request, headers);
    if first.Some? {
      var o := Origin(request.dest.host, true);
      FollowSafe(rules, o, net, 0, first.value);
      assert BodyHome(rules, o, first.value);
    }
  }

  /** A server that answers with one 302 to `target` and then with success. */
  function Bouncer(target: Destination, address: Address): Net {
    Net(n => if n == 0 then Reply(302, "elsewhere", 0, "") else Reply(200, "", 0, ""),
        (n, h) => Some([address]), n => false, (l, d) => Some(target))
  }

  lemma BounceEscapes(rules: Rules, request: Request, headers: Headers, target: Destination, address: Address)
    requires !Bodied(request.verb) && request.body.Some?
    requires request.dest.scheme == "https" || request.dest.scheme == "http"
    requires Reachable(rules, request.dest, address) && Reachable(rules, target, address)
    requires rules.lower(target.host) != rules.lower(request.dest.host)
    ensures BodyEscapes(rules, Bouncer(target, address), request, headers, true)
  {
    var net, o := Bouncer(target, address), Origin(request.dest.host, true);
    var first := First(rules, net, request, headers).value;
    var second := Redirected(rules, o, first, 302, target, [address]);
    assert Judge(rules, o, net, 0, first) == Go(second);
    assert Judge(rules, o, net, 1, second) == Stop(Succeeded(200));
    assert Follow(rules, o, net, 1, second).0 == [second];
    assert Sent(rules, net, request, headers, true).0 == [first] + [second];
    assert Sent(rules, net, request, headers, true).0[1] == second;
  }

  /** The exact condition. With an injected secret, no server can make the body reach another host unless the
      method is GET or HEAD, a body is sent with it, and the envelope authorises some other host. */
  lemma BodyEscapesExactly(rules: Rules, request: Request, headers: Headers)
    requires Clean(rules, headers, true)
    ensures (exists net :: BodyEscapes(rules, net, request, headers, true))
       <==> && !Bodied(request.verb) && request.body.Some?
            && (request.dest.scheme == "https" || request.dest.scheme == "http")
            && exists target, address ::
                 && Reachable(rules, request.dest, address) && Reachable(rules, target, address)
                 && rules.lower(target.host) != rules.lower(request.dest.host)
  {
    if net :| BodyEscapes(rules, net, request, headers, true) {
      if Bodied(request.verb) || request.body.None? {
        BodyStays(rules, net, request, headers);
      }
      SentSafe(rules, net, request, headers, true);
      var hops := Sent(rules, net, request, headers, true).0;
      var i :| && 0 <= i < |hops| && CrossHost(rules, Origin(request.dest.host, true), hops[i].dest) && hops[i].body.Some?;
      assert Authorised(rules, hops[i].dest);
      assert Reachable(rules, hops[i].dest, hops[i].addresses[0]);
      assert Reachable(rules, request.dest, hops[i].addresses[0]);
    }
    if !Bodied(request.verb) && request.body.Some? && (request.dest.scheme == "https" || request.dest.scheme == "http") {
      forall target, address |
        && Reachable(rules, request.dest, address) && Reachable(rules, target, address)
        && rules.lower(target.host) != rules.lower(request.dest.host)
        ensures exists net :: BodyEscapes(rules, net, request, headers, true)
      {
        BounceEscapes(rules, request, headers, target, address);
      }
    }
  }

  // ---- Where can the secret itself be sent?

  /** Some request to `d` carries an `authorization`. */
  ghost predicate SecretReaches(rules: Rules, net: Net, request: Request, headers: Headers, d: Destination) {
    exists i ::
      && 0 <= i < |Sent(rules, net, request, headers, true).0|
      && Sent(rules, net, request, headers, true).0[i].dest == d
      && "authorization" in Sent(rules, net, request, headers, true).0[i].headers
  }

  predicate Among(headers: Headers, first: Headers) {
    forall k :: k in headers ==> k in first && headers[k] == first[k]
  }

  /** No hop makes up a header or changes one: an `authorization` that is sent is the first request's. */
  lemma {:induction false} HeadersKept(rules: Rules, o: Origin, net: Net, n: nat, hop: Hop)
    requires n <= MAX_REDIRECTS
    ensures forall i :: 0 <= i < |Follow(rules, o, net, n, hop).0| ==> Among(Follow(rules, o, net, n, hop).0[i].headers, hop.headers)
    decreases MAX_REDIRECTS - n
  {
    var ruling := Judge(rules, o, net, n, hop);
    if !net.late(n) && ruling.Go? {
      FollowOn(rules, o, net, n, hop);
      HeadersKept(rules, o, net, n + 1, ruling.hop);
      RulingKeeps(rules, o, net, n, hop);
    }
  }

  lemma RulingKeeps(rules: Rules, o: Origin, net: Net, n: nat, hop: Hop)
    requires Judge(rules, o, net, n, hop).Go?
    ensures Among(Judge(rules, o, net, n, hop).hop.headers, hop.headers)
  {
  }

  lemma BounceCarries(rules: Rules, request: Request, headers: Headers, d: Destination, address: Address)
    requires "authorization" in headers && (request.dest.scheme == "https" || request.dest.scheme == "http")
    requires Reachable(rules, request.dest, address) && Reachable(rules, d, address)
    requires rules.lower(d.host) == rules.lower(request.dest.host)
    ensures SecretReaches(rules, Bouncer(d, address), request, headers, d)
  {
    var net, o := Bouncer(d, address), Origin(request.dest.host, true);
    var first := First(rules, net, request, headers).value;
    var second := Redirected(rules, o, first, 302, d, [address]);
    assert Judge(rules, o, net, 0, first) == Go(second);
    assert Judge(rules, o, net, 1, second) == Stop(Succeeded(200));
    assert Follow(rules, o, net, 1, second).0 == [second];
    assert Sent(rules, net, request, headers, true).0 == [first] + [second];
    assert Sent(rules, net, request, headers, true).0[1] == second;
  }

  lemma SentAmong(rules: Rules, net: Net, request: Request, headers: Headers, injected: bool)
    ensures var hops := Sent(rules, net, request, headers, injected).0;
            forall i :: 0 <= i < |hops| ==> Among(hops[i].headers, headers)
  {
    var first := First(rules, net, request, headers);
    if first.Some? {
      HeadersKept(rules, Origin(request.dest.host, injected), net, 0, first.value);
    }
  }

  lemma SecretStays(rules: Rules, net: Net, request: Request, headers: Headers, d: Destination) returns (address: Address)
    requires Clean(rules, headers, true) && rules.lower("authorization") == "authorization"
    requires SecretReaches(rules, net, request, headers, d)
    ensures "authorization" in headers && (request.dest.scheme == "https" || request.dest.scheme == "http")
    ensures Reachable(rules, request.dest, address) && Reachable(rules, d, address)
    ensures rules.lower(d.host) == rules.lower(request.dest.host)
  {
    SentSafe(rules, net, request, headers, true);
    SentAmong(rules, net, request, headers, true);
    var o, hops := Origin(request.dest.host, true), Sent(rules, net, request, headers, true).0;
    var i :| 0 <= i < |hops| && hops[i].dest == d && "authorization" in hops[i].headers;
    assert Among(hops[i].headers, headers);
    address := hops[i].addresses[0];
    SafeReaches(rules, o, hops[i], address);
    SafeReaches(rules, o, hops[0], hops[0].addresses[0]);
  }

  lemma SafeReaches(rules: Rules, o: Origin, hop: Hop, address: Address)
    requires HopSafe(rules, o, hop) && address == hop.addresses[0]
    ensures Reachable(rules, hop.dest, address)
    ensures "authorization" in hop.headers && rules.lower("authorization") == "authorization" ==> !CrossHost(rules, o, hop.dest)
  {
  }

  /** The exact condition: some server makes the injected secret go to `d` if and only if `d` has the host of
      the request and the envelope lets both out. Scheme and port do not matter: a capability that allows plain
      http or another port on that host lets the secret go there. */
  lemma SecretReachesExactly(rules: Rules, request: Request, headers: Headers, d: Destination)
    requires Clean(rules, headers, true) && rules.lower("authorization") == "authorization"
    ensures (exists net :: SecretReaches(rules, net, request, headers, d))
       <==> && "authorization" in headers && (request.dest.scheme == "https" || request.dest.scheme == "http")
            && rules.lower(d.host) == rules.lower(request.dest.host)
            && exists address :: Reachable(rules, request.dest, address) && Reachable(rules, d, address)
  {
    if net :| SecretReaches(rules, net, request, headers, d) {
      var address := SecretStays(rules, net, request, headers, d);
    }
    if "authorization" in headers && (request.dest.scheme == "https" || request.dest.scheme == "http")
       && rules.lower(d.host) == rules.lower(request.dest.host)
    {
      forall address | Reachable(rules, request.dest, address) && Reachable(rules, d, address)
        ensures exists net :: SecretReaches(rules, net, request, headers, d)
      {
        BounceCarries(rules, request, headers, d, address);
      }
    }
  }
}
