/** The multi-tenant control plane (examples/worker/src/stub-app.ts): flat tables with composite string keys,
    proved to behave as one private store per principal. Tokens have been resolved to principals. */
module ControlPlane {
  import opened Optional

  type Principal(==, !new) = string

  datatype Cap = Cap(stamp: Option<string>, body: string)
  datatype Mutation = Mutation(id: string, version: int)
  datatype Snapshot = Snapshot(workspace: string, version: int, capabilities: seq<Cap>, history: seq<Mutation>)
  datatype Skill = Skill(tenant: Option<string>, name: string, content: string)

  /** A JavaScript Map or Set: entries in the order their keys first came in. */
  datatype Entry = Entry(key: string, data: string)

  datatype Audit = Audit(principal: Principal, key: Option<string>)
  datatype Revocation = Revocation(principal: Principal, filter: string)

  datatype Request =
    | PostAudit(key: Option<string>)
    | GetPolicy(workspace: string)
    | PostPolicy(workspace: string, expected: int, capabilities: seq<Cap>, mutation: Option<string>)
    | GetCaps
    | Consume(digest: string)
    | Revoke(filter: string)
    | GetSessions(id: string)          // "" when no id is asked for
    | PostSession(id: string, data: string)
    | DeleteSession(id: string)
    | GetSkills(tenant: string)        // "" when no tenant is asked for
    | PostSkill(name: string, content: string)

  datatype Reply =
    | Done
    | Duplicate
    | Policy(snapshot: Snapshot)
    | Conflict(current: Snapshot)
    | Forbidden
    | Caps(digests: seq<string>, revocations: seq<string>)
    | Consumed(first: bool)
    | Session(data: Option<string>)
    | Sessions(ids: seq<string>)
    | Skills(skills: seq<Skill>)

  // ---- Keys

  predicate Slug(p: Principal) {
    p != "" && ':' !in p
  }

  function Scoped(p: Principal, id: string): string {
    p + ":" + id
  }

  function PolicyKey(workspace: string, p: Principal): string {
    workspace + ":" + p
  }

  predicate StartsWith(s: string, prefix: string) {
    |prefix| <= |s| && s[..|prefix|] == prefix
  }

  /** The first ':' ends the principal. */
  lemma SameSplit(p: Principal, x: string, q: Principal, y: string)
    requires ':' !in p && ':' !in q && p + ":" + x == q + ":" + y
    ensures p == q && x == y
  {
    var s, t := p + ":" + x, q + ":" + y;
    assert forall i :: 0 <= i < |p| ==> s[i] == p[i];
    assert forall i :: 0 <= i < |q| ==> t[i] == q[i];
    assert s[|p|] == ':' && t[|q|] == ':';
    assert |p| == |q|;
    assert p == s[..|p|] && q == t[..|q|];
    assert x == s[|p| + 1..] && y == t[|q| + 1..];
  }

  /** A scoped key belongs to one principal, whatever the id is. */
  lemma ScopedOwner(p: Principal, q: Principal, id: string)
    requires Slug(p) && Slug(q)
    ensures StartsWith(Scoped(p, id), q + ":") <==> p == q
    ensures Scoped(p, id)[|p + ":"|..] == id
  {
    var s, prefix := Scoped(p, id), q + ":";
    assert s[|p|] == ':' && s[..|p|] == p && prefix[|q|] == ':';
    if StartsWith(s, prefix) {
      SameSplit(p, id, q, s[|prefix|..]);
    }
    if p == q {
      assert s[..|prefix|] == prefix;
    }
  }

  /** And a policy key belongs to one workspace and principal, even when the workspace id has a ':' in it. */
  lemma PolicyKeyOwner(w: string, p: Principal, v: string, q: Principal)
    requires Slug(p) && Slug(q) && PolicyKey(w, p) == PolicyKey(v, q)
    ensures w == v && p == q
  {
    var s, t := PolicyKey(w, p), PolicyKey(v, q);
    assert forall i :: |w| < i < |s| ==> s[i] == p[i - |w| - 1];
    assert forall i :: |v| < i < |t| ==> t[i] == q[i - |v| - 1];
    assert s[|w|] == ':' && t[|v|] == ':';
    assert |w| == |v|;
    assert w == s[..|w|] && v == t[..|v|];
    assert p == s[|w| + 1..] && q == t[|v| + 1..];
  }

  function LastColon(k: string): (i: int)
    ensures -1 <= i < |k| && (i >= 0 ==> k[i] == ':')
    ensures forall j :: i < j < |k| ==> k[j] != ':'
  {
    if k == "" then -1 else if k[|k| - 1] == ':' then |k| - 1 else LastColon(k[..|k| - 1])
  }

  /** The principal a key would be of, and its workspace: the last ':' parts them. */
  function OwnerOf(k: string): string {
    k[LastColon(k) + 1..]
  }

  function WorkspaceOf(k: string): string
    requires ':' in k
  {
    k[..LastColon(k)]
  }

  lemma SplitKey(w: string, p: Principal)
    requires Slug(p)
    ensures ':' in PolicyKey(w, p) && OwnerOf(PolicyKey(w, p)) == p && WorkspaceOf(PolicyKey(w, p)) == w
  {
    var k := PolicyKey(w, p);
    assert k[|w|] == ':' && k[|w| + 1..] == p && k[..|w|] == w;
    assert forall j :: |w| < j < |k| ==> k[j] == p[j - |w| - 1];
    assert LastColon(k) == |w|;
  }

  lemma JoinKey(k: string)
    requires ':' in k
    ensures k == PolicyKey(WorkspaceOf(k), OwnerOf(k)) && ':' !in OwnerOf(k)
  {
    assert k == k[..LastColon(k)] + [k[LastColon(k)]] + k[LastColon(k) + 1..];
  }

  // ---- Ordered entries

  function Get(entries: seq<Entry>, key: string): Option<string> {
    if entries == [] then None
    else if entries[0].key == key then Some(entries[0].data)
    else Get(entries[1..], key)
  }

  function Put(entries: seq<Entry>, key: string, data: string): seq<Entry> {
    if entries == [] then [Entry(key, data)]
    else if entries[0].key == key then [Entry(key, data)] + entries[1..]
    else [entries[0]] + Put(entries[1..], key, data)
  }

  function Remove(entries: seq<Entry>, key: string): seq<Entry> {
    if entries == [] then []
    else if entries[0].key == key then entries[1..]
    else [entries[0]] + Remove(entries[1..], key)
  }

  /** One principal's entries, under the ids without the prefix. */
  function Mine(entries: seq<Entry>, p: Principal): seq<Entry> {
    if entries == [] then []
    else (if StartsWith(entries[0].key, p + ":") then [Entry(entries[0].key[|p| + 1..], entries[0].data)] else [])
         + Mine(entries[1..], p)
  }

  function KeysOf(entries: seq<Entry>): seq<string> {
    seq(|entries|, i requires 0 <= i < |entries| => entries[i].key)
  }

  lemma Rejoin(p: Principal, key: string, id: string)
    requires Slug(p) && StartsWith(key, p + ":")
    ensures key[|p| + 1..] == id <==> key == Scoped(p, id)
  {
    assert key == key[..|p| + 1] + key[|p| + 1..];
    if key == Scoped(p, id) {
      ScopedOwner(p, p, id);
    }
  }

  /** One entry seen by `p`: under its id, or not at all. */
  function Under(e: Entry, p: Principal): seq<Entry> {
    if StartsWith(e.key, p + ":") then [Entry(e.key[|p| + 1..], e.data)] else []
  }

  lemma MineCons(e: Entry, rest: seq<Entry>, p: Principal)
    ensures Mine([e] + rest, p) == Under(e, p) + Mine(rest, p)
  {
    assert ([e] + rest)[1..] == rest;
  }

  lemma UnderScoped(p: Principal, id: string, data: string, q: Principal)
    requires Slug(p) && Slug(q)
    ensures Under(Entry(Scoped(p, id), data), q) == if p == q then [Entry(id, data)] else []
  {
    ScopedOwner(p, q, id);
  }

  /** An entry under another key is not found under this one. */
  lemma UnderOther(e: Entry, p: Principal, id: string)
    requires Slug(p) && e.key != Scoped(p, id)
    ensures Under(e, p) == [] || (Under(e, p) == [Under(e, p)[0]] && Under(e, p)[0].key != id)
  {
    if StartsWith(e.key, p + ":") {
      Rejoin(p, e.key, id);
    }
  }

  lemma FirstOf(entries: seq<Entry>)
    requires entries != []
    ensures entries == [entries[0]] + entries[1..]
  {
  }

  lemma GetCons(e: Entry, rest: seq<Entry>, key: string)
    ensures Get([e] + rest, key) == if e.key == key then Some(e.data) else Get(rest, key)
    ensures forall data :: Put([e] + rest, key, data) == if e.key == key then [Entry(key, data)] + rest else [e] + Put(rest, key, data)
    ensures Remove([e] + rest, key) == if e.key == key then rest else [e] + Remove(rest, key)
  {
    assert ([e] + rest)[1..] == rest;
  }

  lemma {:induction false} MineGet(entries: seq<Entry>, p: Principal, id: string)
    requires Slug(p)
    ensures Get(entries, Scoped(p, id)) == Get(Mine(entries, p), id)
  {
    if entries != [] {
      var e, rest := entries[0], entries[1..];
      MineGet(rest, p, id);
      FirstOf(entries);
      MineCons(e, rest, p);
      if e.key == Scoped(p, id) {
        UnderScoped(p, id, e.data, p);
        GetCons(Entry(id, e.data), Mine(rest, p), id);
      } else {
        UnderOther(e, p, id);
        if Under(e, p) == [] {
          assert [] + Mine(rest, p) == Mine(rest, p);
        } else {
          GetCons(Under(e, p)[0], Mine(rest, p), id);
        }
      }
    }
  }

  lemma {:induction false} MinePut(entries: seq<Entry>, p: Principal, id: string, data: string, q: Principal)
    requires Slug(p) && Slug(q)
    ensures Mine(Put(entries, Scoped(p, id), data), q) == if p == q then Put(Mine(entries, q), id, data) else Mine(entries, q)
  {
    var added := Entry(Scoped(p, id), data);
    UnderScoped(p, id, data, q);
    if entries == [] {
      MineCons(added, [], q);
      assert [added] + [] == [added];
    } else {
      var e, rest := entries[0], entries[1..];
      MinePut(rest, p, id, data, q);
      FirstOf(entries);
      MineCons(e, rest, q);
      PutHead(e, rest, p, id, data, q);
    }
  }

  lemma PutHead(e: Entry, rest: seq<Entry>, p: Principal, id: string, data: string, q: Principal)
    requires Slug(p) && Slug(q)
    requires Mine(Put(rest, Scoped(p, id), data), q) == if p == q then Put(Mine(rest, q), id, data) else Mine(rest, q)
    ensures Mine(Put([e] + rest, Scoped(p, id), data), q)
         == if p == q then Put(Under(e, q) + Mine(rest, q), id, data) else Under(e, q) + Mine(rest, q)
  {
    GetCons(e, rest, Scoped(p, id));
    if e.key == Scoped(p, id) {
      UnderScoped(p, id, data, q);
      MineCons(Entry(Scoped(p, id), data), rest, q);
      UnderScoped(p, id, e.data, q);
      GetCons(Entry(id, e.data), Mine(rest, q), id);
    } else {
      MineCons(e, Put(rest, Scoped(p, id), data), q);
      if p == q {
        PutPast(e, Mine(rest, q), q, id, data);
      }
    }
  }

  lemma PutPast(e: Entry, mine: seq<Entry>, p: Principal, id: string, data: string)
    requires Slug(p) && e.key != Scoped(p, id)
    ensures Put(Under(e, p) + mine, id, data) == Under(e, p) + Put(mine, id, data)
  {
    UnderOther(e, p, id);
    if Under(e, p) == [] {
      assert [] + mine == mine && [] + Put(mine, id, data) == Put(mine, id, data);
    } else {
      GetCons(Under(e, p)[0], mine, id);
    }
  }

  lemma {:induction false} MineRemove(entries: seq<Entry>, p: Principal, id: string, q: Principal)
    requires Slug(p) && Slug(q)
    ensures Mine(Remove(entries, Scoped(p, id)), q) == if p == q then Remove(Mine(entries, q), id) else Mine(entries, q)
  {
    if entries != [] {
      var e, rest := entries[0], entries[1..];
      MineRemove(rest, p, id, q);
      FirstOf(entries);
      MineCons(e, rest, q);
      RemoveHead(e, rest, p, id, q);
    }
  }

  lemma RemoveHead(e: Entry, rest: seq<Entry>, p: Principal, id: string, q: Principal)
    requires Slug(p) && Slug(q)
    requires Mine(Remove(rest, Scoped(p, id)), q) == if p == q then Remove(Mine(rest, q), id) else Mine(rest, q)
    ensures Mine(Remove([e] + rest, Scoped(p, id)), q)
         == if p == q then Remove(Under(e, q) + Mine(rest, q), id) else Under(e, q) + Mine(rest, q)
  {
    GetCons(e, rest, Scoped(p, id));
    if e.key == Scoped(p, id) {
      UnderScoped(p, id, e.data, q);
      GetCons(Entry(id, e.data), Mine(rest, q), id);
    } else {
      MineCons(e, Remove(rest, Scoped(p, id)), q);
      UnderOther(e, p, id);
      if p == q && Under(e, q) == [] {
        assert forall m: seq<Entry> :: [] + m == m;
      } else if p == q {
        GetCons(Under(e, q)[0], Mine(rest, q), id);
        assert forall m: seq<Entry> :: [] + m == m;
      }
    }
  }

  // ---- One principal's private store

  datatype Store = Store(
    audit: seq<Option<string>>, policies: map<string, Snapshot>, digests: seq<Entry>, revocations: seq<string>,
    sessions: seq<Entry>, skills: seq<Skill>)

  const EMPTY: Store := Store([], map[], [], [], [], [])

  /** What is there from the start and no request changes: plain workspace snapshots and global skills. */
  datatype Base = Base(policies: map<string, Snapshot>, skills: seq<Skill>)

  function Fresh(workspace: string): Snapshot {
    Snapshot(workspace, 0, [], [])
  }

  function Stamped(caps: seq<Cap>, p: Principal): seq<Cap> {
    if caps == [] then []
    else Stamped(caps[..|caps| - 1], p) + if caps[|caps| - 1].stamp == Some(p) then [caps[|caps| - 1]] else []
  }

  predicate Acceptable(caps: seq<Cap>, p: Principal, refused: Cap -> bool) {
    forall i :: 0 <= i < |caps| ==> caps[i].stamp == Some(p) && !refused(caps[i])
  }

  function Current(policies: map<string, Snapshot>, key: string, workspace: string): Snapshot {
    if key in policies then policies[key] else Fresh(workspace)
  }

  /** What `GET /api/policy` answers: the principal's own snapshot, or else the plain one. */
  function Shown(own: map<string, Snapshot>, ownKey: string, plain: map<string, Snapshot>, workspace: string, p: Principal): Snapshot {
    var s := if ownKey in own then own[ownKey] else if workspace in plain then plain[workspace] else Fresh(workspace);
    s.(capabilities := Stamped(s.capabilities, p))
  }

  function Updated(current: Snapshot, workspace: string, expected: int, caps: seq<Cap>, mutation: Option<string>): Snapshot {
    Snapshot(workspace, expected + 1, caps,
             current.history + if mutation.Some? then [Mutation(mutation.value, expected + 1)] else [])
  }

  /** The reference: a store that only ever sees principal `p`. */
  function StoreStep(base: Base, refused: Cap -> bool, s: Store, p: Principal, r: Request): (Store, Reply) {
    match r
    case PostAudit(key) => if key in s.audit then (s, Duplicate) else (s.(audit := s.audit + [key]), Done)
    case GetPolicy(workspace) => (s, Policy(Shown(s.policies, workspace, base.policies, workspace, p)))
    case PostPolicy(workspace, expected, caps, mutation) =>
      var current := Current(s.policies, workspace, workspace);
      if current.version != expected then (s, Conflict(current))
      else if !Acceptable(caps, p, refused) then (s, Forbidden)
      else
        var next := Updated(current, workspace, expected, caps, mutation);
        (s.(policies := s.policies[workspace := next]), Policy(next))
    case GetCaps => (s, Caps(KeysOf(s.digests), s.revocations))
    case Consume(digest) =>
      if Get(s.digests, digest).Some? then (s, Consumed(false)) else (s.(digests := Put(s.digests, digest, "")), Consumed(true))
    case Revoke(filter) => (s.(revocations := s.revocations + [filter]), Done)
    case GetSessions(id) => (s, if id != "" then Session(Get(s.sessions, id)) else Sessions(KeysOf(s.sessions)))
    case PostSession(id, data) => (s.(sessions := Put(s.sessions, id, data)), Done)
    case DeleteSession(id) => (if id != "" then s.(sessions := Remove(s.sessions, id)) else s, Done)
    case GetSkills(tenant) =>
      (s, if tenant != "" && tenant != p then Forbidden else Skills(if tenant != "" then s.skills else base.skills))
    case PostSkill(name, content) => (s.(skills := s.skills + [Skill(Some(p), name, content)]), Done)
  }

  // ---- What the flat tables hold for one principal

  function AuditOf(audit: seq<Audit>, p: Principal): seq<Option<string>> {
    if audit == [] then []
    else AuditOf(audit[..|audit| - 1], p) + if audit[|audit| - 1].principal == p then [audit[|audit| - 1].key] else []
  }

  function RevocationsOf(revocations: seq<Revocation>, p: Principal): seq<string> {
    if revocations == [] then []
    else RevocationsOf(revocations[..|revocations| - 1], p)
         + if revocations[|revocations| - 1].principal == p then [revocations[|revocations| - 1].filter] else []
  }

  function SkillsOf(skills: seq<Skill>, tenant: Option<string>): seq<Skill> {
    if skills == [] then []
    else SkillsOf(skills[..|skills| - 1], tenant)
         + if skills[|skills| - 1].tenant == tenant then [skills[|skills| - 1]] else []
  }

  datatype Tables = Tables(
    audit: seq<Audit>, policies: map<string, Snapshot>, consumed: seq<Entry>, revocations: seq<Revocation>,
    sessions: seq<Entry>, skills: seq<Skill>)

  predicate PolicyAt(policies: map<string, Snapshot>, p: Principal, own: map<string, Snapshot>, w: string) {
    && (PolicyKey(w, p) in policies <==> w in own)
    && (w in own ==> policies[PolicyKey(w, p)] == own[w])
  }

  ghost predicate PoliciesOf(policies: map<string, Snapshot>, p: Principal, own: map<string, Snapshot>) {
    forall w :: PolicyAt(policies, p, own, w)
  }

  /** All of it but the policies, by which no key is listed. */
  datatype View = View(audit: seq<Option<string>>, digests: seq<Entry>, revocations: seq<string>, sessions: seq<Entry>, skills: seq<Skill>)

  function ViewOf(t: Tables, p: Principal): View {
    View(AuditOf(t.audit, p), Mine(t.consumed, p), RevocationsOf(t.revocations, p), Mine(t.sessions, p), SkillsOf(t.skills, Some(p)))
  }

  function Shape(s: Store): View {
    View(s.audit, s.digests, s.revocations, s.sessions, s.skills)
  }

  ghost predicate Holds(t: Tables, p: Principal, s: Store) {
    ViewOf(t, p) == Shape(s) && PoliciesOf(t.policies, p, s.policies)
  }

  function StoreOf(stores: map<Principal, Store>, p: Principal): Store {
    if p in stores then stores[p] else EMPTY
  }

  /** The snapshot some slug principal's store has under a key with a ':'. */
  function Stray(stores: map<Principal, Store>, k: string): Option<Snapshot> {
    if ':' in k && Slug(OwnerOf(k)) && WorkspaceOf(k) in StoreOf(stores, OwnerOf(k)).policies
    then Some(StoreOf(stores, OwnerOf(k)).policies[WorkspaceOf(k)])
    else None
  }

  /** A key is the base's, without a ':', or some principal's. */
  predicate KeyAt(policies: map<string, Snapshot>, plain: map<string, Snapshot>, stores: map<Principal, Store>, k: string) {
    if ':' !in k then (k in policies <==> k in plain) && (k in plain ==> policies[k] == plain[k])
    else k !in plain && Stray(stores, k) == if k in policies then Some(policies[k]) else None
  }

  ghost predicate Keeps(t: Tables, base: Base, stores: map<Principal, Store>) {
    SkillsOf(t.skills, None) == base.skills && forall k :: KeyAt(t.policies, base.policies, stores, k)
  }

  ghost predicate Serves(t: Tables, stores: map<Principal, Store>, p: Principal) {
    Slug(p) ==> Holds(t, p, StoreOf(stores, p))
  }

  ghost predicate Refines(t: Tables, base: Base, stores: map<Principal, Store>) {
    Keeps(t, base, stores) && forall p :: Serves(t, stores, p)
  }

  /** What is answered, exactly: the private store's reply, except to a policy read of an id that is no
      workspace of the reader's but is some principal's key. */
  function Answer(base: Base, refused: Cap -> bool, stores: map<Principal, Store>, p: Principal, r: Request): Reply {
    var own := StoreOf(stores, p);
    if r.GetPolicy? && r.workspace !in own.policies && Stray(stores, r.workspace).Some? then
      var found := Stray(stores, r.workspace).value;
      Policy(found.(capabilities := Stamped(found.capabilities, p)))
    else StoreStep(base, refused, own, p, r).1
  }

  predicate Plain(r: Request) {
    r.GetPolicy? ==> ':' !in r.workspace
  }

  class Server {
    const refused: Cap -> bool
    var auditEvents: seq<Audit>
    var policySnapshots: map<string, Snapshot>
    var consumedDigests: seq<Entry>
    var revocations: seq<Revocation>
    var sessions: seq<Entry>
    var skills: seq<Skill>
    ghost const base: Base
    ghost var stores: map<Principal, Store>

    function Now(): Tables reads this {
      Tables(auditEvents, policySnapshots, consumedDigests, revocations, sessions, skills)
    }

    ghost predicate Valid() reads this {
      Refines(Now(), base, stores)
    }

    constructor (refused: Cap -> bool, plain: map<string, Snapshot>, global: seq<Skill>)
      requires forall k :: k in plain ==> ':' !in k
      requires forall i :: 0 <= i < |global| ==> global[i].tenant.None?
      ensures Valid() && stores == map[] && base == Base(plain, global) && this.refused == refused
    {
      this.refused := refused;
      auditEvents, policySnapshots, consumedDigests, revocations, sessions, skills := [], plain, [], [], [], global;
      base, stores := Base(plain, global), map[];
      new;
      GlobalOnly(global);
      forall k ensures KeyAt(plain, plain, stores, k) {
      }
      forall p ensures Serves(Now(), stores, p) {
        forall w ensures PolicyAt(plain, p, map[], w) {
          assert PolicyKey(w, p)[|w|] == ':';
        }
      }
    }

    /** One authenticated request: each principal's tables are what its private store would be, and so is the
        answer. */
    method Handle(p: Principal, r: Request) returns (reply: Reply)
      requires Valid() && Slug(p)
      modifies this
      ensures Valid() && Steps(old(stores), stores, p, r, reply)
    {
      match r
      case PostAudit(key) => reply := WriteAudit(p, key);
      case GetPolicy(workspace) => reply := ReadPolicy(p, workspace);
      case PostPolicy(workspace, expected, caps, mutation) => reply := WritePolicy(p, workspace, expected, caps, mutation);
      case GetCaps => reply := ReadCaps(p);
      case Consume(digest) => reply := ConsumeDigest(p, digest);
      case Revoke(filter) => reply := AddRevocation(p, filter);
      case GetSessions(id) => reply := ReadSessions(p, id);
      case PostSession(id, data) => reply := WriteSession(p, id, data);
      case DeleteSession(id) => reply := DropSession(p, id);
      case GetSkills(tenant) => reply := ReadSkills(p, tenant);
      case PostSkill(name, content) => reply := WriteSkill(p, name, content);
    }

    // ---- The routes

    method WriteAudit(p: Principal, key: Option<string>) returns (reply: Reply)
      requires Valid() && Slug(p)
      modifies this`auditEvents, this`stores
      ensures Valid() && Steps(old(stores), stores, p, PostAudit(key), reply)
    {
      ghost var was, store := Now(), StoreOf(stores, p);
      Seen(was, base, stores, p);
      AuditHas(auditEvents, p, key);
      if Audit(p, key) in auditEvents {
        Unchanged(was, base, stores, p);
        stores := stores[p := store];
        return Duplicate;
      }
      AuditWritten(was, base, stores, p, key);
      auditEvents := auditEvents + [Audit(p, key)];
      stores := stores[p := store.(audit := store.audit + [key])];
      return Done;
    }

    method ReadPolicy(p: Principal, workspace: string) returns (reply: Reply)
      requires Valid() && Slug(p)
      modifies this`stores
      ensures Valid() && Steps(old(stores), stores, p, GetPolicy(workspace), reply)
    {
      Seen(Now(), base, stores, p);
      SeenPolicy(Now(), base, stores, p, workspace);
      reply := Policy(Shown(policySnapshots, PolicyKey(workspace, p), policySnapshots, workspace, p));
      Unchanged(Now(), base, stores, p);
      stores := stores[p := StoreOf(stores, p)];
    }

    method WritePolicy(p: Principal, workspace: string, expected: int, caps: seq<Cap>, mutation: Option<string>) returns (reply: Reply)
      requires Valid() && Slug(p)
      modifies this`policySnapshots, this`stores
      ensures Valid() && Steps(old(stores), stores, p, PostPolicy(workspace, expected, caps, mutation), reply)
    {
      ghost var was, store := Now(), StoreOf(stores, p);
      SeenPolicy(was, base, stores, p, workspace);
      var key := PolicyKey(workspace, p);
      var current := Current(policySnapshots, key, workspace);
      if current.version == expected && Acceptable(caps, p, refused) {
        var updated := Updated(current, workspace, expected, caps, mutation);
        PolicyWritten(was, base, stores, p, workspace, updated);
        policySnapshots := policySnapshots[key := updated];
        stores := stores[p := store.(policies := store.policies[workspace := updated])];
        return Policy(updated);
      }
      reply := if current.version != expected then Conflict(current) else Forbidden;
      Unchanged(was, base, stores, p);
      stores := stores[p := store];
    }

    method ReadCaps(p: Principal) returns (reply: Reply)
      requires Valid() && Slug(p)
      modifies this`stores
      ensures Valid() && Steps(old(stores), stores, p, GetCaps, reply)
    {
      Seen(Now(), base, stores, p);
      reply := Caps(KeysOf(Mine(consumedDigests, p)), RevocationsOf(revocations, p));
      Unchanged(Now(), base, stores, p);
      stores := stores[p := StoreOf(stores, p)];
    }

    method ConsumeDigest(p: Principal, digest: string) returns (reply: Reply)
      requires Valid() && Slug(p)
      modifies this`consumedDigests, this`stores
      ensures Valid() && Steps(old(stores), stores, p, Consume(digest), reply)
    {
      ghost var was, store := Now(), StoreOf(stores, p);
      Seen(was, base, stores, p);
      MineGet(consumedDigests, p, digest);
      if Get(consumedDigests, Scoped(p, digest)).Some? {
        Unchanged(was, base, stores, p);
        stores := stores[p := store];
        return Consumed(false);
      }
      DigestWritten(was, base, stores, p, digest);
      consumedDigests := Put(consumedDigests, Scoped(p, digest), "");
      stores := stores[p := store.(digests := Put(store.digests, digest, ""))];
      return Consumed(true);
    }

    method AddRevocation(p: Principal, filter: string) returns (reply: Reply)
      requires Valid() && Slug(p)
      modifies this`revocations, this`stores
      ensures Valid() && Steps(old(stores), stores, p, Revoke(filter), reply)
    {
      ghost var was, store := Now(), StoreOf(stores, p);
      RevocationWritten(was, base, stores, p, filter);
      revocations := revocations + [Revocation(p, filter)];
      stores := stores[p := store.(revocations := store.revocations + [filter])];
      return Done;
    }

    method ReadSessions(p: Principal, id: string) returns (reply: Reply)
      requires Valid() && Slug(p)
      modifies this`stores
      ensures Valid() && Steps(old(stores), stores, p, GetSessions(id), reply)
    {
      Seen(Now(), base, stores, p);
      MineGet(sessions, p, id);
      reply := if id != "" then Session(Get(sessions, Scoped(p, id))) else Sessions(KeysOf(Mine(sessions, p)));
      Unchanged(Now(), base, stores, p);
      stores := stores[p := StoreOf(stores, p)];
    }

    method WriteSession(p: Principal, id: string, data: string) returns (reply: Reply)
      requires Valid() && Slug(p)
      modifies this`sessions, this`stores
      ensures Valid() && Steps(old(stores), stores, p, PostSession(id, data), reply)
    {
      ghost var was, store := Now(), StoreOf(stores, p);
      SessionWritten(was, base, stores, p, id, data);
      sessions := Put(sessions, Scoped(p, id), data);
      stores := stores[p := store.(sessions := Put(store.sessions, id, data))];
      return Done;
    }

    method DropSession(p: Principal, id: string) returns (reply: Reply)
      requires Valid() && Slug(p)
      modifies this`sessions, this`stores
      ensures Valid() && Steps(old(stores), stores, p, DeleteSession(id), reply)
    {
      ghost var was, store := Now(), StoreOf(stores, p);
      if id != "" {
        SessionDropped(was, base, stores, p, id);
        sessions := Remove(sessions, Scoped(p, id));
        stores := stores[p := store.(sessions := Remove(store.sessions, id))];
      } else {
        Unchanged(was, base, stores, p);
        stores := stores[p := store];
      }
      return Done;
    }

    method ReadSkills(p: Principal, tenant: string) returns (reply: Reply)
      requires Valid() && Slug(p)
      modifies this`stores
      ensures Valid() && Steps(old(stores), stores, p, GetSkills(tenant), reply)
    {
      Seen(Now(), base, stores, p);
      if tenant != "" && tenant != p {
        reply := Forbidden;
      } else {
        reply := Skills(SkillsOf(skills, if tenant != "" then Some(tenant) else None));
      }
      Unchanged(Now(), base, stores, p);
      stores := stores[p := StoreOf(stores, p)];
    }

    method WriteSkill(p: Principal, name: string, content: string) returns (reply: Reply)
      requires Valid() && Slug(p)
      modifies this`skills, this`stores
      ensures Valid() && Steps(old(stores), stores, p, PostSkill(name, content), reply)
    {
      ghost var was, store := Now(), StoreOf(stores, p);
      var skill := Skill(Some(p), name, content);
      SkillWritten(was, base, stores, p, skill);
      skills := skills + [skill];
      assert Now() == was.(skills := was.skills + [skill]);
      stores := stores[p := store.(skills := store.skills + [skill])];
      return Done;
    }

    /** What `Handle` promises of one request. */
    ghost predicate Steps(before: map<Principal, Store>, after: map<Principal, Store>, p: Principal, r: Request, reply: Reply) {
      && after == before[p := StoreStep(base, refused, StoreOf(before, p), p, r).0]
      && reply == Answer(base, refused, before, p, r)
    }
  }

  // ---- One table at a time

  lemma PutForAll(entries: seq<Entry>, p: Principal, id: string, data: string)
    requires Slug(p)
    ensures Mine(Put(entries, Scoped(p, id), data), p) == Put(Mine(entries, p), id, data)
    ensures forall q :: Slug(q) && q != p ==> Mine(Put(entries, Scoped(p, id), data), q) == Mine(entries, q)
  {
    forall q | Slug(q) { MinePut(entries, p, id, data, q); }
  }

  lemma RemoveForAll(entries: seq<Entry>, p: Principal, id: string)
    requires Slug(p)
    ensures Mine(Remove(entries, Scoped(p, id)), p) == Remove(Mine(entries, p), id)
    ensures forall q :: Slug(q) && q != p ==> Mine(Remove(entries, Scoped(p, id)), q) == Mine(entries, q)
  {
    forall q | Slug(q) { MineRemove(entries, p, id, q); }
  }

  /** A request that leaves the policies alone. */
  lemma Stepped(was: Tables, now: Tables, base: Base, stores: map<Principal, Store>, p: Principal, store: Store)
    requires Refines(was, base, stores) && Slug(p)
    requires now.policies == was.policies && store.policies == StoreOf(stores, p).policies
    requires SkillsOf(now.skills, None) == SkillsOf(was.skills, None)
    requires ViewOf(now, p) == Shape(store)
    requires forall q :: Slug(q) && q != p ==> ViewOf(now, q) == ViewOf(was, q)
    ensures Refines(now, base, stores[p := store])
  {
    var after := stores[p := store];
    forall q ensures Serves(now, after, q) {
      assert Serves(was, stores, q);
    }
    forall k ensures KeyAt(now.policies, base.policies, after, k) {
      assert KeyAt(was.policies, base.policies, stores, k);
    }
  }

  lemma Seen(t: Tables, base: Base, stores: map<Principal, Store>, p: Principal)
    requires Refines(t, base, stores) && Slug(p)
    ensures ViewOf(t, p) == Shape(StoreOf(stores, p))
    ensures SkillsOf(t.skills, None) == base.skills
  {
    assert Serves(t, stores, p);
  }

  lemma Unchanged(t: Tables, base: Base, stores: map<Principal, Store>, p: Principal)
    requires Refines(t, base, stores) && Slug(p)
    ensures Refines(t, base, stores[p := StoreOf(stores, p)])
  {
    Seen(t, base, stores, p);
    Stepped(t, t, base, stores, p, StoreOf(stores, p));
  }

  lemma SeenPolicy(t: Tables, base: Base, stores: map<Principal, Store>, p: Principal, w: string)
    requires Refines(t, base, stores) && Slug(p)
    ensures Current(t.policies, PolicyKey(w, p), w) == Current(StoreOf(stores, p).policies, w, w)
    ensures PolicyKey(w, p) in t.policies <==> w in StoreOf(stores, p).policies
    ensures KeyAt(t.policies, base.policies, stores, w)
  {
    assert Serves(t, stores, p);
    assert PolicyAt(t.policies, p, StoreOf(stores, p).policies, w);
  }

  lemma {:induction false} AuditHas(audit: seq<Audit>, p: Principal, key: Option<string>)
    ensures Audit(p, key) in audit <==> key in AuditOf(audit, p)
  {
    if audit != [] {
      AuditHas(audit[..|audit| - 1], p, key);
    }
  }

  lemma AuditAdded(audit: seq<Audit>, a: Audit)
    ensures forall q :: AuditOf(audit + [a], q) == AuditOf(audit, q) + if a.principal == q then [a.key] else []
  {
    assert (audit + [a])[..|audit|] == audit;
  }

  lemma RevocationAdded(revocations: seq<Revocation>, r: Revocation)
    ensures forall q :: RevocationsOf(revocations + [r], q) == RevocationsOf(revocations, q) + if r.principal == q then [r.filter] else []
  {
    assert (revocations + [r])[..|revocations|] == revocations;
  }

  lemma SkillAdded(skills: seq<Skill>, k: Skill, tenant: Option<string>)
    ensures SkillsOf(skills + [k], tenant) == if k.tenant == tenant then SkillsOf(skills, tenant) + [k] else SkillsOf(skills, tenant)
  {
    assert (skills + [k])[..|skills|] == skills;
  }

  lemma AuditWritten(t: Tables, base: Base, stores: map<Principal, Store>, p: Principal, key: Option<string>)
    requires Refines(t, base, stores) && Slug(p)
    ensures var store := StoreOf(stores, p);
            Refines(t.(audit := t.audit + [Audit(p, key)]), base, stores[p := store.(audit := store.audit + [key])])
  {
    Seen(t, base, stores, p);
    AuditAdded(t.audit, Audit(p, key));
    var store := StoreOf(stores, p);
    Stepped(t, t.(audit := t.audit + [Audit(p, key)]), base, stores, p, store.(audit := store.audit + [key]));
  }

  lemma DigestWritten(t: Tables, base: Base, stores: map<Principal, Store>, p: Principal, digest: string)
    requires Refines(t, base, stores) && Slug(p)
    ensures var store := StoreOf(stores, p);
            Refines(t.(consumed := Put(t.consumed, Scoped(p, digest), "")), base,
                    stores[p := store.(digests := Put(store.digests, digest, ""))])
  {
    Seen(t, base, stores, p);
    PutForAll(t.consumed, p, digest, "");
    var store := StoreOf(stores, p);
    Stepped(t, t.(consumed := Put(t.consumed, Scoped(p, digest), "")), base, stores, p,
            store.(digests := Put(store.digests, digest, "")));
  }

  lemma RevocationWritten(t: Tables, base: Base, stores: map<Principal, Store>, p: Principal, filter: string)
    requires Refines(t, base, stores) && Slug(p)
    ensures var store := StoreOf(stores, p);
            Refines(t.(revocations := t.revocations + [Revocation(p, filter)]), base,
                    stores[p := store.(revocations := store.revocations + [filter])])
  {
    Seen(t, base, stores, p);
    RevocationAdded(t.revocations, Revocation(p, filter));
    var store := StoreOf(stores, p);
    Stepped(t, t.(revocations := t.revocations + [Revocation(p, filter)]), base, stores, p,
            store.(revocations := store.revocations + [filter]));
  }

  lemma SessionWritten(t: Tables, base: Base, stores: map<Principal, Store>, p: Principal, id: string, data: string)
    requires Refines(t, base, stores) && Slug(p)
    ensures var store := StoreOf(stores, p);
            Refines(t.(sessions := Put(t.sessions, Scoped(p, id), data)), base,
                    stores[p := store.(sessions := Put(store.sessions, id, data))])
  {
    Seen(t, base, stores, p);
    PutForAll(t.sessions, p, id, data);
    var store := StoreOf(stores, p);
    Stepped(t, t.(sessions := Put(t.sessions, Scoped(p, id), data)), base, stores, p,
            store.(sessions := Put(store.sessions, id, data)));
  }

  lemma SessionDropped(t: Tables, base: Base, stores: map<Principal, Store>, p: Principal, id: string)
    requires Refines(t, base, stores) && Slug(p)
    ensures var store := StoreOf(stores, p);
            Refines(t.(sessions := Remove(t.sessions, Scoped(p, id))), base,
                    stores[p := store.(sessions := Remove(store.sessions, id))])
  {
    Seen(t, base, stores, p);
    RemoveForAll(t.sessions, p, id);
    var store := StoreOf(stores, p);
    Stepped(t, t.(sessions := Remove(t.sessions, Scoped(p, id))), base, stores, p,
            store.(sessions := Remove(store.sessions, id)));
  }

  lemma {:induction false} SkillWritten(t: Tables, base: Base, stores: map<Principal, Store>, p: Principal, skill: Skill)
    requires Refines(t, base, stores) && Slug(p) && skill.tenant == Some(p)
    ensures var store := StoreOf(stores, p);
            Refines(t.(skills := t.skills + [skill]), base, stores[p := store.(skills := store.skills + [skill])])
  {
    Seen(t, base, stores, p);
    var store, now := StoreOf(stores, p), t.(skills := t.skills + [skill]);
    SkillAdded(t.skills, skill, None);
    SkillAdded(t.skills, skill, Some(p));
    forall q | Slug(q) && q != p ensures ViewOf(now, q) == ViewOf(t, q) {
      SkillAdded(t.skills, skill, Some(q));
    }
    Stepped(t, now, base, stores, p, store.(skills := store.skills + [skill]));
  }

  lemma PolicyWritten(t: Tables, base: Base, stores: map<Principal, Store>, p: Principal, w: string, next: Snapshot)
    requires Refines(t, base, stores) && Slug(p)
    ensures var store := StoreOf(stores, p);
            Refines(t.(policies := t.policies[PolicyKey(w, p) := next]), base,
                    stores[p := store.(policies := store.policies[w := next])])
  {
    var key, store := PolicyKey(w, p), StoreOf(stores, p);
    var now, after := t.(policies := t.policies[key := next]), stores[p := store.(policies := store.policies[w := next])];
    forall k ensures KeyAt(now.policies, base.policies, after, k) {
      KeyWritten(t.policies, base, stores, p, w, next, k);
    }
    forall q ensures Serves(now, after, q) {
      assert Serves(t, stores, q);
      if Slug(q) {
        assert ViewOf(now, q) == ViewOf(t, q);
        PolicyPut(t.policies, p, w, next, q, StoreOf(stores, q).policies);
      }
    }
  }

  lemma KeyWritten(policies: map<string, Snapshot>, base: Base, stores: map<Principal, Store>, p: Principal, w: string,
                   next: Snapshot, k: string)
    requires Slug(p) && KeyAt(policies, base.policies, stores, k)
    ensures var store := StoreOf(stores, p);
            KeyAt(policies[PolicyKey(w, p) := next], base.policies, stores[p := store.(policies := store.policies[w := next])], k)
  {
    SplitKey(w, p);
    if ':' in k {
      JoinKey(k);
    }
  }

  lemma PolicyPut(policies: map<string, Snapshot>, p: Principal, w: string, next: Snapshot, q: Principal, own: map<string, Snapshot>)
    requires Slug(p) && Slug(q) && PoliciesOf(policies, q, own)
    ensures PoliciesOf(policies[PolicyKey(w, p) := next], q, if p == q then own[w := next] else own)
  {
    var policies', own' := policies[PolicyKey(w, p) := next], if p == q then own[w := next] else own;
    forall v ensures PolicyAt(policies', q, own', v) {
      assert PolicyAt(policies, q, own, v);
      if PolicyKey(v, q) == PolicyKey(w, p) {
        PolicyKeyOwner(w, p, v, q);
      }
    }
  }

  lemma {:induction false} GlobalOnly(skills: seq<Skill>)
    requires forall i :: 0 <= i < |skills| ==> skills[i].tenant.None?
    ensures SkillsOf(skills, None) == skills && forall p :: SkillsOf(skills, Some(p)) == []
  {
    if skills != [] {
      GlobalOnly(skills[..|skills| - 1]);
      assert skills == skills[..|skills| - 1] + [skills[|skills| - 1]];
    }
  }

  // ---- Whole histories: no principal can tell the others are there

  datatype Sent = Sent(principal: Principal, request: Request)

  /** The private stores after a history, and the replies in order. */
  function After(base: Base, refused: Cap -> bool, history: seq<Sent>): map<Principal, Store> {
    if history == [] then map[]
    else
      var before, last := After(base, refused, history[..|history| - 1]), history[|history| - 1];
      before[last.principal := StoreStep(base, refused, StoreOf(before, last.principal), last.principal, last.request).0]
  }

  function Replies(base: Base, refused: Cap -> bool, history: seq<Sent>, p: Principal): seq<Reply> {
    if history == [] then []
    else
      var before, last := history[..|history| - 1], history[|history| - 1];
      Replies(base, refused, before, p)
        + if last.principal == p then [StoreStep(base, refused, StoreOf(After(base, refused, before), p), p, last.request).1] else []
  }

  function OnlyOf(history: seq<Sent>, p: Principal): seq<Sent> {
    if history == [] then []
    else OnlyOf(history[..|history| - 1], p) + if history[|history| - 1].principal == p then [history[|history| - 1]] else []
  }

  /** The replies a principal gets are those it would get if it were alone. */
  lemma {:induction false} Alone(base: Base, refused: Cap -> bool, history: seq<Sent>, p: Principal)
    ensures Replies(base, refused, history, p) == Replies(base, refused, OnlyOf(history, p), p)
    ensures StoreOf(After(base, refused, history), p) == StoreOf(After(base, refused, OnlyOf(history, p)), p)
  {
    if history != [] {
      var before, last := history[..|history| - 1], history[|history| - 1];
      Alone(base, refused, before, p);
      if last.principal == p {
        var mine := OnlyOf(before, p);
        assert (mine + [last])[..|mine|] == mine;
      } else {
        assert OnlyOf(history, p) == OnlyOf(before, p);
      }
    }
  }

  /** A store's snapshots: each of its own workspace, written at least once, holding only capabilities stamped
      with the principal and none refused. */
  ghost predicate Sound(s: Store, p: Principal, refused: Cap -> bool) {
    forall w :: w in s.policies ==>
      && s.policies[w].workspace == w && s.policies[w].version >= 1
      && Acceptable(s.policies[w].capabilities, p, refused)
  }

  lemma {:induction false} StampsKept(base: Base, refused: Cap -> bool, history: seq<Sent>, p: Principal)
    ensures Sound(StoreOf(After(base, refused, history), p), p, refused)
  {
    if history != [] {
      StampsKept(base, refused, history[..|history| - 1], p);
    }
  }

  /** Versions go up by one, and only with an accepted write, which appends its mutation. */
  lemma VersionsRise(base: Base, refused: Cap -> bool, s: Store, p: Principal, r: Request, w: string)
    ensures var (t, reply) := StoreStep(base, refused, s, p, r);
            var was, now := Current(s.policies, w, w), Current(t.policies, w, w);
            if r.PostPolicy? && r.workspace == w && reply.Policy? then
              && now.version == was.version + 1 == r.expected + 1 && now.capabilities == r.capabilities
              && now.history == was.history + if r.mutation.Some? then [Mutation(r.mutation.value, now.version)] else []
            else now == was
  {
  }

  /** A digest is won once per principal: after a consume, every later one by the same principal loses. */
  lemma ConsumedStays(base: Base, refused: Cap -> bool, s: Store, p: Principal, r: Request, digest: string)
    ensures Get(s.digests, digest).Some? || r == Consume(digest) ==> Get(StoreStep(base, refused, s, p, r).0.digests, digest).Some?
    ensures Get(s.digests, digest).Some? && r == Consume(digest) ==> StoreStep(base, refused, s, p, r).1 == Consumed(false)
  {
    if r.Consume? {
      PutKeeps(s.digests, r.digest, "", digest);
    }
  }

  lemma {:induction false} PutKeeps(entries: seq<Entry>, key: string, data: string, other: string)
    ensures Get(Put(entries, key, data), key) == Some(data)
    ensures other != key ==> Get(Put(entries, key, data), other) == Get(entries, other)
  {
    if entries != [] && entries[0].key != key {
      PutKeeps(entries[1..], key, data, other);
      assert ([entries[0]] + Put(entries[1..], key, data))[1..] == Put(entries[1..], key, data);
    } else if entries != [] {
      assert ([Entry(key, data)] + entries[1..])[1..] == entries[1..];
    }
  }

  // ---- The server over whole histories

  predicate AnsweredAt(base: Base, refused: Cap -> bool, history: seq<Sent>, replies: seq<Reply>, i: nat)
    requires i < |history| == |replies|
  {
    replies[i] == Answer(base, refused, After(base, refused, history[..i]), history[i].principal, history[i].request)
  }

  ghost predicate Answered(base: Base, refused: Cap -> bool, history: seq<Sent>, replies: seq<Reply>) {
    |replies| == |history| && forall i :: 0 <= i < |history| ==> AnsweredAt(base, refused, history, replies, i)
  }

  lemma AnsweredBefore(base: Base, refused: Cap -> bool, history: seq<Sent>, replies: seq<Reply>)
    requires Answered(base, refused, history, replies) && history != []
    ensures Answered(base, refused, history[..|history| - 1], replies[..|replies| - 1])
  {
    var before, said := history[..|history| - 1], replies[..|replies| - 1];
    forall i | 0 <= i < |before| ensures AnsweredAt(base, refused, before, said, i) {
      assert AnsweredAt(base, refused, history, replies, i);
      assert before[..i] == history[..i];
    }
  }

  /** The replies one principal got, in order. */
  function RepliesTo(history: seq<Sent>, replies: seq<Reply>, p: Principal): seq<Reply>
    requires |replies| == |history|
  {
    if history == [] then []
    else
      RepliesTo(history[..|history| - 1], replies[..|replies| - 1], p)
      + if history[|history| - 1].principal == p then [replies[|replies| - 1]] else []
  }

  /** How many of a principal's writes to a workspace were accepted. */
  function Accepted(history: seq<Sent>, replies: seq<Reply>, p: Principal, w: string): nat
    requires |replies| == |history|
  {
    if history == [] then 0
    else
      var last := history[|history| - 1];
      Accepted(history[..|history| - 1], replies[..|replies| - 1], p, w)
      + if last.principal == p && last.request.PostPolicy? && last.request.workspace == w && replies[|replies| - 1].Policy?
        then 1 else 0
  }

  predicate PlainFor(history: seq<Sent>, p: Principal) {
    forall i :: 0 <= i < |history| && history[i].principal == p ==> Plain(history[i].request)
  }

  lemma {:induction false} RepliesAreReplies(base: Base, refused: Cap -> bool, history: seq<Sent>, replies: seq<Reply>, p: Principal)
    requires Answered(base, refused, history, replies) && PlainFor(history, p)
    ensures RepliesTo(history, replies, p) == Replies(base, refused, history, p)
  {
    if history != [] {
      AnsweredBefore(base, refused, history, replies);
      RepliesAreReplies(base, refused, history[..|history| - 1], replies[..|replies| - 1], p);
      assert AnsweredAt(base, refused, history, replies, |history| - 1);
    }
  }

  /** The version is the number of writes accepted so far. */
  lemma {:induction false} VersionCounts(base: Base, refused: Cap -> bool, history: seq<Sent>, replies: seq<Reply>, p: Principal, w: string)
    requires Answered(base, refused, history, replies)
    ensures Current(StoreOf(After(base, refused, history), p).policies, w, w).version == Accepted(history, replies, p, w)
  {
    if history != [] {
      var before, last := history[..|history| - 1], history[|history| - 1];
      AnsweredBefore(base, refused, history, replies);
      VersionCounts(base, refused, before, replies[..|replies| - 1], p, w);
      assert AnsweredAt(base, refused, history, replies, |history| - 1);
      VersionsRise(base, refused, StoreOf(After(base, refused, before), p), p, last.request, w);
    }
  }

  /** A digest that a principal asked for is in its store from then on. */
  lemma {:induction false} DigestStays(base: Base, refused: Cap -> bool, history: seq<Sent>, p: Principal, digest: string, i: nat)
    requires i < |history| && history[i] == Sent(p, Consume(digest))
    ensures Get(StoreOf(After(base, refused, history), p).digests, digest).Some?
  {
    var before, last := history[..|history| - 1], history[|history| - 1];
    if i < |before| {
      DigestStays(base, refused, before, p, digest, i);
    }
    ConsumedStays(base, refused, StoreOf(After(base, refused, before), p), p, last.request, digest);
  }

  ghost predicate WonOnce(history: seq<Sent>, replies: seq<Reply>)
    requires |replies| == |history|
  {
    forall i, j :: 0 <= i < j < |history| && history[i] == history[j] && history[j].request.Consume? ==>
      replies[j] == Consumed(false)
  }

  lemma LostAgain(base: Base, refused: Cap -> bool, history: seq<Sent>, replies: seq<Reply>)
    requires Answered(base, refused, history, replies)
    ensures WonOnce(history, replies)
  {
    forall i, j | 0 <= i < j < |history| && history[i] == history[j] && history[j].request.Consume?
      ensures replies[j] == Consumed(false)
    {
      var p, r, before := history[j].principal, history[j].request, history[..j];
      assert before[i] == history[i] && AnsweredAt(base, refused, history, replies, j);
      DigestStays(base, refused, before, p, r.digest, i);
      ConsumedStays(base, refused, StoreOf(After(base, refused, before), p), p, r, r.digest);
    }
  }

  /** What the server holds under a principal's composite key. */
  ghost predicate KeyedRight(policies: map<string, Snapshot>, history: seq<Sent>, replies: seq<Reply>, refused: Cap -> bool,
                             p: Principal, w: string)
    requires |replies| == |history|
  {
    && Current(policies, PolicyKey(w, p), w).version == Accepted(history, replies, p, w)
    && (PolicyKey(w, p) in policies ==> policies[PolicyKey(w, p)].workspace == w
                                        && Acceptable(policies[PolicyKey(w, p)].capabilities, p, refused))
  }

  /** A server fed any history of slug principals' requests. A principal whose policy reads name no ':' gets the
      replies it would get if it were alone; a digest is won once; and under each composite key is a snapshot
      stamped with its principal whose version counts the writes accepted. */
  method Serve(refused: Cap -> bool, plain: map<string, Snapshot>, global: seq<Skill>, history: seq<Sent>)
    returns (replies: seq<Reply>, now: Tables)
    requires forall k :: k in plain ==> ':' !in k
    requires forall i :: 0 <= i < |global| ==> global[i].tenant.None?
    requires forall i :: 0 <= i < |history| ==> Slug(history[i].principal)
    ensures Answered(Base(plain, global), refused, history, replies)
    ensures forall p :: PlainFor(history, p) ==>
              RepliesTo(history, replies, p) == Replies(Base(plain, global), refused, OnlyOf(history, p), p)
    ensures WonOnce(history, replies)
    ensures forall p, w :: Slug(p) ==> KeyedRight(now.policies, history, replies, refused, p, w)
  {
    ghost var base := Base(plain, global);
    var server := new Server(refused, plain, global);
    replies := [];
    for i := 0 to |history|
      invariant fresh(server) && server.Valid() && server.base == base && server.refused == refused
      invariant server.stores == After(base, refused, history[..i])
      invariant Answered(base, refused, history[..i], replies)
    {
      var reply := server.Handle(history[i].principal, history[i].request);
      AnsweredNext(base, refused, history[..i], replies, history[i], reply);
      assert history[..i + 1] == history[..i] + [history[i]];
      replies := replies + [reply];
    }
    assert history[..|history|] == history;
    now := server.Now();
    forall p | PlainFor(history, p)
      ensures RepliesTo(history, replies, p) == Replies(base, refused, OnlyOf(history, p), p)
    {
      RepliesAreReplies(base, refused, history, replies, p);
      Alone(base, refused, history, p);
    }
    LostAgain(base, refused, history, replies);
    forall p, w | Slug(p) ensures KeyedRight(now.policies, history, replies, refused, p, w) {
      KeyedAfter(now, base, refused, history, replies, p, w);
    }
  }

  lemma AnsweredNext(base: Base, refused: Cap -> bool, history: seq<Sent>, replies: seq<Reply>, sent: Sent, reply: Reply)
    requires Answered(base, refused, history, replies)
    requires reply == Answer(base, refused, After(base, refused, history), sent.principal, sent.request)
    ensures Answered(base, refused, history + [sent], replies + [reply])
    ensures var stores := After(base, refused, history);
            After(base, refused, history + [sent]) ==
              stores[sent.principal := StoreStep(base, refused, StoreOf(stores, sent.principal), sent.principal, sent.request).0]
  {
    var all, said := history + [sent], replies + [reply];
    assert all[..|history|] == history;
    forall i | 0 <= i < |all| ensures AnsweredAt(base, refused, all, said, i) {
      if i < |history| {
        assert AnsweredAt(base, refused, history, replies, i) && all[..i] == history[..i];
      }
    }
  }

  lemma KeyedAfter(t: Tables, base: Base, refused: Cap -> bool, history: seq<Sent>, replies: seq<Reply>, p: Principal, w: string)
    requires Refines(t, base, After(base, refused, history)) && Answered(base, refused, history, replies) && Slug(p)
    ensures KeyedRight(t.policies, history, replies, refused, p, w)
  {
    SeenPolicy(t, base, After(base, refused, history), p, w);
    VersionCounts(base, refused, history, replies, p, w);
    StampsKept(base, refused, history, p);
  }

  // ---- Where the private store's reply is not given

  lemma {:induction false} NoneStamped(caps: seq<Cap>, p: Principal, q: Principal, refused: Cap -> bool)
    requires Acceptable(caps, q, refused)
    ensures Stamped(caps, p) == if p == q then caps else []
  {
    if caps != [] {
      NoneStamped(caps[..|caps| - 1], p, q, refused);
      assert caps == caps[..|caps| - 1] + [caps[|caps| - 1]];
    }
  }

  /** A policy read is answered otherwise than by the private store exactly when the id is none of the reader's
      workspaces and is spelled like the key of a snapshot some slug principal has. It then shows that
      snapshot's version and mutations, and its capabilities only to their owner. */
  lemma ColonReadsExactly(base: Base, refused: Cap -> bool, history: seq<Sent>, p: Principal, w: string)
    requires forall k :: k in base.policies ==> ':' !in k
    ensures var stores := After(base, refused, history);
            var own, said := StoreOf(stores, p), Answer(base, refused, stores, p, GetPolicy(w));
            && (said != StoreStep(base, refused, own, p, GetPolicy(w)).1 <==>
                w !in own.policies && exists v, q :: Slug(q) && w == PolicyKey(v, q) && v in StoreOf(stores, q).policies)
            && forall v, q :: Slug(q) && w == PolicyKey(v, q) && v in StoreOf(stores, q).policies && w !in own.policies ==>
                 var found := StoreOf(stores, q).policies[v];
                 said == Policy(if p == q then found else found.(capabilities := [])) && found.version >= 1
  {
    var stores := After(base, refused, history);
    var own, said := StoreOf(stores, p), Answer(base, refused, stores, p, GetPolicy(w));
    forall v, q | Slug(q) && w == PolicyKey(v, q) && v in StoreOf(stores, q).policies && w !in own.policies
      ensures var found := StoreOf(stores, q).policies[v];
              said == Policy(if p == q then found else found.(capabilities := [])) && found.version >= 1
      ensures said != StoreStep(base, refused, own, p, GetPolicy(w)).1
    {
      SplitKey(v, q);
      StampsKept(base, refused, history, q);
      NoneStamped(StoreOf(stores, q).policies[v].capabilities, p, q, refused);
    }
    if Stray(stores, w).Some? {
      JoinKey(w);
    }
  }

  /** Reading the version and writing at it conflicts exactly while the principal has no snapshot of its own and
      the read falls through to one with a version above zero: the plain one, or another key's. */
  lemma ReadThenWrite(base: Base, refused: Cap -> bool, history: seq<Sent>, p: Principal, w: string, caps: seq<Cap>, m: Option<string>)
    requires forall k :: k in base.policies ==> ':' !in k
    ensures var stores := After(base, refused, history);
            var read := Answer(base, refused, stores, p, GetPolicy(w)).snapshot.version;
            Answer(base, refused, stores, p, PostPolicy(w, read, caps, m)).Conflict? <==>
              && w !in StoreOf(stores, p).policies
              && ((w in base.policies && base.policies[w].version != 0) || Stray(stores, w).Some?)
  {
    var stores := After(base, refused, history);
    if Stray(stores, w).Some? {
      StampsKept(base, refused, history, OwnerOf(w));
    }
  }

  /** The same of the tables. */
  method ReadAndWrite(server: Server, p: Principal, w: string, caps: seq<Cap>, m: Option<string>) returns (reply: Reply)
    requires server.Valid() && Slug(p)
    modifies server
    ensures server.Valid()
    ensures var policies := old(server.policySnapshots);
            reply.Conflict? <==> PolicyKey(w, p) !in policies && w in policies && policies[w].version != 0
  {
    SeenPolicy(server.Now(), server.base, server.stores, p, w);
    var read := server.Handle(p, GetPolicy(w));
    reply := server.Handle(p, PostPolicy(w, read.snapshot.version, caps, m));
  }
}
