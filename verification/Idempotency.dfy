/** The idempotency interceptor as a write-once response cache shared by concurrent requests. */
module Idempotency {
  import opened Types
  import Text

  /** Scope of a stored response: the tenant and the trimmed header value. */
  datatype Scope = Scope(tenant: string, key: string)

  /** What a handler answers; None is an answer without a body. */
  datatype Response = Response(status: nat, body: Option<string>)

  /** What the table keeps of it: a missing body is stored, and replayed, as an empty object. */
  function Kept(response: Response): Response {
    response.(body := if response.body.None? then Some("{}") else response.body)
  }

  datatype Stored = Stored(hash: string, response: Response)

  /** A write request: `hash` is the hash of its body. */
  datatype Request = Request(tenant: Option<string>, header: Option<string>, hash: string)

  /** Where a request stands. */
  datatype Phase =
    | Arrived
    | Executing(cached: bool)       // the lookup missed, or there was no lookup
    | Storing(response: Response)   // answered; the insert is still under way
    | Answered(response: Response)  // executed
    | Replayed(response: Response)  // answered from the table
    | Conflicted
    | Threw                         // the handler threw; nothing is stored

  /** The header counts only if it is not blank and the request has a tenant. */
  function ScopeOf(r: Request): Option<Scope> {
    if r.tenant.None? || r.tenant.value == "" || r.header.None? || Text.Trim(r.header.value) == "" then None
    else Some(Scope(r.tenant.value, Text.Trim(r.header.value)))
  }

  /** The table, the requests seen so far and, for each, what its handler answered if it ran. */
  datatype Cache = Cache(
    table: map<Scope, Stored>,
    requests: map<nat, Request>,
    phases: map<nat, Phase>,
    executed: map<nat, Response>)

  const EMPTY := Cache(map[], map[], map[], map[])

  datatype Action =
    | Arrive(id: nat, r: Request)
    | Lookup(id: nat)
    | Run(id: nat, response: Option<Response>)  // None: the handler throws
    | Persist(id: nat, stored: bool)            // the insert may fail for other reasons than the key

  predicate Enabled(s: Cache, a: Action) {
    match a
    case Arrive(id, _) => id !in s.requests && id !in s.phases && id !in s.executed
    case Lookup(id) => id in s.requests && id in s.phases && s.phases[id].Arrived?
    case Run(id, _) => id in s.requests && id in s.phases && s.phases[id].Executing?
    case Persist(id, _) => id in s.requests && id in s.phases && s.phases[id].Storing? && ScopeOf(s.requests[id]).Some?
  }

  function Looked(s: Cache, id: nat): Phase
    requires id in s.requests
  {
    var r := s.requests[id];
    var scope := ScopeOf(r);
    if scope.None? then Executing(false)
    else if scope.value !in s.table then Executing(true)
    else if s.table[scope.value].hash != r.hash then Conflicted
    else Replayed(s.table[scope.value].response)
  }

  function Do(s: Cache, a: Action): Cache
    requires Enabled(s, a)
  {
    match a
    case Arrive(id, r) => s.(requests := s.requests[id := r], phases := s.phases[id := Arrived])
    case Lookup(id) => s.(phases := s.phases[id := Looked(s, id)])
    case Run(id, response) =>
      if response.None? then s.(phases := s.phases[id := Threw])
      else
        var answer := response.value;
        s.(executed := s.executed[id := answer],
           phases := s.phases[id := if s.phases[id].cached then Storing(answer) else Answered(answer)])
    case Persist(id, stored) =>
      var scope := ScopeOf(s.requests[id]).value;
      var answer := s.phases[id].response;
      s.(phases := s.phases[id := Answered(answer)],
         table := if !stored || scope in s.table then s.table
                  else s.table[scope := Stored(s.requests[id].hash, Kept(answer))])
  }

  // ---- The invariant ----

  /** Request `id` ran under `scope` and its answer is what `e` holds. */
  predicate Wrote(s: Cache, scope: Scope, e: Stored, id: nat) {
    && id in s.requests && id in s.executed
    && ScopeOf(s.requests[id]) == Some(scope)
    && e == Stored(s.requests[id].hash, Kept(s.executed[id]))
  }

  predicate PhaseSound(s: Cache, id: nat)
    requires id in s.phases
  {
    && id in s.requests
    && match s.phases[id]
       case Executing(cached) => cached == ScopeOf(s.requests[id]).Some?
       case Storing(answer) => ScopeOf(s.requests[id]).Some? && id in s.executed && s.executed[id] == answer
       case Answered(answer) => id in s.executed && s.executed[id] == answer
       case Replayed(answer) =>
         && ScopeOf(s.requests[id]).Some? && ScopeOf(s.requests[id]).value in s.table
         && s.table[ScopeOf(s.requests[id]).value] == Stored(s.requests[id].hash, answer)
       case Conflicted =>
         && ScopeOf(s.requests[id]).Some? && ScopeOf(s.requests[id]).value in s.table
         && s.table[ScopeOf(s.requests[id]).value].hash != s.requests[id].hash
       case _ => true
  }

  ghost predicate Sound(s: Cache) {
    && (forall id :: id in s.phases ==> PhaseSound(s, id))
    && (forall scope :: scope in s.table ==> exists id :: Wrote(s, scope, s.table[scope], id))
    && (forall id :: id in s.executed ==> id in s.phases && !s.phases[id].Arrived? && !s.phases[id].Executing?)
  }

  lemma PhaseStaysSound(s: Cache, a: Action, id: nat)
    requires Enabled(s, a) && id in Do(s, a).phases
    requires id in s.phases ==> PhaseSound(s, id)
    requires id in s.executed && id in s.phases ==> !s.phases[id].Arrived? && !s.phases[id].Executing?
    ensures PhaseSound(Do(s, a), id)
  {
  }

  lemma WriterStays(s: Cache, a: Action, scope: Scope, id: nat)
    requires Enabled(s, a) && scope in s.table && Wrote(s, scope, s.table[scope], id)
    requires id in s.phases && !s.phases[id].Arrived? && !s.phases[id].Executing?
    ensures scope in Do(s, a).table && Wrote(Do(s, a), scope, Do(s, a).table[scope], id)
  {
  }

  lemma StoredByItsRequest(s: Cache, a: Action, scope: Scope)
    requires Enabled(s, a) && scope in Do(s, a).table && scope !in s.table
    requires a.id in s.phases ==> PhaseSound(s, a.id)
    ensures Wrote(Do(s, a), scope, Do(s, a).table[scope], a.id)
  {
  }

  lemma DoKeepsWriters(s: Cache, a: Action, scope: Scope)
    requires Sound(s) && Enabled(s, a) && scope in Do(s, a).table
    ensures exists id :: Wrote(Do(s, a), scope, Do(s, a).table[scope], id)
  {
    hide PhaseSound, Do, Enabled;
    if scope in s.table {
      var id :| Wrote(s, scope, s.table[scope], id);
      WriterStays(s, a, scope, id);
    } else {
      StoredByItsRequest(s, a, scope);
    }
  }

  lemma DoKeepsSound(s: Cache, a: Action)
    requires Sound(s) && Enabled(s, a)
    ensures Sound(Do(s, a))
  {
    hide PhaseSound, Wrote;
    forall id | id in Do(s, a).phases
      ensures PhaseSound(Do(s, a), id)
    {
      PhaseStaysSound(s, a, id);
    }
    forall scope | scope in Do(s, a).table
      ensures exists id :: Wrote(Do(s, a), scope, Do(s, a).table[scope], id)
    {
      DoKeepsWriters(s, a, scope);
    }
  }

  ghost predicate Admits(s: Cache, acts: seq<Action>)
    decreases |acts|
  {
    acts == [] || (Enabled(s, acts[0]) && Admits(Do(s, acts[0]), acts[1..]))
  }

  ghost function After(s: Cache, acts: seq<Action>): Cache
    requires Admits(s, acts)
    decreases |acts|
  {
    if acts == [] then s else After(Do(s, acts[0]), acts[1..])
  }

  lemma {:induction false} RunKeepsSound(s: Cache, acts: seq<Action>)
    requires Sound(s) && Admits(s, acts)
    ensures Sound(After(s, acts))
    decreases |acts|
  {
    if acts != [] {
      DoKeepsSound(s, acts[0]);
      RunKeepsSound(Do(s, acts[0]), acts[1..]);
    }
  }

  /** A stored response never changes. */
  lemma {:induction false} StoredForGood(s: Cache, acts: seq<Action>, scope: Scope)
    requires Admits(s, acts) && scope in s.table
    ensures scope in After(s, acts).table && After(s, acts).table[scope] == s.table[scope]
    decreases |acts|
  {
    if acts != [] {
      StoredForGood(Do(s, acts[0]), acts[1..], scope);
    }
  }

  /** In every interleaving a stored response is the answer of one execution of a request with that
      key and that body hash; every replay and every conflict is the table's. */
  lemma StoredIsAnExecution(acts: seq<Action>, scope: Scope)
    requires Admits(EMPTY, acts) && scope in After(EMPTY, acts).table
    ensures var s := After(EMPTY, acts); exists id :: Wrote(s, scope, s.table[scope], id)
  {
    RunKeepsSound(EMPTY, acts);
  }

  lemma AnswersAgree(acts: seq<Action>, id: nat)
    requires Admits(EMPTY, acts) && id in After(EMPTY, acts).phases
    ensures PhaseSound(After(EMPTY, acts), id)
  {
    RunKeepsSound(EMPTY, acts);
  }

  /** Once a response is stored, a request with its key that has not looked up yet is replayed or
      refused and never executes, whatever else happens. */
  lemma {:induction false} StoredStopsExecution(s: Cache, acts: seq<Action>, scope: Scope, id: nat)
    requires Admits(s, acts) && scope in s.table
    requires id in s.requests && ScopeOf(s.requests[id]) == Some(scope) && id in s.phases && id !in s.executed
    requires s.phases[id].Arrived? || s.phases[id] == LookedFrom(s.table[scope], s.requests[id].hash)
    ensures var t := After(s, acts);
            && id !in t.executed && id in t.phases
            && (t.phases[id].Arrived? || t.phases[id] == LookedFrom(s.table[scope], s.requests[id].hash))
    decreases |acts|
  {
    if acts != [] {
      StoredStopsExecution(Do(s, acts[0]), acts[1..], scope, id);
    }
  }

  function LookedFrom(e: Stored, hash: string): Phase {
    if e.hash != hash then Conflicted else Replayed(e.response)
  }

  // ---- Keys and tenants, by the raw fields of a request ----

  /** The request has a tenant and a header with a character that is not white space. */
  predicate HasKey(r: Request) {
    && r.tenant.Some? && r.tenant.value != ""
    && r.header.Some? && exists k :: 0 <= k < |r.header.value| && !Text.IsSpace(r.header.value[k])
  }

  /** `header` is `key` with white space around it. */
  ghost predicate Carries(header: string, key: string) {
    && key != "" && !Text.IsSpace(key[0]) && !Text.IsSpace(key[|key| - 1])
    && exists before, after :: Text.AllSpace(before) && Text.AllSpace(after) && header == before + key + after
  }

  /** Two requests of one tenant whose headers agree up to white space at the ends. */
  ghost predicate SameKey(a: Request, b: Request) {
    && HasKey(a) && HasKey(b) && a.tenant == b.tenant
    && exists key :: Carries(a.header.value, key) && Carries(b.header.value, key)
  }

  lemma ScopeIffKey(r: Request)
    ensures ScopeOf(r).Some? <==> HasKey(r)
  {
    if r.header.Some? {
      Text.TrimmedAway(r.header.value);
    }
  }

  lemma TrimIsCarried(header: string)
    requires Text.Trim(header) != ""
    ensures Carries(header, Text.Trim(header))
  {
    var before, after := Text.TrimKeepsMiddle(header);
  }

  lemma CarriedIsTrim(header: string, key: string)
    requires Carries(header, key)
    ensures Text.Trim(header) == key
  {
    var before, after :| Text.AllSpace(before) && Text.AllSpace(after) && header == before + key + after;
    Text.TrimFinds(before, key, after);
  }

  /** Requests share a scope exactly if they have the same tenant and the same key. */
  lemma ScopeIsTenantAndKey(a: Request, b: Request)
    ensures ScopeOf(a).Some? && ScopeOf(a) == ScopeOf(b) <==> SameKey(a, b)
  {
    ScopeIffKey(a);
    ScopeIffKey(b);
    hide Text.Trim, Carries;
    if ScopeOf(a).Some? && ScopeOf(a) == ScopeOf(b) {
      TrimIsCarried(a.header.value);
      TrimIsCarried(b.header.value);
    }
    if SameKey(a, b) {
      var key :| Carries(a.header.value, key) && Carries(b.header.value, key);
      CarriedIsTrim(a.header.value, key);
      CarriedIsTrim(b.header.value, key);
    }
  }

  /** A replay or a conflict always stands against an execution for the same tenant under the same key:
      a replay against one with the same body hash, a conflict against one with another. */
  lemma AnsweredByOwnTenant(acts: seq<Action>, id: nat)
    requires Admits(EMPTY, acts) && id in After(EMPTY, acts).phases
    requires After(EMPTY, acts).phases[id].Replayed? || After(EMPTY, acts).phases[id].Conflicted?
    ensures var s := After(EMPTY, acts);
            && id in s.requests
            && exists w :: w in s.requests && w in s.executed && SameKey(s.requests[w], s.requests[id])
                 && (s.phases[id].Conflicted? <==> s.requests[w].hash != s.requests[id].hash)
                 && (s.phases[id].Replayed? ==> s.phases[id].response == Kept(s.executed[w]))
  {
    RunKeepsSound(EMPTY, acts);
    var s := After(EMPTY, acts);
    assert PhaseSound(s, id);
    var scope := ScopeOf(s.requests[id]).value;
    var w :| Wrote(s, scope, s.table[scope], w);
    ScopeIsTenantAndKey(s.requests[w], s.requests[id]);
    hide SameKey, ScopeOf;
  }

  // ---- Tenants do not interfere ----

  /** `ids` are the requests of `tenant` among those that arrive in `acts`. */
  predicate TenantIds(acts: seq<Action>, tenant: string, ids: set<nat>) {
    forall k :: 0 <= k < |acts| && acts[k].Arrive? ==> (acts[k].id in ids <==> acts[k].r.tenant == Some(tenant))
  }

  /** The actions of the requests `ids` alone. */
  function Only(acts: seq<Action>, ids: set<nat>): seq<Action> {
    if acts == [] then []
    else if acts[0].id in ids then [acts[0]] + Only(acts[1..], ids)
    else Only(acts[1..], ids)
  }

  /** Request `id` stands in `t` as in `s`. */
  predicate SameAnswer(s: Cache, t: Cache, id: nat) {
    && (id in s.requests <==> id in t.requests) && (id in s.requests ==> s.requests[id] == t.requests[id])
    && (id in s.phases <==> id in t.phases) && (id in s.phases ==> s.phases[id] == t.phases[id])
    && (id in s.executed <==> id in t.executed) && (id in s.executed ==> s.executed[id] == t.executed[id])
  }

  ghost predicate SameAnswers(s: Cache, t: Cache, ids: set<nat>) {
    forall id :: id in ids ==> SameAnswer(s, t, id)
  }

  ghost predicate OwnIds(s: Cache, tenant: string, ids: set<nat>) {
    forall id :: id in s.requests ==> (id in ids <==> s.requests[id].tenant == Some(tenant))
  }

  ghost predicate SameTable(s: Cache, t: Cache, tenant: string) {
    forall scope: Scope :: scope.tenant == tenant ==>
      (scope in s.table <==> scope in t.table) && (scope in s.table ==> s.table[scope] == t.table[scope])
  }

  ghost predicate LooksLike(s: Cache, t: Cache, tenant: string, ids: set<nat>) {
    SameAnswers(s, t, ids) && OwnIds(s, tenant, ids) && SameTable(s, t, tenant)
  }

  lemma ScopeHasTenant(r: Request)
    ensures ScopeOf(r).Some? ==> r.tenant == Some(ScopeOf(r).value.tenant)
  {
  }

  lemma OwnAction(s: Cache, t: Cache, a: Action, tenant: string, ids: set<nat>)
    requires LooksLike(s, t, tenant, ids) && Enabled(s, a) && a.id in ids
    requires a.Arrive? ==> a.r.tenant == Some(tenant)
    ensures Enabled(t, a) && LooksLike(Do(s, a), Do(t, a), tenant, ids)
  {
    OwnActionEnabled(s, t, a, ids);
    OwnActionAnswers(s, t, a, tenant, ids);
    OwnActionTable(s, t, a, tenant, ids);
    OwnActionIds(s, a, tenant, ids);
    hide SameAnswers, OwnIds, SameTable;
  }

  lemma OwnActionEnabled(s: Cache, t: Cache, a: Action, ids: set<nat>)
    requires SameAnswers(s, t, ids) && Enabled(s, a) && a.id in ids
    ensures Enabled(t, a)
  {
  }

  lemma SameLookup(s: Cache, t: Cache, id: nat, tenant: string)
    requires SameTable(s, t, tenant) && id in s.requests && id in t.requests && s.requests[id] == t.requests[id]
    requires s.requests[id].tenant == Some(tenant)
    ensures Looked(s, id) == Looked(t, id)
  {
    hide ScopeOf;
    ScopeHasTenant(s.requests[id]);
  }

  lemma OwnActionAnswer(s: Cache, t: Cache, a: Action, id: nat)
    requires Enabled(s, a) && Enabled(t, a) && SameAnswer(s, t, a.id) && SameAnswer(s, t, id)
    requires a.Lookup? ==> Looked(s, a.id) == Looked(t, a.id)
    ensures SameAnswer(Do(s, a), Do(t, a), id)
  {
    hide ScopeOf, Looked;
  }

  lemma OwnActionAnswers(s: Cache, t: Cache, a: Action, tenant: string, ids: set<nat>)
    requires LooksLike(s, t, tenant, ids) && Enabled(s, a) && Enabled(t, a) && a.id in ids
    ensures SameAnswers(Do(s, a), Do(t, a), ids)
  {
    if a.Lookup? {
      assert SameAnswer(s, t, a.id);
      SameLookup(s, t, a.id, tenant);
    }
    hide SameAnswer, Do, Looked;
    forall id | id in ids ensures SameAnswer(Do(s, a), Do(t, a), id) {
      OwnActionAnswer(s, t, a, id);
    }
  }

  lemma OwnActionTable(s: Cache, t: Cache, a: Action, tenant: string, ids: set<nat>)
    requires LooksLike(s, t, tenant, ids) && Enabled(s, a) && Enabled(t, a) && a.id in ids
    ensures SameTable(Do(s, a), Do(t, a), tenant)
  {
    hide ScopeOf;
  }

  lemma OwnActionIds(s: Cache, a: Action, tenant: string, ids: set<nat>)
    requires OwnIds(s, tenant, ids) && Enabled(s, a)
    requires a.Arrive? ==> (a.id in ids <==> a.r.tenant == Some(tenant))
    ensures OwnIds(Do(s, a), tenant, ids)
  {
  }

  lemma OthersAction(s: Cache, t: Cache, a: Action, tenant: string, ids: set<nat>)
    requires LooksLike(s, t, tenant, ids) && Enabled(s, a) && a.id !in ids
    requires a.Arrive? ==> a.r.tenant != Some(tenant)
    ensures LooksLike(Do(s, a), t, tenant, ids)
  {
    hide ScopeOf;
    if a.id in s.requests {
      ScopeHasTenant(s.requests[a.id]);
    }
    OwnActionIds(s, a, tenant, ids);
  }

  lemma {:induction false} TenantsApartFrom(s: Cache, t: Cache, acts: seq<Action>, tenant: string, ids: set<nat>)
    requires Admits(s, acts) && LooksLike(s, t, tenant, ids) && TenantIds(acts, tenant, ids)
    ensures Admits(t, Only(acts, ids)) && LooksLike(After(s, acts), After(t, Only(acts, ids)), tenant, ids)
    decreases |acts|
  {
    if acts != [] {
      var a, rest := acts[0], acts[1..];
      assert a.Arrive? ==> (a.id in ids <==> a.r.tenant == Some(tenant));
      assert TenantIds(rest, tenant, ids) by {
        assert forall k :: 0 <= k < |rest| ==> rest[k] == acts[k + 1];
      }
      hide LooksLike, TenantIds, Do, Enabled;
      if a.id in ids {
        OwnAction(s, t, a, tenant, ids);
        TenantsApartFrom(Do(s, a), Do(t, a), rest, tenant, ids);
        assert Only(acts, ids)[1..] == Only(rest, ids);
      } else {
        OthersAction(s, t, a, tenant, ids);
        TenantsApartFrom(Do(s, a), t, rest, tenant, ids);
      }
    }
  }

  /** In every interleaving a tenant's requests are answered exactly as if no other tenant existed. */
  lemma TenantsApart(acts: seq<Action>, tenant: string, ids: set<nat>)
    requires Admits(EMPTY, acts) && TenantIds(acts, tenant, ids)
    ensures Admits(EMPTY, Only(acts, ids))
    ensures var s, t := After(EMPTY, acts), After(EMPTY, Only(acts, ids));
            forall id :: id in ids ==> SameAnswer(s, t, id)
  {
    TenantsApartFrom(EMPTY, EMPTY, acts, tenant, ids);
  }

  // ---- Requests that do not overlap ----

  /** One request, what its handler would answer, and whether its insert gets through. */
  datatype Visit = Visit(r: Request, handler: Option<Response>, stored: bool)

  /** "Execute once per key, then replay": what the caller sees, and the table from then on. */
  function Once(first: map<Scope, Stored>, v: Visit): (Phase, map<Scope, Stored>) {
    var scope := ScopeOf(v.r);
    if scope.Some? && scope.value in first then (LookedFrom(first[scope.value], v.r.hash), first)
    else if v.handler.None? then (Threw, first)
    else (Answered(v.handler.value),
          if scope.Some? && v.stored then first[scope.value := Stored(v.r.hash, Kept(v.handler.value))] else first)
  }

  /** What requests served one after the other are told, starting from a table. */
  function Serve(first: map<Scope, Stored>, visits: seq<Visit>): (told: seq<Phase>)
    ensures |told| == |visits|
    decreases |visits|
  {
    if visits == [] then []
    else [Once(first, visits[0]).0] + Serve(Once(first, visits[0]).1, visits[1..])
  }

  /** The table they leave. */
  function Left(first: map<Scope, Stored>, visits: seq<Visit>): map<Scope, Stored>
    decreases |visits|
  {
    if visits == [] then first else Left(Once(first, visits[0]).1, visits[1..])
  }

  /** `intercept` and `persist`, one after the other. */
  class Interceptor {
    var table: map<Scope, Stored>

    constructor ()
      ensures table == map[]
    {
      table := map[];
    }

    /** The handler runs iff the request's key is not stored; a stored answer is replayed if the
        body hash matches and refused otherwise. */
    method Intercept(v: Visit) returns (answer: Phase, ran: bool)
      modifies this
      ensures (answer, table) == Once(old(table), v)
      ensures ran <==> ScopeOf(v.r).None? || ScopeOf(v.r).value !in old(table)
      ensures !HasKey(v.r) ==> ran && table == old(table)
    {
      ScopeIffKey(v.r);
      var scope := ScopeOf(v.r);
      if scope.None? {
        answer := if v.handler.None? then Threw else Answered(v.handler.value);
        return answer, true;
      }
      if scope.value in table {
        var existing := table[scope.value];
        if existing.hash != v.r.hash {
          return Conflicted, false;
        }
        return Replayed(existing.response), false;
      }
      if v.handler.None? {
        return Threw, true;
      }
      if v.stored {
        Persist(scope.value, v.r.hash, v.handler.value);
      }
      answer, ran := Answered(v.handler.value), true;
    }

    /** The unique constraint makes the first insert win. */
    method Persist(scope: Scope, hash: string, response: Response)
      modifies this
      ensures table == if scope in old(table) then old(table) else old(table)[scope := Stored(hash, Kept(response))]
    {
      if scope !in table {
        table := table[scope := Stored(hash, Kept(response))];
      }
    }
  }

  // ---- Reading the visits off a run ----

  predicate Done(p: Phase) {
    p.Answered? || p.Replayed? || p.Conflicted? || p.Threw?
  }

  /** No request is under way, not even its insert. */
  predicate AllDone(s: Cache) {
    forall id :: id in s.phases ==> Done(s.phases[id])
  }

  /** Requests do not overlap: one arrives only when all before it are done. */
  ghost predicate Serial(s: Cache, acts: seq<Action>)
    requires Admits(s, acts)
    decreases |acts|
  {
    acts == [] || ((acts[0].Arrive? ==> AllDone(s)) && Serial(Do(s, acts[0]), acts[1..]))
  }

  /** The requests that arrive, in order. */
  function Arrivals(acts: seq<Action>): seq<nat> {
    if acts == [] then []
    else if acts[0].Arrive? then [acts[0].id] + Arrivals(acts[1..])
    else Arrivals(acts[1..])
  }

  /** What request `id`'s handler comes to in `acts`; None if it throws or never runs. */
  function HandlerIn(acts: seq<Action>, id: nat): Option<Response> {
    if acts == [] then None
    else if acts[0].Run? && acts[0].id == id then acts[0].response
    else HandlerIn(acts[1..], id)
  }

  /** Whether request `id`'s insert gets through in `acts`. */
  function StoredIn(acts: seq<Action>, id: nat): bool {
    acts != [] && if acts[0].Persist? && acts[0].id == id then acts[0].stored else StoredIn(acts[1..], id)
  }

  /** The arrivals with their requests, handlers and inserts. */
  function Visits(acts: seq<Action>): (visits: seq<Visit>)
    ensures |visits| == |Arrivals(acts)|
  {
    if acts == [] then []
    else
      var rest := acts[1..];
      if acts[0].Arrive? then
        [Visit(acts[0].r, HandlerIn(rest, acts[0].id), StoredIn(rest, acts[0].id))] + Visits(rest)
      else
        Visits(rest)
  }

  // ---- Requests that do not overlap are served by `Once` ----

  /** What a request that stands at `p` comes to if nobody else acts. */
  function Finish(first: map<Scope, Stored>, p: Phase, v: Visit): (Phase, map<Scope, Stored>) {
    var scope := ScopeOf(v.r);
    match p
    case Arrived => Once(first, v)
    case Executing(cached) =>
      if v.handler.None? then (Threw, first)
      else (Answered(v.handler.value), if cached then Inserted(first, v, v.handler.value) else first)
    case Storing(answer) => (Answered(answer), Inserted(first, v, answer))
    case _ => (p, first)
  }

  function Inserted(first: map<Scope, Stored>, v: Visit, answer: Response): map<Scope, Stored> {
    var scope := ScopeOf(v.r);
    if !v.stored || scope.None? || scope.value in first then first
    else first[scope.value := Stored(v.r.hash, Kept(answer))]
  }

  /** The request under way, if there is one, as the rest of the run decides it. */
  ghost function Comes(s: Cache, open: Option<nat>, acts: seq<Action>): (Phase, map<Scope, Stored>)
    requires open.Some? ==> open.value in s.phases && open.value in s.requests
  {
    if open.None? then (Arrived, s.table)
    else
      var id := open.value;
      Finish(s.table, s.phases[id], Visit(s.requests[id], HandlerIn(acts, id), StoredIn(acts, id)))
  }

  /** `open` is the only request under way. */
  ghost predicate OnlyOpen(s: Cache, open: Option<nat>) {
    && (open.Some? ==> open.value in s.phases && open.value in s.requests && !Done(s.phases[open.value]))
    && forall id :: id in s.phases && Some(id) != open ==> Done(s.phases[id])
  }

  /** The request under way after one more action of a run without overlap. */
  ghost function NextOpen(s: Cache, open: Option<nat>, a: Action): Option<nat>
    requires Enabled(s, a)
  {
    if a.Arrive? then Some(a.id)
    else if open.Some? && open.value in Do(s, a).phases && !Done(Do(s, a).phases[open.value]) then open
    else None
  }

  lemma OneOpenAtATime(s: Cache, open: Option<nat>, a: Action)
    requires OnlyOpen(s, open) && Enabled(s, a) && (a.Arrive? ==> AllDone(s))
    ensures a.Arrive? <==> open.None?
    ensures !a.Arrive? ==> a.id == open.value
    ensures OnlyOpen(Do(s, a), NextOpen(s, open, a))
  {
  }

  /** One action of a run without overlap does not change what the open request comes to. */
  lemma ComesOn(s: Cache, open: Option<nat>, acts: seq<Action>)
    requires acts != [] && Enabled(s, acts[0]) && OnlyOpen(s, open) && open == Some(acts[0].id) && !acts[0].Arrive?
    ensures var s', open' := Do(s, acts[0]), NextOpen(s, open, acts[0]);
            && open.value in s'.phases && s'.requests == s.requests
            && (open'.Some? ==> open' == open && Comes(s', open', acts[1..]) == Comes(s, open, acts))
            && (open'.None? ==> (s'.phases[open.value], s'.table) == Comes(s, open, acts))
  {
  }

  /** What a run has told, kept and left. */
  ghost predicate Served(s: Cache, t: Cache, first: map<Scope, Stored>, ids: seq<nat>, visits: seq<Visit>)
    requires |ids| == |visits|
  {
    && t.table == Left(first, visits)
    && forall k :: 0 <= k < |ids| ==>
         && ids[k] in t.phases && t.phases[ids[k]] == Serve(first, visits)[k]
         && ids[k] in t.requests && t.requests[ids[k]] == visits[k].r
  }

  ghost predicate Keeps(s: Cache, t: Cache, open: Option<nat>) {
    && (forall id :: id in s.phases && Some(id) != open ==> id in t.phases && t.phases[id] == s.phases[id])
    && (forall id :: id in s.requests ==> id in t.requests && t.requests[id] == s.requests[id])
  }

  lemma ServedNext(s: Cache, t: Cache, first: map<Scope, Stored>, id: nat, v: Visit, ids: seq<nat>, visits: seq<Visit>)
    requires |ids| == |visits| && Served(s, t, Once(first, v).1, ids, visits)
    requires id in t.phases && t.phases[id] == Once(first, v).0 && id in t.requests && t.requests[id] == v.r
    ensures Served(s, t, first, [id] + ids, [v] + visits)
  {
    assert ([v] + visits)[1..] == visits;
  }

  lemma {:induction false} SerialFrom(s: Cache, open: Option<nat>, acts: seq<Action>)
    requires Admits(s, acts) && Serial(s, acts) && OnlyOpen(s, open) && AllDone(After(s, acts))
    ensures var t := After(s, acts);
            && Served(s, t, Comes(s, open, acts).1, Arrivals(acts), Visits(acts))
            && Keeps(s, t, open)
            && (open.Some? ==> open.value in t.phases && t.phases[open.value] == Comes(s, open, acts).0)
    decreases |acts|
  {
    if acts != [] {
      var a, rest := acts[0], acts[1..];
      var s', open' := Do(s, a), NextOpen(s, open, a);
      OneOpenAtATime(s, open, a);
      SerialFrom(s', open', rest);
      if a.Arrive? {
        var v := Visit(a.r, HandlerIn(rest, a.id), StoredIn(rest, a.id));
        ServedNext(s, After(s, acts), s.table, a.id, v, Arrivals(rest), Visits(rest));
      } else {
        ComesOn(s, open, acts);
      }
    }
  }

  /** In every run in which requests never overlap, every request is told what "execute once per key,
      then replay" says, and the table is the one it leaves, whatever inserts fail. */
  lemma ApartIsServe(acts: seq<Action>)
    requires Admits(EMPTY, acts) && Serial(EMPTY, acts) && AllDone(After(EMPTY, acts))
    ensures var t := After(EMPTY, acts);
            var ids, visits := Arrivals(acts), Visits(acts);
            && t.table == Left(map[], visits)
            && forall k :: 0 <= k < |ids| ==>
                 && ids[k] in t.requests && t.requests[ids[k]] == visits[k].r
                 && ids[k] in t.phases && t.phases[ids[k]] == Serve(map[], visits)[k]
  {
    SerialFrom(EMPTY, None, acts);
  }

  predicate Runs(p: Phase) {
    p.Executing? || p.Storing? || p.Answered? || p.Threw?
  }

  /** However requests overlap, a request executes if and only if it has no scope or nothing was
      stored under its scope when it looked up. */
  lemma ExecutesIffUnstored(s: Cache, id: nat, acts: seq<Action>)
    requires Admits(s, [Lookup(id)] + acts)
    ensures var scope := ScopeOf(s.requests[id]);
            var t := After(s, [Lookup(id)] + acts);
            && id in t.phases
            && (Runs(t.phases[id]) <==> scope.None? || scope.value !in s.table)
            && (!Runs(t.phases[id]) ==> t.phases[id] == LookedFrom(s.table[scope.value], s.requests[id].hash))
  {
    assert ([Lookup(id)] + acts)[1..] == acts;
    PhaseSettled(Do(s, Lookup(id)), id, acts);
  }

  lemma {:induction false} PhaseSettled(s: Cache, id: nat, acts: seq<Action>)
    requires Admits(s, acts) && id in s.phases && !s.phases[id].Arrived?
    ensures var t := After(s, acts);
            && id in t.phases && !t.phases[id].Arrived?
            && (Runs(t.phases[id]) <==> Runs(s.phases[id]))
            && (!Runs(s.phases[id]) ==> t.phases[id] == s.phases[id])
    decreases |acts|
  {
    if acts != [] {
      PhaseSettled(Do(s, acts[0]), id, acts[1..]);
    }
  }

  lemma {:induction false} OneMore(s: Cache, acts: seq<Action>, a: Action)
    requires Admits(s, acts) && Enabled(After(s, acts), a)
    ensures Admits(s, acts + [a]) && After(s, acts + [a]) == Do(After(s, acts), a)
    decreases |acts|
  {
    if acts == [] {
      assert acts + [a] == [a] && [a][1..] == [];
      assert Admits(Do(s, a), []);
    } else {
      OneMore(Do(s, acts[0]), acts[1..], a);
      assert (acts + [a])[1..] == acts[1..] + [a];
    }
  }

  /** Under one key at most one handler's answer is stored: before it handlers threw or their inserts
      failed, and every later visit is told what that one stored, or refused. */
  lemma {:induction false} ServedOnce(first: map<Scope, Stored>, visits: seq<Visit>, i: nat, j: nat)
    requires i < |visits| && j < |visits| && ScopeOf(visits[i].r).Some? && ScopeOf(visits[j].r) == ScopeOf(visits[i].r)
    requires Serve(first, visits)[i].Answered? && visits[i].stored
    ensures j < i ==> Serve(first, visits)[j].Threw? || (Serve(first, visits)[j].Answered? && !visits[j].stored)
    ensures i < j ==> Serve(first, visits)[j] == LookedFrom(
                        Stored(visits[i].r.hash, Kept(Serve(first, visits)[i].response)), visits[j].r.hash)
    decreases |visits|
  {
    var next := Once(first, visits[0]).1;
    if i > 0 && j > 0 {
      ServedOnce(next, visits[1..], i - 1, j - 1);
    } else if i == 0 && j > 0 {
      Replays(next, visits[1..], ScopeOf(visits[0].r).value, j - 1);
    } else if i > 0 && j == 0 && ScopeOf(visits[0].r).value in next {
      Replays(next, visits[1..], ScopeOf(visits[0].r).value, i - 1);
    }
  }

  lemma {:induction false} Replays(first: map<Scope, Stored>, visits: seq<Visit>, scope: Scope, k: nat)
    requires scope in first && k < |visits| && ScopeOf(visits[k].r) == Some(scope)
    ensures Serve(first, visits)[k] == LookedFrom(first[scope], visits[k].r.hash)
    decreases |visits|
  {
    if k > 0 {
      Replays(Once(first, visits[0]).1, visits[1..], scope, k - 1);
    }
  }

  /** Two requests with one key that overlap can both execute, and the second caller is then answered
      with something the table will never replay: serving them apart is needed. */
  lemma OverlapExecutesTwice(r: Request, a: Response, b: Response)
    requires ScopeOf(r).Some? && Kept(a) != Kept(b)
    ensures exists acts :: Admits(EMPTY, acts) && BothExecuted(After(EMPTY, acts), r, a, b)
  {
    assert Admits(EMPTY, []) && After(EMPTY, []) == EMPTY;
    hide Admits, After;
    var acts := Extended(EMPTY, [], Arrive(0, r));
    acts := Extended(EMPTY, acts, Arrive(1, r));
    acts := Extended(EMPTY, acts, Lookup(0));
    acts := Extended(EMPTY, acts, Lookup(1));
    acts := Extended(EMPTY, acts, Run(0, Some(a)));
    acts := Extended(EMPTY, acts, Run(1, Some(b)));
    acts := Extended(EMPTY, acts, Persist(0, true));
    acts := Extended(EMPTY, acts, Persist(1, true));
    assert BothExecuted(After(EMPTY, acts), r, a, b);
  }

  lemma Extended(s: Cache, acts: seq<Action>, a: Action) returns (more: seq<Action>)
    requires Admits(s, acts) && Enabled(After(s, acts), a)
    ensures Admits(s, more) && After(s, more) == Do(After(s, acts), a)
  {
    OneMore(s, acts, a);
    more := acts + [a];
  }

  predicate BothExecuted(s: Cache, r: Request, a: Response, b: Response) {
    && 0 in s.phases && 1 in s.phases && s.phases[0] == Answered(a) && s.phases[1] == Answered(b)
    && ScopeOf(r).Some? && ScopeOf(r).value in s.table && s.table[ScopeOf(r).value].response == Kept(a)
  }

  /** With an injective hash, equal stored hashes mean equal bodies: a replay answers the same body. */
  lemma ReplayMeansSameBody(hash: string -> string, acts: seq<Action>, id: nat, body: string)
    requires forall x, y :: hash(x) == hash(y) ==> x == y
    requires Admits(EMPTY, acts) && id in After(EMPTY, acts).phases && After(EMPTY, acts).phases[id].Replayed?
    requires id in After(EMPTY, acts).requests && After(EMPTY, acts).requests[id].hash == hash(body)
    ensures var s := After(EMPTY, acts);
            exists w :: w in s.requests && w in s.executed
              && ScopeOf(s.requests[w]) == ScopeOf(s.requests[id])
              && Kept(s.executed[w]) == s.phases[id].response
              && forall other :: s.requests[w].hash == hash(other) ==> other == body
  {
    RunKeepsSound(EMPTY, acts);
    var s := After(EMPTY, acts);
    assert PhaseSound(s, id);
    var scope := ScopeOf(s.requests[id]).value;
    var w :| Wrote(s, scope, s.table[scope], w);
    assert s.requests[w].hash == hash(body);
  }

  /** A replay gives the first answer itself if and only if that answer had a body. */
  lemma ReplayIsTheAnswer(acts: seq<Action>, id: nat)
    requires Admits(EMPTY, acts) && id in After(EMPTY, acts).phases && After(EMPTY, acts).phases[id].Replayed?
    ensures var s := After(EMPTY, acts);
            && id in s.requests
            && exists w :: w in s.requests && w in s.executed
                 && ScopeOf(s.requests[w]) == ScopeOf(s.requests[id]) && s.requests[w].hash == s.requests[id].hash
                 && s.phases[id].response == Response(s.executed[w].status, Some(s.executed[w].body.GetOr("{}")))
                 && (s.phases[id].response == s.executed[w] <==> s.executed[w].body.Some?)
  {
    RunKeepsSound(EMPTY, acts);
    var s := After(EMPTY, acts);
    assert PhaseSound(s, id);
    var scope := ScopeOf(s.requests[id]).value;
    var w :| Wrote(s, scope, s.table[scope], w);
  }
}
