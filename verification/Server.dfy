/** The mutating API handlers (internal/server/handlers.go), served one at a time without I/O failures. */
module Server {
  import opened Common
  import opened ManagedTable
  import opened Store
  import opened Items
  import opened Fleet
  import opened Monitoring
  import opened Text
  import Configuration

  /**
   What the handlers rely on: the library's checks of a URL and of host:port, lowercasing, and whether the
   provider registered under a type accepts a configuration.
   */
  datatype Web = Web(
    httpUrl: string -> bool, hostPort: string -> bool, lower: char -> char, factory: (string, string) -> bool)

  datatype EndpointBody = EndpointBody(fields: EndpointFields, paused: bool, notifiers: seq<nat>)

  datatype Request =
    | CreateEndpoint(ep: EndpointBody)
    | UpdateEndpoint(id: nat, ep: EndpointBody)
    | DeleteEndpoint(id: nat)
    | PauseEndpoint(id: nat)
    | CreateNotifier(n: NotifierFields)
    | UpdateNotifier(id: nat, n: NotifierFields)
    | DeleteNotifier(id: nat)

  datatype Status = Created | Okay | NoContent | BadRequest | Forbidden | NotFound | ServerError

  const MIN_INTERVAL := 10

  predicate EndpointAcceptable(web: Web, f: EndpointFields) {
    && f.name != "" && f.url != ""
    && (match DefaultKind(f).kind
        case "http" => web.httpUrl(f.url)
        case "tcp" => web.hostPort(f.url)
        case _ => false)
    && f.interval >= MIN_INTERVAL
  }

  predicate NotifierAcceptable(web: Web, n: NotifierFields) {
    n.name != "" && n.kind != "" && n.json != "" && Buildable(web, n.kind, n.json)
  }

  /** `notifier.Build` looks its provider up by the type in lower case. */
  predicate Buildable(web: Web, kind: string, json: string) {
    var name := Lowered(web.lower, kind);
    name in Configuration.NOTIFIER_KINDS && web.factory(name, json)
  }

  /** What a request does to the tables; `newId` and `now` are the id and time a new row gets. */
  ghost function Respond(web: Web, t: Tables, req: Request, newId: nat, now: int): (Status, Tables) {
    match req
    case CreateEndpoint(ep) =>
      if !EndpointAcceptable(web, ep.fields) then (BadRequest, t)
      else (Created, Relinked(InsertEndpoint(t, newId, DefaultKind(ep.fields), ep.paused, now), newId, ep.notifiers))
    case UpdateEndpoint(id, ep) =>
      if id !in t.endpoints.rows then (NotFound, t)
      else if Managed(t.endpoints, id) then (Forbidden, t)
      else if !EndpointAcceptable(web, ep.fields) then (BadRequest, t)
      else (Okay, Relinked(OverwriteEndpoint(t, id, DefaultKind(ep.fields)), id, ep.notifiers))
    case DeleteEndpoint(id) =>
      if id !in t.endpoints.rows then (NotFound, t)
      else if Managed(t.endpoints, id) then (Forbidden, t)
      else (NoContent, RemoveEndpoint(t, id))
    case PauseEndpoint(id) =>
      if id !in t.endpoints.rows then (NotFound, t)
      else if Managed(t.endpoints, id) then (Forbidden, t)
      else (Okay, SetPaused(t, id, !t.endpoints.rows[id].meta.paused))
    case CreateNotifier(n) =>
      if !NotifierAcceptable(web, n) then (BadRequest, t) else (Created, InsertNotifier(t, newId, n, now))
    case UpdateNotifier(id, n) =>
      if id !in t.notifiers.rows then (NotFound, t)
      else if Managed(t.notifiers, id) then (Forbidden, t)
      else if !NotifierAcceptable(web, n) then (BadRequest, t)
      else (Okay, OverwriteNotifier(t, id, n))
    case DeleteNotifier(id) =>
      if id !in t.notifiers.rows then (NotFound, t)
      else if Managed(t.notifiers, id) then (Forbidden, t)
      else (NoContent, RemoveNotifier(t, id))
  }

  /** A list that breaks a constraint is logged and leaves the links as they were. */
  ghost function Relinked(t: Tables, e: nat, ids: seq<nat>): Tables {
    if Linkable(t, e, ids) then ReplaceLinks(t, e, ids) else t
  }

  predicate FreshId(t: Tables, req: Request, newId: nat) {
    match req
    case CreateEndpoint(_) => newId >= t.endpoints.next
    case CreateNotifier(_) => newId >= t.notifiers.next
    case _ => true
  }

  // ---- The handlers ----

  class Server {
    const db: DB
    const manager: Manager
    const web: Web

    constructor (db: DB, manager: Manager, web: Web)
      ensures this.db == db && this.manager == manager && this.web == web
    {
      this.db, this.manager, this.web := db, manager, web;
    }

    /** Handlers serve one store, with the manager in step with it. */
    ghost predicate Ready()
      reads this, db, manager, manager.book, manager.stats
    {
      && manager.db == db && Inv(db.tables) && InStep(db.tables, manager.fleet)
      && manager.book.Valid() && manager.stats.Valid()
    }

    method ValidateEndpoint(f: EndpointFields) returns (ok: bool, f': EndpointFields)
      ensures ok <==> EndpointAcceptable(web, f)
      ensures ok ==> f' == DefaultKind(f)
    {
      f' := f;
      if f'.name == "" { return false, f'; }
      if f'.url == "" { return false, f'; }
      if f'.kind == "" { f' := f'.(kind := "http"); }
      if f'.kind == "http" {
        if !web.httpUrl(f'.url) { return false, f'; }
      } else if f'.kind == "tcp" {
        if !web.hostPort(f'.url) { return false, f'; }
      } else {
        return false, f';
      }
      if f'.interval < MIN_INTERVAL { return false, f'; }
      return true, f';
    }

    method PostEndpoint(ep: EndpointBody) returns (status: Status, ghost newId: nat, ghost now: int)
      requires Ready()
      modifies db, manager
      ensures Ready() && FreshId(old(db.tables), CreateEndpoint(ep), newId)
      ensures (status, db.tables) == Respond(web, old(db.tables), CreateEndpoint(ep), newId, now)
      ensures status != Created ==> manager.fleet == old(manager.fleet)
    {
      ghost var t0 := db.tables;
      newId := t0.endpoints.next;
      now := 0;
      var ok, f := ValidateEndpoint(ep.fields);
      if !ok { return BadRequest, newId, now; }
      var id, clock := Items.CreateEndpoint(db, f, ep.paused);
      newId, now := id, clock;
      InsertEndpointInv(t0, id, f, ep.paused, now);
      ghost var t1 := db.tables;
      if |ep.notifiers| > 0 {
        var err := SetEndpointNotifiers(db, id, ep.notifiers);
      } else {
        NoLinksYet(t0, t1, id);
      }
      RelinkedInv(t1, id, ep.notifiers);
      ghost var f0 := manager.fleet;
      var err := manager.Add(id);
      StaysInStep(t0, f0, db.tables, manager.fleet, id);
      if err.Some? { return ServerError, newId, now; }
      return Created, newId, now;
    }

    method PutEndpoint(id: nat, ep: EndpointBody) returns (status: Status)
      requires Ready()
      modifies db, manager
      ensures Ready()
      ensures (status, db.tables) == Respond(web, old(db.tables), UpdateEndpoint(id, ep), 0, 0)
      ensures status != Okay ==> manager.fleet == old(manager.fleet)
    {
      ghost var t0 := db.tables;
      if id !in db.tables.endpoints.rows { return NotFound; }
      if db.tables.endpoints.rows[id].source == FromConfig { return Forbidden; }
      var ok, f := ValidateEndpoint(ep.fields);
      if !ok { return BadRequest; }
      Items.UpdateEndpoint(db, id, f);
      ColumnsSetOverwrites(t0, id, f, db.tables);
      var linked := SetEndpointNotifiers(db, id, ep.notifiers);
      RewrittenInv(t0, id, f, ep.notifiers);
      ghost var f0 := manager.fleet;
      var err := manager.Edit(id);
      RewrittenInStep(t0, f0, id, f, ep.notifiers, manager.fleet);
      if err.Some? { return ServerError; }
      return Okay;
    }

    method RemoveEndpointById(id: nat) returns (status: Status)
      requires Ready()
      modifies db, manager, manager.book, manager.stats
      ensures Ready()
      ensures (status, db.tables) == Respond(web, old(db.tables), DeleteEndpoint(id), 0, 0)
      ensures status == NoContent ==>
                && manager.book.state == old(manager.book.state) - {id}
                && manager.stats.state == old(manager.stats.state) - {id}
                && id !in manager.fleet.registry
      ensures status != NoContent ==>
                && manager.book.state == old(manager.book.state)
                && manager.stats.state == old(manager.stats.state)
                && manager.fleet == old(manager.fleet)
    {
      ghost var t0 := db.tables;
      if id !in db.tables.endpoints.rows { return NotFound; }
      if db.tables.endpoints.rows[id].source == FromConfig { return Forbidden; }
      manager.Delete(id);
      Items.DeleteEndpoint(db, id);
      return NoContent;
    }

    method TogglePauseById(id: nat) returns (status: Status)
      requires Ready()
      modifies db, manager
      ensures Ready()
      ensures (status, db.tables) == Respond(web, old(db.tables), PauseEndpoint(id), 0, 0)
      ensures status != Okay ==> manager.fleet == old(manager.fleet)
    {
      ghost var t0 := db.tables;
      if id !in db.tables.endpoints.rows { return NotFound; }
      if db.tables.endpoints.rows[id].source == FromConfig { return Forbidden; }
      var paused := Items.TogglePause(db, id);
      if paused.Err? { return ServerError; }
      SetPausedInv(t0, id, paused.value);
      ghost var f0 := manager.fleet;
      if paused.value {
        manager.Pause(id);
      } else {
        var err := manager.Add(id);
        if err.Some? { return ServerError; }
      }
      StaysInStep(t0, f0, db.tables, manager.fleet, id);
      return Okay;
    }

    method PostNotifier(n: NotifierFields) returns (status: Status, ghost newId: nat, ghost now: int)
      requires Ready()
      modifies db
      ensures Ready() && FreshId(old(db.tables), CreateNotifier(n), newId)
      ensures (status, db.tables) == Respond(web, old(db.tables), CreateNotifier(n), newId, now)
    {
      ghost var t0 := db.tables;
      newId := t0.notifiers.next;
      now := 0;
      if n.name == "" || n.kind == "" || n.json == "" { return BadRequest, newId, now; }
      if !Buildable(web, n.kind, n.json) { return BadRequest, newId, now; }
      var id, clock := Items.CreateNotifier(db, n);
      newId, now := id, clock;
      InsertNotifierInv(t0, id, n, now);
      return Created, newId, now;
    }

    method PutNotifier(id: nat, n: NotifierFields) returns (status: Status)
      requires Ready()
      modifies db
      ensures Ready()
      ensures (status, db.tables) == Respond(web, old(db.tables), UpdateNotifier(id, n), 0, 0)
    {
      ghost var t0 := db.tables;
      if id !in db.tables.notifiers.rows { return NotFound; }
      if db.tables.notifiers.rows[id].source == FromConfig { return Forbidden; }
      if n.name == "" || n.kind == "" || n.json == "" { return BadRequest; }
      if !Buildable(web, n.kind, n.json) { return BadRequest; }
      Items.UpdateNotifier(db, id, n);
      NotifierColumnsSetOverwrites(t0, id, n, db.tables);
      OverwriteNotifierInv(t0, id, n);
      return Okay;
    }

    method RemoveNotifierById(id: nat) returns (status: Status)
      requires Ready()
      modifies db
      ensures Ready()
      ensures (status, db.tables) == Respond(web, old(db.tables), DeleteNotifier(id), 0, 0)
    {
      ghost var t0 := db.tables;
      if id !in db.tables.notifiers.rows { return NotFound; }
      if db.tables.notifiers.rows[id].source == FromConfig { return Forbidden; }
      Items.DeleteNotifier(db, id);
      return NoContent;
    }
  }

  /** A new endpoint has no links, so clearing them changes nothing. */
  lemma NoLinksYet(t0: Tables, t1: Tables, id: nat)
    requires Inv(t0) && id >= t0.endpoints.next && t1.links == t0.links
    ensures Relinked(t1, id, []) == t1
  {
    assert forall l | l in t0.links :: l == (l.0, l.1) && l.0 != id;
    assert (set n: nat | n in [] :: (id, n)) == {};
    assert ReplaceLinks(t1, id, []).links == t1.links;
  }

  lemma RewrittenInv(t: Tables, id: nat, f: EndpointFields, ids: seq<nat>)
    requires Inv(t) && id in t.endpoints.rows && !Managed(t.endpoints, id)
    ensures Inv(Relinked(OverwriteEndpoint(t, id, f), id, ids))
  {
    OverwriteEndpointInv(t, id, f);
    RelinkedInv(OverwriteEndpoint(t, id, f), id, ids);
  }

  /** Restarting the worker of a rewritten endpoint keeps store and workers in step. */
  lemma RewrittenInStep(t: Tables, f0: Fleet, id: nat, f: EndpointFields, ids: seq<nat>, f1: Fleet)
    requires InStep(t, f0) && Quiet(f1) && id in t.endpoints.rows
    requires f1.registry.Keys == if t.endpoints.rows[id].meta.paused then f0.registry.Keys - {id}
                                 else f0.registry.Keys + {id}
    requires !t.endpoints.rows[id].meta.paused ==> Runs(f1, id, f)
    requires forall x, c | x != id :: Runs(f1, x, c) <==> Runs(f0, x, c)
    ensures InStep(Relinked(OverwriteEndpoint(t, id, f), id, ids), f1)
  {
    StaysInStep(t, f0, Relinked(OverwriteEndpoint(t, id, f), id, ids), f1, id);
  }

  lemma RelinkedInv(t: Tables, e: nat, ids: seq<nat>)
    requires Inv(t) && !Managed(t.endpoints, e)
    ensures Inv(Relinked(t, e, ids))
  {
    if Linkable(t, e, ids) {
      ReplaceLinksInv(t, e, ids);
    }
  }

  // ---- What the API can and cannot do ----

  lemma RespondKeepsInv(web: Web, t: Tables, req: Request, newId: nat, now: int)
    requires Inv(t) && FreshId(t, req, newId)
    ensures Inv(Respond(web, t, req, newId, now).1)
  {
    match req
    case CreateEndpoint(ep) =>
      InsertEndpointInv(t, newId, DefaultKind(ep.fields), ep.paused, now);
      RelinkedInv(InsertEndpoint(t, newId, DefaultKind(ep.fields), ep.paused, now), newId, ep.notifiers);
    case UpdateEndpoint(id, ep) =>
      OverwriteEndpointInv(t, id, DefaultKind(ep.fields));
      if !Managed(t.endpoints, id) {
        RelinkedInv(OverwriteEndpoint(t, id, DefaultKind(ep.fields)), id, ep.notifiers);
      }
    case DeleteEndpoint(id) => KeepEndpointsInv(t, t.endpoints.(rows := t.endpoints.rows - {id}));
    case PauseEndpoint(id) =>
      if id in t.endpoints.rows && !Managed(t.endpoints, id) {
        SetPausedInv(t, id, !t.endpoints.rows[id].meta.paused);
      }
    case CreateNotifier(n) => InsertNotifierInv(t, newId, n, now);
    case UpdateNotifier(id, n) => OverwriteNotifierInv(t, id, n);
    case DeleteNotifier(id) => KeepNotifiersInv(t, t.notifiers.(rows := t.notifiers.rows - {id}));
  }

  /** The row, the links and the checks of `e` are the same in both stores. */
  ghost predicate EndpointUntouched(t: Tables, t': Tables, e: nat) {
    && e in t.endpoints.rows && e in t'.endpoints.rows && t'.endpoints.rows[e] == t.endpoints.rows[e]
    && (forall n: nat :: (e, n) in t'.links <==> (e, n) in t.links)
    && ChecksOf(t'.checks, {e}) == ChecksOf(t.checks, {e})
  }

  ghost predicate NotifierUntouched(t: Tables, t': Tables, n: nat) {
    n in t.notifiers.rows && n in t'.notifiers.rows && t'.notifiers.rows[n] == t.notifiers.rows[n]
  }

  /** Whatever either store says the configuration manages is the same in both. */
  ghost predicate ManagedUntouched(t: Tables, t': Tables) {
    && (forall e | Managed(t.endpoints, e) || Managed(t'.endpoints, e) :: EndpointUntouched(t, t', e))
    && (forall n | Managed(t.notifiers, n) || Managed(t'.notifiers, n) :: NotifierUntouched(t, t', n))
  }

  /** No request touches what the configuration manages. */
  lemma ApiSparesManaged(web: Web, t: Tables, req: Request, newId: nat, now: int)
    requires Inv(t) && FreshId(t, req, newId)
    ensures ManagedUntouched(t, Respond(web, t, req, newId, now).1)
  {
    var t' := Respond(web, t, req, newId, now).1;
    forall e | Managed(t.endpoints, e) || Managed(t'.endpoints, e)
      ensures EndpointUntouched(t, t', e)
    {
      ApiSparesEndpoint(web, t, req, newId, now, e);
    }
  }

  lemma ApiSparesEndpoint(web: Web, t: Tables, req: Request, newId: nat, now: int, e: nat)
    requires Inv(t) && FreshId(t, req, newId)
    requires Managed(t.endpoints, e) || Managed(Respond(web, t, req, newId, now).1.endpoints, e)
    ensures EndpointUntouched(t, Respond(web, t, req, newId, now).1, e)
  {
    match req
    case CreateEndpoint(ep) =>
      if EndpointAcceptable(web, ep.fields) {
        RelinkedSpares(InsertEndpoint(t, newId, DefaultKind(ep.fields), ep.paused, now), newId, ep.notifiers, e);
      }
    case UpdateEndpoint(id, ep) =>
      if id in t.endpoints.rows && !Managed(t.endpoints, id) {
        RelinkedSpares(OverwriteEndpoint(t, id, DefaultKind(ep.fields)), id, ep.notifiers, e);
      }
    case DeleteEndpoint(id) =>
      if id in t.endpoints.rows && !Managed(t.endpoints, id) { RemovalSpares(t, id, e); }
    case DeleteNotifier(id) =>
      if !Managed(t.notifiers, id) { NotifierRemovalSpares(t, id, e); }
    case _ =>
  }

  lemma RelinkedSpares(t: Tables, x: nat, ids: seq<nat>, e: nat)
    requires x != e && e in t.endpoints.rows
    ensures EndpointUntouched(t, Relinked(t, x, ids), e)
  {
  }

  lemma RemovalSpares(t: Tables, x: nat, e: nat)
    requires x != e && e in t.endpoints.rows
    ensures EndpointUntouched(t, RemoveEndpoint(t, x), e)
  {
    ChecksOfTwice(t.checks, (t.endpoints.rows - {x}).Keys, {e});
  }

  lemma NotifierRemovalSpares(t: Tables, n: nat, e: nat)
    requires Inv(t) && Managed(t.endpoints, e) && !Managed(t.notifiers, n)
    ensures EndpointUntouched(t, RemoveNotifier(t, n), e)
  {
  }

  /** The endpoint a request is about. */
  function EndpointTarget(req: Request, newId: nat): Option<nat> {
    match req
    case CreateEndpoint(_) => Some(newId)
    case UpdateEndpoint(id, _) => Some(id)
    case DeleteEndpoint(id) => Some(id)
    case PauseEndpoint(id) => Some(id)
    case _ => None
  }

  function NotifierTarget(req: Request, newId: nat): Option<nat> {
    match req
    case CreateNotifier(_) => Some(newId)
    case UpdateNotifier(id, _) => Some(id)
    case DeleteNotifier(id) => Some(id)
    case _ => None
  }

  /** A request changes its own row only, and links only where their endpoint or notifier is its target. */
  lemma RequestsAreLocal(web: Web, t: Tables, req: Request, newId: nat, now: int, e: nat, n: nat)
    requires Inv(t) && EndpointTarget(req, newId) != Some(e) && NotifierTarget(req, newId) != Some(n)
    ensures var t' := Respond(web, t, req, newId, now).1;
            && (e in t'.endpoints.rows <==> e in t.endpoints.rows)
            && (e in t.endpoints.rows ==>
                t'.endpoints.rows[e] == t.endpoints.rows[e] && ChecksOf(t'.checks, {e}) == ChecksOf(t.checks, {e}))
            && (n in t'.notifiers.rows <==> n in t.notifiers.rows)
            && (n in t.notifiers.rows ==> t'.notifiers.rows[n] == t.notifiers.rows[n])
            && ((e, n) in t'.links <==> (e, n) in t.links)
  {
    EndpointsAreLocal(web, t, req, newId, now, e);
  }

  lemma EndpointsAreLocal(web: Web, t: Tables, req: Request, newId: nat, now: int, e: nat)
    requires EndpointTarget(req, newId) != Some(e)
    ensures var t' := Respond(web, t, req, newId, now).1;
            && (e in t'.endpoints.rows <==> e in t.endpoints.rows)
            && (e in t.endpoints.rows ==>
                t'.endpoints.rows[e] == t.endpoints.rows[e] && ChecksOf(t'.checks, {e}) == ChecksOf(t.checks, {e}))
  {
    if req.DeleteEndpoint? && e in t.endpoints.rows {
      ChecksOfTwice(t.checks, (t.endpoints.rows - {req.id}).Keys, {e});
    }
  }

  /** What a successful POST or PUT of an endpoint leaves: its columns, its provenance, its checks and its links. */
  lemma EndpointIsStored(web: Web, t: Tables, req: Request, newId: nat, now: int)
    requires Inv(t) && FreshId(t, req, newId) && (req.CreateEndpoint? || req.UpdateEndpoint?)
    requires Respond(web, t, req, newId, now).0 in {Created, Okay}
    ensures var t', id, f := Respond(web, t, req, newId, now).1, EndpointTarget(req, newId).value, req.ep.fields;
            && id in t'.endpoints.rows && !Managed(t'.endpoints, id) && t'.endpoints.rows[id].uid == None
            && t'.endpoints.rows[id].fields == f.(kind := if f.kind == "" then "http" else f.kind)
            && (req.CreateEndpoint? ==>
                id !in t.endpoints.rows && t'.endpoints.rows[id].meta == EndpointMeta(req.ep.paused, now))
            && (req.UpdateEndpoint? ==>
                id in t.endpoints.rows && t'.endpoints.rows[id].meta == t.endpoints.rows[id].meta)
            && t'.checks == t.checks && t'.nextCheck == t.nextCheck && t'.notifiers == t.notifiers
            && forall n: nat :: (id, n) in t'.links <==>
                 if NoRepeats(req.ep.notifiers) && (forall m | m in req.ep.notifiers :: m in t.notifiers.rows)
                     then n in req.ep.notifiers
                 else req.UpdateEndpoint? && (id, n) in t.links
  {
  }

  /** What a successful pause or resume leaves: everything but the one flag is as before. */
  lemma PauseIsStored(web: Web, t: Tables, id: nat)
    requires Respond(web, t, PauseEndpoint(id), 0, 0).0 == Okay
    ensures id in t.endpoints.rows
    ensures var t', meta := Respond(web, t, PauseEndpoint(id), 0, 0).1, t.endpoints.rows[id].meta;
            && MetaSet(t.endpoints, id, EndpointMeta(!meta.paused, meta.createdAt), t'.endpoints)
            && t' == t.(endpoints := t'.endpoints)
  {
  }

  /** What a successful POST or PUT of a notifier leaves, and that nothing but the notifiers changes. */
  lemma NotifierIsStored(web: Web, t: Tables, req: Request, newId: nat, now: int)
    requires Inv(t) && FreshId(t, req, newId) && (req.CreateNotifier? || req.UpdateNotifier?)
    requires Respond(web, t, req, newId, now).0 in {Created, Okay}
    ensures var t', id := Respond(web, t, req, newId, now).1, NotifierTarget(req, newId).value;
            && id in t'.notifiers.rows && !Managed(t'.notifiers, id) && t'.notifiers.rows[id].uid == None
            && t'.notifiers.rows[id].fields == NotifierFields(req.n.name, req.n.kind, req.n.json)
            && (req.CreateNotifier? ==> id !in t.notifiers.rows && t'.notifiers.rows[id].meta == NotifierMeta(now))
            && (req.UpdateNotifier? ==>
                id in t.notifiers.rows && t'.notifiers.rows[id].meta == t.notifiers.rows[id].meta)
            && t' == t.(notifiers := t'.notifiers)
  {
  }

  /** What a successful DELETE leaves: the row is gone, with exactly the links and the checks that refer to it. */
  lemma RemovalIsDone(web: Web, t: Tables, req: Request)
    requires Inv(t) && (req.DeleteEndpoint? || req.DeleteNotifier?) && Respond(web, t, req, 0, 0).0 == NoContent
    ensures var t' := Respond(web, t, req, 0, 0).1;
            && (req.DeleteEndpoint? ==>
                && RowGone(t.endpoints, req.id, t'.endpoints) && t'.notifiers == t.notifiers
                && (forall e: nat, n: nat :: (e, n) in t'.links <==> (e, n) in t.links && e != req.id)
                && forall e :: ChecksOf(t'.checks, {e}) == if e == req.id then [] else ChecksOf(t.checks, {e}))
            && (req.DeleteNotifier? ==>
                && RowGone(t.notifiers, req.id, t'.notifiers) && t'.endpoints == t.endpoints && t'.checks == t.checks
                && forall e: nat, n: nat :: (e, n) in t'.links <==> (e, n) in t.links && n != req.id)
  {
    if req.DeleteEndpoint? {
      RemovalEffect(t, req.id);
    } else {
      LinksToOthers(t, req.id);
    }
  }

  /** The row a request is about is not there. */
  predicate Missing(t: Tables, req: Request) {
    match req
    case UpdateEndpoint(id, _) => id !in t.endpoints.rows
    case DeleteEndpoint(id) => id !in t.endpoints.rows
    case PauseEndpoint(id) => id !in t.endpoints.rows
    case UpdateNotifier(id, _) => id !in t.notifiers.rows
    case DeleteNotifier(id) => id !in t.notifiers.rows
    case _ => false
  }

  /** The row a request would change belongs to the configuration. */
  predicate Guarded(t: Tables, req: Request) {
    match req
    case UpdateEndpoint(id, _) => Managed(t.endpoints, id)
    case DeleteEndpoint(id) => Managed(t.endpoints, id)
    case PauseEndpoint(id) => Managed(t.endpoints, id)
    case UpdateNotifier(id, _) => Managed(t.notifiers, id)
    case DeleteNotifier(id) => Managed(t.notifiers, id)
    case _ => false
  }

  predicate Unfit(web: Web, req: Request) {
    || ((req.CreateEndpoint? || req.UpdateEndpoint?) && !EndpointAcceptable(web, req.ep.fields))
    || ((req.CreateNotifier? || req.UpdateNotifier?) && !NotifierAcceptable(web, req.n))
  }

  /** Which answer a request gets: 404 before 403 before 400, and otherwise the success of its kind. */
  lemma AnswersAre(web: Web, t: Tables, req: Request, newId: nat, now: int)
    ensures var status := Respond(web, t, req, newId, now).0;
            && (status == NotFound <==> Missing(t, req))
            && (status == Forbidden <==> Guarded(t, req))
            && (status == BadRequest <==> !Missing(t, req) && !Guarded(t, req) && Unfit(web, req))
            && (status == Created ==> req.CreateEndpoint? || req.CreateNotifier?)
            && (status == NoContent ==> req.DeleteEndpoint? || req.DeleteNotifier?)
            && (status == Okay ==> req.UpdateEndpoint? || req.PauseEndpoint? || req.UpdateNotifier?)
            && status != ServerError
    ensures Respond(web, t, req, newId, now).0 in {NotFound, Forbidden, BadRequest} ==>
              Respond(web, t, req, newId, now).1 == t
  {
  }

  /** The bodies the handlers accept, in plain terms; `kind` is the notifier's type in lower case. */
  lemma AcceptableBodies(web: Web, f: EndpointFields, n: NotifierFields, kind: string)
    requires |kind| == |n.kind| && forall i | 0 <= i < |kind| :: web.lower(n.kind[i]) == kind[i]
    ensures EndpointAcceptable(web, f) <==>
              && f.name != "" && f.url != "" && f.interval >= 10
              && if f.kind == "" || f.kind == "http" then web.httpUrl(f.url) else f.kind == "tcp" && web.hostPort(f.url)
    ensures NotifierAcceptable(web, n) <==>
              && n.name != "" && n.kind != "" && n.json != ""
              && (kind == "telegram" || kind == "pushover" || kind == "redis") && web.factory(kind, n.json)
  {
    assert Lowered(web.lower, n.kind) == kind;
  }
}
