/** Behaviour of the handlers as written that departs from what they are
    evidently meant to do, each modelled as written and contrasted with the
    behaviour the rest of the model uses:
    - the registry is a plain JavaScript object, so lookups and assignments
      on it follow its prototype chain (terminate, launch and restoration);
    - the UI catch-all route is registered before every proxy rule and
      answers GET requests under `/mcs/` itself. */
module Findings {
  import opened Options
  import opened Names
  import opened Records
  import opened Restore
  import opened Supervision

  /** Properties every plain object inherits from `Object.prototype` whose
      names match the instance name pattern. */
  const ObjectPrototypeNames: set<string> := {
    "constructor", "hasOwnProperty", "isPrototypeOf", "propertyIsEnumerable",
    "toString", "toLocaleString", "valueOf", "__proto__",
    "__defineGetter__", "__defineSetter__", "__lookupGetter__", "__lookupSetter__"
  }

  /** What `mcpServers[name]` yields: an own entry, an inherited member
      (a function or the prototype object, truthy and without a `process`),
      or `undefined`. */
  datatype Lookup = Own(server: Server) | Inherited | Undefined

  function LookupAsWritten(r: Registry, name: string): Lookup
  {
    if name in r.entries then Own(r.entries[name])
    else if name in ObjectPrototypeNames then Inherited
    else Undefined
  }

  /** The terminate handler as written: the 404 guard tests the looked-up
      value for truthiness, then `server.process.kill()` runs on it. An
      inherited member passes the guard and has no `process`, so the call
      throws a TypeError before any reply is sent. */
  datatype TerminateOutcome = Replied(reply: TerminateReply, servers: Registry) | TypeErrorThrown

  function TerminateAsWritten(r: Registry, name: string): (o: TerminateOutcome)
  {
    match LookupAsWritten(r, name)
    case Undefined => Replied(NotFound, r)
    case Inherited => TypeErrorThrown
    case Own(s) => Replied(Terminated(s.process), Remove(r, name))
  }

  /** While the registry's prototype is still `Object.prototype`, the
      handler as written replies exactly as the corrected one does on every
      name except the inherited ones absent from the registry, where it
      throws. (`Registry` has no prototype of its own, so the state after an
      as-written launch of `__proto__` is not covered.) */
  lemma TerminateAsWrittenDiffers(r: Registry, name: string)
    ensures TerminateAsWritten(r, name).TypeErrorThrown? <==> name !in r.entries && name in ObjectPrototypeNames
    ensures name in r.entries ==>
              TerminateAsWritten(r, name) == Replied(Terminated(r.entries[name].process), Remove(r, name))
    ensures name !in r.entries && name !in ObjectPrototypeNames ==> TerminateAsWritten(r, name) == Replied(NotFound, r)
  {
  }

  /** `DELETE /api/servers/constructor` with nothing running: the name is a
      valid instance name and no instance has it, yet the handler throws
      instead of answering 404. */
  lemma DeleteConstructorThrows()
    ensures ValidName("constructor") && "constructor" !in EmptyRegistry.entries
    ensures TerminateAsWritten(EmptyRegistry, "constructor") == TypeErrorThrown
  {
    ValidNameIff("constructor");
  }

  /** `mcpServers[name] = entry` as written: for `__proto__` the assignment
      replaces the object's prototype and adds no own property, so the own
      entries are unchanged; any other name is stored as an own property. */
  function AssignAsWritten(r: Registry, name: string, s: Server): Registry
  {
    if name == "__proto__" then r else Put(r, name, s)
  }

  /** What the list and the health count see after the assignment as
      written: nothing changes for `__proto__`; any other name shows as it
      would after `Records.Put`. */
  lemma AssignAsWrittenProjections(r: Registry, name: string, s: Server)
    ensures name == "__proto__" ==>
              List(AssignAsWritten(r, name, s)) == List(r) && Health(AssignAsWritten(r, name, s)) == Health(r)
    ensures name != "__proto__" ==>
              && List(AssignAsWritten(r, name, s)) == List(Put(r, name, s))
              && Health(AssignAsWritten(r, name, s)) == Health(Put(r, name, s))
  {
  }

  /** Launching an instance named `__proto__`: the name passes validation and
      the conflict check on an empty supervisor, but after the assignment
      the instance list does not show it and the health count is zero. */
  lemma ProtoLaunchUnlisted(s: Server)
    requires s.data.name == "__proto__"
    ensures ValidName("__proto__")
    ensures !Taken(EmptyRegistry, map[], "__proto__")
    ensures CountNamed(List(AssignAsWritten(EmptyRegistry, "__proto__", s)), "__proto__") == 0
    ensures Health(AssignAsWritten(EmptyRegistry, "__proto__", s)) == 0
  {
    ValidNameIff("__proto__");
  }

  /** One restoration step as written: the same as `Restore.RestoreOne`
      except that the registry assignment behaves as `AssignAsWritten`. */
  function RestoreOneAsWritten(s: Snapshot, key: string, data: ServerData, outcome: StartOutcome): Snapshot
    requires HasServerPrefix(key)
  {
    var name := NameOfKey(key);
    if outcome.Running? then
      s.(servers := AssignAsWritten(s.servers, name, Server(data, outcome.process)),
         routes := s.routes + [Route(ApiEndpoint(name), data.internalPort)])
    else
      s.(store := s.store - {key})
  }

  /** The store the launch handler as written leaves behind after launching
      `__proto__` is one that the launch handler writes: well formed, with
      the name recovered from the key. */
  lemma ProtoStoreWellFormed(data: ServerData)
    requires data.name == "__proto__"
    ensures HasServerPrefix(ServerKey("__proto__")) && NameOfKey(ServerKey("__proto__")) == "__proto__"
    ensures WellFormedStore(map[ServerKey("__proto__") := Doc(data)])
  {
    NameOfKeyInverts("__proto__");
  }

  /** The launch handler as written stores `servers:__proto__` like any other
      record. Restoring it at the next start relaunches its process and
      binds its route, but the registry gains no own entry: the instance is
      neither listed nor counted, while the corrected step registers it. */
  lemma ProtoRestoreUnlisted(data: ServerData, p: Process)
    requires data.name == "__proto__"
    ensures var store0 := map[ServerKey("__proto__") := Doc(data)];
      var key := ServerKey("__proto__");
      && WellFormedStore(store0)
      && HasServerPrefix(key)
      && (var asWritten := RestoreOneAsWritten(Start(store0), key, data, Running(p));
          && CountNamed(List(asWritten.servers), "__proto__") == 0
          && Health(asWritten.servers) == 0
          && asWritten.routes == [Route(ApiEndpoint("__proto__"), data.internalPort)])
      && CountNamed(List(RestoreOne(Start(store0), key, data, Running(p)).servers), "__proto__") == 1
  {
    ProtoStoreWellFormed(data);
    var store0 := map[ServerKey("__proto__") := Doc(data)];
    var key := ServerKey("__proto__");
    var asWritten := RestoreOneAsWritten(Start(store0), key, data, Running(p));
    assert asWritten.servers == EmptyRegistry;
    ListedOnce(EmptyRegistry, "__proto__", Server(data, p));
    assert RestoreOne(Start(store0), key, data, Running(p)).servers == Put(EmptyRegistry, "__proto__", Server(data, p));
  }

  /** How the application as written answers a request: the UI catch-all
      `app.get('*')` is registered when the module loads, before any proxy
      rule, and answers 404 to every GET (and HEAD) whose URL starts with
      `/mcs/`; other requests reach the proxy rules. */
  datatype Dispatch = CatchAllNotFound | Forwarded(port: int) | Unrouted

  function DispatchAsWritten(routes: seq<Route>, httpMethod: string, url: string): Dispatch
  {
    if (httpMethod == "GET" || httpMethod == "HEAD")
       && |url| >= |RoutePrefix| && url[..|RoutePrefix|] == RoutePrefix then
      CatchAllNotFound
    else
      match Resolve(routes, url)
      case None => Unrouted
      case Some(port) => Forwarded(port)
  }

  /** Whatever rules exist, a GET to an instance's path or to its streaming
      endpoint is answered by the catch-all and never forwarded; other
      methods reach the rule the proxy table resolves. */
  lemma GetUnderMcsNeverForwarded(routes: seq<Route>, name: string)
    ensures DispatchAsWritten(routes, "GET", ApiEndpoint(name)) == CatchAllNotFound
    ensures DispatchAsWritten(routes, "GET", SseEndpoint(name)) == CatchAllNotFound
    ensures Resolve(routes, ApiEndpoint(name)).Some? ==>
              DispatchAsWritten(routes, "POST", ApiEndpoint(name)) == Forwarded(Resolve(routes, ApiEndpoint(name)).value)
  {
    assert ApiEndpoint(name)[..|RoutePrefix|] == RoutePrefix;
    assert SseEndpoint(name)[..|RoutePrefix|] == RoutePrefix;
  }

  /** Right after `x` is launched on port 10000 its rule resolves, yet a GET
      to `/mcs/x` gets the catch-all's 404. */
  lemma LaunchedInstanceUnreachableByGet()
    ensures Resolve([Route(ApiEndpoint("x"), 10000)], ApiEndpoint("x")) == Some(10000)
    ensures DispatchAsWritten([Route(ApiEndpoint("x"), 10000)], "GET", ApiEndpoint("x")) == CatchAllNotFound
  {
    GetUnderMcsNeverForwarded([Route(ApiEndpoint("x"), 10000)], "x");
  }

}
