/** The supervisor process: the registry of running instances, the store it
    persists them to, the port counter and the proxy route table, with the
    port allocator, the launch and terminate handlers and startup
    reconciliation as methods that update them. */
module Supervision {
  import opened Options
  import opened Names
  import opened Decimal
  import opened Records
  import opened Restore

  /** The first internal port handed out when the store holds no counter. */
  const BaseMcpPort: int := 10000

  /** Why a launch request was refused. */
  datatype Reason =
    | MissingRepoUrl
    | MissingName
    | InvalidName
    | NameTaken
    | CloneError
    | ProcessExited
    | LaunchThrew

  /** The HTTP status of each refusal. */
  function StatusOf(reason: Reason): int
  {
    match reason
    case MissingRepoUrl | MissingName | InvalidName => 400
    case NameTaken => 409
    case CloneError | ProcessExited | LaunchThrew => 500
  }

  /** Reply to POST /api/launch: the new instance's summary, or a status. */
  datatype LaunchReply = Launched(summary: Summary) | Refused(status: int, reason: Reason)

  /** Reply to DELETE /api/servers/:name: 200 after signalling the process,
      or 404. */
  datatype TerminateReply = Terminated(signalled: Process) | NotFound

  /** A request body field is truthy: present and not the empty string. */
  predicate Present(field: Option<string>)
  {
    field.Some? && field.value != ""
  }

  /** The checks made before anything else happens, in their order: the
      repository URL, then the name, then the name's pattern. */
  function Validate(repoUrl: Option<string>, name: Option<string>): (r: Option<Reason>)
    ensures r.None? <==> Present(repoUrl) && Present(name)
                         && forall i :: 0 <= i < |name.value| ==> IsNameChar(name.value[i])
    ensures !Present(repoUrl) ==> r == Some(MissingRepoUrl)
    ensures Present(repoUrl) && !Present(name) ==> r == Some(MissingName)
    ensures Present(repoUrl) && Present(name) && !ValidName(name.value) ==> r == Some(InvalidName)
    ensures r.Some? ==> StatusOf(r.value) == 400
  {
    if !Present(repoUrl) then Some(MissingRepoUrl)
    else if !Present(name) then Some(MissingName)
    else
      ValidNameIff(name.value);
      if !ValidName(name.value) then Some(InvalidName)
      else None
  }

  /** The conflict check: some registry entry already carries the name, or
      the store already holds `servers:<name>`. */
  predicate Taken(servers: Registry, store: Store, name: string)
  {
    (exists k :: k in servers.entries && servers.entries[k].data.name == name)
    || ServerKey(name) in store
  }

  /** A request that passes validation and the conflict check. */
  predicate Admitted(servers: Registry, store: Store, repoUrl: Option<string>, name: Option<string>)
  {
    Validate(repoUrl, name).None? && !Taken(servers, store, name.value)
  }

  /** The counter value the store holds can be read: absent, empty, or text
      that `parseInt` reads as a number. */
  predicate CounterReadable(store: Store)
  {
    NextPortKey in store ==>
      store[NextPortKey].Text?
      && (store[NextPortKey].text == "" || ParseInt(store[NextPortKey].text).Some?)
  }

  /** The counter after the startup load: the stored value when it is a
      non-empty string, otherwise the base port. */
  function LoadedCounter(store: Store): int
    requires CounterReadable(store)
  {
    if NextPortKey in store && store[NextPortKey].text != "" then ParseInt(store[NextPortKey].text).value
    else BaseMcpPort
  }

  /** A counter persisted by the allocator is read back unchanged at the next
      start; with no counter stored, counting starts at the base port. */
  lemma CounterSurvivesRestart(store: Store, n: int)
    requires NextPortKey in store && store[NextPortKey] == Text(ToDecimal(n))
    ensures CounterReadable(store) && LoadedCounter(store) == n
  {
    ParseIntToDecimal(n);
    assert ToDecimal(n) != "" by {
      assert |NatDigits(if n < 0 then -n else n)| > 0;
    }
  }

  lemma CounterDefault(store: Store)
    requires NextPortKey !in store
    ensures CounterReadable(store) && LoadedCounter(store) == BaseMcpPort
  {
  }

  ghost predicate Increasing(s: seq<int>)
  {
    forall i, j :: 0 <= i < j < |s| ==> s[i] < s[j]
  }

  lemma NextPortKeyIsNotAServerKey(name: string)
    ensures !HasServerPrefix(NextPortKey)
    ensures ServerKey(name) != NextPortKey
  {
    assert ServerKey(name)[0] != NextPortKey[0];
  }

  class Supervisor {
    /** The registry object `mcpServers`. */
    var servers: Registry
    /** `nextAvailablePort`. */
    var nextPort: int
    /** The contents of the key/value store. */
    var store: Store
    /** The proxy rules added with `app.use`, in the order they were added. */
    var routes: seq<Route>
    /** The ports this process's allocator has handed out, in order. */
    ghost var Issued: seq<int>

    /** Ports handed out increase strictly, the counter is ahead of all of
        them, and once one has been handed out the store holds the counter. */
    ghost predicate Valid()
      reads this
    {
      && WellFormed(servers)
      && Increasing(Issued)
      && (forall i :: 0 <= i < |Issued| ==> Issued[i] < nextPort)
      && (|Issued| > 0 ==> NextPortKey in store && store[NextPortKey] == Text(ToDecimal(nextPort)))
    }

    /** Registry, store and routes describe the same instances. */
    ghost predicate Consistent()
      reads this
    {
      Agrees(servers, store, routes)
    }

    ghost function Snap(): Snapshot
      reads this
    {
      Snapshot(servers, store, routes)
    }

    /** The process as it starts: an empty registry, the base port and no
        proxy routes, in front of whatever the store already holds. */
    constructor (persisted: Store)
      ensures Valid()
      ensures servers == EmptyRegistry && nextPort == BaseMcpPort && routes == [] && Issued == []
      ensures store == persisted
    {
      servers := EmptyRegistry;
      nextPort := BaseMcpPort;
      store := persisted;
      routes := [];
      Issued := [];
    }

    /** Hands out the current counter, advances it by one and persists the
        advanced value as `next_port`. */
    method AllocatePort() returns (port: int)
      requires Valid()
      modifies this`nextPort, this`store, this`Issued
      ensures Valid()
      ensures port == old(nextPort) && nextPort == port + 1
      ensures store == old(store)[NextPortKey := Text(ToDecimal(nextPort))]
      ensures Issued == old(Issued) + [port]
      ensures forall i :: 0 <= i < |old(Issued)| ==> old(Issued)[i] < port
    {
      port := nextPort;
      nextPort := nextPort + 1;
      store := store[NextPortKey := Text(ToDecimal(nextPort))];
      Issued := Issued + [port];
    }

    /** POST /api/launch with the body fields `repoUrl` and `name`; `clone`,
        `started` and `now` are what cloning, the launcher and the clock
        produce for this request. */
    method Launch(repoUrl: Option<string>, name: Option<string>, clone: CloneOutcome,
                  started: StartOutcome, now: string)
      returns (reply: LaunchReply)
      requires Valid()
      modifies this`servers, this`nextPort, this`store, this`routes, this`Issued
      ensures Valid()
      ensures old(Consistent()) ==> Consistent()
      // Refused before anything changes: bad request, name in use, clone failed.
      ensures Validate(repoUrl, name).Some? ==>
                reply == Refused(400, Validate(repoUrl, name).value) && unchanged(this)
      ensures Validate(repoUrl, name).None? && Taken(old(servers), old(store), name.value) ==>
                reply == Refused(409, NameTaken) && unchanged(this)
      ensures Admitted(old(servers), old(store), repoUrl, name) && clone.CloneFailed? ==>
                reply == Refused(500, CloneError) && unchanged(this)
      // Past the clone, exactly one port is consumed.
      ensures Admitted(old(servers), old(store), repoUrl, name) && clone.Cloned? ==>
                nextPort == old(nextPort) + 1 && Issued == old(Issued) + [old(nextPort)]
      // The launcher failed: only the counter moved; no record, no route.
      ensures Admitted(old(servers), old(store), repoUrl, name) && clone.Cloned? && !started.Running? ==>
                && reply == Refused(500, if started.Exited? then ProcessExited else LaunchThrew)
                && servers == old(servers) && routes == old(routes)
                && store == old(store)[NextPortKey := Text(ToDecimal(nextPort))]
                && ServerKey(name.value) !in store
      // Success: the same record in the registry (with the process) and in
      // the store (without it), a route to its port, and one list entry.
      ensures Admitted(old(servers), old(store), repoUrl, name) && clone.Cloned? && started.Running? ==>
                var data := ServerData(name.value, repoUrl.value, clone.dir, old(nextPort), now);
                && reply == Launched(Summarize(data))
                && servers == Put(old(servers), name.value, Server(data, started.process))
                && store == old(store)[NextPortKey := Text(ToDecimal(nextPort))][ServerKey(name.value) := Doc(data)]
                && routes == old(routes) + [Route(ApiEndpoint(name.value), data.internalPort)]
                && CountNamed(List(servers), name.value) == 1
    {
      var invalid := Validate(repoUrl, name);
      if invalid.Some? {
        return Refused(400, invalid.value);
      }
      var n, url := name.value, repoUrl.value;
      if Taken(servers, store, n) {
        return Refused(409, NameTaken);
      }
      if clone.CloneFailed? {
        return Refused(500, CloneError);
      }
      ghost var before := servers;
      ghost var store0 := store;
      ghost var routes0 := routes;
      var port := AllocatePort();
      NextPortKeyIsNotAServerKey(n);
      if !started.Running? {
        return Refused(500, if started.Exited? then ProcessExited else LaunchThrew);
      }
      var data := ServerData(n, url, clone.dir, port, now);
      servers := Put(servers, n, Server(data, started.process));
      store := store[ServerKey(n) := Doc(data)];
      routes := routes + [Route(ApiEndpoint(n), port)];
      reply := Launched(Summarize(data));
      ListedOnce(before, n, Server(data, started.process));
      if Agrees(before, store0, routes0) {
        LaunchKeepsAgreement(before, store0, routes0, n, data, started.process);
      }
    }

    /** DELETE /api/servers/:name. */
    method Terminate(name: string) returns (reply: TerminateReply)
      requires Valid()
      modifies this`servers, this`store
      ensures Valid()
      ensures old(Consistent()) ==> Consistent()
      ensures name !in old(servers.entries) ==>
                reply == NotFound && servers == old(servers) && store == old(store)
      ensures name in old(servers.entries) ==>
                && reply == Terminated(old(servers.entries[name].process))
                && servers == Remove(old(servers), name)
                && store == old(store) - {ServerKey(name)}
      ensures old(Consistent()) ==> CountNamed(List(servers), name) == 0 && ServerKey(name) !in store
    {
      if name !in servers.entries {
        reply := NotFound;
        if Agrees(servers, store, routes) {
          TerminateKeepsAgreement(servers, store, routes, name);
        }
        return;
      }
      reply := Terminated(servers.entries[name].process);
      ghost var before, store0 := servers, store;
      NextPortKeyIsNotAServerKey(name);
      servers := Remove(servers, name);
      store := store - {ServerKey(name)};
      if Agrees(before, store0, routes) {
        TerminateKeepsAgreement(before, store0, routes, name);
      }
    }

    /** One pass of the reconciliation loop for a record that parsed: on a
        running process, register it under the name taken from its key and
        add its route; otherwise delete its key. */
    method RestoreRecord(key: string, data: ServerData, outcome: StartOutcome)
      requires Valid() && HasServerPrefix(key)
      modifies this`servers, this`store, this`routes
      ensures Valid()
      ensures Snap() == RestoreOne(old(Snap()), key, data, outcome)
    {
      var name := NameOfKey(key);
      if outcome.Running? {
        servers := Put(servers, name, Server(data, outcome.process));
        routes := routes + [Route(ApiEndpoint(name), data.internalPort)];
      } else {
        NextPortKeyIsNotAServerKey(name);
        store := store - {key};
      }
    }

    /** Startup: load the counter, then try to bring back every stored
        record. Returns, as ghost values, the keys restored in the order
        they were visited and the key whose value failed to parse, if any;
        a parse failure ends the whole procedure. */
    method InitializeFromStore(relaunch: string -> StartOutcome)
      returns (ghost visited: seq<string>, ghost abortedAt: Option<string>)
      requires Valid()
      requires servers == EmptyRegistry && routes == [] && Issued == [] && nextPort == BaseMcpPort
      requires CounterReadable(store)
      modifies this`servers, this`nextPort, this`store, this`routes
      ensures Valid()
      ensures nextPort == LoadedCounter(old(store))
      ensures Distinct(visited) && Restorable(visited, old(store))
      ensures Snap() == RestoreAll(Start(old(store)), visited, old(store), relaunch)
      ensures abortedAt.None? ==> forall key :: key in visited <==> key in ServerKeys(old(store))
      ensures abortedAt.Some? ==>
                && abortedAt.value in ServerKeys(old(store)) && abortedAt.value !in visited
                && old(store)[abortedAt.value].Text?
      ensures WellFormedStore(old(store)) ==> abortedAt.None? && Consistent()
    {
      if NextPortKey in store && store[NextPortKey].text != "" {
        nextPort := ParseInt(store[NextPortKey].text).value;
      }
      ghost var store0 := store;
      var pending := ServerKeys(store);
      visited := [];
      abortedAt := None;
      while pending != {}
        invariant Valid() && Issued == [] && nextPort == LoadedCounter(store0)
        invariant Distinct(visited) && Restorable(visited, store0)
        invariant forall key :: key in pending <==> key in ServerKeys(store0) && key !in visited
        invariant forall key :: key in pending ==> key in store && store[key] == store0[key]
        invariant Snap() == RestoreAll(Start(store0), visited, store0, relaunch)
        invariant abortedAt.None?
        decreases pending
      {
        var key :| key in pending;
        var value := store[key];
        if value.Text? {
          abortedAt := Some(key);
          break;
        }
        RestoreRecord(key, value.data, relaunch(key));
        RestoreAllSnoc(Start(store0), visited, key, store0, relaunch);
        visited := visited + [key];
        pending := pending - {key};
      }
      if WellFormedStore(store0) && abortedAt.None? {
        RestoredAgree(store0, visited, relaunch);
      }
    }
  }

  /** A successful launch of a name that passed the conflict check keeps
      registry, store and routes in agreement. */
  lemma LaunchKeepsAgreement(r: Registry, store: Store, routes: seq<Route>,
                             n: string, data: ServerData, p: Process)
    requires Agrees(r, store, routes)
    requires ValidName(n) && data.name == n
    requires !Taken(r, store, n)
    ensures var store' := store[NextPortKey := Text(ToDecimal(data.internalPort + 1))][ServerKey(n) := Doc(data)];
            Agrees(Put(r, n, Server(data, p)), store', routes + [Route(ApiEndpoint(n), data.internalPort)])
  {
    ValidNameHasNoSeparators(n);
    NameOfKeyInverts(n);
    NextPortKeyIsNotAServerKey(n);
    var store' := store[NextPortKey := Text(ToDecimal(data.internalPort + 1))][ServerKey(n) := Doc(data)];
    var r' := Put(r, n, Server(data, p));
    var routes' := routes + [Route(ApiEndpoint(n), data.internalPort)];
    assert n !in r.entries;
    forall k | k in r'.entries
      ensures && ':' !in k
              && r'.entries[k].data.name == k
              && ServerKey(k) in store'
              && store'[ServerKey(k)] == Doc(r'.entries[k].data)
              && Route(ApiEndpoint(k), r'.entries[k].data.internalPort) in routes'
    {
      if k != n {
        assert ServerKey(k)[|ServerKeyPrefix|..] == k;
        assert ServerKey(n)[|ServerKeyPrefix|..] == n;
        assert ServerKey(k) != ServerKey(n);
        assert r'.entries[k] == r.entries[k];
      }
    }
    forall key | key in store' && HasServerPrefix(key)
      ensures CanonicalKey(key) && key[|ServerKeyPrefix|..] in r'.entries
    {
      if key == ServerKey(n) {
        assert key[|ServerKeyPrefix|..] == n;
      } else {
        assert key in store;
      }
    }
  }

  /** Terminating keeps registry, store and routes in agreement, and leaves
      neither a list entry nor a store record for the name. */
  lemma TerminateKeepsAgreement(r: Registry, store: Store, routes: seq<Route>, n: string)
    requires Agrees(r, store, routes)
    ensures var r' := if n in r.entries then Remove(r, n) else r;
            var store' := if n in r.entries then store - {ServerKey(n)} else store;
            && Agrees(r', store', routes)
            && CountNamed(List(r'), n) == 0
            && ServerKey(n) !in store'
  {
    var r' := if n in r.entries then Remove(r, n) else r;
    var store' := if n in r.entries then store - {ServerKey(n)} else store;
    forall k | k in r.entries && k != n ensures ServerKey(k) != ServerKey(n) {
      assert ServerKey(k)[|ServerKeyPrefix|..] == k;
      assert ServerKey(n)[|ServerKeyPrefix|..] == n;
    }
    forall key | key in store' && HasServerPrefix(key)
      ensures CanonicalKey(key) && key[|ServerKeyPrefix|..] in r'.entries
    {
      KeyOfNameInverts(key);
    }
    assert HasServerPrefix(ServerKey(n)) && ServerKey(n)[|ServerKeyPrefix|..] == n;
    if n !in r.entries {
      CountNone(r.order, r.entries, n);
    } else {
      CountNone(r'.order, r'.entries, n);
    }
  }

}
