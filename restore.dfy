/** Startup reconciliation as a function: the effect of restoring a sequence
    of stored instance records one after the other. The supervisor's loop is
    proved to produce exactly this, and the lemmas below say what it means. */
module Restore {
  import opened Names
  import opened Records

  /** The part of the supervisor's state that restoration changes. */
  datatype Snapshot = Snapshot(servers: Registry, store: Store, routes: seq<Route>)

  /** The state restoration starts from: an empty registry, no proxy routes
      and the store as found. */
  function Start(store: Store): Snapshot
  {
    Snapshot(EmptyRegistry, store, [])
  }

  /** The keys the pattern `servers:*` enumerates. */
  function ServerKeys(store: Store): set<string>
  {
    set key | key in store && HasServerPrefix(key)
  }

  /** Keys that restoration can visit without the JSON parse throwing: they
      are enumerated keys whose value is a record. */
  ghost predicate Restorable(keys: seq<string>, store0: Store)
  {
    forall k :: k in keys ==> k in store0 && HasServerPrefix(k) && store0[k].Doc?
  }

  /** Restoring one record: relaunch it at its stored port; on success
      register it under the name taken from its key and add its route, on
      failure delete its key. */
  function RestoreOne(s: Snapshot, key: string, data: ServerData, outcome: StartOutcome): Snapshot
    requires HasServerPrefix(key)
  {
    var name := NameOfKey(key);
    if outcome.Running? then
      s.(servers := Put(s.servers, name, Server(data, outcome.process)),
         routes := s.routes + [Route(ApiEndpoint(name), data.internalPort)])
    else
      s.(store := s.store - {key})
  }

  /** Restoring `keys` in order, each with the record `store0` held for it and
      the launcher outcome `relaunch` gives for it. */
  ghost function RestoreAll(s: Snapshot, keys: seq<string>, store0: Store, relaunch: string -> StartOutcome): Snapshot
    requires Restorable(keys, store0)
    decreases |keys|
  {
    if keys == [] then s
    else
      var last := keys[|keys| - 1];
      assert last in keys;
      RestoreOne(RestoreAll(s, keys[..|keys| - 1], store0, relaunch), last, store0[last].data, relaunch(last))
  }

  /** One more key restored after `keys`. */
  lemma RestoreAllSnoc(s: Snapshot, keys: seq<string>, key: string, store0: Store, relaunch: string -> StartOutcome)
    requires Restorable(keys + [key], store0)
    ensures Restorable(keys, store0)
    ensures RestoreAll(s, keys + [key], store0, relaunch)
         == RestoreOne(RestoreAll(s, keys, store0, relaunch), key, store0[key].data, relaunch(key))
  {
    assert (keys + [key])[..|keys|] == keys;
    assert forall k :: k in keys ==> k in keys + [key];
  }

  /** The keys among `keys` whose relaunch failed. */
  function FailedKeys(keys: seq<string>, relaunch: string -> StartOutcome): set<string>
  {
    set k | k in keys && !relaunch(k).Running?
  }

  /** A failed restoration deletes its own key and nothing else: the store
      loses exactly the keys whose relaunch failed. */
  lemma {:induction false} RestoreStore(s: Snapshot, keys: seq<string>, store0: Store, relaunch: string -> StartOutcome)
    requires Restorable(keys, store0)
    ensures RestoreAll(s, keys, store0, relaunch).store == s.store - FailedKeys(keys, relaunch)
  {
    if keys != [] {
      var init, last := keys[..|keys| - 1], keys[|keys| - 1];
      assert keys == init + [last];
      RestoreAllSnoc(s, init, last, store0, relaunch);
      RestoreStore(s, init, store0, relaunch);
      assert FailedKeys(keys, relaunch)
          == FailedKeys(init, relaunch) + (if relaunch(last).Running? then {} else {last});
    }
  }

  /** Restoration only appends routes, and the routes it appends are exactly
      those of the records that came back, each pointing its name's path at
      its stored port: a failed record adds none. */
  lemma {:induction false} RestoreRoutes(s: Snapshot, keys: seq<string>, store0: Store, relaunch: string -> StartOutcome)
    requires Restorable(keys, store0)
    ensures var r := RestoreAll(s, keys, store0, relaunch);
      && s.routes <= r.routes
      && (forall k :: k in keys && relaunch(k).Running? ==>
            Route(ApiEndpoint(NameOfKey(k)), store0[k].data.internalPort) in r.routes)
      && (forall i :: |s.routes| <= i < |r.routes| ==>
            exists k :: k in keys && relaunch(k).Running?
                     && r.routes[i] == Route(ApiEndpoint(NameOfKey(k)), store0[k].data.internalPort))
  {
    if keys != [] {
      var init, last := keys[..|keys| - 1], keys[|keys| - 1];
      assert keys == init + [last];
      RestoreAllSnoc(s, init, last, store0, relaunch);
      RestoreRoutes(s, init, store0, relaunch);
      var prev := RestoreAll(s, init, store0, relaunch);
      var r := RestoreAll(s, keys, store0, relaunch);
      forall i | |s.routes| <= i < |r.routes|
        ensures exists k :: k in keys && relaunch(k).Running?
                         && r.routes[i] == Route(ApiEndpoint(NameOfKey(k)), store0[k].data.internalPort)
      {
        if i < |prev.routes| {
          assert r.routes[i] == prev.routes[i];
          var k :| k in init && relaunch(k).Running?
                   && prev.routes[i] == Route(ApiEndpoint(NameOfKey(k)), store0[k].data.internalPort);
          assert k in keys;
        } else {
          assert last in keys;
        }
      }
    }
  }

  /** The keys among `keys` whose relaunch succeeded. */
  function RunningKeys(keys: seq<string>, relaunch: string -> StartOutcome): set<string>
  {
    set k | k in keys && relaunch(k).Running?
  }

  /** With each key visited once, restoration binds exactly one route per
      record that came back. */
  lemma {:induction false} RestoreRoutesCount(s: Snapshot, keys: seq<string>, store0: Store, relaunch: string -> StartOutcome)
    requires Restorable(keys, store0) && Distinct(keys)
    ensures |RestoreAll(s, keys, store0, relaunch).routes| == |s.routes| + |RunningKeys(keys, relaunch)|
  {
    if keys != [] {
      var init, last := keys[..|keys| - 1], keys[|keys| - 1];
      assert keys == init + [last];
      assert Distinct(init) by {
        forall i, j | 0 <= i < j < |init| ensures init[i] != init[j] {
          assert init[i] == keys[i] && init[j] == keys[j];
        }
      }
      forall i | 0 <= i < |init| ensures init[i] != last {
        assert init[i] == keys[i];
      }
      RestoreAllSnoc(s, init, last, store0, relaunch);
      RestoreRoutesCount(s, init, store0, relaunch);
      assert RunningKeys(keys, relaunch)
          == RunningKeys(init, relaunch) + (if relaunch(last).Running? then {last} else {});
    }
  }

  /** No two of `keys` yield the same name. */
  predicate NamesDistinct(keys: seq<string>)
  {
    forall i, j :: 0 <= i < j < |keys| && HasServerPrefix(keys[i]) && HasServerPrefix(keys[j]) ==>
      NameOfKey(keys[i]) != NameOfKey(keys[j])
  }

  /** Every record that came back is registered under the name taken from its
      key, with its stored fields and its new process; nothing else is added.
      Registering keeps the registry well formed. */
  lemma {:induction false} RestoreRegistry(s: Snapshot, keys: seq<string>, store0: Store, relaunch: string -> StartOutcome)
    requires Restorable(keys, store0) && NamesDistinct(keys)
    ensures var r := RestoreAll(s, keys, store0, relaunch);
      && (WellFormed(s.servers) ==> WellFormed(r.servers))
      && (forall x :: x in r.servers.entries <==>
            x in s.servers.entries || exists k :: k in keys && relaunch(k).Running? && NameOfKey(k) == x)
      && (forall k :: k in keys && relaunch(k).Running? ==>
            NameOfKey(k) in r.servers.entries
            && r.servers.entries[NameOfKey(k)] == Server(store0[k].data, relaunch(k).process))
  {
    if keys != [] {
      var init, last := keys[..|keys| - 1], keys[|keys| - 1];
      assert keys == init + [last];
      assert NamesDistinct(init) by {
        forall i, j | 0 <= i < j < |init| && HasServerPrefix(init[i]) && HasServerPrefix(init[j])
          ensures NameOfKey(init[i]) != NameOfKey(init[j])
        {
          assert init[i] == keys[i] && init[j] == keys[j];
        }
      }
      RestoreAllSnoc(s, init, last, store0, relaunch);
      RestoreRegistry(s, init, store0, relaunch);
      forall k | k in init && relaunch(k).Running?
        ensures NameOfKey(k) != NameOfKey(last)
      {
        var i :| 0 <= i < |init| && init[i] == k;
        assert keys[i] == k && keys[|keys| - 1] == last;
      }
    }
  }

  /** Records as the launch handler writes them (`AgreesWellFormedStore`):
      every `servers:` key is `servers:<name>` for a colon-free name and holds
      a record of that name. */
  ghost predicate WellFormedStore(store: Store)
  {
    forall key :: key in store && HasServerPrefix(key) ==>
      CanonicalKey(key) && store[key].Doc? && store[key].data.name == NameOfKey(key)
  }

  /** The store of any agreeing state is well formed: what the supervisor
      leaves behind is a store that restores cleanly. */
  lemma AgreesWellFormedStore(r: Registry, store: Store, routes: seq<Route>)
    requires Agrees(r, store, routes)
    ensures WellFormedStore(store)
  {
    forall key | key in store && HasServerPrefix(key)
      ensures CanonicalKey(key) && store[key].Doc? && store[key].data.name == NameOfKey(key)
    {
      KeyOfNameInverts(key);
    }
  }

  /** Restoring every record of a well-formed store, in any order and whatever
      the launcher reports for each, leaves the registry, the store and the
      routes in agreement. */
  lemma RestoredAgree(store0: Store, keys: seq<string>, relaunch: string -> StartOutcome)
    requires WellFormedStore(store0)
    requires Distinct(keys) && forall k :: k in keys <==> k in ServerKeys(store0)
    ensures Restorable(keys, store0)
    ensures Agrees(RestoreAll(Start(store0), keys, store0, relaunch).servers,
                   RestoreAll(Start(store0), keys, store0, relaunch).store,
                   RestoreAll(Start(store0), keys, store0, relaunch).routes)
  {
    assert Restorable(keys, store0);
    assert NamesDistinct(keys) by {
      forall i, j | 0 <= i < j < |keys| && HasServerPrefix(keys[i]) && HasServerPrefix(keys[j])
        ensures NameOfKey(keys[i]) != NameOfKey(keys[j])
      {
        assert keys[i] in keys && keys[j] in keys;
        KeyOfNameInverts(keys[i]);
        KeyOfNameInverts(keys[j]);
      }
    }
    var s := Start(store0);
    var r := RestoreAll(s, keys, store0, relaunch);
    RestoreStore(s, keys, store0, relaunch);
    RestoreRoutes(s, keys, store0, relaunch);
    RestoreRegistry(s, keys, store0, relaunch);
    forall x | x in r.servers.entries
      ensures && ':' !in x
              && r.servers.entries[x].data.name == x
              && ServerKey(x) in r.store
              && r.store[ServerKey(x)] == Doc(r.servers.entries[x].data)
              && Route(ApiEndpoint(x), r.servers.entries[x].data.internalPort) in r.routes
    {
      var k :| k in keys && relaunch(k).Running? && NameOfKey(k) == x;
      KeyOfNameInverts(k);
      assert k !in FailedKeys(keys, relaunch);
    }
    forall key | key in r.store && HasServerPrefix(key)
      ensures CanonicalKey(key) && key[|ServerKeyPrefix|..] in r.servers.entries
    {
      assert key in keys;
      assert key !in FailedKeys(keys, relaunch);
      KeyOfNameInverts(key);
    }
  }

}
