/** The supervisor's data: instance records, the store's values, the proxy
    routes, and the in-memory registry with its two read-only projections
    (the instance list and the health count). */
module Records {
  import opened Options
  import opened Names

  /** An opaque handle on a spawned child process. */
  datatype Process = Process(pid: nat)

  /** The persisted part of an instance: everything but the process handle. */
  datatype ServerData = ServerData(
    name: string,
    repoUrl: string,
    repoDir: string,
    internalPort: int,
    startedAt: string)

  /** A registry entry: the persisted fields spread into an object together
      with the live process. */
  datatype Server = Server(data: ServerData, process: Process)

  /** A value in the store. `Text` is a plain string (the port counter);
      `Doc` is the JSON text of an instance record, which parses back to the
      record. A `Text` under a `servers:` key stands for text that is not
      JSON, on which the parse throws. */
  datatype Value = Text(text: string) | Doc(data: ServerData)

  type Store = map<string, Value>

  /** A proxy rule: requests under `path` are forwarded to `localhost:port`. */
  datatype Route = Route(path: string, port: int)

  /** One element of the instance list, also the body of a successful launch. */
  datatype Summary = Summary(
    name: string,
    repoUrl: string,
    sseEndpoint: string,
    apiEndpoint: string,
    startedAt: string)

  /** What cloning the repository produced: a working directory, or a failure. */
  datatype CloneOutcome = Cloned(dir: string) | CloneFailed

  /** What the launcher reported after its readiness window: the process is
      still running, it has exited (the launcher resolves to `null`), or the
      attempt threw. */
  datatype StartOutcome = Running(process: Process) | Exited | Threw

  predicate Distinct(s: seq<string>)
  {
    forall i, j :: 0 <= i < j < |s| ==> s[i] != s[j]
  }

  /** The registry object: its own properties and the order in which they
      were first added (the order `Object.values` and `Object.keys` report). */
  datatype Registry = Registry(entries: map<string, Server>, order: seq<string>)

  const EmptyRegistry: Registry := Registry(map[], [])

  ghost predicate WellFormed(r: Registry)
  {
    Distinct(r.order) && forall k :: k in r.entries <==> k in r.order
  }

  /** `registry[k] = s`: a new key goes to the end of the order, an existing
      key keeps its place and gets the new value. */
  function Put(r: Registry, k: string, s: Server): (r': Registry)
    ensures WellFormed(r) ==> WellFormed(r')
    ensures k in r.entries ==> r'.order == r.order
    ensures k !in r.entries ==> r'.order == r.order + [k]
  {
    var order := if k in r.entries then r.order else r.order + [k];
    assert WellFormed(r) && k !in r.entries ==> Distinct(order) by {
      if WellFormed(r) && k !in r.entries {
        forall i, j | 0 <= i < j < |order| ensures order[i] != order[j] {
          if j == |r.order| { assert order[i] in r.order; }
        }
      }
    }
    Registry(r.entries[k := s], order)
  }

  /** `r` is `s` with some elements dropped, the rest in their order. */
  predicate Subsequence(r: seq<string>, s: seq<string>)
  {
    if r == [] then true
    else if s == [] then false
    else (r[0] == s[0] && Subsequence(r[1..], s[1..])) || Subsequence(r, s[1..])
  }

  /** `s` without any occurrence of `k`, other elements in their order. */
  function Without(s: seq<string>, k: string): (r: seq<string>)
    ensures forall x :: x in r <==> x in s && x != k
    ensures Distinct(s) ==> Distinct(r)
    ensures Subsequence(r, s)
  {
    if s == [] then []
    else if s[0] == k then Without(s[1..], k)
    else
      var rest := Without(s[1..], k);
      assert ([s[0]] + rest)[1..] == rest;
      assert Distinct(s) ==> Distinct([s[0]] + rest) by {
        if Distinct(s) {
          assert s[0] !in s[1..];
          forall i, j | 0 <= i < j < |[s[0]] + rest| ensures ([s[0]] + rest)[i] != ([s[0]] + rest)[j] {
            if i == 0 { assert ([s[0]] + rest)[j] in rest; }
          }
        }
      }
      [s[0]] + rest
  }

  /** `delete registry[k]`: the other own keys stay, in their order. */
  function Remove(r: Registry, k: string): (r': Registry)
    ensures WellFormed(r) ==> WellFormed(r')
    ensures k !in r'.entries
    ensures forall x :: x in r'.order <==> x in r.order && x != k
    ensures Subsequence(r'.order, r.order)
  {
    Registry(r.entries - {k}, Without(r.order, k))
  }

  /** The list element describing one instance. */
  function Summarize(d: ServerData): Summary
  {
    Summary(d.name, d.repoUrl, SseEndpoint(d.name), ApiEndpoint(d.name), d.startedAt)
  }

  function SummariesOf(order: seq<string>, m: map<string, Server>): seq<Summary>
  {
    if order == [] then []
    else (if order[0] in m then [Summarize(m[order[0]].data)] else []) + SummariesOf(order[1..], m)
  }

  /** GET /api/servers: one summary per registry entry, in registry order. */
  function List(r: Registry): seq<Summary>
  {
    SummariesOf(r.order, r.entries)
  }

  /** GET /api/health: the number of own keys of the registry. */
  function Health(r: Registry): nat
  {
    |r.entries|
  }

  /** How many summaries of `list` carry the name `n`. */
  function CountNamed(list: seq<Summary>, n: string): nat
  {
    if list == [] then 0 else (if list[0].name == n then 1 else 0) + CountNamed(list[1..], n)
  }

  lemma {:induction false} SummariesLength(order: seq<string>, m: map<string, Server>)
    requires forall x :: x in order ==> x in m
    ensures |SummariesOf(order, m)| == |order|
  {
    if order != [] {
      SummariesLength(order[1..], m);
    }
  }

  lemma {:induction false} DistinctCard(s: seq<string>)
    requires Distinct(s)
    ensures |set x | x in s| == |s|
  {
    if s != [] {
      DistinctCard(s[1..]);
      assert (set x | x in s) == {s[0]} + (set x | x in s[1..]);
      assert s[0] !in s[1..];
    }
  }

  /** The health count equals the length of the instance list. */
  lemma HealthCountsList(r: Registry)
    requires WellFormed(r)
    ensures Health(r) == |List(r)|
  {
    SummariesLength(r.order, r.entries);
    DistinctCard(r.order);
    assert r.entries.Keys == set x | x in r.order;
  }

  lemma {:induction false} CountNone(order: seq<string>, m: map<string, Server>, n: string)
    requires forall x :: x in order && x in m ==> m[x].data.name != n
    ensures CountNamed(SummariesOf(order, m), n) == 0
  {
    if order != [] {
      CountNone(order[1..], m, n);
      CountSplit(if order[0] in m then [Summarize(m[order[0]].data)] else [], SummariesOf(order[1..], m), n);
    }
  }

  lemma {:induction false} CountSplit(a: seq<Summary>, b: seq<Summary>, n: string)
    ensures CountNamed(a + b, n) == CountNamed(a, n) + CountNamed(b, n)
  {
    if a != [] {
      assert (a + b)[1..] == a[1..] + b;
      CountSplit(a[1..], b, n);
    } else {
      assert a + b == b;
    }
  }

  lemma {:induction false} CountOne(order: seq<string>, m: map<string, Server>, n: string, k: string)
    requires Distinct(order) && k in order && k in m && m[k].data.name == n
    requires forall x :: x in order && x in m && x != k ==> m[x].data.name != n
    ensures CountNamed(SummariesOf(order, m), n) == 1
  {
    var head := if order[0] in m then [Summarize(m[order[0]].data)] else [];
    CountSplit(head, SummariesOf(order[1..], m), n);
    if order[0] == k {
      assert k !in order[1..];
      CountNone(order[1..], m, n);
    } else {
      CountOne(order[1..], m, n, k);
    }
  }

  /** Storing an entry named `n` under `k`, when no entry was named `n`
      before, lists `n` exactly once. */
  lemma ListedOnce(r: Registry, k: string, s: Server)
    requires WellFormed(r)
    requires forall x :: x in r.entries ==> r.entries[x].data.name != s.data.name
    ensures CountNamed(List(Put(r, k, s)), s.data.name) == 1
  {
    var r' := Put(r, k, s);
    CountOne(r'.order, r'.entries, s.data.name, k);
  }

  /** Every entry is stored under its own name, as every launch stores it. */
  predicate NamesMatch(r: Registry)
  {
    forall k :: k in r.entries ==> r.entries[k].data.name == k
  }

  /** Once the entry for `k` is deleted, the list no longer mentions `k`. */
  lemma UnlistedAfterRemove(r: Registry, k: string)
    requires NamesMatch(r)
    ensures CountNamed(List(Remove(r, k)), k) == 0
  {
    var r' := Remove(r, k);
    CountNone(r'.order, r'.entries, k);
  }

  /** The registry, the store's instance records and the route table describe
      the same instances: each registry entry is stored under its own name,
      persisted (without its process) under `servers:<name>`, and a rule for
      its path and port has been added (an earlier rule for the same path may
      shadow it); each `servers:` key in the store belongs to a registry
      entry. */
  ghost predicate Agrees(r: Registry, store: Store, routes: seq<Route>)
  {
    && WellFormed(r)
    && (forall k :: k in r.entries ==>
          && ':' !in k
          && r.entries[k].data.name == k
          && ServerKey(k) in store
          && store[ServerKey(k)] == Doc(r.entries[k].data)
          && Route(ApiEndpoint(k), r.entries[k].data.internalPort) in routes)
    && (forall key :: key in store && HasServerPrefix(key) ==>
          CanonicalKey(key) && key[|ServerKeyPrefix|..] in r.entries)
  }

  /** The port of the first rule registered for exactly `path`: rules are
      consulted in the order they were added and the first one wins. Path
      comparison here is exact and case-sensitive. */
  function Resolve(routes: seq<Route>, path: string): (r: Option<int>)
  {
    if routes == [] then None
    else if routes[0].path == path then Some(routes[0].port)
    else Resolve(routes[1..], path)
  }

  /** Rules added later never override an earlier rule for the same path:
      once a path resolves, it keeps resolving to the same port. */
  lemma {:induction false} FirstRouteWins(routes: seq<Route>, more: seq<Route>, path: string)
    requires Resolve(routes, path).Some?
    ensures Resolve(routes + more, path) == Resolve(routes, path)
  {
    if routes[0].path != path {
      assert (routes + more)[1..] == routes[1..] + more;
      FirstRouteWins(routes[1..], more, path);
    }
  }

  /** A path resolves exactly when some rule for that exact path has been
      added, and then to the port of one of them. */
  lemma {:induction false} ResolveFindsRoute(routes: seq<Route>, path: string)
    ensures Resolve(routes, path).Some? <==> exists p :: Route(path, p) in routes
    ensures Resolve(routes, path).Some? ==> Route(path, Resolve(routes, path).value) in routes
  {
    if routes != [] {
      ResolveFindsRoute(routes[1..], path);
    }
  }

}
