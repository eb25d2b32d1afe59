/** End-to-end runs of the supervisor, stated as client methods: what callers
    can conclude from the operations' contracts alone. */
module Scenarios {
  import opened Options
  import opened Names
  import opened Decimal
  import opened Records
  import opened Restore
  import opened Supervision

  /** With an empty store, the first launch gets the base port and persists
      the next one as text; the second launch gets the port after it. */
  method FirstLaunchesOnEmptyStore() returns (first: int, second: int, persisted: Value)
    ensures first == 10000 && second == 10001
    ensures persisted == Text(ToDecimal(10001))
  {
    var s := new Supervisor(map[]);
    assert Admitted(s.servers, s.store, Some("u1"), Some("x"));
    var _ := s.Launch(Some("u1"), Some("x"), Cloned("/tmp/repos/1"), Running(Process(1)), "t1");
    first := s.servers.entries["x"].data.internalPort;
    persisted := s.store[NextPortKey];
    assert s.servers.entries == map["x" := Server(ServerData("x", "u1", "/tmp/repos/1", 10000, "t1"), Process(1))];
    assert ServerKey("y") !in s.store by {
      assert ServerKey("y")[8] != ServerKey("x")[8];
    }
    assert Admitted(s.servers, s.store, Some("u2"), Some("y"));
    var _ := s.Launch(Some("u2"), Some("y"), Cloned("/tmp/repos/2"), Running(Process(2)), "t2");
    second := s.servers.entries["y"].data.internalPort;
  }

  /** A name outside the pattern is refused with 400 before a port is
      consumed or anything is written. */
  method InvalidNameConsumesNothing(store: Store) returns (reply: LaunchReply, counter: int, after: Store)
    ensures reply == Refused(400, InvalidName)
    ensures counter == 10000 && after == store
  {
    var s := new Supervisor(store);
    assert !IsNameChar("bad name!"[3]);
    reply := s.Launch(Some("src"), Some("bad name!"), Cloned("/tmp/repos/1"), Running(Process(1)), "t");
    counter := s.nextPort;
    after := s.store;
  }

  /** Launch then terminate: while it runs the instance is listed once and
      its stored record carries the returned summary's fields; afterwards it
      is neither listed nor stored. */
  method LaunchThenTerminate() returns (reply: LaunchReply, stored: Value, listedWhileRunning: nat,
                                        listedAfter: nat, storedAfter: bool)
    ensures reply.Launched? && stored.Doc?
    ensures Summarize(stored.data) == reply.summary
    ensures reply.summary.name == "svc-a" && reply.summary.apiEndpoint == ApiEndpoint("svc-a")
    ensures listedWhileRunning == 1 && listedAfter == 0 && !storedAfter
  {
    var s := new Supervisor(map[]);
    assert s.Consistent();
    assert Admitted(s.servers, s.store, Some("src"), Some("svc-a"));
    reply := s.Launch(Some("src"), Some("svc-a"), Cloned("/tmp/repos/1"), Running(Process(7)), "t");
    stored := s.store[ServerKey("svc-a")];
    listedWhileRunning := CountNamed(List(s.servers), "svc-a");
    var _ := s.Terminate("svc-a");
    listedAfter := CountNamed(List(s.servers), "svc-a");
    storedAfter := ServerKey("svc-a") in s.store;
  }

  /** A restart reloads the persisted counter, so the first port handed out
      after it exceeds every port handed out before it, whatever happens to
      the stored records during reconciliation. */
  method PortAfterRestart(s: Supervisor, relaunch: string -> StartOutcome) returns (port: int)
    requires s.Valid() && |s.Issued| > 0
    ensures forall i :: 0 <= i < |s.Issued| ==> s.Issued[i] < port
  {
    CounterSurvivesRestart(s.store, s.nextPort);
    var restarted := new Supervisor(s.store);
    var _, _ := restarted.InitializeFromStore(relaunch);
    port := restarted.AllocatePort();
  }

  /** Restarting from the store of any agreeing supervisor parses every
      record and ends in agreement again, whatever the launcher reports. */
  method RestartKeepsAgreement(s: Supervisor, relaunch: string -> StartOutcome) returns (restarted: Supervisor)
    requires s.Consistent() && CounterReadable(s.store)
    ensures restarted.Consistent()
  {
    AgreesWellFormedStore(s.servers, s.store, s.routes);
    restarted := new Supervisor(s.store);
    var _, _ := restarted.InitializeFromStore(relaunch);
  }

  /** Terminating never removes a route, and the first route for a path
      keeps winning: after terminate and relaunch under the same name,
      the proxy still forwards to the first instance's port. */
  method RelaunchKeepsFirstRoute() returns (firstPort: int, secondPort: int, forwardedTo: Option<int>)
    ensures firstPort == 10000 && secondPort == 10001
    ensures forwardedTo == Some(firstPort)
  {
    var s := new Supervisor(map[]);
    var _ := s.Launch(Some("u"), Some("x"), Cloned("/tmp/repos/1"), Running(Process(1)), "t1");
    firstPort := s.servers.entries["x"].data.internalPort;
    NameOfKeyInverts("x");
    var _ := s.Terminate("x");
    var routesBefore := s.routes;
    assert Resolve(routesBefore, "/mcs/x") == Some(10000);
    var _ := s.Launch(Some("u"), Some("x"), Cloned("/tmp/repos/2"), Running(Process(2)), "t2");
    secondPort := s.servers.entries["x"].data.internalPort;
    FirstRouteWins(routesBefore, [Route(ApiEndpoint("x"), secondPort)], "/mcs/x");
    forwardedTo := Resolve(s.routes, ApiEndpoint("x"));
  }

}
