/** DefaultBootstrap: the orchestrator that creates, starts, stops and adds the hosted
    servers ("work items").

    The bootstrap's state is its fields m_Initialized, m_GlobalLog (only whether it is
    set), m_AppServers, m_ServerManager (kept as the manager's position in m_AppServers)
    and m_PerfMonitor (only whether it exists and whether it is started). Everything the
    bootstrap asks of code it does not own (the factory-info loader, reflection and setup
    of an item, an item's Start) is an argument: the loader's result, the instantiation
    outcome of each info, the reply of each item's Start. The ghost `calls` records, in
    order, every call the bootstrap makes into that code: the loader's LoadResult, the
    creation and setup of each item, each item's Start and Stop, and the monitor's Start
    and Stop.

    Each operation is specified by a function from the state before to the state after
    and the result (InitializeSpec, StartSpec, StopSpec, AddNewServerSpec); the class's
    methods are proved to implement them, and the lemmas state what the source promises
    about them. */
module Bootstrap {
  import opened Wrappers
  import opened ServerConfigs
  import opened WorkItems

  /** The exceptions the bootstrap's operations let escape. */
  datatype BootstrapError =
    | AlreadyInitialized   // "The server had been initialized already ..."
    | LogFactoryConflict   // a log factory passed in while the config names a root one
    | NotYetInitialized    // "The bootstrap must be initialized already!"
    | ArgumentNull         // a null argument
    | EmptyArgument        // an empty server list, or a new server without a name
    | NullReference        // a null field or value dereferenced

  /** The performance monitor: present, and started or not. */
  datatype Monitor = Monitor(started: bool)

  /** A call the bootstrap makes into code it does not own. */
  datatype Call =
    | Load(servers: seq<ServerConfig>) // LoadResult of a loader over these declared servers
    | Instantiate(info: FactoryInfo)   // create, then set up, the item for an info
    | ItemStart(index: nat)            // Start() of the item at this position
    | ItemStop(index: nat)             // Stop() of the item at this position
    | MonitorStart
    | MonitorStop

  /** The bootstrap's fields, and the calls made so far. `logReady` is whether
      m_GlobalLog has been set. */
  datatype State = State(
    initialized: bool,
    logReady: bool,
    appServers: Option<seq<WorkItem>>,
    serverManager: Option<nat>,
    perfMonitor: Option<Monitor>,
    calls: seq<Call>)

  /** An initialized bootstrap has a server list and a log, a bootstrap with a monitor
      has a log, and the server manager, once chosen, is one of its items. */
  predicate Consistent(s: State)
  {
    (s.initialized ==> s.appServers.Some? && s.logReady) &&
    (s.perfMonitor.Some? ==> s.logReady) &&
    (s.serverManager.Some? ==>
       s.initialized && s.appServers.Some? && s.serverManager.value < |s.appServers.value|)
  }

  function InstantiateCalls(infos: seq<FactoryInfo>): (r: seq<Call>)
    ensures |r| == |infos|
    ensures forall i :: 0 <= i < |infos| ==> r[i] == Instantiate(infos[i])
  {
    seq(|infos|, i requires 0 <= i < |infos| => Instantiate(infos[i]))
  }

  function StartCalls(n: nat): (r: seq<Call>)
    ensures |r| == n
    ensures forall i :: 0 <= i < n ==> r[i] == ItemStart(i)
  {
    seq(n, i requires 0 <= i < n => ItemStart(i))
  }

  function StopCalls(order: seq<nat>): (r: seq<Call>)
    ensures |r| == |order|
    ensures forall i :: 0 <= i < |order| ==> r[i] == ItemStop(order[i])
  {
    seq(|order|, i requires 0 <= i < |order| => ItemStop(order[i]))
  }

  // ---------------------------------------------------------------------------
  // The operations, as functions of the state

  /** Initialize(serverConfigResolver, logFactory). `source` is m_Config, `loaded` the
      loader's factory infos (None when LoadResult threw) and `outcomes[i]` what creating
      and setting up the item of the i-th info did. */
  function InitializeSpec(s: State, source: Option<RootConfig>, logFactoryGiven: bool,
                          loaded: Option<seq<FactoryInfo>>, outcomes: seq<Instantiation>)
    : (r: (State, Result<bool, BootstrapError>))
    requires s.initialized || source.Some?
    requires loaded.Some? ==> |outcomes| == |loaded.value|
    ensures r.1.Failure? ==> r.0 == s
    ensures r.1.Success? ==>
              !s.initialized && source.Some? && r.0.logReady &&
              |r.0.calls| > |s.calls| && r.0.calls[|s.calls|] == Load(source.value.servers)
  {
    if s.initialized then (s, Failure(AlreadyInitialized))
    else if logFactoryGiven && source.value.logFactory != "" then (s, Failure(LogFactoryConflict))
    else
      // past the argument checks: the log is set, then the loader runs
      var loading := s.(logReady := true, calls := s.calls + [Load(source.value.servers)]);
      if loaded.None? then (loading, Result.Success(false))
      else
      var infos := loaded.value;
      var k := FirstFailure(outcomes);
      var tried := if k < |infos| then k + 1 else k;
      var partial := loading.(appServers := Some(ItemsFor(infos[..k])),
                              calls := loading.calls + InstantiateCalls(infos[..tried]));
      if k < |infos| then (partial, Result.Success(false))
      else
        var manager := LastServerManager(infos);
        (partial.(initialized := true,
                  serverManager := if manager.Some? then manager else s.serverManager,
                  perfMonitor := if source.value.disablePerformanceDataCollector then s.perfMonitor
                                 else Some(Monitor(false))),
         Result.Success(true))
  }

  /** Every declared server's endpoints are found in the replacement map. */
  predicate AllEndPointsFound(servers: seq<ServerConfig>, replacement: map<string, EndPoint>)
  {
    forall i :: 0 <= i < |servers| ==> FirstMissing(LookupKeys(servers[i]), replacement).None?
  }

  /** Initialize(listenEndPointReplacement): Initialize with ReplaceListenEndPoint as the
      resolver and no log factory. The loader applies the resolver to every declared
      server, and a resolver exception is a loader failure. */
  function InitializeWithEndPointsSpec(s: State, source: Option<RootConfig>,
                                       replacement: map<string, EndPoint>,
                                       loaded: Option<seq<FactoryInfo>>, outcomes: seq<Instantiation>)
    : (r: (State, Result<bool, BootstrapError>))
    requires s.initialized || source.Some?
    requires loaded.Some? ==> |outcomes| == |loaded.value|
    ensures r.1.Failure? <==> s.initialized
  {
    var resolved := if !s.initialized && !AllEndPointsFound(source.value.servers, replacement) then Option.None
                    else loaded;
    InitializeSpec(s, source, false, resolved, outcomes)
  }

  /** Start(): `replies[i]` is what the i-th item's Start() returned. Before Initialize
      it reports Failed through m_GlobalLog, which throws when the log was never set. */
  function StartSpec(s: State, replies: seq<bool>): (r: (State, Result<StartResult, BootstrapError>))
    requires s.initialized ==> s.appServers.Some? && |replies| == |s.appServers.value|
    ensures r.1.Failure? ==> r.0 == s && r.1.error == NullReference
    ensures r.0.initialized == s.initialized && r.0.logReady == s.logReady && r.0.serverManager == s.serverManager
    ensures s.initialized ==> r.0.appServers.Some? && |r.0.appServers.value| == |s.appServers.value|
  {
    if !s.initialized then
      (s, if s.logReady then Result.Success(StartResult.Failed) else Failure(NullReference))
    else
      var items := s.appServers.value;
      var started := s.(appServers := Some(AfterStart(items, replies)),
                        calls := s.calls + StartCalls(|items|));
      var t := if s.perfMonitor.Some? then
                 started.(perfMonitor := Some(Monitor(true)), calls := started.calls + [MonitorStart])
               else started;
      (t, Result.Success(Classify(|items|, CountSucceeded(replies))))
  }

  /** Start as evidently intended: before Initialize it returns Failed whether or not
      the log was set. */
  function StartSpecIntended(s: State, replies: seq<bool>): (r: (State, Result<StartResult, BootstrapError>))
    requires s.initialized ==> s.appServers.Some? && |replies| == |s.appServers.value|
    ensures r.1.Success?
  {
    if !s.initialized then (s, Result.Success(StartResult.Failed)) else StartSpec(s, replies)
  }

  /** Stop(). */
  function StopSpec(s: State): (r: (State, Outcome<BootstrapError>))
    ensures r.1.Fail? <==> s.appServers.None?
    ensures r.0.initialized == s.initialized && r.0.logReady == s.logReady && r.0.serverManager == s.serverManager
  {
    if s.appServers.None? then (s, Fail(NullReference))
    else
      var items := s.appServers.value;
      var stopped := s.(appServers := Some(AfterStop(items)),
                        calls := s.calls + StopCalls(StopSequence(items)));
      var t := if s.perfMonitor.Some? then
                 stopped.(perfMonitor := Some(Monitor(false)), calls := stopped.calls + [MonitorStop])
               else stopped;
      (t, Pass)
  }

  /** AddNewServer(config). `loaded` is what the loader returned for a source holding only
      the new server (None when LoadResult threw); `outcome` what creating and setting up
      the item of its first info did. */
  function AddNewServerSpec(s: State, source: Option<RootConfig>, config: Option<ServerConfig>,
                            loaded: Option<seq<FactoryInfo>>, outcome: Instantiation)
    : (r: (State, Result<Option<WorkItem>, BootstrapError>))
    requires s.initialized ==> s.appServers.Some?
    ensures r.0.initialized == s.initialized && r.0.logReady == s.logReady && r.0.serverManager == s.serverManager
    ensures r.1.Failure? ==> r.0.appServers == s.appServers && r.0.perfMonitor == s.perfMonitor
  {
    if config.None? then (s, Failure(ArgumentNull))
    else if config.value.name == "" then (s, Failure(EmptyArgument))
    else if !s.initialized then (s, Failure(NotYetInitialized))
    else if NameTaken(s.appServers.value, config.value.name) then (s, Result.Success(Option.None))
    else if source.None? then (s, Failure(NullReference))
    else
      // a loader over a copy of m_Config holding only the new server
      var loading := s.(calls := s.calls + [Load([config.value])]);
      if loaded.None? then (loading, Result.Success(Option.None))
      else if loaded.value == [] then (loading, Failure(NullReference))
      else
      var info := loaded.value[0];
      var tried := loading.(calls := loading.calls + [Instantiate(info)]);
      match InitializeAndSetupWorkItem(info, outcome)
      case None => (tried, Result.Success(Option.None))
      case Some(item) =>
        var added := tried.(appServers := Some(s.appServers.value + [item]));
        if source.value.disablePerformanceDataCollector then (added, Result.Success(Some(item)))
        else
          var reset := if s.perfMonitor.Some? then [MonitorStop, MonitorStart] else [MonitorStart];
          (added.(perfMonitor := Some(Monitor(true)), calls := added.calls + reset), Result.Success(Some(item)))
  }

  // ---------------------------------------------------------------------------
  // Initialize

  /** Initialize succeeds exactly when the bootstrap was not initialized, no log factory
      was passed against a configured one, the loader produced its infos and every item
      was created and set up. A second Initialize always throws and changes nothing. */
  lemma InitializeSucceedsIff(s: State, source: Option<RootConfig>, logFactoryGiven: bool,
                              loaded: Option<seq<FactoryInfo>>, outcomes: seq<Instantiation>)
    requires s.initialized || source.Some?
    requires loaded.Some? ==> |outcomes| == |loaded.value|
    ensures s.initialized ==>
              InitializeSpec(s, source, logFactoryGiven, loaded, outcomes) == (s, Failure(AlreadyInitialized))
    ensures InitializeSpec(s, source, logFactoryGiven, loaded, outcomes).1 == Result.Success(true) <==>
              !s.initialized && !(logFactoryGiven && source.value.logFactory != "") && loaded.Some? &&
              forall i :: 0 <= i < |outcomes| ==> outcomes[i] == SetupSucceeds
    ensures InitializeSpec(s, source, logFactoryGiven, loaded, outcomes).0.initialized <==>
              InitializeSpec(s, source, logFactoryGiven, loaded, outcomes).1 == Result.Success(true) || s.initialized
  {
  }

  /** A loader failure returns false and creates nothing: only the log is set and the
      loader called. */
  lemma InitializeLoaderFailure(s: State, source: Option<RootConfig>, logFactoryGiven: bool,
                                outcomes: seq<Instantiation>)
    requires !s.initialized && source.Some? && !(logFactoryGiven && source.value.logFactory != "")
    ensures InitializeSpec(s, source, logFactoryGiven, Option.None, outcomes)
         == (s.(logReady := true, calls := s.calls + [Load(source.value.servers)]), Result.Success(false))
  {
  }

  /** The first failed creation or setup ends Initialize: it returns false, the bootstrap
      stays uninitialized, the items set up before the failure are kept (none of them
      started), and no info after the failed one is instantiated. */
  lemma InitializeStopsAtFirstFailure(s: State, source: Option<RootConfig>, logFactoryGiven: bool,
                                      infos: seq<FactoryInfo>, outcomes: seq<Instantiation>, k: nat)
    requires !s.initialized && source.Some? && !(logFactoryGiven && source.value.logFactory != "")
    requires |outcomes| == |infos|
    requires k < |outcomes| && outcomes[k] != SetupSucceeds
    requires forall i :: 0 <= i < k ==> outcomes[i] == SetupSucceeds
    ensures var (t, r) := InitializeSpec(s, source, logFactoryGiven, Some(infos), outcomes);
            r == Result.Success(false) && !t.initialized &&
            t.serverManager == s.serverManager && t.perfMonitor == s.perfMonitor &&
            t.appServers == Some(ItemsFor(infos[..k])) &&
            (forall i :: 0 <= i < k ==> t.appServers.value[i].state == NotStarted) &&
            t.calls == s.calls + [Load(source.value.servers)] + InstantiateCalls(infos[..k + 1])
  {
    assert FirstFailure(outcomes) == k;
  }

  /** A successful Initialize holds one not-started item per factory info, in loader
      order, and the server manager is the last item whose info is flagged as one. */
  lemma InitializeSuccess(s: State, source: Option<RootConfig>, logFactoryGiven: bool,
                          loaded: Option<seq<FactoryInfo>>, outcomes: seq<Instantiation>)
    requires Consistent(s)
    requires s.initialized || source.Some?
    requires loaded.Some? ==> |outcomes| == |loaded.value|
    requires InitializeSpec(s, source, logFactoryGiven, loaded, outcomes).1 == Result.Success(true)
    ensures var t := InitializeSpec(s, source, logFactoryGiven, loaded, outcomes).0;
            var infos := loaded.value;
            t.initialized && t.appServers.Some? && |t.appServers.value| == |infos| &&
            (forall i :: 0 <= i < |infos| ==>
               t.appServers.value[i].name == infos[i].config.name &&
               t.appServers.value[i].startupOrder == Some(infos[i].config.startupOrder) &&
               t.appServers.value[i].state == NotStarted) &&
            (t.serverManager.Some? <==> exists i :: 0 <= i < |infos| && infos[i].isServerManager) &&
            (t.serverManager.Some? ==>
               t.serverManager.value < |t.appServers.value| && infos[t.serverManager.value].isServerManager &&
               forall i :: t.serverManager.value < i < |infos| ==> !infos[i].isServerManager) &&
            t.calls == s.calls + [Load(source.value.servers)] + InstantiateCalls(infos)
  {
    var infos := loaded.value;
    assert FirstFailure(outcomes) == |infos|;
    assert infos[..|infos|] == infos;
  }

  /** Initialize keeps the state consistent. */
  lemma InitializeConsistent(s: State, source: Option<RootConfig>, logFactoryGiven: bool,
                             loaded: Option<seq<FactoryInfo>>, outcomes: seq<Instantiation>)
    requires Consistent(s)
    requires s.initialized || source.Some?
    requires loaded.Some? ==> |outcomes| == |loaded.value|
    ensures Consistent(InitializeSpec(s, source, logFactoryGiven, loaded, outcomes).0)
  {
    if !s.initialized && !(logFactoryGiven && source.value.logFactory != "") && loaded.Some? &&
       FirstFailure(outcomes) == |loaded.value| {
      InitializeSuccess(s, source, logFactoryGiven, loaded, outcomes);
    }
  }

  /** A replacement map missing some declared server's endpoint makes the loader fail:
      Initialize returns false before any item is created. */
  lemma MissingEndPointCreatesNothing(s: State, source: Option<RootConfig>, replacement: map<string, EndPoint>,
                                      loaded: Option<seq<FactoryInfo>>, outcomes: seq<Instantiation>, i: nat)
    requires !s.initialized && source.Some?
    requires loaded.Some? ==> |outcomes| == |loaded.value|
    requires i < |source.value.servers| && FirstMissing(LookupKeys(source.value.servers[i]), replacement).Some?
    ensures InitializeWithEndPointsSpec(s, source, replacement, loaded, outcomes)
         == (s.(logReady := true, calls := s.calls + [Load(source.value.servers)]), Result.Success(false))
  {
  }

  // ---------------------------------------------------------------------------
  // Start

  /** Start before Initialize starts nothing: it returns Failed when the log is set and
      throws a null reference when it is not. Otherwise, with no items it returns None;
      with some, Success exactly when every item started, Failed exactly when none did,
      and PartialSuccess when some did and some did not. */
  lemma StartResultMeaning(s: State, replies: seq<bool>)
    requires s.initialized ==> s.appServers.Some? && |replies| == |s.appServers.value|
    ensures !s.initialized && s.logReady ==> StartSpec(s, replies) == (s, Result.Success(StartResult.Failed))
    ensures !s.initialized && !s.logReady ==> StartSpec(s, replies) == (s, Failure(NullReference))
    ensures s.initialized ==> StartSpec(s, replies).1.Success?
    ensures s.initialized ==>
              var r := StartSpec(s, replies).1.value;
              (r == StartResult.None <==> |replies| == 0) &&
              (r == StartResult.Success <==> |replies| > 0 && forall i :: 0 <= i < |replies| ==> replies[i]) &&
              (r == StartResult.Failed <==> |replies| > 0 && forall i :: 0 <= i < |replies| ==> !replies[i]) &&
              (r == StartResult.PartialSuccess <==>
                 (exists i :: 0 <= i < |replies| && replies[i]) && (exists i :: 0 <= i < |replies| && !replies[i]))
  {
    if s.initialized && |replies| > 0 {
      StartOutcome(replies);
    }
  }

  /** Start asks every item to start, once each and in list order, whatever the earlier
      items replied; an item is running afterwards exactly when it started or already ran. */
  lemma StartTriesEveryItem(s: State, replies: seq<bool>)
    requires s.initialized && s.appServers.Some? && |replies| == |s.appServers.value|
    ensures var t := StartSpec(s, replies).0;
            var n := |replies|;
            |t.calls| == |s.calls| + n + (if s.perfMonitor.Some? then 1 else 0) &&
            t.calls[..|s.calls|] == s.calls &&
            (forall i :: 0 <= i < n ==> t.calls[|s.calls| + i] == ItemStart(i)) &&
            t.appServers.Some? && |t.appServers.value| == n &&
            (forall i :: 0 <= i < n ==>
               (t.appServers.value[i].state == Running <==> replies[i] || s.appServers.value[i].state == Running)) &&
            t.initialized && t.serverManager == s.serverManager
  {
  }

  /** A bootstrap built from a configuration source has no log until Initialize sets it,
      so Start before Initialize throws instead of returning Failed. */
  lemma StartBeforeInitializeThrows(replies: seq<bool>)
    ensures var s := State(false, false, Option.None, Option.None, Option.None, []);
            StartSpec(s, replies) == (s, Failure(NullReference))
  {
  }

  /** The intended Start returns Failed before Initialize in every state, and agrees with
      Start as written wherever the log is set. */
  lemma IntendedStartRefusesUninitialized(s: State, replies: seq<bool>)
    requires s.initialized ==> s.appServers.Some? && |replies| == |s.appServers.value|
    ensures !s.initialized ==> StartSpecIntended(s, replies) == (s, Result.Success(StartResult.Failed))
    ensures s.logReady ==> StartSpecIntended(s, replies) == StartSpec(s, replies)
  {
  }

  /** Start keeps the state consistent. */
  lemma StartConsistent(s: State, replies: seq<bool>)
    requires Consistent(s)
    requires s.initialized ==> |replies| == |s.appServers.value|
    ensures Consistent(StartSpec(s, replies).0)
  {
  }

  // ---------------------------------------------------------------------------
  // Stop

  /** Stop without a server list dereferences null. Otherwise it stops exactly the
      running items, each once: from the last position to the first when some item
      declares a startup order, from the first to the last otherwise; no item is left
      running. */
  lemma StopFollowsDeclaredOrder(s: State)
    ensures s.appServers.None? ==> StopSpec(s) == (s, Fail(NullReference))
    ensures s.appServers.Some? ==>
              var t := StopSpec(s).0;
              var items := s.appServers.value;
              var stopped := StopSequence(items);
              t.calls == s.calls + StopCalls(stopped) + (if s.perfMonitor.Some? then [MonitorStop] else []) &&
              (forall j :: j in stopped <==> 0 <= j < |items| && items[j].state == Running) &&
              (AnyOrdered(items) ==> Decreasing(stopped)) &&
              (!AnyOrdered(items) ==> Increasing(stopped)) &&
              t.appServers.Some? && |t.appServers.value| == |items| &&
              (forall i :: 0 <= i < |items| ==> t.appServers.value[i].state != Running)
  {
    if s.appServers.Some? {
      StopSequenceProperties(s.appServers.value);
    }
  }

  /** Stop keeps the state consistent. */
  lemma StopConsistent(s: State)
    requires Consistent(s)
    ensures Consistent(StopSpec(s).0)
  {
  }

  // ---------------------------------------------------------------------------
  // AddNewServer

  /** AddNewServer throws on a null config, an unnamed config and an uninitialized
      bootstrap, in that order, changing nothing. It adds an item exactly when the config
      is given and named, the bootstrap is initialized, the name is free ignoring case,
      the loader produced an info and its item was set up. It then appends that one item
      and keeps the others; in every other case the list is unchanged, and an exception
      changes nothing but the record of the loader's call. */
  lemma AddNewServerAppendsAtMostOne(s: State, source: Option<RootConfig>, config: Option<ServerConfig>,
                                     loaded: Option<seq<FactoryInfo>>, outcome: Instantiation)
    requires s.initialized ==> s.appServers.Some?
    ensures config.None? ==> AddNewServerSpec(s, source, config, loaded, outcome) == (s, Failure(ArgumentNull))
    ensures config.Some? && config.value.name == "" ==>
              AddNewServerSpec(s, source, config, loaded, outcome) == (s, Failure(EmptyArgument))
    ensures config.Some? && config.value.name != "" && !s.initialized ==>
              AddNewServerSpec(s, source, config, loaded, outcome) == (s, Failure(NotYetInitialized))
    ensures var (t, r) := AddNewServerSpec(s, source, config, loaded, outcome);
            ((r.Success? && r.value.Some?) <==>
               config.Some? && config.value.name != "" && s.initialized &&
               !NameTaken(s.appServers.value, config.value.name) && source.Some? &&
               loaded.Some? && loaded.value != [] && outcome == SetupSucceeds) &&
            (r.Success? && r.value.Some? ==>
               t.appServers == Some(s.appServers.value + [r.value.value]) &&
               r.value.value.name == loaded.value[0].config.name && r.value.value.state == NotStarted) &&
            (!(r.Success? && r.value.Some?) ==>
               t.appServers == s.appServers && t.perfMonitor == s.perfMonitor) &&
            t.initialized == s.initialized && t.serverManager == s.serverManager &&
            (r.Failure? ==> t.(calls := s.calls) == s)
  {
  }

  /** A name equal to an existing item's name, ignoring case, is refused without any
      change or any call. */
  lemma AddNewServerRejectsTakenName(s: State, source: Option<RootConfig>, config: ServerConfig,
                                     loaded: Option<seq<FactoryInfo>>, outcome: Instantiation, i: nat)
    requires s.initialized && s.appServers.Some?
    requires config.name != ""
    requires i < |s.appServers.value| && EqualsIgnoreCase(s.appServers.value[i].name, config.name)
    ensures AddNewServerSpec(s, source, Some(config), loaded, outcome) == (s, Result.Success(Option.None))
  {
    EqualsIgnoreCaseEquivalence(s.appServers.value[i].name, config.name, config.name);
  }

  /** When the loader's info is the new server's config, adding keeps the item names
      distinct ignoring case. */
  lemma AddNewServerKeepsNamesDistinct(s: State, source: Option<RootConfig>, config: ServerConfig,
                                       loaded: seq<FactoryInfo>, outcome: Instantiation)
    requires s.initialized && s.appServers.Some? && DistinctNames(s.appServers.value)
    requires loaded != [] && loaded[0].config.name == config.name
    ensures var t := AddNewServerSpec(s, source, Some(config), Some(loaded), outcome).0;
            t.appServers.Some? && DistinctNames(t.appServers.value)
  {
    var items := s.appServers.value;
    var t := AddNewServerSpec(s, source, Some(config), Some(loaded), outcome).0;
    if t.appServers != s.appServers {
      assert !NameTaken(items, config.name);
      var added := t.appServers.value;
      assert added == items + [SetUpItem(loaded[0])];
      forall i, j | 0 <= i < j < |added|
        ensures !EqualsIgnoreCase(added[i].name, added[j].name)
      {
        if j == |items| {
          EqualsIgnoreCaseEquivalence(added[i].name, config.name, config.name);
        }
      }
    }
  }

  /** AddNewServer keeps the state consistent. */
  lemma AddNewServerConsistent(s: State, source: Option<RootConfig>, config: Option<ServerConfig>,
                               loaded: Option<seq<FactoryInfo>>, outcome: Instantiation)
    requires Consistent(s)
    ensures Consistent(AddNewServerSpec(s, source, config, loaded, outcome).0)
  {
  }

  // ---------------------------------------------------------------------------
  // The class

  /** Array.Reverse */
  method ReverseInPlace(a: array<nat>)
    modifies a
    ensures forall k :: 0 <= k < a.Length ==> a[k] == old(a[a.Length - 1 - k])
  {
    var lo, hi := 0, a.Length - 1;
    while lo < hi
      invariant 0 <= lo <= hi + 1 <= a.Length
      invariant hi == a.Length - 1 - lo
      invariant forall k :: 0 <= k < lo || hi < k < a.Length ==> a[k] == old(a[a.Length - 1 - k])
      invariant forall k :: lo <= k <= hi ==> a[k] == old(a[k])
    {
      a[lo], a[hi] := a[hi], a[lo];
      lo, hi := lo + 1, hi - 1;
    }
  }

  /** The loop of Initialize: the item of each info is created and set up in loader
      order, and the first failure ends the loop. `tried` is how many infos reached
      creation; `manager` the position of the last info flagged as server manager. */
  method SetUpEach(infos: seq<FactoryInfo>, outcomes: seq<Instantiation>)
    returns (servers: seq<WorkItem>, manager: Option<nat>, ok: bool, ghost tried: nat)
    requires |outcomes| == |infos|
    ensures ok <==> FirstFailure(outcomes) == |infos|
    ensures servers == ItemsFor(infos[..FirstFailure(outcomes)])
    ensures tried == if ok then |infos| else FirstFailure(outcomes) + 1
    ensures ok ==> manager == LastServerManager(infos)
  {
    servers := [];
    manager := Option.None;
    var i := 0;
    while i < |infos|
      invariant 0 <= i <= |infos|
      invariant forall j :: 0 <= j < i ==> outcomes[j] == SetupSucceeds
      invariant servers == ItemsFor(infos[..i])
      invariant manager == LastServerManager(infos[..i])
    {
      var server := InitializeAndSetupWorkItem(infos[i], outcomes[i]);
      if server.None? {
        assert FirstFailure(outcomes) == i;
        return servers, manager, false, i + 1;
      }
      assert infos[..i + 1][..i] == infos[..i];
      if infos[i].isServerManager {
        manager := Some(i);
      }
      assert ItemsFor(infos[..i + 1]) == ItemsFor(infos[..i]) + [server.value];
      servers := servers + [server.value];
      i := i + 1;
    }
    assert infos[..i] == infos;
    return servers, manager, true, |infos|;
  }

  /** The endpoint resolver applied to every declared server in turn; false at the first
      server with an endpoint missing from the map. */
  method ResolveAll(servers: seq<ServerConfig>, replacement: map<string, EndPoint>) returns (found: bool)
    ensures found <==> AllEndPointsFound(servers, replacement)
  {
    for i := 0 to |servers|
      invariant AllEndPointsFound(servers[..i], replacement)
    {
      var resolved := ReplaceListenEndPoint(servers[i], replacement);
      if resolved.Failure? {
        return false;
      }
      assert servers[..i + 1] == servers[..i] + [servers[i]];
    }
    assert servers[..|servers|] == servers;
    return true;
  }

  /** The positions Stop visits: the list copied to an array (ToArray), reversed in
      place (Array.Reverse) when some item declares a startup order. */
  method StopOrderOf(items: seq<WorkItem>) returns (order: seq<nat>)
    ensures order == StopOrder(items)
  {
    var servers := new nat[|items|](i => i);
    if AnyOrdered(items) {
      ReverseInPlace(servers);
    }
    order := servers[..];
  }

  /** The loop of Start: every item is asked to start, in list order, whatever the
      earlier ones replied; `replies[i]` is the i-th item's answer. */
  method StartEach(items: seq<WorkItem>, replies: seq<bool>) returns (servers: seq<WorkItem>, succeeded: nat)
    requires |replies| == |items|
    ensures servers == AfterStart(items, replies)
    ensures succeeded == CountSucceeded(replies)
  {
    servers := items;
    succeeded := 0;
    for i := 0 to |items|
      invariant succeeded == CountSucceeded(replies[..i])
      invariant |servers| == |items|
      invariant forall j :: 0 <= j < |items| ==>
                  servers[j] == if j < i && replies[j] then items[j].(state := Running) else items[j]
    {
      assert replies[..i + 1][..i] == replies[..i];
      if replies[i] {
        servers := servers[i := items[i].(state := Running)];
        succeeded := succeeded + 1;
      }
    }
    assert replies[..|items|] == replies;
  }

  /** The loop of Stop: the positions in `order` are visited in turn and every running
      item met is stopped; `stopped` are the positions stopped, in order. */
  method StopEach(items: seq<WorkItem>, order: seq<nat>) returns (servers: seq<WorkItem>, ghost stopped: seq<nat>)
    requires |order| == |items|
    requires forall k :: 0 <= k < |order| ==> order[k] < |items|
    requires forall p, q :: 0 <= p < q < |order| ==> order[p] != order[q]
    requires forall j :: 0 <= j < |items| ==> j in order
    ensures servers == AfterStop(items)
    ensures stopped == RunningOf(order, items)
  {
    var n := |items|;
    servers := items;
    stopped := [];
    for k := 0 to n
      invariant |servers| == n
      invariant forall j :: 0 <= j < n ==>
                  servers[j] == if j in order[..k] && items[j].state == Running
                                then items[j].(state := NotStarted) else items[j]
      invariant stopped == RunningOf(order[..k], items)
    {
      var j := order[k];
      assert order[..k + 1] == order[..k] + [j];
      assert j !in order[..k];
      if servers[j].state == Running {
        stopped := stopped + [j];
        servers := servers[j := servers[j].(state := NotStarted)];
      }
    }
    assert order[..n] == order;
  }

  class DefaultBootstrap {
    /** m_Config: the configuration source; absent when built from a list of items. */
    const configSource: Option<RootConfig>
    var initialized: bool
    /** m_GlobalLog has been set. */
    var logReady: bool
    var appServers: Option<seq<WorkItem>>
    var serverManager: Option<nat>
    var perfMonitor: Option<Monitor>
    ghost var calls: seq<Call>

    ghost function Snapshot(): State
      reads this
    {
      State(initialized, logReady, appServers, serverManager, perfMonitor, calls)
    }

    ghost predicate Valid()
      reads this
    {
      Consistent(Snapshot()) && (configSource.None? ==> initialized)
    }

    /** DefaultBootstrap(IConfigurationSource config) */
    constructor (config: RootConfig)
      ensures Valid() && configSource == Some(config)
      ensures Snapshot() == State(false, false, Option.None, Option.None, Option.None, [])
    {
      configSource := Some(config);
      initialized := false;
      logReady := false;
      appServers := Option.None;
      serverManager := Option.None;
      perfMonitor := Option.None;
      calls := [];
    }

    /** DefaultBootstrap(IRootConfig rootConfig, IEnumerable<IWorkItem> appServers,
        ILogFactory logFactory), once its arguments are checked: the bootstrap is
        initialized at once, with no configuration source. */
    constructor WithWorkItems(rootConfig: RootConfig, items: seq<WorkItem>)
      requires items != []
      ensures Valid() && configSource.None?
      ensures Snapshot() ==
              State(true, true, Some(items), Option.None,
                    if rootConfig.disablePerformanceDataCollector then Option.None else Some(Monitor(false)),
                    [])
    {
      configSource := Option.None;
      logReady := true;
      appServers := Some(items);
      serverManager := Option.None;
      perfMonitor := if rootConfig.disablePerformanceDataCollector then Option.None else Some(Monitor(false));
      calls := [];
      initialized := true;
    }

    /** The argument checks of the list-taking constructor: a null root config, a null
        or empty list, or a null log factory is refused. */
    static method FromWorkItems(rootConfig: Option<RootConfig>, items: Option<seq<WorkItem>>, logFactoryGiven: bool)
      returns (r: Result<DefaultBootstrap, BootstrapError>)
      ensures rootConfig.None? || items.None? ==> r == Failure(ArgumentNull)
      ensures rootConfig.Some? && items == Some([]) ==> r == Failure(EmptyArgument)
      ensures rootConfig.Some? && items.Some? && items.value != [] && !logFactoryGiven ==> r == Failure(ArgumentNull)
      ensures r.Success? <==> rootConfig.Some? && items.Some? && items.value != [] && logFactoryGiven
      ensures r.Success? ==>
                fresh(r.value) && r.value.Valid() && r.value.configSource.None? &&
                r.value.initialized && r.value.logReady && r.value.appServers == items &&
                r.value.serverManager.None? && r.value.calls == [] &&
                r.value.perfMonitor ==
                  if rootConfig.value.disablePerformanceDataCollector then Option.None else Some(Monitor(false))
    {
      if rootConfig.None? || items.None? {
        return Failure(ArgumentNull);
      }
      if items.value == [] {
        return Failure(EmptyArgument);
      }
      if !logFactoryGiven {
        return Failure(ArgumentNull);
      }
      var b := new DefaultBootstrap.WithWorkItems(rootConfig.value, items.value);
      return Result.Success(b);
    }

    /** Initialize(serverConfigResolver, logFactory). */
    method Initialize(logFactoryGiven: bool, loaded: Option<seq<FactoryInfo>>, outcomes: seq<Instantiation>)
      returns (r: Result<bool, BootstrapError>)
      requires Valid()
      requires loaded.Some? ==> |outcomes| == |loaded.value|
      modifies this
      ensures (Snapshot(), r) == InitializeSpec(old(Snapshot()), configSource, logFactoryGiven, loaded, outcomes)
      ensures Valid()
    {
      InitializeConsistent(Snapshot(), configSource, logFactoryGiven, loaded, outcomes);
      if initialized {
        return Failure(AlreadyInitialized);
      }
      if logFactoryGiven && configSource.value.logFactory != "" {
        return Failure(LogFactoryConflict);
      }
      logReady := true;
      calls := calls + [Load(configSource.value.servers)];
      if loaded.None? {
        return Result.Success(false);
      }
      var infos := loaded.value;
      var servers, manager, ok, tried := SetUpEach(infos, outcomes);
      appServers := Some(servers);
      calls := calls + InstantiateCalls(infos[..tried]);
      if !ok {
        return Result.Success(false);
      }
      if manager.Some? {
        serverManager := manager;
      }
      if !configSource.value.disablePerformanceDataCollector {
        perfMonitor := Some(Monitor(false));
      }
      initialized := true;
      return Result.Success(true);
    }

    /** Initialize(listenEndPointReplacement): the loader passes every declared server
        through ReplaceListenEndPoint; a missing endpoint makes the load fail. */
    method InitializeWithEndPoints(replacement: map<string, EndPoint>, loaded: Option<seq<FactoryInfo>>,
                                   outcomes: seq<Instantiation>)
      returns (r: Result<bool, BootstrapError>)
      requires Valid()
      requires loaded.Some? ==> |outcomes| == |loaded.value|
      modifies this
      ensures (Snapshot(), r) ==
              InitializeWithEndPointsSpec(old(Snapshot()), configSource, replacement, loaded, outcomes)
      ensures Valid()
    {
      if initialized {
        return Failure(AlreadyInitialized);
      }
      var found := ResolveAll(configSource.value.servers, replacement);
      r := Initialize(false, if found then loaded else Option.None, outcomes);
    }

    /** Start(): `replies[i]` is what the i-th item's Start() returns. Each item that
        starts changes its own state; the list itself keeps its items and order. */
    method Start(replies: seq<bool>) returns (r: Result<StartResult, BootstrapError>)
      requires Valid()
      requires initialized ==> |replies| == |appServers.value|
      modifies this
      ensures (Snapshot(), r) == StartSpec(old(Snapshot()), replies)
      ensures Valid()
    {
      StartConsistent(Snapshot(), replies);
      if !initialized {
        // the error is reported through m_GlobalLog, which may not be set yet
        if !logReady {
          return Failure(NullReference);
        }
        return Result.Success(StartResult.Failed);
      }
      var items := appServers.value;
      var servers, succeeded := StartEach(items, replies);
      appServers := Some(servers);
      calls := calls + StartCalls(|items|);
      r := Result.Success(Classify(|items|, succeeded));
      if perfMonitor.Some? {
        calls := calls + [MonitorStart];
        perfMonitor := Some(Monitor(true));
      }
    }

    /** Stop(): the positions are copied, reversed when some item declares a startup
        order, and every running item among them is stopped. */
    method Stop() returns (r: Outcome<BootstrapError>)
      requires Valid()
      modifies this
      ensures (Snapshot(), r) == StopSpec(old(Snapshot()))
      ensures Valid()
    {
      StopConsistent(Snapshot());
      if appServers.None? {
        return Fail(NullReference);
      }
      var items := appServers.value;
      var order := StopOrderOf(items);
      StopOrderIsPermutation(items);
      var servers, stopped := StopEach(items, order);
      appServers := Some(servers);
      calls := calls + StopCalls(stopped);
      if perfMonitor.Some? {
        calls := calls + [MonitorStop];
        perfMonitor := Some(Monitor(false));
      }
      return Pass;
    }

    /** AddNewServer(config): `loaded` is the loader's result for a source holding only
        the new server, `outcome` what creating and setting up its item did. */
    method AddNewServer(config: Option<ServerConfig>, loaded: Option<seq<FactoryInfo>>, outcome: Instantiation)
      returns (r: Result<Option<WorkItem>, BootstrapError>)
      requires Valid()
      modifies this
      ensures (Snapshot(), r) == AddNewServerSpec(old(Snapshot()), configSource, config, loaded, outcome)
      ensures Valid()
    {
      AddNewServerConsistent(Snapshot(), configSource, config, loaded, outcome);
      if config.None? {
        return Failure(ArgumentNull);
      }
      var name := config.value.name;
      if name == "" {
        return Failure(EmptyArgument);
      }
      if !initialized {
        return Failure(NotYetInitialized);
      }
      if NameTaken(appServers.value, name) {
        return Result.Success(Option.None);
      }
      if configSource.None? {
        return Failure(NullReference);
      }
      calls := calls + [Load([config.value])];
      if loaded.None? {
        return Result.Success(Option.None);
      }
      if loaded.value == [] {
        return Failure(NullReference);
      }
      var info := loaded.value[0];
      calls := calls + [Instantiate(info)];
      var server := InitializeAndSetupWorkItem(info, outcome);
      if server.Some? {
        appServers := Some(appServers.value + [server.value]);
        if !configSource.value.disablePerformanceDataCollector {
          // ResetPerfMoniter: stop the old monitor, if any, then start a new one
          calls := calls + if perfMonitor.Some? then [MonitorStop, MonitorStart] else [MonitorStart];
          perfMonitor := Some(Monitor(true));
        }
      }
      return Result.Success(server);
    }
  }
}
