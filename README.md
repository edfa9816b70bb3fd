# SuperSocket bootstrap and chat-server packet decoder, in Dafny

This project models two pieces of the SuperSocket study repository and proves what they
promise.

**The bootstrap (`SocketEngine/DefaultBootstrap.cs`).** `DefaultBootstrap` supervises the
hosted servers ("work items") of one process. It is modelled as the class
`Bootstrap.DefaultBootstrap`, whose fields follow the source's fields:

- `initialized` is `m_Initialized`.
- `logReady` is whether `m_GlobalLog` has been set.
- `appServers` is `m_AppServers`: an optional list of work items, where absent stands for null.
- `serverManager` is `m_ServerManager`, kept as the manager's position in the list.
- `perfMonitor` is `m_PerfMonitor`: only whether it exists and whether it was started.

The methods `Initialize`, `InitializeWithEndPoints`, `Start`, `Stop` and `AddNewServer`
change those fields. Each method is proved to implement a function from the old state to
the new state and the result: `InitializeSpec`, `InitializeWithEndPointsSpec`,
`StartSpec`, `StopSpec` and `AddNewServerSpec`. Lemmas about those functions state:

- Initialize is one-shot and stops at the first failure.
- Start classifies its result.
- Stop follows the declared order.
- AddNewServer appends at most one item under a fresh name.
- Every operation keeps the state consistent.

Code the bootstrap calls but does not own is passed in as arguments:

- the factory-info loader (its result, or a failure);
- the creation and setup of each item (a three-way outcome);
- each item's `Start()` (a boolean reply).

A ghost log, `calls`, records in order every call the bootstrap makes into that code:

- the loader's `LoadResult`;
- the creation and setup of each item;
- each item's `Start()` and `Stop()`;
- the performance monitor's start and stop.

This is what lets the model state the order of calls: whether the loader ran, which items
were instantiated, started and stopped, and in what order.

The loops of the source are methods with loop invariants:

- Initialize's creation loop is `SetUpEach`.
- Start's loop is `StartEach`.
- Stop's array copy and `Array.Reverse` are `StopOrderOf` and `ReverseInPlace`.
- Stop's loop is `StopEach`.
- `ReplaceListenEndPoint`'s listener loop is `RebindListeners`.

The pure decisions are functions in `WorkItems`: the start classification, the stop order
and the case-insensitive name comparison. The endpoint keys `Name + "_" + Port` are
functions in `ServerConfigs`.

**The packet decoder (`ChatServer/ChatServer/ReceiveFilter.cs`).** This is the chat
server's fixed-header receive filter, on a little-endian host. A packet has a 5-byte
header:

- a little-endian `Int16` size, header included;
- a little-endian `Int16` packet id;
- a signed type byte.

The body follows the header. The module `ReceiveFilter` holds:

- the decoder functions;
- the encoding that inverts them;
- round-trip lemmas;
- the relation between the announced body length and the decoded size.

**A failed Initialize keeps what it created.** `Initialize` keeps the items created
before a failure in `m_AppServers` (lines 409-427). It returns at line 419 before setting
`m_ServerManager`, `m_PerfMonitor` or `m_Initialized` (lines 430-456); see
`Bootstrap.InitializeStopsAtFirstFailure`.

## Model

| member | source | states |
|---|---|---|
| ReceiveFilter.ToInt16 | ChatServer/ChatServer/ReceiveFilter.cs:42 | BitConverter.ToInt16 gives the Int16 congruent mod 2^16 to the little-endian word of the two bytes, and it is negative exactly when the high byte has its top bit set |
| ReceiveFilter.ToSByte | ChatServer/ChatServer/ReceiveFilter.cs:54 | the (SByte) cast keeps the eight bits: congruent mod 256, negative exactly when the top bit is set |
| ReceiveFilter.Int16RoundTrip | ChatServer/ChatServer/ReceiveFilter.cs:42 | every Int16 is decoded back from its little-endian encoding |
| ReceiveFilter.Int16BytesRoundTrip | ChatServer/ChatServer/ReceiveFilter.cs:42 | any two bytes are the encoding of the Int16 decoded from them, so the decoding is a bijection |
| ReceiveFilter.SByteRoundTrip | ChatServer/ChatServer/ReceiveFilter.cs:54 | every signed byte is recovered from its bits |
| ReceiveFilter.GetBodyLengthFromHeader | ChatServer/ChatServer/ReceiveFilter.cs:35-45 | the body length plus the header size is an Int16 whose encoding is the two bytes at `offset`; nothing bounds it from below, so it can be negative |
| ReceiveFilter.ResolveRequestInfo | ChatServer/ChatServer/ReceiveFilter.cs:47-56 | Size, PacketID and Type are the fields the header bytes 0-4 of the array encode, and the body is a copy of bodyBuffer[offset, offset + length) |
| ReceiveFilter.HeaderRoundTrip | ChatServer/ChatServer/ReceiveFilter.cs:52-55 | decoding the encoding of any size, id, type and body gives back that request |
| ReceiveFilter.BodyLengthMatchesSize | ChatServer/ChatServer/ReceiveFilter.cs:42-54 | with the header at the start of its array, the announced body length plus the header size is the decoded Size |
| ReceiveFilter.HeaderOffsetIgnored | ChatServer/ChatServer/ReceiveFilter.cs:50-54 | the decoded request does not depend on the header segment's offset or count |
| ReceiveFilter.SizeMismatchAtNonZeroOffset | ChatServer/ChatServer/ReceiveFilter.cs:42-54 | a segment at offset 5: the body length is computed from size 9 while the request reports size 7 |
| ReceiveFilter.ResolveRequestInfoAtOffset | ChatServer/ChatServer/ReceiveFilter.cs:47-56 | the decoder reading the header at the segment's offset: its fields encode the bytes there, and the body is the same copy |
| ReceiveFilter.CorrectedSizeMatchesBodyLength | ChatServer/ChatServer/ReceiveFilter.cs:42-54 | reading at the segment's offset, the body length plus the header size is the decoded Size at every offset |
| ReceiveFilter.CorrectedAgreesAtZero | ChatServer/ChatServer/ReceiveFilter.cs:50-54 | at offset 0 the corrected decoder and the one as written agree |
| ServerConfigs.EndPointKeyFormat | SocketEngine/DefaultBootstrap.cs:276 | EndPointKey is the server's name, "_", then the port in decimal, with a '-' after the underscore exactly for a negative port |
| ServerConfigs.EndPointKeyInjective | SocketEngine/DefaultBootstrap.cs:297 | two ports of one server with the same "{Name}_{Port}" key are the same port, so a replacement is never taken for another endpoint |
| ServerConfigs.NatToDecimalInjective | SocketEngine/DefaultBootstrap.cs:276 | distinct ports have distinct decimal forms |
| ServerConfigs.FirstMissingMeaning | SocketEngine/DefaultBootstrap.cs:280-304 | the reported key is the first key looked up that the map lacks, and nothing is reported exactly when every key is present |
| ServerConfigs.FirstMissingAppend | SocketEngine/DefaultBootstrap.cs:274-311 | with the server's own key present, the first missing key is the first missing listener key |
| ServerConfigs.RebindListeners | SocketEngine/DefaultBootstrap.cs:289-311 | fails with the first listener key the map lacks, exactly when there is one; otherwise every listener gets the Ip and Port of its own key's endpoint, in order |
| ServerConfigs.ReplaceListenEndPoint | SocketEngine/DefaultBootstrap.cs:270-314 | throws "Failed to find Input Endpoint configuration {key}" for the first missing key, exactly when one is missing; otherwise a positive Port takes its key's endpoint, a Port <= 0 keeps Ip and Port, every listener is rebound, and Name, type and order are kept |
| WorkItems.InitializeAndSetupWorkItem | SocketEngine/DefaultBootstrap.cs:316-364 | returns an item exactly when creation and setup both succeed; the item carries its config's name and startup order and is not started |
| WorkItems.ItemsFor | SocketEngine/DefaultBootstrap.cs:414-427 | the items of a run of successful setups: one per info, in loader order |
| WorkItems.FirstFailure | SocketEngine/DefaultBootstrap.cs:414-419 | the position at which the creation loop stops: every earlier setup succeeded and the one there failed |
| WorkItems.LastServerManager | SocketEngine/DefaultBootstrap.cs:421-431 | the server manager is the last info flagged as one, and there is none exactly when no info is flagged |
| WorkItems.CountSucceeded | SocketEngine/DefaultBootstrap.cs:516-529 | the success counter equals the number of items exactly when all started, and is 0 exactly when none did |
| WorkItems.Classify | SocketEngine/DefaultBootstrap.cs:531-539 | None exactly for no items, Success exactly when all started, Failed exactly when none did, PartialSuccess exactly when some but not all did |
| WorkItems.AfterStart | SocketEngine/DefaultBootstrap.cs:518-529 | an item whose Start returned true is running; the others keep their state; names and orders are kept |
| WorkItems.StartOutcome | SocketEngine/DefaultBootstrap.cs:531-539 | for a non-empty list, the result in terms of the replies: all true, all false, or both present |
| WorkItems.StopOrder | SocketEngine/DefaultBootstrap.cs:557-562 | the positions Stop visits: one per item, reversed exactly when some item has a non-zero StartupOrder (its permutation property is the next row) |
| WorkItems.StopOrderIsPermutation | SocketEngine/DefaultBootstrap.cs:557-562 | the copied and possibly reversed positions visit each item exactly once |
| WorkItems.RunningOf | SocketEngine/DefaultBootstrap.cs:564-570 | the positions stopped are exactly the visited ones whose item is running |
| WorkItems.AfterStop | SocketEngine/DefaultBootstrap.cs:564-570 | a running item is stopped; every other item is left as it was |
| WorkItems.RunningOfKeepsOrder | SocketEngine/DefaultBootstrap.cs:564-570 | skipping the items that are not running keeps the visiting order, increasing or decreasing |
| WorkItems.StopSequenceProperties | SocketEngine/DefaultBootstrap.cs:557-570 | Stop stops exactly the running items, each once, from last to first when some item has a non-zero StartupOrder and from first to last otherwise |
| WorkItems.EqualsIgnoreCase | SocketEngine/DefaultBootstrap.cs:639 | two names are equal ignoring case exactly when they have the same length and agree at every position once case is folded |
| WorkItems.NameTaken | SocketEngine/DefaultBootstrap.cs:639 | a taken name matches, ignoring case, some item of the list, so it has that item's length |
| WorkItems.EqualsIgnoreCaseIsSameUpperCase | SocketEngine/DefaultBootstrap.cs:639 | two names are equal ignoring case exactly when their upper-case forms are equal |
| WorkItems.EqualsIgnoreCaseEquivalence | SocketEngine/DefaultBootstrap.cs:639 | equality ignoring case is reflexive, symmetric and transitive |
| Bootstrap.InitializeSpec | SocketEngine/DefaultBootstrap.cs:373-459 | the state machine of Initialize: an exception changes nothing, and past the argument checks the log is set and the loader is called first |
| Bootstrap.InitializeWithEndPointsSpec | SocketEngine/DefaultBootstrap.cs:265-268 | Initialize with no log factory whose loader fails when a declared server's endpoint is missing; it throws only when already initialized |
| Bootstrap.StartSpec | SocketEngine/DefaultBootstrap.cs:504-550 | the state machine of Start: a throw changes nothing and is a null reference; Start never changes the initialized flag, the log or the manager, and keeps the number of items |
| Bootstrap.StopSpec | SocketEngine/DefaultBootstrap.cs:555-579 | the state machine of Stop: it throws exactly when there is no server list, and never changes the initialized flag, the log or the manager |
| Bootstrap.AddNewServerSpec | SocketEngine/DefaultBootstrap.cs:628-690 | the state machine of AddNewServer: it never changes the initialized flag, the log or the manager, and an exception leaves the list and the monitor unchanged |
| Bootstrap.InitializeSucceedsIff | SocketEngine/DefaultBootstrap.cs:373-459 | a second Initialize throws and changes nothing; Initialize returns true exactly when no log factory clashes, the loader succeeds and every setup succeeds; the bootstrap is initialized afterwards exactly then |
| Bootstrap.InitializeLoaderFailure | SocketEngine/DefaultBootstrap.cs:385-406 | a loader exception makes Initialize return false with nothing created: only the log is set and the loader's call recorded |
| Bootstrap.InitializeStopsAtFirstFailure | SocketEngine/DefaultBootstrap.cs:409-419 | the first failed creation or setup returns false: the bootstrap is not initialized, the items before it are kept and not started, and no later info is instantiated |
| Bootstrap.InitializeSuccess | SocketEngine/DefaultBootstrap.cs:409-459 | a successful Initialize holds one not-started item per info in loader order; the loader ran, then every info was instantiated once in order; the server manager is the last flagged info's item |
| Bootstrap.InitializeConsistent | SocketEngine/DefaultBootstrap.cs:373-459 | Initialize keeps the server list present once initialized and the server manager inside it |
| Bootstrap.MissingEndPointCreatesNothing | SocketEngine/DefaultBootstrap.cs:265-268 | a replacement map that misses some declared server's endpoint makes the load fail: Initialize returns false with no item created, only the log set and the loader's call recorded |
| Bootstrap.StartResultMeaning | SocketEngine/DefaultBootstrap.cs:504-539 | Start before Initialize changes nothing: it returns Failed when m_GlobalLog is set and throws a null reference when it is not; otherwise the result is None, Success, Failed or PartialSuccess according to the replies |
| Bootstrap.StartBeforeInitializeThrows | SocketEngine/DefaultBootstrap.cs:506-511 | on the state the configuration-source constructor leaves, Start throws a null reference instead of returning Failed |
| Bootstrap.IntendedStartRefusesUninitialized | SocketEngine/DefaultBootstrap.cs:506-511 | Start as intended returns Failed before Initialize in every state, and agrees with Start as written wherever the log is set |
| Bootstrap.StartSpecIntended | SocketEngine/DefaultBootstrap.cs:504-550 | Start with the before-Initialize branch returning Failed whether or not the log is set; it never throws |
| Bootstrap.StartTriesEveryItem | SocketEngine/DefaultBootstrap.cs:514-529 | Start calls Start() on every item once, in list order, whatever the replies; an item is running afterwards exactly when it started or already ran |
| Bootstrap.StartConsistent | SocketEngine/DefaultBootstrap.cs:504-550 | Start keeps the state consistent |
| Bootstrap.StopFollowsDeclaredOrder | SocketEngine/DefaultBootstrap.cs:555-579 | Stop with no server list throws; otherwise it stops exactly the running items in declared or reverse order, then stops the monitor, and no item is left running |
| Bootstrap.StopConsistent | SocketEngine/DefaultBootstrap.cs:555-579 | Stop keeps the state consistent |
| Bootstrap.AddNewServerAppendsAtMostOne | SocketEngine/DefaultBootstrap.cs:628-690 | a null config, an empty name and an uninitialized bootstrap throw, in that order, changing nothing; an item is added exactly when the config is given and named, the bootstrap is initialized, the name is free, the loader gives an info and its setup succeeds; it is then appended after the kept items; otherwise the list is unchanged, and an exception changes nothing but the record of the loader's call |
| Bootstrap.AddNewServerRejectsTakenName | SocketEngine/DefaultBootstrap.cs:639-643 | a name equal to an existing one ignoring case returns null, with no change and no call |
| Bootstrap.AddNewServerKeepsNamesDistinct | SocketEngine/DefaultBootstrap.cs:639-669 | adding keeps the item names distinct ignoring case |
| Bootstrap.AddNewServerConsistent | SocketEngine/DefaultBootstrap.cs:628-690 | AddNewServer keeps the state consistent |
| Bootstrap.ReverseInPlace | SocketEngine/DefaultBootstrap.cs:561 | Array.Reverse: element k ends up where element Length - 1 - k was |
| Bootstrap.SetUpEach | SocketEngine/DefaultBootstrap.cs:409-431 | the creation loop gives the items of the infos before the first failure, reports whether there was none, and finds the last server manager |
| Bootstrap.ResolveAll | SocketEngine/DefaultBootstrap.cs:265-268 | the resolver succeeds on every declared server exactly when every server's keys are in the map |
| Bootstrap.StopOrderOf | SocketEngine/DefaultBootstrap.cs:557-562 | the copied positions are reversed exactly when some item has a non-zero StartupOrder |
| Bootstrap.StartEach | SocketEngine/DefaultBootstrap.cs:516-529 | the start loop leaves the items as AfterStart says and counts the successes |
| Bootstrap.StopEach | SocketEngine/DefaultBootstrap.cs:564-570 | the stop loop stops each running item it visits, once, in visiting order |
| Bootstrap.DefaultBootstrap.constructor | SocketEngine/DefaultBootstrap.cs:181-196 | built from a configuration source: not initialized, no log, no server list, no manager, no monitor |
| Bootstrap.DefaultBootstrap.WithWorkItems | SocketEngine/DefaultBootstrap.cs:139-175 | built from a non-empty list: initialized at once with that list and a log, with an unstarted monitor unless the collector is disabled |
| Bootstrap.DefaultBootstrap.FromWorkItems | SocketEngine/DefaultBootstrap.cs:139-175 | a null root config or list, an empty list or a null log factory is refused with the source's exception; otherwise the bootstrap is initialized with the list and a log, no manager, and an unstarted monitor unless the collector is disabled |
| Bootstrap.DefaultBootstrap.Initialize | SocketEngine/DefaultBootstrap.cs:373-459 | the fields and the result after Initialize are those InitializeSpec gives, and the state stays valid |
| Bootstrap.DefaultBootstrap.InitializeWithEndPoints | SocketEngine/DefaultBootstrap.cs:265-268 | Initialize with ReplaceListenEndPoint as the resolver, as InitializeWithEndPointsSpec gives |
| Bootstrap.DefaultBootstrap.Start | SocketEngine/DefaultBootstrap.cs:504-550 | the fields and the result after Start are those StartSpec gives, including the null reference before Initialize when the log is not set |
| Bootstrap.DefaultBootstrap.Stop | SocketEngine/DefaultBootstrap.cs:555-579 | the fields after Stop are those StopSpec gives |
| Bootstrap.DefaultBootstrap.AddNewServer | SocketEngine/DefaultBootstrap.cs:628-690 | the fields and the result after AddNewServer are those AddNewServerSpec gives, including the monitor reset of ResetPerfMoniter |

## Left out

- What is logged and at which level. Of `m_GlobalLog` only whether it is set is kept (`logReady`), because Start dereferences it before Initialize. The log factories, the AppDomain handlers and data, the per-item `IExceptionSource.ExceptionThrown` subscription (lines 334-337), which only logs, `SetDefaultCulture`, `Dispose`, `BaseDirectory` and `StartupConfigFile` are left out; they have no effect on the fields modelled.
- Creating the bootstrap log factory inside Initialize (lines 387-392) is taken to succeed.
- The `PerformanceMonitor` itself, which is timer-driven sampling. Only whether it exists and whether it was last started or stopped is kept.
- Reflection (`CreateWorkItemInstance`), `SetupWorkItemInstance`, `WorkItemFactoryInfoLoader` and each item's `Start()`. This code is not part of this model; their outcomes are arguments.
- The resolver passed to `Initialize(resolver, logFactory)`. The loader applies it, so its effect is part of the loader's result. Only `ReplaceListenEndPoint`, the resolver of `Initialize(listenEndPointReplacement)`, is modelled. The overloads at lines 476-498 only fill in arguments.
- The delegating constructors at lines 116-131 and 203-216. They add nothing beyond the two constructors modelled.
- Writing the new server back to the configuration file in `AddNewServer` (lines 676-686). This is file I/O.
- An exception thrown by an item's own `Start()` or `Stop()`. The source does not catch it, so it would abort the loop; the model takes each reply as a boolean.
- Bootstrap.StopSpec: the state an item enters after its own `Stop()` is up to the item; the model takes it to be `NotStarted`. Likewise a `Start()` that returned true is taken to leave the item `Running`, and a `Start()` that returned false leaves the item's state as it was.
- Bootstrap.AddNewServerSpec: an empty loader result is modelled as a null dereference. With error logging enabled this escapes from the catch block at line 330; with error logging disabled the source returns null instead.
- Bootstrap.AddNewServerSpec: on a bootstrap built from a list, `m_Config` is null, and copying it into a `ConfigurationSource` is taken to throw a null reference. `ConfigurationSource` is not part of this model.
- ServerConfigs.ReplaceListenEndPoint: works on values. In the source the copied config may share its listener objects with the original (the `ServerConfig` copy constructor is not part of this model). If so, listeners rewritten before a missing key throws stay rewritten in the original; the model does not capture that aliasing.
- ServerConfigs.NatToDecimal: a port is written in invariant decimal digits. Culture-specific number formatting is not modelled.
- WorkItems.EqualsIgnoreCase: folds only the ASCII letters. `StringComparison.OrdinalIgnoreCase` also folds other letters.
- The big-endian branches of `ReceiveFilter`, which reverse the header in place (lines 37-40 and 49-50). The host is fixed as little-endian.
- `PacketDef.PACKET_HEADER_SIZE` is defined in `CSBaseLib`, which is not part of this model. It is modelled as 5, the size of the fields read.
- `ReceiveFilter.GetBodyLengthFromHeader` ignores its `length` argument, and so does the model. The receive-filter base class that calls both overrides is not part of this model.

## Findings

| source | as written | input that shows it | evidently intended | confidence | as-written member | corrected member |
|---|---|---|---|---|---|---|
| SocketEngine/DefaultBootstrap.cs:506-511 | Start before Initialize reports the error through `m_GlobalLog.IsErrorEnabled`; `m_GlobalLog` is set only at lines 159 and 392, never by the configuration-source constructor | `new DefaultBootstrap(config)` followed by `Start()`: a null reference is thrown instead of `StartResult.Failed` | Start before Initialize returns `StartResult.Failed` whether or not the log was set | not executed | Bootstrap.StartBeforeInitializeThrows | Bootstrap.IntendedStartRefusesUninitialized |
| ChatServer/ChatServer/ReceiveFilter.cs:52-54 | ResolveRequestInfo reads Size, PacketID and Type from index 0 of `header.Array`, while GetBodyLengthFromHeader reads the size at `offset` | header array `[7,0,1,0,0, 9,0,2,0,0]` with segment offset 5: the body length comes from size 9 (4 bytes), but the request reports Size 7 | read the header fields at `header.Offset`, so that the announced body length plus the header size is the decoded Size | not executed | ReceiveFilter.SizeMismatchAtNonZeroOffset | ReceiveFilter.CorrectedSizeMatchesBodyLength |

The class `Bootstrap.DefaultBootstrap` keeps the code's behaviour for `Start`, throwing as
written; `Bootstrap.StartSpecIntended` is the intended behaviour, defined beside it.
