/** The work items the bootstrap supervises, as the bootstrap sees them, and the pure
    decisions it takes about them: how a factory info becomes a set-up item, how the
    outcome of Start is classified, in which order Stop visits the items, and when a
    new server's name collides with an existing one. */
module WorkItems {
  import opened Wrappers
  import opened ServerConfigs

  /** ServerState of a hosted server. */
  datatype ServerState = NotInitialized | Initializing | NotStarted | Starting | Running | Stopping

  /** IWorkItem as the bootstrap reads it: its Name, the StartupOrder of its Config
      (None when the item has no Config) and its State. */
  datatype WorkItem = WorkItem(name: string, startupOrder: Option<int>, state: ServerState)

  /** WorkItemFactoryInfo: the resolved server config and whether the item is the
      server manager. The type name, provider factories and status metadata only
      reach the creation and setup oracles. */
  datatype FactoryInfo = FactoryInfo(config: ServerConfig, isServerManager: bool)

  /** What the code outside the bootstrap did when asked to create (reflection) and then
      set up (SetupWorkItemInstance) one work item. */
  datatype Instantiation = CreateFails | SetupFails | SetupSucceeds

  /** StartResult */
  datatype StartResult = None | Success | PartialSuccess | Failed

  // ---------------------------------------------------------------------------
  // Creating work items

  /** The item a successful setup leaves behind: named and ordered by its config,
      and not started. */
  function SetUpItem(info: FactoryInfo): WorkItem
  {
    WorkItem(info.config.name, Some(info.config.startupOrder), NotStarted)
  }

  /** InitializeAndSetupWorkItem: the set-up item, or nothing (null) when creating
      or setting it up failed. */
  function InitializeAndSetupWorkItem(info: FactoryInfo, outcome: Instantiation): (r: Option<WorkItem>)
    ensures r.Some? <==> outcome == SetupSucceeds
    ensures r.Some? ==> r.value.name == info.config.name && r.value.state == NotStarted
                        && r.value.startupOrder == Some(info.config.startupOrder)
  {
    match outcome
    case CreateFails => Option.None
    case SetupFails => Option.None
    case SetupSucceeds => Some(SetUpItem(info))
  }

  /** The items set up from `infos`, one per info, in the same order. */
  function ItemsFor(infos: seq<FactoryInfo>): (items: seq<WorkItem>)
    ensures |items| == |infos|
    ensures forall i :: 0 <= i < |infos| ==> items[i] == SetUpItem(infos[i])
  {
    seq(|infos|, i requires 0 <= i < |infos| => SetUpItem(infos[i]))
  }

  /** The position of the first instantiation that failed, or |outcomes| when none did. */
  function FirstFailure(outcomes: seq<Instantiation>): (k: nat)
    ensures k <= |outcomes|
    ensures forall i :: 0 <= i < k ==> outcomes[i] == SetupSucceeds
    ensures k < |outcomes| ==> outcomes[k] != SetupSucceeds
  {
    if outcomes == [] then 0
    else if outcomes[0] != SetupSucceeds then 0
    else 1 + FirstFailure(outcomes[1..])
  }

  /** The position of the last info flagged as server manager, if any. */
  function LastServerManager(infos: seq<FactoryInfo>): (r: Option<nat>)
    ensures r.None? <==> forall i :: 0 <= i < |infos| ==> !infos[i].isServerManager
    ensures r.Some? ==> r.value < |infos| && infos[r.value].isServerManager
                        && forall i :: r.value < i < |infos| ==> !infos[i].isServerManager
  {
    if infos == [] then Option.None
    else if infos[|infos| - 1].isServerManager then Some(|infos| - 1)
    else LastServerManager(infos[..|infos| - 1])
  }

  // ---------------------------------------------------------------------------
  // Start

  /** How many items reported a successful Start. */
  function CountSucceeded(replies: seq<bool>): (n: nat)
    ensures n <= |replies|
    ensures n == |replies| <==> forall i :: 0 <= i < |replies| ==> replies[i]
    ensures n == 0 <==> forall i :: 0 <= i < |replies| ==> !replies[i]
  {
    if replies == [] then 0
    else CountSucceeded(replies[..|replies| - 1]) + (if replies[|replies| - 1] then 1 else 0)
  }

  /** The StartResult for `count` items of which `succeeded` started: none to start,
      all, none, or some but not all. */
  function Classify(count: nat, succeeded: nat): (r: StartResult)
    requires succeeded <= count
    ensures r == StartResult.None <==> count == 0
    ensures r == StartResult.Success <==> 0 < count && succeeded == count
    ensures r == StartResult.Failed <==> 0 < count && succeeded == 0
    ensures r == StartResult.PartialSuccess <==> 0 < succeeded < count
  {
    if count > 0 then
      if count == succeeded then StartResult.Success
      else if succeeded == 0 then StartResult.Failed
      else StartResult.PartialSuccess
    else StartResult.None
  }

  /** The items after each was asked to start: an item whose Start returned true is
      running; one whose Start returned false keeps its state. */
  function AfterStart(items: seq<WorkItem>, replies: seq<bool>): (r: seq<WorkItem>)
    requires |replies| == |items|
    ensures |r| == |items|
    ensures forall i :: 0 <= i < |items| ==>
              r[i].name == items[i].name && r[i].startupOrder == items[i].startupOrder &&
              r[i].state == (if replies[i] then Running else items[i].state)
  {
    seq(|items|, i requires 0 <= i < |items| => if replies[i] then items[i].(state := Running) else items[i])
  }

  /** The overall outcome of starting a non-empty list is Success exactly when every
      item started, Failed exactly when none did, and PartialSuccess otherwise. */
  lemma StartOutcome(replies: seq<bool>)
    requires |replies| > 0
    ensures var r := Classify(|replies|, CountSucceeded(replies));
            (r == StartResult.Success <==> forall i :: 0 <= i < |replies| ==> replies[i]) &&
            (r == StartResult.Failed <==> forall i :: 0 <= i < |replies| ==> !replies[i]) &&
            (r == StartResult.PartialSuccess <==>
               (exists i :: 0 <= i < |replies| && replies[i]) && (exists i :: 0 <= i < |replies| && !replies[i]))
  {
  }

  // ---------------------------------------------------------------------------
  // Stop

  /** Some item has a Config whose StartupOrder is not 0. */
  predicate AnyOrdered(items: seq<WorkItem>)
  {
    exists i :: 0 <= i < |items| && items[i].startupOrder.Some? && items[i].startupOrder.value != 0
  }

  /** The positions Stop visits: the list reversed when some item declares a startup
      order, the list order otherwise. */
  function StopOrder(items: seq<WorkItem>): (order: seq<nat>)
    ensures |order| == |items|
  {
    var n := |items|;
    if AnyOrdered(items) then seq(n, k requires 0 <= k < n => n - 1 - k) else seq(n, k => k)
  }

  /** Stop visits every position exactly once. */
  lemma StopOrderIsPermutation(items: seq<WorkItem>)
    ensures forall k :: 0 <= k < |items| ==> StopOrder(items)[k] < |items|
    ensures forall p, q :: 0 <= p < q < |items| ==> StopOrder(items)[p] != StopOrder(items)[q]
    ensures forall j :: 0 <= j < |items| ==> j in StopOrder(items)
  {
    var order := StopOrder(items);
    forall j | 0 <= j < |items| ensures j in order {
      var k := if AnyOrdered(items) then |items| - 1 - j else j;
      assert order[k] == j;
    }
  }

  /** The positions in `order` whose item is running, in the order given. */
  function RunningOf(order: seq<nat>, items: seq<WorkItem>): (r: seq<nat>)
    requires forall k :: 0 <= k < |order| ==> order[k] < |items|
    ensures forall x :: x in r <==> x in order && items[x].state == Running
  {
    if order == [] then []
    else
      var last := order[|order| - 1];
      RunningOf(order[..|order| - 1], items) + (if items[last].state == Running then [last] else [])
  }

  /** The positions Stop actually stops, in the order it stops them. */
  function StopSequence(items: seq<WorkItem>): seq<nat>
  {
    RunningOf(StopOrder(items), items)
  }

  /** The items after Stop: a running item is stopped, every other item is skipped. */
  function AfterStop(items: seq<WorkItem>): (r: seq<WorkItem>)
    ensures |r| == |items|
    ensures forall i :: 0 <= i < |items| ==>
              r[i].name == items[i].name && r[i].startupOrder == items[i].startupOrder &&
              r[i].state == (if items[i].state == Running then NotStarted else items[i].state)
  {
    seq(|items|, i requires 0 <= i < |items| =>
      if items[i].state == Running then items[i].(state := NotStarted) else items[i])
  }

  predicate Increasing(s: seq<nat>)
  {
    forall p, q :: 0 <= p < q < |s| ==> s[p] < s[q]
  }

  predicate Decreasing(s: seq<nat>)
  {
    forall p, q :: 0 <= p < q < |s| ==> s[p] > s[q]
  }

  /** Keeping only the running positions keeps the order of what is kept. */
  lemma {:induction false} RunningOfKeepsOrder(order: seq<nat>, items: seq<WorkItem>)
    requires forall k :: 0 <= k < |order| ==> order[k] < |items|
    ensures Increasing(order) ==> Increasing(RunningOf(order, items))
    ensures Decreasing(order) ==> Decreasing(RunningOf(order, items))
  {
    if order != [] {
      var init := order[..|order| - 1];
      var last := order[|order| - 1];
      RunningOfKeepsOrder(init, items);
      var r := RunningOf(init, items);
      var res := RunningOf(order, items);
      assert res == r + (if items[last].state == Running then [last] else []);
      assert forall x :: x in r ==> x in init;
      if Increasing(order) {
        assert forall x :: x in init ==> x < last;
        forall p, q | 0 <= p < q < |res| ensures res[p] < res[q] {
          if q == |r| { assert res[p] == r[p] && r[p] in r; }
        }
      }
      if Decreasing(order) {
        assert forall x :: x in init ==> x > last;
        forall p, q | 0 <= p < q < |res| ensures res[p] > res[q] {
          if q == |r| { assert res[p] == r[p] && r[p] in r; }
        }
      }
    }
  }

  /** Stop stops exactly the running items, each once: when some item declares a
      startup order they are stopped from the last position to the first, otherwise
      from the first to the last. */
  lemma StopSequenceProperties(items: seq<WorkItem>)
    ensures forall j :: j in StopSequence(items) <==> 0 <= j < |items| && items[j].state == Running
    ensures AnyOrdered(items) ==> Decreasing(StopSequence(items))
    ensures !AnyOrdered(items) ==> Increasing(StopSequence(items))
  {
    StopOrderIsPermutation(items);
    RunningOfKeepsOrder(StopOrder(items), items);
  }

  // ---------------------------------------------------------------------------
  // Names

  /** Upper-case mapping of one character (ASCII letters). */
  function FoldCase(c: char): char
  {
    if 'a' <= c <= 'z' then (c as int - 'a' as int + 'A' as int) as char else c
  }

  /** String.Equals(a, b, StringComparison.OrdinalIgnoreCase), character by character. */
  function EqualsIgnoreCase(a: string, b: string): (r: bool)
    ensures r <==> |a| == |b| && forall i :: 0 <= i < |a| ==> FoldCase(a[i]) == FoldCase(b[i])
  {
    |a| == |b| && (a == [] || (FoldCase(a[0]) == FoldCase(b[0]) && EqualsIgnoreCase(a[1..], b[1..])))
  }

  /** The upper-case form of a string. */
  function UpperCase(s: string): (r: string)
    ensures |r| == |s|
    ensures forall i :: 0 <= i < |s| ==> r[i] == FoldCase(s[i])
  {
    seq(|s|, i requires 0 <= i < |s| => FoldCase(s[i]))
  }

  /** Two names are equal ignoring case exactly when their upper-case forms are equal. */
  lemma {:induction false} EqualsIgnoreCaseIsSameUpperCase(a: string, b: string)
    ensures EqualsIgnoreCase(a, b) <==> UpperCase(a) == UpperCase(b)
  {
    if |a| == |b| && a != [] {
      EqualsIgnoreCaseIsSameUpperCase(a[1..], b[1..]);
      assert UpperCase(a) == [FoldCase(a[0])] + UpperCase(a[1..]);
      assert UpperCase(b) == [FoldCase(b[0])] + UpperCase(b[1..]);
    }
  }

  /** Equality ignoring case is an equivalence: a name collides with itself, and
      collision is symmetric and transitive. */
  lemma EqualsIgnoreCaseEquivalence(a: string, b: string, c: string)
    ensures EqualsIgnoreCase(a, a)
    ensures EqualsIgnoreCase(a, b) ==> EqualsIgnoreCase(b, a)
    ensures EqualsIgnoreCase(a, b) && EqualsIgnoreCase(b, c) ==> EqualsIgnoreCase(a, c)
  {
    EqualsIgnoreCaseIsSameUpperCase(a, a);
    EqualsIgnoreCaseIsSameUpperCase(a, b);
    EqualsIgnoreCaseIsSameUpperCase(b, a);
    EqualsIgnoreCaseIsSameUpperCase(b, c);
    EqualsIgnoreCaseIsSameUpperCase(a, c);
  }

  /** Some item's name equals `name` ignoring case. */
  predicate NameTaken(items: seq<WorkItem>, name: string)
    ensures NameTaken(items, name) ==> exists i :: 0 <= i < |items| && |items[i].name| == |name|
  {
    exists i :: 0 <= i < |items| && EqualsIgnoreCase(name, items[i].name)
  }

  /** No two items have names that are equal ignoring case. */
  predicate DistinctNames(items: seq<WorkItem>)
  {
    forall i, j :: 0 <= i < j < |items| ==> !EqualsIgnoreCase(items[i].name, items[j].name)
  }
}
