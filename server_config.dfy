/** The parts of the server configuration the bootstrap reads, and the listen-endpoint
    replacement that rewrites a server's endpoints from a map keyed by
    "{Name}_{Port}" (DefaultBootstrap.ReplaceListenEndPoint). */
module ServerConfigs {
  import opened Wrappers

  /** ListenerConfig: one additional endpoint a server listens on. */
  datatype ListenerConfig = ListenerConfig(ip: string, port: int, backlog: int, security: string)

  /** IServerConfig, restricted to the fields the bootstrap reads or rewrites.
      A null Listeners collection is represented by the empty sequence; the source
      treats both alike. */
  datatype ServerConfig = ServerConfig(
    name: string,
    serverType: string,
    ip: string,
    port: int,
    listeners: seq<ListenerConfig>,
    startupOrder: int)

  /** IPEndPoint: the address (as its string form) and the port. */
  datatype EndPoint = EndPoint(address: string, port: int)

  /** IConfigurationSource / IRootConfig: the declared servers and the global settings
      the bootstrap consults. `logFactory` is the name of a configured root log
      factory, "" when there is none. */
  datatype RootConfig = RootConfig(
    servers: seq<ServerConfig>,
    disablePerformanceDataCollector: bool,
    logFactory: string)

  /** The exception ReplaceListenEndPoint throws: "Failed to find Input Endpoint
      configuration {key}!". */
  datatype ConfigError = MissingEndPoint(key: string)

  function DigitChar(d: nat): (c: char)
    requires d < 10
    ensures '0' <= c <= '9'
  {
    ('0' as int + d) as char
  }

  /** The decimal form of a natural number, as Int32.ToString() writes it. */
  function NatToDecimal(n: nat): (s: string)
    ensures |s| > 0
    ensures '0' <= s[0] <= '9'
    ensures n < 10 <==> |s| == 1
  {
    if n < 10 then [DigitChar(n)] else NatToDecimal(n / 10) + [DigitChar(n % 10)]
  }

  /** The decimal form of an integer: a '-' before the digits of a negative one. */
  function IntToDecimal(n: int): (s: string)
    ensures |s| > 0
    ensures s[0] == '-' <==> n < 0
  {
    if n < 0 then "-" + NatToDecimal(-n) else NatToDecimal(n)
  }

  /** The replacement-map key of a server endpoint: Name + "_" + Port. */
  function EndPointKey(name: string, port: int): string
  {
    name + "_" + IntToDecimal(port)
  }

  /** A key is the server's name, an underscore, then the port in decimal, with a '-'
      right after the underscore exactly when the port is negative. */
  lemma EndPointKeyFormat(name: string, port: int)
    ensures var key := EndPointKey(name, port);
            |key| > |name| + 1 && key[..|name|] == name && key[|name|] == '_' &&
            key[|name| + 1..] == IntToDecimal(port) && (key[|name| + 1] == '-' <==> port < 0)
  {
    var key := EndPointKey(name, port);
    assert key == (name + "_") + IntToDecimal(port);
  }

  lemma {:induction false} NatToDecimalInjective(m: nat, n: nat)
    requires NatToDecimal(m) == NatToDecimal(n)
    ensures m == n
  {
    var s := NatToDecimal(m);
    if m < 10 || n < 10 {
      assert |s| == 1;
      assert DigitChar(m) == s[0] == DigitChar(n);
    } else {
      assert s == NatToDecimal(m / 10) + [DigitChar(m % 10)];
      assert s == NatToDecimal(n / 10) + [DigitChar(n % 10)];
      assert NatToDecimal(m / 10) == s[..|s| - 1] == NatToDecimal(n / 10);
      NatToDecimalInjective(m / 10, n / 10);
      assert DigitChar(m % 10) == s[|s| - 1] == DigitChar(n % 10);
    }
  }

  /** Two endpoints of one server with different ports have different keys, so the
      replacement of one port can never be taken for another's. */
  lemma EndPointKeyInjective(name: string, p: int, q: int)
    requires EndPointKey(name, p) == EndPointKey(name, q)
    ensures p == q
  {
    var s, t := IntToDecimal(p), IntToDecimal(q);
    assert (name + "_") + s == (name + "_") + t;
    assert s == (name + "_" + s)[|name| + 1..] == t;
    if p < 0 {
      assert "-" + NatToDecimal(-p) == "-" + NatToDecimal(-q);
      assert NatToDecimal(-p) == s[1..] == NatToDecimal(-q);
      NatToDecimalInjective(-p, -q);
    } else {
      NatToDecimalInjective(p, q);
    }
  }

  /** The keys of a server's listeners, one per listener: Name + "_" + listener Port. */
  function ListenerKeys(name: string, listeners: seq<ListenerConfig>): (keys: seq<string>)
    ensures |keys| == |listeners|
  {
    seq(|listeners|, j requires 0 <= j < |listeners| => EndPointKey(name, listeners[j].port))
  }

  /** Every key ReplaceListenEndPoint looks up, in lookup order: the server's own
      endpoint when its Port is positive, then one per listener. */
  function LookupKeys(sc: ServerConfig): (keys: seq<string>)
    ensures |keys| == (if sc.port > 0 then 1 else 0) + |sc.listeners|
  {
    (if sc.port > 0 then [EndPointKey(sc.name, sc.port)] else []) + ListenerKeys(sc.name, sc.listeners)
  }

  /** The first key of `keys` that the map lacks, if any. */
  function FirstMissing(keys: seq<string>, replacement: map<string, EndPoint>): (r: Option<nat>)
    ensures r.Some? ==> r.value < |keys|
  {
    if keys == [] then None
    else match FirstMissing(keys[..|keys| - 1], replacement)
      case Some(k) => Some(k)
      case None => if keys[|keys| - 1] in replacement then None else Some(|keys| - 1)
  }

  /** FirstMissing finds nothing exactly when every key is in the map, and otherwise a
      key the map lacks, with every key before it present. */
  lemma {:induction false} FirstMissingMeaning(keys: seq<string>, replacement: map<string, EndPoint>)
    ensures var r := FirstMissing(keys, replacement);
            (r.None? <==> forall i :: 0 <= i < |keys| ==> keys[i] in replacement) &&
            (r.Some? ==> keys[r.value] !in replacement && forall i :: 0 <= i < r.value ==> keys[i] in replacement)
  {
    if keys != [] {
      var init := keys[..|keys| - 1];
      FirstMissingMeaning(init, replacement);
      assert forall i :: 0 <= i < |init| ==> init[i] == keys[i];
    }
  }

  /** A listener moved to a replacement endpoint; its other settings are kept. */
  function Rebind(listener: ListenerConfig, ep: EndPoint): ListenerConfig
  {
    listener.(ip := ep.address, port := ep.port)
  }

  /** `result` is `listeners` with each one rebound to the endpoint of its key. */
  ghost predicate Rebound(listeners: seq<ListenerConfig>, keys: seq<string>, replacement: map<string, EndPoint>,
                          result: seq<ListenerConfig>)
    requires |keys| == |listeners|
  {
    |result| == |listeners| &&
    forall j :: 0 <= j < |result| ==>
      keys[j] in replacement && result[j] == Rebind(listeners[j], replacement[keys[j]])
  }

  /** `c` is `sc` with its endpoints taken from the replacement map: every key looked
      up is in the map; the server's own endpoint replaces Ip and Port when Port is
      positive, and they are kept otherwise; every listener is rebound to the endpoint
      of its own key. Name, server type and startup order are kept. */
  ghost predicate Replaced(sc: ServerConfig, replacement: map<string, EndPoint>, c: ServerConfig)
  {
    var top := EndPointKey(sc.name, sc.port);
    c.name == sc.name && c.serverType == sc.serverType && c.startupOrder == sc.startupOrder &&
    (sc.port > 0 ==> top in replacement && c.ip == replacement[top].address && c.port == replacement[top].port) &&
    (sc.port <= 0 ==> c.ip == sc.ip && c.port == sc.port) &&
    Rebound(sc.listeners, ListenerKeys(sc.name, sc.listeners), replacement, c.listeners)
  }

  /** The listener loop of ReplaceListenEndPoint: every listener rebound to the
      endpoint of its key, or the first key the map lacks. */
  method RebindListeners(name: string, listeners: seq<ListenerConfig>, replacement: map<string, EndPoint>)
    returns (r: Result<seq<ListenerConfig>, ConfigError>)
    ensures var keys := ListenerKeys(name, listeners);
            var miss := FirstMissing(keys, replacement);
            (r.Failure? <==> miss.Some?) &&
            (r.Failure? ==> r.error == MissingEndPoint(keys[miss.value])) &&
            (r.Success? ==> Rebound(listeners, keys, replacement, r.value))
  {
    ghost var keys := ListenerKeys(name, listeners);
    var result := listeners;
    for i := 0 to |listeners|
      invariant |result| == |listeners|
      invariant forall j :: 0 <= j < i ==>
                  keys[j] in replacement && result[j] == Rebind(listeners[j], replacement[keys[j]])
      invariant forall j :: i <= j < |listeners| ==> result[j] == listeners[j]
    {
      var listener := result[i];
      var key := EndPointKey(name, listener.port);
      assert key == keys[i];
      if key !in replacement {
        FirstMissingAt(keys, replacement, i);
        return Failure(MissingEndPoint(key));
      }
      var ep := replacement[key];
      result := result[i := Rebind(listener, ep)];
    }
    FirstMissingMeaning(keys, replacement);
    return Success(result);
  }

  /** ReplaceListenEndPoint: a copy of the server config whose endpoint (when Port is
      positive) and every listener's endpoint are taken from the replacement map.
      The first key the map lacks is reported as the exception. */
  method ReplaceListenEndPoint(serverConfig: ServerConfig, replacement: map<string, EndPoint>)
    returns (r: Result<ServerConfig, ConfigError>)
    ensures var keys := LookupKeys(serverConfig);
            var miss := FirstMissing(keys, replacement);
            (r.Failure? <==> miss.Some?) &&
            (r.Failure? ==> r.error == MissingEndPoint(keys[miss.value]))
    ensures r.Success? ==> Replaced(serverConfig, replacement, r.value)
  {
    ghost var keys := LookupKeys(serverConfig);
    ghost var listenerKeys := ListenerKeys(serverConfig.name, serverConfig.listeners);
    ghost var top: seq<string> := if serverConfig.port > 0 then [EndPointKey(serverConfig.name, serverConfig.port)] else [];
    assert keys == top + listenerKeys;
    var config := serverConfig;

    if serverConfig.port > 0 {
      var key := EndPointKey(serverConfig.name, serverConfig.port);
      if key !in replacement {
        FirstMissingAt(keys, replacement, 0);
        return Failure(MissingEndPoint(key));
      }
      var ep := replacement[key];
      config := config.(ip := ep.address, port := ep.port);
    }
    assert FirstMissing(top, replacement).None?;
    FirstMissingAppend(top, listenerKeys, replacement);

    if |config.listeners| > 0 {
      var listeners := RebindListeners(serverConfig.name, serverConfig.listeners, replacement);
      if listeners.Failure? {
        return Failure(listeners.error);
      }
      config := config.(listeners := listeners.value);
    }
    return Success(config);
  }

  /** The first key missing from a concatenation: the first missing from the front
      part, else the first missing from the back part, shifted past the front. */
  lemma FirstMissingAppend(front: seq<string>, back: seq<string>, replacement: map<string, EndPoint>)
    requires FirstMissing(front, replacement).None?
    ensures FirstMissing(front + back, replacement)
         == match FirstMissing(back, replacement)
              case Some(k) => Some(|front| + k)
              case None => None
  {
    var keys := front + back;
    FirstMissingMeaning(front, replacement);
    FirstMissingMeaning(back, replacement);
    FirstMissingMeaning(keys, replacement);
    match FirstMissing(back, replacement)
    case Some(k) =>
      assert keys[|front| + k] == back[k];
      FirstMissingAt(keys, replacement, |front| + k);
    case None =>
      assert forall i :: |front| <= i < |keys| ==> keys[i] == back[i - |front|];
  }

  /** The map holding the keys before position `p` and lacking the one at `p` makes
      `p` the first missing position. */
  lemma FirstMissingAt(keys: seq<string>, replacement: map<string, EndPoint>, p: nat)
    requires p < |keys| && keys[p] !in replacement
    requires forall i :: 0 <= i < p ==> keys[i] in replacement
    ensures FirstMissing(keys, replacement) == Some(p)
  {
    FirstMissingMeaning(keys, replacement);
  }
}
