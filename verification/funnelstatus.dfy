/** Reading the node's funnels back from `tailscale funnel status --json`. */
module FunnelStatus {
  import opened Strings

  /** AllowFunnel holds the "host:port" keys the status allows; the flag beside each is not looked at. */
  datatype Status = Status(
    tcp: map<string, map<string, bool>>, web: map<string, map<string, string>>, allowFunnel: set<string>)

  datatype CurrentFunnel = CurrentFunnel(publicPort: string, path: string, protocol: string, destination: string)

  const NO_FUNNEL := CurrentFunnel("", "", "", "")

  /** What follows the last colon, or "" if there is none. */
  function ExtractPort(value: string): (r: string)
    ensures ':' !in r
  {
    if ':' !in value then ""
    else
      var last := value[|value| - 1];
      if last == ':' then ""
      else
        assert value == value[..|value| - 1] + [last];
        ExtractPort(value[..|value| - 1]) + [last]
  }

  lemma {:induction false} ExtractsAfterColon(host: string, port: string)
    requires ':' !in port
    ensures ExtractPort(host + ":" + port) == port
  {
    var value := host + ":" + port;
    if port == "" {
      assert value[|value| - 1] == ':';
    } else {
      var init := port[..|port| - 1];
      assert value[..|value| - 1] == host + ":" + init;
      assert value[|value| - 1] == port[|port| - 1];
      assert port == init + [port[|port| - 1]];
      assert (host + ":" + init)[|host|] == ':';
      ExtractsAfterColon(host, init);
    }
  }

  function Dashed(c: char): char {
    if c == '_' || c == ' ' then '-' else LowerChar(c)
  }

  /** The protocol a status flag stands for, "" if none. */
  function FlagProtocol(flag: string): string {
    var normalized := seq(|flag|, i requires 0 <= i < |flag| => Dashed(flag[i]));
    if Contains(normalized, "tls") && Contains(normalized, "tcp") then "tls-terminated-tcp"
    else if Contains(normalized, "https") || Contains(normalized, "http") then "https"
    else if Contains(normalized, "tcp") then "tcp"
    else ""
  }

  /** The flag has this word in it, in upper or lower case. */
  ghost predicate HasWord(flag: string, word: string) {
    exists i: nat :: i + |word| <= |flag| && WordAt(flag, word, i)
  }

  ghost predicate WordAt(flag: string, word: string, i: nat)
    requires i + |word| <= |flag|
  {
    forall j | 0 <= j < |word| ::
      flag[i + j] == word[j] || flag[i + j] as int == word[j] as int - 'a' as int + 'A' as int
  }

  ghost predicate Letters(word: string) {
    forall j | 0 <= j < |word| :: 'a' <= word[j] <= 'z'
  }

  lemma ContainsIsWord(flag: string, word: string)
    requires Letters(word)
    ensures Contains(seq(|flag|, i requires 0 <= i < |flag| => Dashed(flag[i])), word) <==> HasWord(flag, word)
  {
    var normalized := seq(|flag|, i requires 0 <= i < |flag| => Dashed(flag[i]));
    forall i: nat | i + |word| <= |flag| ensures OccursAt(normalized, word, i) <==> WordAt(flag, word, i) {
      if OccursAt(normalized, word, i) {
        forall j | 0 <= j < |word|
          ensures flag[i + j] == word[j] || flag[i + j] as int == word[j] as int - 'a' as int + 'A' as int
        {
          assert normalized[i..i + |word|][j] == word[j] == Dashed(flag[i + j]);
        }
      }
      if WordAt(flag, word, i) {
        forall j | 0 <= j < |word| ensures normalized[i..i + |word|][j] == word[j] {
          assert Dashed(flag[i + j]) == word[j];
        }
        assert normalized[i..i + |word|] == word;
      }
    }
  }

  /** Which protocol a flag stands for. */
  lemma FlagMeans(flag: string)
    ensures FlagProtocol(flag) ==
            if HasWord(flag, "tls") && HasWord(flag, "tcp") then "tls-terminated-tcp"
            else if HasWord(flag, "http") then "https"
            else if HasWord(flag, "tcp") then "tcp"
            else ""
  {
    ContainsIsWord(flag, "tls");
    ContainsIsWord(flag, "tcp");
    ContainsIsWord(flag, "http");
    ContainsIsWord(flag, "https");
    hide Contains, WordAt, Dashed;
    if HasWord(flag, "https") {
      HttpsHasHttp(flag);
    }
  }

  lemma HttpsHasHttp(flag: string)
    requires HasWord(flag, "https")
    ensures HasWord(flag, "http")
  {
    var i: nat :| i + 5 <= |flag| && WordAt(flag, "https", i);
    assert forall j | 0 <= j < 4 :: "http"[j] == "https"[j];
    assert WordAt(flag, "http", i);
  }

  predicate Votes(config: map<string, bool>, flag: string, protocol: string) {
    flag in config && config[flag] && FlagProtocol(flag) == protocol != ""
  }

  /** What a port's flags may be taken for: the protocol of any enabled flag that names one, "" if none does. */
  ghost predicate Detects(config: map<string, bool>, protocol: string) {
    if exists f, p :: Votes(config, f, p) then exists f :: Votes(config, f, protocol) else protocol == ""
  }

  method DetectFunnelProtocol(config: map<string, bool>) returns (protocol: string)
    ensures Detects(config, protocol)
  {
    var todo := config.Keys;
    while todo != {}
      invariant todo <= config.Keys
      invariant forall f, p | f in config && f !in todo :: !Votes(config, f, p)
    {
      var flag :| flag in todo;
      todo := todo - {flag};
      if config[flag] {
        protocol := FlagProtocol(flag);
        if protocol != "" {
          assert Votes(config, flag, protocol);
          return;
        }
      }
    }
    protocol := "";
  }

  function NormalizeFunnelPath(path: string): string {
    if path == "" then "/" else path
  }

  predicate IsHttpFunnelProtocol(protocol: string) {
    protocol == "http" || protocol == "https"
  }

  /** HTTP funnels may share a public port on different paths; others own their port. */
  function FunnelKey(publicPort: string, path: string, protocol: string): string {
    if IsHttpFunnelProtocol(protocol) then publicPort + "|" + NormalizeFunnelPath(path) else publicPort
  }

  type Funnels = map<string, CurrentFunnel>

  function Entry(funnels: Funnels, key: string): CurrentFunnel {
    if key in funnels then funnels[key] else NO_FUNNEL
  }

  /** A web handler, by the key it is listed under and its path. */
  datatype Handler = Handler(webKey: string, path: string)

  predicate IsProxied(status: Status, h: Handler) {
    && h.webKey in status.web && ExtractPort(h.webKey) != ""
    && h.path in status.web[h.webKey] && status.web[h.webKey][h.path] != ""
  }

  function Handlers(status: Status): set<Handler> {
    set w, p | w in status.web && p in status.web[w] && IsProxied(status, Handler(w, p)) :: Handler(w, p)
  }

  function HandlerKey(h: Handler): string {
    FunnelKey(ExtractPort(h.webKey), NormalizeFunnelPath(h.path), "https")
  }

  function WebFunnel(status: Status, h: Handler): CurrentFunnel
    requires IsProxied(status, h)
  {
    CurrentFunnel(ExtractPort(h.webKey), NormalizeFunnelPath(h.path), "https", status.web[h.webKey][h.path])
  }

  function PortFlags(status: Status, port: string): map<string, bool> {
    if port in status.tcp then status.tcp[port] else map[]
  }

  /** What a port may be taken for. */
  ghost predicate Detected(status: Status, port: string, protocol: string) {
    Detects(PortFlags(status, port), protocol)
  }

  ghost predicate MayBeHttp(status: Status, port: string) {
    exists q :: Detected(status, port, q) && IsHttpFunnelProtocol(q)
  }

  ghost predicate MayBeTcp(status: Status, port: string) {
    exists q :: Detected(status, port, q) && !IsHttpFunnelProtocol(q)
  }

  function AllowedPorts(hostPorts: set<string>): set<string> {
    set h | h in hostPorts && ExtractPort(h) != "" :: ExtractPort(h)
  }

  function Bare(port: string, protocol: string): CurrentFunnel {
    CurrentFunnel(port, "", protocol, "")
  }

  /** Ports are numbers, so that the keys of mounts cannot be mistaken for ports. */
  ghost predicate PipeFree(status: Status) {
    && (forall port | port in status.tcp :: '|' !in port)
    && (forall h | h in status.allowFunnel :: '|' !in ExtractPort(h))
    && (forall w | w in status.web :: '|' !in ExtractPort(w))
  }

  ghost predicate HasHandler(handlers: set<Handler>, port: string) {
    exists h | h in handlers :: ExtractPort(h.webKey) == port
  }

  /** A bare entry with one of the protocols its port may be taken for. */
  ghost predicate IsBare(status: Status, funnels: Funnels, port: string) {
    port in funnels && exists q :: Detected(status, port, q) && funnels[port] == Bare(port, q)
  }

  // ---- the three passes over the status ----

  ghost predicate Allowed(status: Status, done: set<string>, funnels: Funnels) {
    funnels.Keys == AllowedPorts(done) && forall p | p in funnels :: IsBare(status, funnels, p)
  }

  method AllowPass(status: Status) returns (funnels: Funnels)
    ensures Allowed(status, status.allowFunnel, funnels)
  {
    funnels := map[];
    var todo := status.allowFunnel;
    hide Detected, ExtractPort;
    while todo != {}
      invariant todo <= status.allowFunnel
      invariant Allowed(status, status.allowFunnel - todo, funnels)
    {
      var hostPort :| hostPort in todo;
      ghost var done := status.allowFunnel - todo;
      assert status.allowFunnel - (todo - {hostPort}) == done + {hostPort};
      todo := todo - {hostPort};
      var port := ExtractPort(hostPort);
      assert AllowedPorts(done + {hostPort}) == AllowedPorts(done) + (if port != "" then {port} else {});
      if port != "" {
        var protocol := ProtocolAt(status, port);
        AllowStep(status, funnels, port, protocol);
        funnels := AllowEntry(funnels, port, protocol);
      }
    }
    assert status.allowFunnel - todo == status.allowFunnel;
  }

  /** One allowed host of the first pass. */
  function AllowEntry(funnels: Funnels, port: string, protocol: string): Funnels {
    funnels[port := Entry(funnels, port).(publicPort := port, protocol := protocol)]
  }

  lemma AllowStep(status: Status, funnels: Funnels, port: string, protocol: string)
    requires Detected(status, port, protocol) && forall p | p in funnels :: IsBare(status, funnels, p)
    ensures var next := AllowEntry(funnels, port, protocol);
            next.Keys == funnels.Keys + {port} && forall p | p in next :: IsBare(status, next, p)
  {
    hide Detected;
    var next := AllowEntry(funnels, port, protocol);
    assert next[port] == Bare(port, protocol);
    forall p | p in next ensures IsBare(status, next, p) {
      if p != port {
        assert IsBare(status, funnels, p);
      }
    }
  }

  method ProtocolAt(status: Status, port: string) returns (protocol: string)
    ensures Detected(status, port, protocol)
  {
    hide Detects;
    protocol := DetectFunnelProtocol(PortFlags(status, port));
  }

  /** What the TCP pass holds at a port once the ports in `done` were met. */
  ghost predicate TcpAt(status: Status, done: set<string>, funnels: Funnels, port: string) {
    if port in funnels then
      && IsBare(status, funnels, port)
      && if port in done then MayBeTcp(status, port) else port in AllowedPorts(status.allowFunnel)
    else
      if port in done then MayBeHttp(status, port) else port !in AllowedPorts(status.allowFunnel)
  }

  ghost predicate AfterTcp(status: Status, done: set<string>, funnels: Funnels) {
    forall port :: TcpAt(status, done, funnels, port)
  }

  method TcpPass(status: Status, start: Funnels) returns (funnels: Funnels)
    requires Allowed(status, status.allowFunnel, start)
    ensures AfterTcp(status, status.tcp.Keys, funnels)
  {
    funnels := start;
    var todo := status.tcp.Keys;
    TcpStarts(status, start);
    hide Detected, AfterTcp, Allowed, Detects;
    while todo != {}
      invariant todo <= status.tcp.Keys
      invariant AfterTcp(status, status.tcp.Keys - todo, funnels)
    {
      var port :| port in todo;
      ghost var done := status.tcp.Keys - todo;
      assert status.tcp.Keys - (todo - {port}) == done + {port};
      todo := todo - {port};
      var protocol := ProtocolAt(status, port);
      TcpStep(status, done, funnels, port, protocol);
      funnels := TcpEntry(funnels, port, protocol);
    }
    assert status.tcp.Keys - todo == status.tcp.Keys;
  }

  lemma TcpStarts(status: Status, start: Funnels)
    requires Allowed(status, status.allowFunnel, start)
    ensures AfterTcp(status, status.tcp.Keys - status.tcp.Keys, start)
  {
    hide Detected;
  }

  /** One port of the TCP pass: an HTTP port gives up its bare entry, another takes it over or creates it. */
  function TcpEntry(funnels: Funnels, port: string, protocol: string): Funnels {
    if IsHttpFunnelProtocol(protocol) then funnels - {port}
    else
      var key := FunnelKey(port, "", protocol);
      var current := if port in funnels then funnels[port] else Entry(funnels, key);
      var listedAs := if current.protocol == "" then protocol else current.protocol;
      var named := current.(publicPort := port, protocol := listedAs);
      (if port in funnels then funnels - {port} else funnels)[key := named]
  }

  lemma TcpStep(status: Status, done: set<string>, funnels: Funnels, port: string, protocol: string)
    requires AfterTcp(status, done, funnels) && Detected(status, port, protocol)
    ensures AfterTcp(status, done + {port}, TcpEntry(funnels, port, protocol))
  {
    hide Detected, MayBeHttp, MayBeTcp;
    var next := TcpEntry(funnels, port, protocol);
    assert TcpAt(status, done, funnels, port);
    TcpOwn(status, funnels, port, protocol);
    forall p ensures TcpAt(status, done + {port}, next, p) {
      assert TcpAt(status, done, funnels, p);
    }
  }

  lemma TcpOwn(status: Status, funnels: Funnels, port: string, protocol: string)
    requires Detected(status, port, protocol) && (port in funnels ==> IsBare(status, funnels, port))
    ensures var next := TcpEntry(funnels, port, protocol);
            && (if IsHttpFunnelProtocol(protocol) then port !in next && MayBeHttp(status, port)
                else IsBare(status, next, port) && MayBeTcp(status, port))
            && forall p | p != port :: (p in next <==> p in funnels) && (p in next ==> next[p] == funnels[p])
  {
    hide Detected;
    if !IsHttpFunnelProtocol(protocol) {
      var next := TcpEntry(funnels, port, protocol);
      assert next[port] == Bare(port, next[port].protocol);
    }
  }

  /** One handler of the web pass: it takes over the bare entry of its port, if there is one. */
  function WebEntry(status: Status, funnels: Funnels, h: Handler): Funnels
    requires IsProxied(status, h)
  {
    var port, path := ExtractPort(h.webKey), NormalizeFunnelPath(h.path);
    var key := FunnelKey(port, path, "https");
    var current := if port in funnels then funnels[port] else Entry(funnels, key);
    var protocol := if current.protocol == "" then "https" else current.protocol;
    (if port in funnels then funnels - {port} else funnels)
      [key := CurrentFunnel(port, path, protocol, status.web[h.webKey][h.path])]
  }

  /**
   * The entry of a mount: with the backend of some handler, listed as HTTPS or as what its port was listed as before.
   */
  ghost predicate IsMount(status: Status, start: Funnels, f: CurrentFunnel, h: Handler)
    requires IsProxied(status, h)
  {
    || f == WebFunnel(status, h)
    || (f.publicPort in start && start[f.publicPort].protocol == f.protocol != ""
        && f == WebFunnel(status, h).(protocol := f.protocol))
  }

  /** What the web pass holds at `key` once the handlers in `done` were met. */
  ghost predicate WebAt(status: Status, start: Funnels, done: set<Handler>, funnels: Funnels, key: string) {
    if exists h | h in done :: HandlerKey(h) == key then
      key in funnels &&
      exists h | h in done :: IsProxied(status, h) && HandlerKey(h) == key && IsMount(status, start, funnels[key], h)
    else if HasHandler(done, key) || key !in start then key !in funnels
    else key in funnels && funnels[key] == start[key]
  }

  ghost predicate AfterWeb(status: Status, start: Funnels, done: set<Handler>, funnels: Funnels) {
    forall key :: WebAt(status, start, done, funnels, key)
  }

  ghost predicate PortsOnly(funnels: Funnels) {
    forall p | p in funnels :: '|' !in p
  }

  method WebPass(status: Status, start: Funnels) returns (funnels: Funnels)
    ensures PipeFree(status) && PortsOnly(start) ==> AfterWeb(status, start, Handlers(status), funnels)
  {
    funnels := start;
    ghost var done: set<Handler> := {};
    var todo := status.web.Keys;
    NoHandlerYet(status, start);
    hide AfterWeb, PipeFree, PortsOnly;
    while todo != {}
      invariant todo <= status.web.Keys
      invariant done == set h | h in Handlers(status) && h.webKey !in todo
      invariant PipeFree(status) && PortsOnly(start) ==> AfterWeb(status, start, done, funnels)
    {
      var webKey :| webKey in todo;
      todo := todo - {webKey};
      if ExtractPort(webKey) != "" {
        funnels := WebKeyPass(status, start, webKey, funnels, done);
      }
      ghost var own := set h | h in Handlers(status) && h.webKey == webKey;
      assert ExtractPort(webKey) == "" ==> done + own == done;
      done := done + own;
    }
    assert done == Handlers(status);
  }

  lemma NoHandlerYet(status: Status, start: Funnels)
    ensures AfterWeb(status, start, {}, start)
  {
  }

  method WebKeyPass(status: Status, start: Funnels, webKey: string, before: Funnels, ghost done: set<Handler>)
    returns (funnels: Funnels)
    requires webKey in status.web && ExtractPort(webKey) != "" && done <= Handlers(status)
    requires PipeFree(status) && PortsOnly(start) ==> AfterWeb(status, start, done, before)
    ensures PipeFree(status) && PortsOnly(start) ==>
              AfterWeb(status, start, done + (set h | h in Handlers(status) && h.webKey == webKey), funnels)
  {
    funnels := before;
    var handlers := status.web[webKey];
    var todo := handlers.Keys;
    ghost var met := done;
    hide AfterWeb, PipeFree, PortsOnly, WebEntry, ExtractPort;
    while todo != {}
      invariant todo <= handlers.Keys
      invariant met == done + set h | h in Handlers(status) && h.webKey == webKey && h.path !in todo
      invariant PipeFree(status) && PortsOnly(start) ==> AfterWeb(status, start, met, funnels)
    {
      var path :| path in todo;
      todo := todo - {path};
      var h := Handler(webKey, path);
      if handlers[path] != "" {
        if PipeFree(status) && PortsOnly(start) {
          WebStep(status, start, met, funnels, h);
        }
        funnels := WebEntry(status, funnels, h);
        met := met + {h};
      }
    }
    assert met == done + set h | h in Handlers(status) && h.webKey == webKey;
  }

  lemma HandlerKeySplits(status: Status, g: Handler, h: Handler)
    requires PipeFree(status) && IsProxied(status, g) && IsProxied(status, h) && HandlerKey(g) == HandlerKey(h)
    ensures ExtractPort(g.webKey) == ExtractPort(h.webKey) && NormalizeFunnelPath(g.path) == NormalizeFunnelPath(h.path)
  {
    hide ExtractPort;
    SplitAtPipe(ExtractPort(g.webKey), NormalizeFunnelPath(g.path), ExtractPort(h.webKey), NormalizeFunnelPath(h.path));
  }

  lemma KeysOfMountsHavePipes(h: Handler)
    ensures '|' in HandlerKey(h)
  {
    assert HandlerKey(h)[|ExtractPort(h.webKey)|] == '|';
  }

  /** What a handler finds at its key is a mount of the same port and path. */
  lemma OwnMount(status: Status, start: Funnels, done: set<Handler>, funnels: Funnels, h: Handler)
    requires PipeFree(status) && PortsOnly(start) && IsProxied(status, h) && done <= Handlers(status)
    requires AfterWeb(status, start, done, funnels)
    ensures var next := WebEntry(status, funnels, h);
            HandlerKey(h) in next && IsMount(status, start, next[HandlerKey(h)], h)
  {
    var port, key := ExtractPort(h.webKey), HandlerKey(h);
    hide ExtractPort;
    KeysOfMountsHavePipes(h);
    assert WebAt(status, start, done, funnels, port) && WebAt(status, start, done, funnels, key);
    assert '|' !in port;
    if port in funnels {
      forall g | g in done ensures HandlerKey(g) != port {
        KeysOfMountsHavePipes(g);
      }
    } else if key in funnels {
      var g :| g in done && IsProxied(status, g) && HandlerKey(g) == key && IsMount(status, start, funnels[key], g);
      HandlerKeySplits(status, g, h);
    }
  }

  lemma WebStep(status: Status, start: Funnels, done: set<Handler>, funnels: Funnels, h: Handler)
    requires PipeFree(status) && PortsOnly(start) && IsProxied(status, h) && done <= Handlers(status)
    requires AfterWeb(status, start, done, funnels)
    ensures AfterWeb(status, start, done + {h}, WebEntry(status, funnels, h))
  {
    OwnMount(status, start, done, funnels, h);
    KeysOfMountsHavePipes(h);
    PortOfHandler(status, h);
    var next := WebEntry(status, funnels, h);
    hide ExtractPort, IsMount, PipeFree, AfterWeb, WebAt, HandlerKey;
    forall key ensures WebAt(status, start, done + {h}, next, key) {
      WebStepAt(status, start, done, funnels, h, key);
    }
  }

  lemma PortOfHandler(status: Status, h: Handler)
    requires PipeFree(status) && IsProxied(status, h)
    ensures '|' !in ExtractPort(h.webKey)
  {
  }

  lemma WebStepAt(status: Status, start: Funnels, done: set<Handler>, funnels: Funnels, h: Handler, key: string)
    requires PipeFree(status) && PortsOnly(start) && IsProxied(status, h) && done <= Handlers(status)
    requires AfterWeb(status, start, done, funnels)
    ensures WebAt(status, start, done + {h}, WebEntry(status, funnels, h), key)
  {
    OwnMount(status, start, done, funnels, h);
    KeysOfMountsHavePipes(h);
    PortOfHandler(status, h);
    var next := WebEntry(status, funnels, h);
    assert WebAt(status, start, done, funnels, key);
    hide WebAt, ExtractPort, IsMount, HandlerKey, PipeFree, AfterWeb, PortsOnly, WebEntry;
    WebEntryElsewhere(status, funnels, h);
    if key == HandlerKey(h) {
      MountAt(status, start, done, next, h);
    } else if key == ExtractPort(h.webKey) {
      PortGivenUp(status, start, done, next, h);
    } else {
      ElsewhereAt(status, start, done, funnels, next, h, key);
    }
  }

  lemma WebEntryElsewhere(status: Status, funnels: Funnels, h: Handler)
    requires IsProxied(status, h)
    ensures var next := WebEntry(status, funnels, h);
            && (ExtractPort(h.webKey) != HandlerKey(h) ==> ExtractPort(h.webKey) !in next)
            && forall key | key != HandlerKey(h) && key != ExtractPort(h.webKey) ::
                 (key in next <==> key in funnels) && (key in next ==> next[key] == funnels[key])
  {
    hide ExtractPort, NormalizeFunnelPath;
  }

  lemma MountAt(status: Status, start: Funnels, done: set<Handler>, next: Funnels, h: Handler)
    requires IsProxied(status, h) && HandlerKey(h) in next && IsMount(status, start, next[HandlerKey(h)], h)
    ensures WebAt(status, start, done + {h}, next, HandlerKey(h))
  {
    hide ExtractPort, IsMount, HandlerKey;
    assert h in done + {h};
  }

  lemma PortGivenUp(status: Status, start: Funnels, done: set<Handler>, next: Funnels, h: Handler)
    requires var port := ExtractPort(h.webKey); '|' !in port && port !in next
    ensures WebAt(status, start, done + {h}, next, ExtractPort(h.webKey))
  {
    var port, more := ExtractPort(h.webKey), done + {h};
    forall g | g in more ensures HandlerKey(g) != port {
      KeysOfMountsHavePipes(g);
    }
    hide ExtractPort, IsMount, HandlerKey;
    assert h in more && HasHandler(more, port);
  }

  lemma ElsewhereAt(
    status: Status, start: Funnels, done: set<Handler>, funnels: Funnels, next: Funnels, h: Handler, key: string)
    requires WebAt(status, start, done, funnels, key) && key != HandlerKey(h) && key != ExtractPort(h.webKey)
    requires (key in next <==> key in funnels) && (key in next ==> next[key] == funnels[key])
    ensures WebAt(status, start, done + {h}, next, key)
  {
    hide ExtractPort, IsMount, HandlerKey, IsProxied;
    assert forall g | g in done + {h} :: g in done || g == h;
    assert forall g | g in done :: g in done + {h};
  }

  // ---- the result ----

  /** The port shows up on its own: no handler is mounted on it, and it is taken for TCP or allowed with no flags. */
  ghost predicate MayBeBare(status: Status, port: string) {
    && !HasHandler(Handlers(status), port)
    && if port in status.tcp then MayBeTcp(status, port) else port in AllowedPorts(status.allowFunnel)
  }

  ghost predicate MayBeHidden(status: Status, port: string) {
    || HasHandler(Handlers(status), port)
    || if port in status.tcp then MayBeHttp(status, port) else port !in AllowedPorts(status.allowFunnel)
  }

  ghost predicate IsMountOf(status: Status, f: CurrentFunnel, h: Handler) {
    && IsProxied(status, h)
    && (f.protocol == "https"
        || (ExtractPort(h.webKey) in status.tcp && Detected(status, ExtractPort(h.webKey), f.protocol)))
    && f == WebFunnel(status, h).(protocol := f.protocol)
  }

  ghost predicate ListsAt(status: Status, funnels: Funnels, key: string) {
    if exists h | h in Handlers(status) :: HandlerKey(h) == key then
      key in funnels && exists h | h in Handlers(status) :: HandlerKey(h) == key && IsMountOf(status, funnels[key], h)
    else if key in funnels then MayBeBare(status, key) && IsBare(status, funnels, key)
    else MayBeHidden(status, key)
  }

  /**
   * What any status may be read as: exactly one entry for each key of a proxied handler, with the backend of one of
   * the handlers under it, and a bare entry for each port without a handler that is taken for TCP or only allowed.
   */
  ghost predicate Lists(status: Status, funnels: Funnels) {
    forall key :: ListsAt(status, funnels, key)
  }

  method ParseFunnelStatus(status: Status) returns (funnels: Funnels)
    ensures PipeFree(status) ==> Lists(status, funnels)
  {
    hide AfterWeb, Lists, AfterTcp, Allowed, PipeFree, PortsOnly;
    var allowed := AllowPass(status);
    var tcp := TcpPass(status, allowed);
    funnels := WebPass(status, tcp);
    if PipeFree(status) {
      OnlyPorts(status, tcp);
      ListsAll(status, tcp, funnels);
    }
  }

  lemma OnlyPorts(status: Status, tcp: Funnels)
    requires PipeFree(status) && AfterTcp(status, status.tcp.Keys, tcp)
    ensures PortsOnly(tcp)
  {
    hide ExtractPort, IsBare, MayBeTcp, MayBeHttp;
    forall p | p in tcp ensures '|' !in p {
      assert TcpAt(status, status.tcp.Keys, tcp, p);
    }
  }

  lemma ListsAll(status: Status, tcp: Funnels, funnels: Funnels)
    requires PipeFree(status) && PortsOnly(tcp)
    requires AfterTcp(status, status.tcp.Keys, tcp) && AfterWeb(status, tcp, Handlers(status), funnels)
    ensures Lists(status, funnels)
  {
    hide TcpAt, WebAt, ListsAt;
    forall key ensures ListsAt(status, funnels, key) {
      assert TcpAt(status, status.tcp.Keys, tcp, key) && WebAt(status, tcp, Handlers(status), funnels, key);
      ListsOne(status, tcp, funnels, key);
    }
  }

  lemma ListsOne(status: Status, tcp: Funnels, funnels: Funnels, key: string)
    requires AfterTcp(status, status.tcp.Keys, tcp)
    requires TcpAt(status, status.tcp.Keys, tcp, key) && WebAt(status, tcp, Handlers(status), funnels, key)
    ensures ListsAt(status, funnels, key)
  {
    hide Detected, MayBeTcp, MayBeHttp, AllowedPorts, HandlerKey, ExtractPort;
    if exists h | h in Handlers(status) :: HandlerKey(h) == key {
      var h :| h in Handlers(status) && IsProxied(status, h) && HandlerKey(h) == key
        && IsMount(status, tcp, funnels[key], h);
      MountAfterTcp(status, tcp, funnels[key], h);
    }
  }

  lemma MountAfterTcp(status: Status, tcp: Funnels, f: CurrentFunnel, h: Handler)
    requires AfterTcp(status, status.tcp.Keys, tcp) && IsProxied(status, h) && IsMount(status, tcp, f, h)
    ensures IsMountOf(status, f, h)
  {
    var port := ExtractPort(h.webKey);
    hide ExtractPort, MayBeTcp, MayBeHttp, AllowedPorts;
    assert TcpAt(status, status.tcp.Keys, tcp, port);
    if f != WebFunnel(status, h) {
      var q :| Detected(status, port, q) && tcp[port] == Bare(port, q);
      NoFlagsNoProtocol(status, port, q);
    }
  }

  lemma NoFlagsNoProtocol(status: Status, port: string, protocol: string)
    requires Detected(status, port, protocol) && protocol != ""
    ensures port in status.tcp
  {
  }

  /** A root entry is listed if and only if "/" is mounted. */
  lemma NoPhantomRoot(status: Status, funnels: Funnels, port: string)
    requires PipeFree(status) && Lists(status, funnels) && '|' !in port
    ensures port + "|/" in funnels <==> RootMounted(status, port)
  {
    hide ExtractPort, IsMountOf, IsBare, MayBeTcp, MayBeHttp, HandlerKey;
    var root := port + "|/";
    assert root[|port|] == '|';
    assert ListsAt(status, funnels, root);
    forall h | h in Handlers(status) ensures HandlerKey(h) == root <==> Mounts(h, port) {
      assert IsProxied(status, h);
      RootKey(status, h, port);
    }
    PortsHaveNoPipe(status, root);
  }

  ghost predicate Mounts(h: Handler, port: string) {
    ExtractPort(h.webKey) == port && NormalizeFunnelPath(h.path) == "/"
  }

  ghost predicate RootMounted(status: Status, port: string) {
    exists h | h in Handlers(status) :: Mounts(h, port)
  }

  lemma RootKey(status: Status, h: Handler, port: string)
    requires PipeFree(status) && IsProxied(status, h) && '|' !in port
    ensures HandlerKey(h) == port + "|/" <==> Mounts(h, port)
  {
    PortOfHandler(status, h);
    hide ExtractPort, NormalizeFunnelPath, IsProxied;
    assert HandlerKey(h) == ExtractPort(h.webKey) + "|" + NormalizeFunnelPath(h.path);
    assert port + "|/" == port + "|" + "/";
    if HandlerKey(h) == port + "|/" {
      SplitAtPipe(ExtractPort(h.webKey), NormalizeFunnelPath(h.path), port, "/");
    }
  }

  lemma PortsHaveNoPipe(status: Status, port: string)
    requires PipeFree(status) && '|' in port
    ensures port !in status.tcp && port !in AllowedPorts(status.allowFunnel)
  {
    hide ExtractPort;
  }

  lemma SplitAtPipe(a: string, x: string, b: string, y: string)
    requires '|' !in a && '|' !in b && a + "|" + x == b + "|" + y
    ensures a == b && x == y
  {
    var s, t := a + "|" + x, b + "|" + y;
    assert s[|a|] == '|' && t[|b|] == '|';
    assert forall i | 0 <= i < |a| :: s[i] in a;
    assert forall i | 0 <= i < |b| :: t[i] in b;
    assert |a| == |b|;
    assert a == s[..|a|] && b == t[..|b|] && x == s[|a| + 1..] && y == t[|b| + 1..];
  }

  // ---- statuses without conflicting claims ----

  /** All enabled flags that stand for a protocol stand for the same one. */
  ghost predicate Unambiguous(config: map<string, bool>) {
    forall p, q | Detects(config, p) && Detects(config, q) :: p == q
  }

  /** One protocol per TCP port, web handlers only on ports that are not plain TCP, no two handlers under one key. */
  ghost predicate Plain(status: Status) {
    && PipeFree(status)
    && (forall port | port in status.tcp :: Unambiguous(status.tcp[port]))
    && (forall h | IsProxied(status, h) && ExtractPort(h.webKey) in status.tcp ::
        !MayBeTcp(status, ExtractPort(h.webKey)))
    && (forall g, h | IsProxied(status, g) && IsProxied(status, h) && HandlerKey(g) == HandlerKey(h) :: g == h)
  }

  /** Such a status has one reading, whatever order its maps are walked in. */
  lemma PlainReadsOneWay(status: Status, a: Funnels, b: Funnels)
    requires Plain(status) && Lists(status, a) && Lists(status, b)
    ensures a == b
  {
    hide Plain, ListsAt;
    forall key ensures (key in a <==> key in b) && (key in a ==> a[key] == b[key]) {
      assert ListsAt(status, a, key) && ListsAt(status, b, key);
      PlainReadsAt(status, a, b, key);
    }
  }

  lemma PlainReadsAt(status: Status, a: Funnels, b: Funnels, key: string)
    requires Plain(status) && ListsAt(status, a, key) && ListsAt(status, b, key)
    ensures (key in a <==> key in b) && (key in a ==> a[key] == b[key])
  {
    hide HandlerKey, ExtractPort, AllowedPorts, Detects;
    if exists h | h in Handlers(status) :: HandlerKey(h) == key {
      var g :| g in Handlers(status) && HandlerKey(g) == key && IsMountOf(status, a[key], g);
      var h :| h in Handlers(status) && HandlerKey(h) == key && IsMountOf(status, b[key], h);
      PlainMountIsHttps(status, a[key], g);
      PlainMountIsHttps(status, b[key], h);
    } else {
      BareIsFixed(status, a, b, key);
      hide IsBare;
      KindIsFixed(status, key);
    }
  }

  lemma PlainMountIsHttps(status: Status, f: CurrentFunnel, h: Handler)
    requires Plain(status) && IsMountOf(status, f, h)
    ensures f == WebFunnel(status, h)
  {
    hide HandlerKey, ExtractPort, Detected;
    var port := ExtractPort(h.webKey);
    if f.protocol != "https" {
      assert Detected(status, port, f.protocol) && !MayBeTcp(status, port);
      assert IsHttpFunnelProtocol(f.protocol);
      HttpIsHttps(status, port, f.protocol);
    }
  }

  lemma HttpIsHttps(status: Status, port: string, protocol: string)
    requires Detected(status, port, protocol)
    ensures protocol != "http"
  {
  }

  lemma FlagsAreFixed(status: Status, port: string, p: string, q: string)
    requires Plain(status) && Detected(status, port, p) && Detected(status, port, q)
    ensures p == q
  {
    hide HandlerKey, ExtractPort;
  }

  lemma KindIsFixed(status: Status, port: string)
    requires Plain(status)
    ensures !(MayBeTcp(status, port) && MayBeHttp(status, port))
  {
    hide Plain, Detected;
    if MayBeTcp(status, port) {
      var p :| Detected(status, port, p) && !IsHttpFunnelProtocol(p);
      forall q | Detected(status, port, q) ensures !IsHttpFunnelProtocol(q) {
        FlagsAreFixed(status, port, p, q);
      }
    }
  }

  lemma BareIsFixed(status: Status, a: Funnels, b: Funnels, port: string)
    requires Plain(status)
    ensures IsBare(status, a, port) && IsBare(status, b, port) ==> a[port] == b[port]
  {
    hide Plain, Detected;
    if IsBare(status, a, port) && IsBare(status, b, port) {
      var p :| Detected(status, port, p) && a[port] == Bare(port, p);
      var q :| Detected(status, port, q) && b[port] == Bare(port, q);
      FlagsAreFixed(status, port, p, q);
    }
  }
}
