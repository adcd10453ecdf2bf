/** The ruler (cmd/thanos/rule.go): it evaluates alerting and recording rules against
    query peers found through gossip and DNS, and pushes firing alerts to Alertmanagers.
    Modelled here: the assembly of the query-peer list and the choice of the peer to
    ask, the duplicate-address counter, `--label` parsing, the Alertmanager address set,
    the conversion of rule alerts into notifications, the decoding of scalar query
    results, and the collection of rule files from glob patterns. */
module Rule {
  import opened Wrappers
  import opened Collections
  import opened Text
  import opened Cluster
  import opened Flags

  // ---------------------------------------------------------------------------
  // Duplicate query addresses
  // ---------------------------------------------------------------------------

  /** `removeDuplicateQueryAddrs`: the distinct addresses, in the unspecified order of a
      Go map, and how often the duplicate counter was incremented. */
  method RemoveDuplicateQueryAddrs(addrs: seq<string>) returns (deduplicated: seq<string>, duplicates: nat)
    ensures ToSet(deduplicated) == ToSet(addrs)
    ensures NoDuplicates(deduplicated)
    ensures duplicates == RepeatCount(addrs)
    ensures duplicates == |addrs| - |deduplicated|
  {
    var seen: set<string> := {};
    duplicates := 0;
    for i := 0 to |addrs|
      invariant seen == ToSet(addrs[..i])
      invariant duplicates == RepeatCount(addrs[..i])
    {
      assert addrs[..i + 1] == addrs[..i] + [addrs[i]];
      ToSetSnoc(addrs[..i], addrs[i]);
      if addrs[i] in seen {
        duplicates := duplicates + 1;
      }
      seen := seen + {addrs[i]};
    }
    assert addrs[..|addrs|] == addrs;
    deduplicated := SetToSeq(seen);
    RepeatCountIsExcess(addrs);
    DistinctCount(deduplicated);
  }

  // ---------------------------------------------------------------------------
  // --label flags
  // ---------------------------------------------------------------------------

  datatype LabelError =
    | UnrecognizedLabel(entry: string)      // no `=` in the entry
    | UnquoteLabelValue(quoted: string)     // the text after `=` is not a Go string literal

  /** The label one `<name>="<value>"` entry stands for. `unquote` is `strconv.Unquote`. */
  function EntryLabel(entry: string, unquote: string -> Option<string>): (r: Result<Label, LabelError>) {
    match SplitFirst(entry, '=')
    case None => Err(UnrecognizedLabel(entry))
    case Some((name, quoted)) =>
      match unquote(quoted)
      case None => Err(UnquoteLabelValue(quoted))
      case Some(value) => Ok(Label(name, value))
  }

  /** `parseFlagLabels`: one label per entry in input order, or the error of the first
      entry that is not `<name>=<quoted value>`. */
  method ParseFlagLabels(entries: seq<string>, unquote: string -> Option<string>)
    returns (r: Result<seq<Label>, LabelError>)
    ensures r.Ok? <==> forall i :: 0 <= i < |entries| ==> EntryLabel(entries[i], unquote).Ok?
    ensures r.Ok? ==> |r.value| == |entries|
    ensures r.Ok? ==> forall i :: 0 <= i < |entries| ==> EntryLabel(entries[i], unquote) == Ok(r.value[i])
    ensures r.Err? ==> exists i :: 0 <= i < |entries| && EntryLabel(entries[i], unquote) == Err(r.error)
                                   && forall j :: 0 <= j < i ==> EntryLabel(entries[j], unquote).Ok?
  {
    var lset: seq<Label> := [];
    for i := 0 to |entries|
      invariant |lset| == i
      invariant forall j :: 0 <= j < i ==> EntryLabel(entries[j], unquote) == Ok(lset[j])
    {
      var parts := SplitFirst(entries[i], '=');
      if parts.None? {
        return Err(UnrecognizedLabel(entries[i]));
      }
      var (name, quoted) := parts.value;
      var val := unquote(quoted);
      if val.None? {
        return Err(UnquoteLabelValue(quoted));
      }
      lset := lset + [Label(name, val.value)];
    }
    return Ok(lset);
  }

  /** An entry without `=` is refused as an unrecognized label. */
  lemma EntryWithoutEqualsRefused(entry: string, unquote: string -> Option<string>)
    requires '=' !in entry
    ensures EntryLabel(entry, unquote) == Err(UnrecognizedLabel(entry))
  {
  }

  /** The name is everything before the first `=`; the rest, unquoted, is the value,
      even when it contains further `=` characters. */
  lemma EntryNameBeforeFirstEquals(name: string, quoted: string, unquote: string -> Option<string>)
    requires '=' !in name
    ensures unquote(quoted).None? ==> EntryLabel(name + "=" + quoted, unquote) == Err(UnquoteLabelValue(quoted))
    ensures unquote(quoted).Some? ==> EntryLabel(name + "=" + quoted, unquote) == Ok(Label(name, unquote(quoted).value))
  {
    SplitFirstUnique(name, '=', quoted);
  }

  // ---------------------------------------------------------------------------
  // Alertmanager addresses
  // ---------------------------------------------------------------------------

  /** The parts of a `url.URL` that `update` copies. */
  datatype URL = URL(scheme: string, host: string, path: string, user: string)

  /** What `update` asks of the outside world: `url.Parse`, whether `net.SplitHostPort`
      accepts a host (that is, the host names a port), and the DNS resolver, which maps a
      host and a lookup type to the addresses it found. */
  datatype Net = Net(
    parseURL: string -> Option<URL>,
    hasPort: string -> bool,
    resolve: (string, string) -> Option<seq<string>>)

  datatype UpdateError =
    | ParseURLError(name: string)     // "parse URL %q"
    | ResolveError(host: string)      // "alertmanager resolve"

  /** `dns.A`, the lookup type written `dns+` in front of an address. */
  const DnsA := "dns"
  /** `defaultAlertmanagerPort`, 9093, as `strconv.Itoa` prints it. */
  const DefaultAlertmanagerPort := "9093"

  /** `strings.SplitN(addr, "+", 2)` as `update` uses it: the lookup type before the
      first `+` and the name after it, or no lookup type and the whole address. */
  function SplitQType(addr: string): (r: (string, string))
    ensures '+' in addr ==> addr == r.0 + "+" + r.1 && '+' !in r.0
    ensures '+' !in addr ==> r == ("", addr)
  {
    match SplitFirst(addr, '+')
    case None => ("", addr)
    case Some((qtype, name)) => (qtype, name)
  }

  /** The host handed to the resolver: an A lookup of a host without a port gets the
      default Alertmanager port. */
  function LookupHost(qtype: string, host: string, net: Net): (r: string) {
    if qtype == DnsA && !net.hasPort(host) then host + ":" + DefaultAlertmanagerPort else host
  }

  /** One URL per resolved host, each keeping the scheme, path and user of `u`. */
  function WithHosts(u: URL, hosts: seq<string>): (r: seq<URL>) {
    if |hosts| == 0 then []
    else WithHosts(u, hosts[..|hosts| - 1]) + [URL(u.scheme, hosts[|hosts| - 1], u.path, u.user)]
  }

  /** The URLs one configured address contributes to the set, or the error that makes
      `update` give up. */
  function ResolveAddr(addr: string, net: Net): (r: Result<seq<URL>, UpdateError>) {
    var qtype, name := SplitQType(addr).0, SplitQType(addr).1;
    match net.parseURL(name)
    case None => Err(ParseURLError(name))
    case Some(u) =>
      if qtype == "" then Ok(WithHosts(u, [u.host]))
      else
        var host := LookupHost(qtype, u.host, net);
        match net.resolve(host, qtype)
        case None => Err(ResolveError(host))
        case Some(hosts) => Ok(WithHosts(u, hosts))
  }

  /** The resolver `update` applies to each configured address. */
  function AddressResolver(net: Net): (r: string -> Result<seq<URL>, UpdateError>) {
    addr => ResolveAddr(addr, net)
  }

  /** The new value of `current` after resolving every address in order with
      `resolve`, or the first error met. */
  function ResolveAll(addrs: seq<string>, resolve: string -> Result<seq<URL>, UpdateError>): (r: Result<seq<URL>, UpdateError>) {
    if |addrs| == 0 then Ok([])
    else
      match ResolveAll(addrs[..|addrs| - 1], resolve)
      case Err(e) => Err(e)
      case Ok(prefix) =>
        match resolve(addrs[|addrs| - 1])
        case Err(e) => Err(e)
        case Ok(urls) => Ok(prefix + urls)
  }

  lemma {:induction false} WithHostsAt(u: URL, hosts: seq<string>)
    ensures |WithHosts(u, hosts)| == |hosts|
    ensures forall k :: 0 <= k < |hosts| ==>
      WithHosts(u, hosts)[k] == URL(u.scheme, hosts[k], u.path, u.user)
  {
    if |hosts| > 0 {
      WithHostsAt(u, hosts[..|hosts| - 1]);
    }
  }

  /** An address without `+` is used literally: one URL, the parsed one, no lookup. */
  lemma LiteralAddressNotResolved(addr: string, net: Net)
    requires '+' !in addr
    ensures net.parseURL(addr).None? ==> ResolveAddr(addr, net) == Err(ParseURLError(addr))
    ensures net.parseURL(addr).Some? ==> ResolveAddr(addr, net) == Ok([net.parseURL(addr).value])
  {
    assert SplitQType(addr) == ("", addr);
    if net.parseURL(addr).Some? {
      var u := net.parseURL(addr).value;
      WithHostsAt(u, [u.host]);
      assert WithHosts(u, [u.host]) == [u];
      assert SplitQType(addr).1 == addr;
      assert ResolveAddr(addr, net) == Ok(WithHosts(u, [u.host]));
    }
  }

  /** `dns+<url>` whose host names no port is looked up with `:9093` appended; any other
      lookup type is asked about the host exactly as written. Only the first `+` splits,
      so the name may itself contain `+`. */
  lemma LookupUsesDefaultPort(qtype: string, name: string, net: Net)
    requires '+' !in qtype && qtype != ""
    requires net.parseURL(name).Some?
    ensures var u := net.parseURL(name).value;
      var host := if qtype == "dns" && !net.hasPort(u.host) then u.host + ":9093" else u.host;
      ResolveAddr(qtype + "+" + name, net) ==
        (match net.resolve(host, qtype)
         case None => Err(ResolveError(host))
         case Some(hosts) => Ok(WithHosts(u, hosts)))
  {
    SplitFirstUnique(qtype, '+', name);
    assert SplitQType(qtype + "+" + name) == (qtype, name);
    assert ":" + DefaultAlertmanagerPort == ":9093";
    var u := net.parseURL(name).value;
    assert LookupHost(qtype, u.host, net)
        == if qtype == "dns" && !net.hasPort(u.host) then u.host + ":9093" else u.host;
  }

  /** `update` is all or nothing: it succeeds exactly when every address resolves, and
      otherwise reports the error of the first address that does not. */
  lemma {:induction false} ResolveAllAllOrNothing(addrs: seq<string>, resolve: string -> Result<seq<URL>, UpdateError>)
    ensures ResolveAll(addrs, resolve).Ok? <==> forall i :: 0 <= i < |addrs| ==> resolve(addrs[i]).Ok?
    ensures ResolveAll(addrs, resolve).Err? ==>
      exists i :: 0 <= i < |addrs| && resolve(addrs[i]) == Err(ResolveAll(addrs, resolve).error)
                  && forall j :: 0 <= j < i ==> resolve(addrs[j]).Ok?
  {
    if |addrs| > 0 {
      var p := addrs[..|addrs| - 1];
      ResolveAllAllOrNothing(p, resolve);
      assert forall i :: 0 <= i < |p| ==> p[i] == addrs[i];
    }
  }

  /** The URLs come out in the order of the configured addresses. */
  lemma {:induction false} ResolveAllInOrder(a: seq<string>, b: seq<string>, resolve: string -> Result<seq<URL>, UpdateError>)
    requires ResolveAll(a, resolve).Ok? && ResolveAll(b, resolve).Ok?
    ensures ResolveAll(a + b, resolve) == Ok(ResolveAll(a, resolve).value + ResolveAll(b, resolve).value)
  {
    if |b| > 0 {
      var p, last := b[..|b| - 1], b[|b| - 1];
      assert b == p + [last];
      ResolveAllSnoc(p, last, resolve);
      var prefix, urls := ResolveAll(a, resolve).value, resolve(last).value;
      ResolveAllInOrder(a, p, resolve);
      assert a + b == (a + p) + [last];
      ResolveAllSnoc(a + p, last, resolve);
      assert prefix + ResolveAll(p, resolve).value + urls == prefix + (ResolveAll(p, resolve).value + urls);
    } else {
      assert a + b == a;
      assert ResolveAll(a, resolve).value + [] == ResolveAll(a, resolve).value;
    }
  }

  /** Resolving one more address. */
  lemma ResolveAllSnoc(addrs: seq<string>, addr: string, resolve: string -> Result<seq<URL>, UpdateError>)
    ensures ResolveAll(addrs + [addr], resolve) ==
      match ResolveAll(addrs, resolve)
      case Err(e) => Err(e)
      case Ok(prefix) =>
        match resolve(addr)
        case Err(e) => Err(e)
        case Ok(urls) => Ok(prefix + urls)
  {
    assert (addrs + [addr])[..|addrs|] == addrs;
  }

  /** `url` has the scheme, path and user of the URL configured as `addr`. */
  predicate FromAddress(url: URL, addr: string, net: Net) {
    var u := net.parseURL(SplitQType(addr).1);
    u.Some? && url.scheme == u.value.scheme && url.path == u.value.path && url.user == u.value.user
  }

  /** Every URL in the set keeps the scheme, path and user of the configured address it
      came from; only the host is replaced by a resolved one. */
  lemma {:induction false} ResolvedUrlsKeepSchemePathUser(addrs: seq<string>, net: Net)
    requires ResolveAll(addrs, AddressResolver(net)).Ok?
    ensures forall url :: url in ResolveAll(addrs, AddressResolver(net)).value ==>
      exists i :: 0 <= i < |addrs| && FromAddress(url, addrs[i], net)
  {
    if |addrs| > 0 {
      var p, last := addrs[..|addrs| - 1], addrs[|addrs| - 1];
      ResolvedUrlsKeepSchemePathUser(p, net);
      var (qtype, name) := SplitQType(last);
      var u := net.parseURL(name).value;
      var urls := AddressResolver(net)(last).value;
      var hosts := if qtype == "" then [u.host] else net.resolve(LookupHost(qtype, u.host, net), qtype).value;
      assert urls == WithHosts(u, hosts);
      WithHostsAt(u, hosts);
      forall url | url in ResolveAll(addrs, AddressResolver(net)).value
        ensures exists i :: 0 <= i < |addrs| && FromAddress(url, addrs[i], net)
      {
        if url in ResolveAll(p, AddressResolver(net)).value {
          var i :| 0 <= i < |p| && FromAddress(url, p[i], net);
          assert p[i] == addrs[i];
        } else {
          assert url in urls;
          assert FromAddress(url, addrs[|addrs| - 1], net);
        }
      }
    }
  }

  /** The Alertmanager URLs the sender pushes to (`alertmanagerSet`). The mutex guarding
      `current` is left out: `update` replaces the whole slice at once. */
  class AlertmanagerSet {
    const addrs: seq<string>
    var current: seq<URL>

    /** `newAlertmanagerSet`: the configured addresses, nothing resolved yet. */
    constructor (addrs: seq<string>)
      ensures this.addrs == addrs && current == []
    {
      this.addrs := addrs;
      current := [];
    }

    /** `get`: the URLs of the last successful update. */
    method Get() returns (urls: seq<URL>)
      ensures urls == current
    {
      urls := current;
    }

    /** `update`: resolve every configured address; on the first failure report it and
        keep the previous URLs, otherwise replace them all. */
    method Update(net: Net) returns (err: Option<UpdateError>)
      modifies this
      ensures ResolveAll(addrs, AddressResolver(net)).Err? ==>
        err == Some(ResolveAll(addrs, AddressResolver(net)).error) && current == old(current)
      ensures ResolveAll(addrs, AddressResolver(net)).Ok? ==>
        err == None && current == ResolveAll(addrs, AddressResolver(net)).value
    {
      var result: seq<URL> := [];
      for i := 0 to |addrs|
        invariant ResolveAll(addrs[..i], AddressResolver(net)) == Ok(result)
        invariant current == old(current)
      {
        assert addrs[..i + 1][..i] == addrs[..i];
        var urls := ResolveAddress(addrs[i], net);
        assert addrs[..i + 1][i] == addrs[i];
        if urls.Err? {
          assert ResolveAll(addrs[..i + 1], AddressResolver(net)) == Err(urls.error);
          ResolveAllPrefixErr(addrs, i + 1, AddressResolver(net));
          return Some(urls.error);
        }
        result := result + urls.value;
      }
      assert addrs[..|addrs|] == addrs;
      current := result;
      err := None;
    }
  }

  /** The body of the loop in `update`: parse one configured address, resolve its host
      unless it is literal, and build one URL per resolved host. */
  method ResolveAddress(addr: string, net: Net) returns (r: Result<seq<URL>, UpdateError>)
    ensures r == ResolveAddr(addr, net)
  {
    var (qtype, name) := SplitQType(addr);
    var parsed := net.parseURL(name);
    if parsed.None? {
      return Err(ParseURLError(name));
    }
    var u := parsed.value;
    var resolvedDomain: seq<string>;
    var host := u.host;
    if qtype != "" {
      if qtype == DnsA {
        if !net.hasPort(host) {
          host := host + ":" + DefaultAlertmanagerPort;
        }
      }
      var resolved := net.resolve(host, qtype);
      if resolved.None? {
        return Err(ResolveError(host));
      }
      resolvedDomain := resolved.value;
    } else {
      resolvedDomain := [host];
    }
    var urls: seq<URL> := [];
    for j := 0 to |resolvedDomain|
      invariant urls == WithHosts(u, resolvedDomain[..j])
    {
      assert resolvedDomain[..j + 1][..j] == resolvedDomain[..j];
      urls := urls + [URL(u.scheme, resolvedDomain[j], u.path, u.user)];
    }
    assert resolvedDomain[..|resolvedDomain|] == resolvedDomain;
    return Ok(urls);
  }

  /** Once a prefix of the addresses fails, the whole update fails with that error. */
  lemma {:induction false} ResolveAllPrefixErr(addrs: seq<string>, n: nat, resolve: string -> Result<seq<URL>, UpdateError>)
    requires n <= |addrs| && ResolveAll(addrs[..n], resolve).Err?
    ensures ResolveAll(addrs, resolve) == ResolveAll(addrs[..n], resolve)
  {
    if n < |addrs| {
      assert addrs[..|addrs| - 1][..n] == addrs[..n];
      ResolveAllPrefixErr(addrs[..|addrs| - 1], n, resolve);
    } else {
      assert addrs[..n] == addrs;
    }
  }

  // ---------------------------------------------------------------------------
  // Notifications
  // ---------------------------------------------------------------------------

  datatype AlertState = StateInactive | StatePending | StateFiring

  /** `rules.Alert` as the rule manager hands it over. Times are instants; `ZeroTime`
      is Go's zero `time.Time`. */
  datatype RuleAlert = RuleAlert(
    state: AlertState, labels: seq<Label>, annotations: seq<Label>, firedAt: int, resolvedAt: int)

  /** `alert.Alert` as queued for the Alertmanagers. */
  datatype Alert = Alert(
    labels: seq<Label>, annotations: seq<Label>, startsAt: int, endsAt: Option<int>, generatorURL: string)

  const ZeroTime := 0

  /** The alerts that leave the ruler: every one not pending, in order. */
  function Sendable(alerts: seq<RuleAlert>): (r: seq<RuleAlert>) {
    if |alerts| == 0 then []
    else
      var last := alerts[|alerts| - 1];
      Sendable(alerts[..|alerts| - 1]) + (if last.state == StatePending then [] else [last])
  }

  /** `p` is the notification for rule alert `a`: same labels and annotations, starting
      when `a` fired, ending when it was resolved if it was, linking to the query UI. */
  predicate Announces(p: Alert, a: RuleAlert, generatorURL: string) {
    && p.labels == a.labels
    && p.annotations == a.annotations
    && p.startsAt == a.firedAt
    && (p.endsAt.Some? <==> a.resolvedAt != ZeroTime)
    && (p.endsAt.Some? ==> p.endsAt.value == a.resolvedAt)
    && p.generatorURL == generatorURL
  }

  /** The `notify` callback: the batch it pushes to the alert queue. `queryURL` is the
      printed `--alert.query-url` and `exprLink` the table link for the rule expression
      (`strutil.TableLinkForExpression`). */
  method Notify(alerts: seq<RuleAlert>, queryURL: string, exprLink: string) returns (pushed: seq<Alert>)
    ensures |pushed| == |Sendable(alerts)|
    ensures forall i :: 0 <= i < |pushed| ==> Announces(pushed[i], Sendable(alerts)[i], queryURL + exprLink)
  {
    pushed := [];
    for i := 0 to |alerts|
      invariant |pushed| == |Sendable(alerts[..i])|
      invariant forall k :: 0 <= k < |pushed| ==> Announces(pushed[k], Sendable(alerts[..i])[k], queryURL + exprLink)
    {
      assert alerts[..i + 1][..i] == alerts[..i];
      var alrt := alerts[i];
      if alrt.state == StatePending {
        continue;
      }
      var a := Alert(alrt.labels, alrt.annotations, alrt.firedAt, None, queryURL + exprLink);
      if alrt.resolvedAt != ZeroTime {
        a := a.(endsAt := Some(alrt.resolvedAt));
      }
      pushed := pushed + [a];
    }
    assert alerts[..|alerts|] == alerts;
  }

  /** Pending alerts never reach the queue, every other alert does, and the order of
      the rule manager is kept. */
  lemma {:induction false} SendableIsNonPending(alerts: seq<RuleAlert>)
    ensures forall a :: a in Sendable(alerts) ==> a.state != StatePending
    ensures forall i :: 0 <= i < |alerts| && alerts[i].state != StatePending ==> alerts[i] in Sendable(alerts)
  {
    if |alerts| > 0 {
      var p := alerts[..|alerts| - 1];
      SendableIsNonPending(p);
      assert forall i :: 0 <= i < |p| ==> p[i] == alerts[i];
    }
  }

  lemma {:induction false} SendableInOrder(a: seq<RuleAlert>, b: seq<RuleAlert>)
    ensures Sendable(a + b) == Sendable(a) + Sendable(b)
  {
    if |b| > 0 {
      var p := b[..|b| - 1];
      assert (a + b)[..|a + b| - 1] == a + p;
      assert (a + b)[|a + b| - 1] == b[|b| - 1];
      SendableInOrder(a, p);
    } else {
      assert a + b == a;
    }
  }

  // ---------------------------------------------------------------------------
  // Scalar query results
  // ---------------------------------------------------------------------------

  /** One sample of an instant vector. Values are kept as reals; the float64 rounding of
      the source is not modelled. */
  datatype Sample = Sample(metric: seq<Label>, timestamp: int, value: real)

  /** `json.Unmarshal` into a slice of raw messages, into a `model.Time` and into a
      `model.SampleValue`. */
  datatype Json = Json(
    elements: string -> Option<seq<string>>,
    time: string -> Option<int>,
    value: string -> Option<real>)

  datatype DecodeError =
    | NotAnArray                          // the result is not a JSON array
    | InvalidScalarFormat(elements: nat)  // "expected timestamp -> value tuple"
    | BadScalarTime
    | BadScalarValue

  /** `convertScalarJSONToVector`: a scalar result is a `[timestamp, value]` pair and
      becomes one sample with no labels. */
  function ConvertScalarJSONToVector(raw: string, json: Json): (r: Result<seq<Sample>, DecodeError>)
    ensures json.elements(raw).None? ==> r == Err(NotAnArray)
    ensures json.elements(raw).Some? && |json.elements(raw).value| != 2 ==>
      r == Err(InvalidScalarFormat(|json.elements(raw).value|))
    ensures r.Ok? <==>
      json.elements(raw).Some? && |json.elements(raw).value| == 2
      && json.time(json.elements(raw).value[0]).Some? && json.value(json.elements(raw).value[1]).Some?
    ensures r.Ok? ==>
      && |r.value| == 1
      && r.value[0].metric == []
      && json.time(json.elements(raw).value[0]) == Some(r.value[0].timestamp)
      && json.value(json.elements(raw).value[1]) == Some(r.value[0].value)
  {
    match json.elements(raw)
    case None => Err(NotAnArray)
    case Some(points) =>
      if |points| != 2 then Err(InvalidScalarFormat(|points|))
      else
        match json.time(points[0])
        case None => Err(BadScalarTime)
        case Some(t) =>
          match json.value(points[1])
          case None => Err(BadScalarValue)
          case Some(v) => Ok([Sample([], t, v)])
  }

  // ---------------------------------------------------------------------------
  // Query peers
  // ---------------------------------------------------------------------------

  datatype QueryError = NoQueryPeerReachable | QueryFailed(reason: string)

  /** The query addresses gossip advertises, peer by peer in the order of `ids`. */
  function GossipQueryAddrs(ids: seq<string>, peers: map<string, PeerState>): (r: seq<string>)
    requires forall id :: id in ids ==> id in peers
  {
    if |ids| == 0 then []
    else GossipQueryAddrs(ids[..|ids| - 1], peers) + [peers[ids[|ids| - 1]].queryAPIAddr]
  }

  lemma {:induction false} GossipQueryAddrsAt(ids: seq<string>, peers: map<string, PeerState>)
    requires forall id :: id in ids ==> id in peers
    ensures |GossipQueryAddrs(ids, peers)| == |ids|
    ensures forall i :: 0 <= i < |ids| ==> GossipQueryAddrs(ids, peers)[i] == peers[ids[i]].queryAPIAddr
  {
    if |ids| > 0 {
      GossipQueryAddrsAt(ids[..|ids| - 1], peers);
    }
  }

  /** The address list `queryFn` builds: the peers' query addresses ordered by peer id,
      then the addresses the DNS provider resolved, in its order. */
  method QueryPeerAddrs(peers: map<string, PeerState>, dnsAddrs: seq<string>)
    returns (ids: seq<string>, addrs: seq<string>)
    ensures StrictlyAscending(ids) && ToSet(ids) == peers.Keys
    ensures |ids| == |peers| && |addrs| == |peers| + |dnsAddrs|
    ensures forall i :: 0 <= i < |ids| ==> addrs[i] == peers[ids[i]].queryAPIAddr
    ensures addrs[|ids|..] == dnsAddrs
    ensures addrs == GossipQueryAddrs(ids, peers) + dnsAddrs
  {
    var keys := SetToSeq(peers.Keys);
    ids := SortStrings(keys);
    SortDistinct(keys);
    DistinctCount(keys);
    var gossip := CollectQueryAddrs(ids, peers);
    GossipQueryAddrsAt(ids, peers);
    addrs := gossip + dnsAddrs;
  }

  /** The loop of `queryFn` over the sorted peer ids. */
  method CollectQueryAddrs(ids: seq<string>, peers: map<string, PeerState>) returns (gossip: seq<string>)
    requires forall id :: id in ids ==> id in peers
    ensures gossip == GossipQueryAddrs(ids, peers)
  {
    gossip := [];
    for i := 0 to |ids|
      invariant gossip == GossipQueryAddrs(ids[..i], peers)
    {
      assert ids[..i + 1][..i] == ids[..i];
      gossip := gossip + [peers[ids[i]].queryAPIAddr];
    }
    assert ids[..|ids|] == ids;
  }

  /** `rand.Perm(n)`: every index below `n` exactly once. */
  predicate IsPermutation(perm: seq<nat>, n: nat) {
    && |perm| == n
    && (forall k :: 0 <= k < n ==> perm[k] < n)
    && NoDuplicates(perm)
  }

  /** What `queryFn` answers: the first peer of the permutation decides, success or
      failure; with no peer at all the query fails. */
  function FirstPeerOutcome(addrs: seq<string>, perm: seq<nat>, instant: string -> Result<seq<Sample>, QueryError>)
    : (r: Result<seq<Sample>, QueryError>)
    requires IsPermutation(perm, |addrs|)
  {
    if |addrs| == 0 then Err(NoQueryPeerReachable) else instant(addrs[perm[0]])
  }

  /** `queryFn` as written: assemble the address list, count its duplicates (and then
      ignore the deduplicated list), and ask the peer the permutation puts first.
      `instant` is `queryPrometheusInstant` against one address. */
  method QueryFn(peers: map<string, PeerState>, dnsAddrs: seq<string>, perm: seq<nat>,
                 instant: string -> Result<seq<Sample>, QueryError>)
    returns (r: Result<seq<Sample>, QueryError>, ids: seq<string>, addrs: seq<string>,
             contacted: seq<string>, duplicates: nat)
    requires IsPermutation(perm, |peers| + |dnsAddrs|)
    ensures StrictlyAscending(ids) && ToSet(ids) == peers.Keys
    ensures |addrs| == |peers| + |dnsAddrs| && addrs == GossipQueryAddrs(ids, peers) + dnsAddrs
    ensures duplicates == RepeatCount(addrs)
    ensures contacted == if |addrs| == 0 then [] else [addrs[perm[0]]]
    ensures r == FirstPeerOutcome(addrs, perm, instant)
  {
    ids, addrs := QueryPeerAddrs(peers, dnsAddrs);
    var _, dups := RemoveDuplicateQueryAddrs(addrs);
    duplicates := dups;
    contacted := [];
    for k := 0 to |perm|
      invariant k == 0
    {
      var a := addrs[perm[k]];
      contacted := [a];
      var res := instant(a);
      if res.Err? {
        return Err(res.error), ids, addrs, contacted, duplicates;
      }
      return Ok(res.value), ids, addrs, contacted, duplicates;
    }
    r := Err(NoQueryPeerReachable);
  }

  /** A peer that is down decides the query although a later peer would have answered. */
  lemma QueryFnGivesUpAfterFirstPeer()
    ensures var instant := (a: string) =>
              if a == "down:9090" then Err(QueryFailed("connection refused")) else Ok([]);
            && FirstPeerOutcome(["down:9090", "up:9090"], [0, 1], instant) == Err(QueryFailed("connection refused"))
            && FirstSuccess(["down:9090", "up:9090"], [0, 1], instant) == Ok([])
  {
  }

  /** The same address advertised by gossip and by DNS is queried twice as often. */
  lemma QueriedAddrsKeepDuplicates()
    ensures var peers := map["peer-a" := PeerState("10.0.0.1:9090", "", PeerMetadata([], 0, 0))];
            var addrs := GossipQueryAddrs(["peer-a"], peers) + ["10.0.0.1:9090"];
            addrs == ["10.0.0.1:9090", "10.0.0.1:9090"] && !NoDuplicates(addrs) && RepeatCount(addrs) == 1
  {
    var peers := map["peer-a" := PeerState("10.0.0.1:9090", "", PeerMetadata([], 0, 0))];
    var addrs := GossipQueryAddrs(["peer-a"], peers) + ["10.0.0.1:9090"];
    assert ["peer-a"][..0] == [];
    assert addrs == ["10.0.0.1:9090", "10.0.0.1:9090"];
    assert addrs[0] == addrs[1];
    var x := "10.0.0.1:9090";
    assert [x][..0] == [] && x !in [x][..0];
    assert RepeatCount([x]) == 0;
    assert addrs[..1] == [x] && x in addrs[..1];
  }

  /** The query-peer list with the deduplicated addresses actually used. */
  method DedupedQueryPeerAddrs(peers: map<string, PeerState>, dnsAddrs: seq<string>)
    returns (addrs: seq<string>, duplicates: nat)
    ensures NoDuplicates(addrs)
    ensures ToSet(addrs) == (set id | id in peers :: peers[id].queryAPIAddr) + ToSet(dnsAddrs)
    ensures duplicates == |peers| + |dnsAddrs| - |addrs|
  {
    var ids, all := QueryPeerAddrs(peers, dnsAddrs);
    addrs, duplicates := RemoveDuplicateQueryAddrs(all);
    AssembledAddrsSet(ids, peers, dnsAddrs);
  }

  /** Whatever order gossip peers come in, the assembled list holds every advertised
      query address and every DNS address. */
  lemma AssembledAddrsSet(ids: seq<string>, peers: map<string, PeerState>, dnsAddrs: seq<string>)
    requires ToSet(ids) == peers.Keys
    ensures ToSet(GossipQueryAddrs(ids, peers) + dnsAddrs)
            == (set id | id in peers :: peers[id].queryAPIAddr) + ToSet(dnsAddrs)
  {
    var g := GossipQueryAddrs(ids, peers);
    GossipQueryAddrsAt(ids, peers);
    forall a ensures a in g <==> a in (set id | id in peers :: peers[id].queryAPIAddr) {
      if a in (set id | id in peers :: peers[id].queryAPIAddr) {
        var id :| id in peers && peers[id].queryAPIAddr == a;
        assert id in ToSet(ids);
        var i :| 0 <= i < |ids| && ids[i] == id;
        assert g[i] == a;
      }
      if a in g {
        var i :| 0 <= i < |g| && g[i] == a;
        assert ids[i] in ToSet(ids);
      }
    }
    assert forall a :: a in g + dnsAddrs <==> a in g || a in dnsAddrs;
  }

  /** The first answer along `order` that is not an error; "no query peer reachable"
      when every peer fails. */
  function FirstSuccess(addrs: seq<string>, order: seq<nat>, instant: string -> Result<seq<Sample>, QueryError>)
    : (r: Result<seq<Sample>, QueryError>)
    requires forall k :: 0 <= k < |order| ==> order[k] < |addrs|
  {
    if |order| == 0 then Err(NoQueryPeerReachable)
    else
      var res := instant(addrs[order[0]]);
      if res.Ok? then res else FirstSuccess(addrs, order[1..], instant)
  }

  /** Peers are tried in the permuted order until one answers: the query succeeds
      exactly when some peer does, and otherwise fails with "no query peer reachable". */
  lemma {:induction false} FirstSuccessFindsAnyAnswer(addrs: seq<string>, order: seq<nat>,
                                                      instant: string -> Result<seq<Sample>, QueryError>)
    requires forall k :: 0 <= k < |order| ==> order[k] < |addrs|
    ensures FirstSuccess(addrs, order, instant).Ok? <==>
      exists k :: 0 <= k < |order| && instant(addrs[order[k]]).Ok?
    ensures FirstSuccess(addrs, order, instant).Err? ==> FirstSuccess(addrs, order, instant) == Err(NoQueryPeerReachable)
  {
    if |order| > 0 {
      FirstSuccessFindsAnyAnswer(addrs, order[1..], instant);
      if instant(addrs[order[0]]).Err? {
        forall k | 1 <= k < |order| ensures order[k] == order[1..][k - 1] {}
      }
    }
  }

  lemma SubsetCard<T>(a: set<T>, b: set<T>)
    requires a <= b
    ensures |a| <= |b|
  {
    if a != {} {
      var x :| x in a;
      SubsetCard(a - {x}, b - {x});
    }
  }

  /** The indices below `n`. */
  function Below(n: nat): (r: set<nat>)
    ensures |r| == n
    ensures forall k: nat :: k in r <==> k < n
  {
    if n == 0 then {} else Below(n - 1) + {n - 1}
  }

  /** A permutation of the indices visits every index. */
  lemma PermutationCovers(perm: seq<nat>, n: nat, j: nat)
    requires IsPermutation(perm, n) && j < n
    ensures j in perm
  {
    if j !in perm {
      DistinctCount(perm);
      assert ToSet(perm) <= Below(n) - {j};
      SubsetCard(ToSet(perm), Below(n) - {j});
    }
  }

  /** `queryFn` with the evident intent: ask peers in the random order until one answers. */
  method QueryPeersInOrder(addrs: seq<string>, perm: seq<nat>, instant: string -> Result<seq<Sample>, QueryError>)
    returns (r: Result<seq<Sample>, QueryError>, contacted: seq<string>)
    requires IsPermutation(perm, |addrs|)
    ensures r == FirstSuccess(addrs, perm, instant)
    ensures r.Ok? <==> exists j :: 0 <= j < |addrs| && instant(addrs[j]).Ok?
    ensures r.Err? ==> r == Err(NoQueryPeerReachable) && |contacted| == |addrs|
    ensures |contacted| <= |addrs| && forall k :: 0 <= k < |contacted| ==> contacted[k] == addrs[perm[k]]
    ensures r.Ok? ==> |contacted| > 0 && instant(contacted[|contacted| - 1]) == r
    ensures forall k :: 0 <= k < |contacted| - 1 ==> instant(contacted[k]).Err?
    ensures NoDuplicates(addrs) ==> NoDuplicates(contacted)
  {
    contacted := [];
    var k := 0;
    while k < |perm|
      invariant 0 <= k <= |perm|
      invariant |contacted| == k
      invariant forall m :: 0 <= m < k ==> contacted[m] == addrs[perm[m]] && instant(contacted[m]).Err?
      invariant FirstSuccess(addrs, perm, instant) == FirstSuccess(addrs, perm[k..], instant)
    {
      var a := addrs[perm[k]];
      contacted := contacted + [a];
      var res := instant(a);
      if res.Ok? {
        r := res;
        break;
      }
      assert perm[k..][1..] == perm[k + 1..];
      k := k + 1;
    }
    if k == |perm| {
      r := Err(NoQueryPeerReachable);
    }
    FirstSuccessFindsAnyAnswer(addrs, perm, instant);
    SomePeerAnswers(addrs, perm, instant);
    ContactedDistinct(addrs, perm, contacted);
  }

  /** Along a permutation, the query succeeds exactly when some peer answers. */
  lemma SomePeerAnswers(addrs: seq<string>, perm: seq<nat>, instant: string -> Result<seq<Sample>, QueryError>)
    requires IsPermutation(perm, |addrs|)
    ensures (exists k :: 0 <= k < |perm| && instant(addrs[perm[k]]).Ok?) <==>
            (exists j :: 0 <= j < |addrs| && instant(addrs[j]).Ok?)
  {
    if exists j :: 0 <= j < |addrs| && instant(addrs[j]).Ok? {
      var j :| 0 <= j < |addrs| && instant(addrs[j]).Ok?;
      PermutationCovers(perm, |addrs|, j);
      var k :| 0 <= k < |perm| && perm[k] == j;
      assert instant(addrs[perm[k]]).Ok?;
    }
  }

  /** A permutation never asks the same address twice when the addresses are distinct. */
  lemma ContactedDistinct(addrs: seq<string>, perm: seq<nat>, contacted: seq<string>)
    requires IsPermutation(perm, |addrs|) && |contacted| <= |perm|
    requires forall k :: 0 <= k < |contacted| ==> contacted[k] == addrs[perm[k]]
    ensures NoDuplicates(addrs) ==> NoDuplicates(contacted)
  {
    forall m1, m2 | 0 <= m1 < m2 < |contacted| && NoDuplicates(addrs) ensures contacted[m1] != contacted[m2] {
      assert perm[m1] != perm[m2];
    }
  }

  // ---------------------------------------------------------------------------
  // Rule files
  // ---------------------------------------------------------------------------

  /** The files the reload hands to the rule manager: the matches of every pattern in
      order; a pattern `filepath.Glob` rejects is skipped. */
  function GlobAll(patterns: seq<string>, glob: string -> Option<seq<string>>): (r: seq<string>) {
    if |patterns| == 0 then []
    else
      var matches := glob(patterns[|patterns| - 1]);
      GlobAll(patterns[..|patterns| - 1], glob) + (if matches.Some? then matches.value else [])
  }

  /** The glob loop of the reload task. */
  method CollectRuleFiles(patterns: seq<string>, glob: string -> Option<seq<string>>) returns (files: seq<string>)
    ensures files == GlobAll(patterns, glob)
  {
    files := [];
    for i := 0 to |patterns|
      invariant files == GlobAll(patterns[..i], glob)
    {
      assert patterns[..i + 1][..i] == patterns[..i];
      var fs := glob(patterns[i]);
      if fs.None? {
        continue;
      }
      files := files + fs.value;
    }
    assert patterns[..|patterns|] == patterns;
  }

  /** A file is loaded exactly when some valid pattern matches it; bad patterns add
      nothing and do not stop the others. */
  lemma {:induction false} RuleFilesFromValidPatterns(patterns: seq<string>, glob: string -> Option<seq<string>>, f: string)
    ensures f in GlobAll(patterns, glob) <==>
      exists i :: 0 <= i < |patterns| && glob(patterns[i]).Some? && f in glob(patterns[i]).value
  {
    if |patterns| > 0 {
      var p := patterns[..|patterns| - 1];
      RuleFilesFromValidPatterns(p, glob, f);
      assert forall i :: 0 <= i < |p| ==> p[i] == patterns[i];
      if f in GlobAll(patterns, glob) && f !in GlobAll(p, glob) {
        assert glob(patterns[|patterns| - 1]).Some? && f in glob(patterns[|patterns| - 1]).value;
      }
    }
  }

  /** The `--query` check at start-up: the first address given twice stops the ruler. */
  method CheckQueryFlags(queries: seq<string>) returns (err: Option<FlagError>)
    ensures err.None? <==> NoDuplicates(queries)
    ensures err.Some? ==> err.value.flag == "--query"
    ensures err.Some? ==>
      exists j :: 0 <= j < |queries| && queries[j] == err.value.addr
                  && err.value.addr in queries[..j] && NoDuplicates(queries[..j])
  {
    var dup := FindDuplicateFlag(queries);
    if dup.Some? {
      return Some(DuplicatedAddress(dup.value, "--query"));
    }
    return None;
  }
}
