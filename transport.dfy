/**
 * The abstract network the redirect followers talk to. A connection is a
 * record of what `NWConnection(host:port:using:)` was given; what the managers
 * do to connections is written to an event log, and the server's side of each
 * hop is a reply taken from a playlist.
 */
module Transport {
  import opened Wrappers
  import opened SwiftText

  /** The parts of a Foundation `URL` the SDK reads; `URL(string:)` itself is a parameter. */
  datatype Url = Url(scheme: Option<string>, host: Option<string>, path: string, query: Option<string>)

  /** `url.scheme!` and `url.host!` both succeed. */
  predicate Openable(url: Url) {
    url.scheme.Some? && url.host.Some?
  }

  datatype InterfaceType = Cellular | Wifi | WiredEthernet | Loopback | Other

  /** TCP options; `None` leaves the framework's default in place. */
  datatype TcpOptions = TcpOptions(connectionTimeout: Option<nat>, enableKeepalive: Option<bool>)

  /** The `NWParameters` of a connection: TLS on or off, TCP options, interface rules. */
  datatype Parameters = Parameters(
    tls: bool,
    tcp: TcpOptions,
    requiredInterfaceType: Option<InterfaceType>,
    prohibitExpensivePaths: bool,
    prohibitedInterfaceTypes: set<InterfaceType>)

  datatype Connection = Connection(id: nat, host: string, port: nat, params: Parameters)

  /** `NWConnection.State`, without the error payloads. */
  datatype ConnectionState = Setup | Waiting | Preparing | Ready | Failed | Cancelled

  /** What a manager does to the network: open, send on, cancel, or call its caller back. */
  datatype Event = Start(conn: Connection) | Send(id: nat, text: string) | Cancel(id: nat) | Complete

  /** The server's side of one hop: whether sending failed, and the data received (nil or not). */
  datatype Reply = Reply(sendError: bool, data: Option<string>)

  /**
   * How a chain of hops ends: a final response was reached, nothing more
   * happens, a force-unwrap or an out-of-range offset traps, or the playlist ran
   * out while a reply was awaited.
   */
  datatype Ending = Finished | Stalled | Crashed | AwaitingReply

  datatype Chain = Chain(events: seq<Event>, ending: Ending)

  /**
   * What one reply leads to: the events after the request was sent, and either
   * the next URL to open or, when there is none, how the chain ends.
   */
  datatype Outcome = Outcome(events: seq<Event>, next: Option<Url>, ending: Ending)

  /** `scheme.starts(with: "https") ? 443 : 80`. */
  function SchemePort(scheme: string): (port: nat)
    ensures port == 443 <==> StartsWith(scheme, "https")
    ensures port == 80 <==> !StartsWith(scheme, "https")
  {
    if StartsWith(scheme, "https") then 443 else 80
  }

  /** The parameters every manager gives its connections: cellular required, Wi-Fi prohibited. */
  function CellularParameters(tls: bool, tcp: TcpOptions): (p: Parameters)
    ensures CellularOnly(p) && p.tls == tls && p.tcp == tcp && !p.prohibitExpensivePaths
  {
    Parameters(tls, tcp, Some(Cellular), false, {Wifi})
  }

  /**
   * The connection both RedirectManager revisions open for `url`: default TCP
   * options, port and TLS from the scheme, cellular only.
   */
  function LinkConnection(url: Url, id: nat): (c: Connection)
    requires Openable(url)
    ensures c.id == id && c.host == url.host.value && c.port == SchemePort(url.scheme.value)
    ensures CellularOnly(c.params) && (c.params.tls <==> c.port == 443)
    ensures c.params.tcp == TcpOptions(None, None)
  {
    var port := SchemePort(url.scheme.value);
    Connection(id, url.host.value, port, CellularParameters(port == 443, TcpOptions(None, None)))
  }

  predicate CellularOnly(p: Parameters) {
    p.requiredInterfaceType == Some(Cellular) && Wifi in p.prohibitedInterfaceTypes
  }

  /** Connections of a log, in the order they were started. */
  predicate IsStartOf(ev: seq<Event>, k: int) {
    0 <= k < |ev| && ev[k].Start?
  }

  /**
   * Whenever a later connection takes the slot, the earlier one was cancelled
   * in between.
   */
  ghost predicate CancelsBeforeReplace(ev: seq<Event>) {
    forall j, k :: IsStartOf(ev, j) && IsStartOf(ev, k) && j < k ==> Cancel(ev[j].conn.id) in ev[j..k]
  }

  /** No connection of the log is ever cancelled. */
  predicate NeverCancels(ev: seq<Event>) {
    forall k :: 0 <= k < |ev| ==> !ev[k].Cancel?
  }

  /** Every connection of the log is opened cellular-only, with TLS exactly on port 443. */
  ghost predicate CellularConnections(ev: seq<Event>) {
    forall k :: IsStartOf(ev, k) ==>
      CellularOnly(ev[k].conn.params) && (ev[k].conn.params.tls <==> ev[k].conn.port == 443)
  }

  function CountComplete(ev: seq<Event>): nat {
    if ev == [] then 0 else (if ev[0] == Complete then 1 else 0) + CountComplete(ev[1..])
  }

  lemma {:induction false} CountCompleteAppend(a: seq<Event>, b: seq<Event>)
    ensures CountComplete(a + b) == CountComplete(a) + CountComplete(b)
    decreases |a|
  {
    if a == [] {
      assert a + b == b;
    } else {
      assert (a + b)[1..] == a[1..] + b;
      CountCompleteAppend(a[1..], b);
    }
  }

  lemma NoCompletes(ev: seq<Event>)
    requires forall i :: 0 <= i < |ev| ==> ev[i] != Complete
    ensures CountComplete(ev) == 0
    decreases |ev|
  {
    if ev != [] {
      NoCompletes(ev[1..]);
    }
  }

  function StartCount(ev: seq<Event>): nat {
    if ev == [] then 0 else (if ev[0].Start? then 1 else 0) + StartCount(ev[1..])
  }

  lemma {:induction false} StartCountAppend(a: seq<Event>, b: seq<Event>)
    ensures StartCount(a + b) == StartCount(a) + StartCount(b)
    decreases |a|
  {
    if a == [] {
      assert a + b == b;
    } else {
      assert (a + b)[1..] == a[1..] + b;
      StartCountAppend(a[1..], b);
    }
  }

  lemma NoStarts(ev: seq<Event>)
    requires forall i :: 0 <= i < |ev| ==> !ev[i].Start?
    ensures StartCount(ev) == 0
    decreases |ev|
  {
    if ev != [] {
      NoStarts(ev[1..]);
    }
  }

  /** Entry `k` of the log is a start, and no start comes after it. */
  predicate IsLastStart(ev: seq<Event>, k: int) {
    IsStartOf(ev, k) && forall j :: k < j < |ev| ==> !ev[j].Start?
  }

  /** The connection of the last start in the log: the one a manager's slot holds after it. */
  function LastStart(ev: seq<Event>): (c: Option<Connection>)
    ensures c.None? <==> forall i :: 0 <= i < |ev| ==> !ev[i].Start?
    ensures c.Some? ==> Start(c.value) in ev
    ensures c.Some? ==> exists k :: IsLastStart(ev, k) && ev[k] == Start(c.value)
    decreases |ev|
  {
    if ev == [] then None
    else
      var n := |ev| - 1;
      if ev[n].Start? then
        assert IsLastStart(ev, n);
        Some(ev[n].conn)
      else
        var front := ev[..n];
        var r := LastStart(front);
        assert forall i :: 0 <= i < |front| ==> front[i] == ev[i];
        assert forall k :: IsLastStart(front, k) ==> IsLastStart(ev, k);
        r
  }

  /** The last start of a concatenation lies in its second part when that part starts anything. */
  lemma {:induction false} LastStartAppend(a: seq<Event>, b: seq<Event>)
    ensures LastStart(a + b) == if LastStart(b).Some? then LastStart(b) else LastStart(a)
    decreases |b|
  {
    if b == [] {
      assert a + b == a;
    } else {
      var n := |b| - 1;
      assert (a + b)[..|a + b| - 1] == a + b[..n];
      if !b[n].Start? {
        LastStartAppend(a, b[..n]);
      }
    }
  }

  /** Proof step: a log extended by a hop and then by the rest of the chain is extended by the whole chain. */
  lemma Concatenated(start: seq<Event>, hop: seq<Event>, rest: seq<Event>, mid: seq<Event>, end: seq<Event>, whole: seq<Event>)
    requires mid == start + hop && end == mid + rest && whole == hop + rest
    ensures end == start + whole
  {
  }

  /**
   * A hop that starts one connection, sends on it, and then only cancels it or
   * calls back: exactly one start, a cellular-only one, and no replacement.
   */
  lemma OneConnectionHop(c: Connection, text: string, tail: seq<Event>)
    requires CellularOnly(c.params) && (c.params.tls <==> c.port == 443)
    requires forall i :: 0 <= i < |tail| ==> tail[i] == Cancel(c.id) || tail[i] == Complete
    ensures var hop := [Start(c), Send(c.id, text)] + tail;
      && (forall i :: 0 < i < |hop| ==> !hop[i].Start?)
      && StartCount(hop) == 1
      && CellularConnections(hop)
      && CancelsBeforeReplace(hop)
      && LastStart(hop) == Some(c)
  {
    var hop := [Start(c), Send(c.id, text)] + tail;
    var after := hop[1..];
    assert hop == [hop[0]] + after;
    NoStarts(after);
    StartCountAppend([hop[0]], after);
    assert forall k :: IsStartOf(hop, k) ==> k == 0;
  }

  /**
   * One hop that opens a single connection and cancels it before handing over
   * keeps the handover discipline of the hops that follow.
   */
  lemma HandoverAppend(hop: seq<Event>, rest: seq<Event>)
    requires hop != [] && hop[0].Start?
    requires forall i :: 0 < i < |hop| ==> !hop[i].Start?
    requires Cancel(hop[0].conn.id) in hop
    requires CancelsBeforeReplace(rest)
    ensures CancelsBeforeReplace(hop + rest)
  {
    var ev := hop + rest;
    forall j, k | IsStartOf(ev, j) && IsStartOf(ev, k) && j < k
      ensures Cancel(ev[j].conn.id) in ev[j..k]
    {
      if j < |hop| <= k {
        assert ev[j] == hop[j] && j == 0;
        assert hop == ev[j..|hop|];
        assert ev[j..k] == hop + ev[|hop|..k];
      } else if |hop| <= j {
        assert IsStartOf(rest, j - |hop|) && IsStartOf(rest, k - |hop|);
        assert ev[j..k] == rest[j - |hop|..k - |hop|];
      }
    }
  }

  /** A hop with only a start among its connection events passes cellular-only starts on. */
  lemma CellularAppend(hop: seq<Event>, rest: seq<Event>)
    requires CellularConnections(hop) && CellularConnections(rest)
    ensures CellularConnections(hop + rest)
  {
    var ev := hop + rest;
    forall k | IsStartOf(ev, k)
      ensures CellularOnly(ev[k].conn.params) && (ev[k].conn.params.tls <==> ev[k].conn.port == 443)
    {
      if k < |hop| {
        assert IsStartOf(hop, k);
      } else {
        assert IsStartOf(rest, k - |hop|);
      }
    }
  }
}
