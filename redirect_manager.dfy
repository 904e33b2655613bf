/**
 * RedirectManager (Sources/TruSDK): opens a check link over a cellular-only
 * connection with default TCP options, follows `302` redirects, and calls its
 * caller back once the chain ends.
 */
module RedirectFollower {
  import opened Wrappers
  import opened SwiftText
  import opened Transport
  import opened HttpRequest
  import opened HttpResponse

  // ---------------------------------------------------------------------------
  // Specification functions

  /**
   * `parseRedirect(response:)`: only when the three Characters at offsets
   * 9 ..< 12 read exactly "302", the value of the first `ocation: <v>\r\n` line.
   */
  function ParseRedirect302(response: string): (link: Option<string>)
    requires 12 <= |Characters(response)|
    ensures link.Some? ==>
      StatusText(response) == "302" && exists i: nat :: IsFirstMatch(response, LocationPattern, i, link.value)
    ensures link.None? ==>
      StatusText(response) != "302" || forall i: nat, v :: !IsMatchAt(response, LocationPattern, i, v)
  {
    if StatusText(response) == "302" then
      var r := MatchedSlice(response, LocationPattern, 9);
      if r.Some? then
        var m := FirstMatch(response, LocationPattern, 0).value;
        assert LocationPattern[9..] == "";
        assert r.value == m.value;
        assert IsFirstMatch(response, LocationPattern, m.start, m.value);
        r
      else r
    else None
  }

  /** What the receive callback makes of one reply. */
  datatype LinkVerdict = FollowLink(link: string) | Final | Trap

  /**
   * The receive callback: nil data completes with nil; otherwise the status
   * offsets need 12 Characters, and a 302 with a Location line is followed.
   */
  function ReceiveLink(data: Option<string>): (v: LinkVerdict)
    ensures data.None? ==> v == Final
    ensures v == Trap <==> data.Some? && |Characters(data.value)| < 12
    ensures v.FollowLink? ==> data.Some? && 12 <= |Characters(data.value)| && ParseRedirect302(data.value) == Some(v.link)
    ensures data.Some? && 12 <= |Characters(data.value)| ==>
      match ParseRedirect302(data.value)
      case Some(link) => v == FollowLink(link)
      case None => v == Final
  {
    match data
    case None => Final
    case Some(text) =>
      if |Characters(text)| < 12 then Trap
      else
        match ParseRedirect302(text)
        case None => Final
        case Some(link) => FollowLink(link)
  }

  /**
   * The callbacks of one hop on connection `id`. A failed send is only logged.
   * A final reply cancels and calls the caller back; a redirect cancels and
   * opens the link, which traps when `URL(string:)` rejects it or it has no
   * scheme or host.
   */
  function LinkOutcome(reply: Reply, id: nat, parseUrl: string -> Option<Url>): (o: Outcome)
    ensures forall i :: 0 <= i < |o.events| ==> o.events[i] == Cancel(id) || o.events[i] == Complete
    ensures o.next.Some? ==> Openable(o.next.value) && o.events == [Cancel(id)]
    ensures var v := ReceiveLink(reply.data);
      && (o.next.Some? <==> v.FollowLink? && parseUrl(v.link).Some? && Openable(parseUrl(v.link).value))
      && (o.next.Some? ==> o.next == parseUrl(v.link) && o.ending == AwaitingReply)
      && (v.FollowLink? ==> o.events == [Cancel(id)])
      && (v == Final <==> o.ending == Finished)
      && (v == Final ==> o.events == [Cancel(id), Complete])
      && (v == Trap ==> o.events == [])
      && (o.ending == Crashed <==> v == Trap || (v.FollowLink? && o.next.None?))
  {
    match ReceiveLink(reply.data)
    case Trap => Outcome([], None, Crashed)
    case Final => Outcome([Cancel(id), Complete], None, Finished)
    case FollowLink(link) =>
      match parseUrl(link)
      case None => Outcome([Cancel(id)], None, Crashed)
      case Some(url) =>
        if Openable(url) then Outcome([Cancel(id)], Some(url), AwaitingReply)
        else Outcome([Cancel(id)], None, Crashed)
  }

  /** A hop calls the completion once if it ends the chain by finishing, else never. */
  lemma LinkOutcomeCompletes(reply: Reply, id: nat, parseUrl: string -> Option<Url>)
    ensures var o := LinkOutcome(reply, id, parseUrl);
      CountComplete(o.events) == if o.next.None? && o.ending == Finished then 1 else 0
  {
    var o := LinkOutcome(reply, id, parseUrl);
    match ReceiveLink(reply.data)
    case Trap =>
    case Final =>
      assert o.events == [Cancel(id), Complete];
      assert CountComplete([Complete]) == 1 + CountComplete([]);
      assert o.events[1..] == [Complete];
    case FollowLink(link) =>
      assert o.events == [Cancel(id)];
      assert o.events[1..] == [];
  }

  /**
   * The events of `openCheckUrl(link:completion:)` against a playlist of
   * replies, one reply per hop, the first connection numbered `id`.
   */
  function FollowChain(url: Url, replies: seq<Reply>, id: nat, parseUrl: string -> Option<Url>): (c: Chain)
    requires Openable(url)
    ensures |c.events| >= 2 && c.events[..2] == LinkOpening(url, id)
    decreases |replies|
  {
    if replies == [] then Chain(LinkOpening(url, id), AwaitingReply)
    else
      var o := LinkOutcome(replies[0], id, parseUrl);
      if o.next.None? then Chain(LinkOpening(url, id) + o.events, o.ending)
      else
        var rest := FollowChain(o.next.value, replies[1..], id + 1, parseUrl);
        Chain(LinkOpening(url, id) + o.events + rest.events, rest.ending)
  }

  /** A hop that leads nowhere ends the chain. */
  lemma FollowChainStops(url: Url, replies: seq<Reply>, id: nat, parseUrl: string -> Option<Url>)
    requires Openable(url) && replies != [] && LinkOutcome(replies[0], id, parseUrl).next.None?
    ensures var o := LinkOutcome(replies[0], id, parseUrl);
      FollowChain(url, replies, id, parseUrl) == Chain(LinkOpening(url, id) + o.events, o.ending)
  {
  }

  /** A hop that leads on is followed by the chain from the next URL. */
  lemma FollowChainContinues(url: Url, replies: seq<Reply>, id: nat, nextId: nat, parseUrl: string -> Option<Url>)
    requires Openable(url) && replies != [] && nextId == id + 1
    requires LinkOutcome(replies[0], id, parseUrl).next.Some?
    ensures var o := LinkOutcome(replies[0], id, parseUrl);
      var rest := FollowChain(o.next.value, replies[1..], nextId, parseUrl);
      FollowChain(url, replies, id, parseUrl) == Chain(LinkOpening(url, id) + o.events + rest.events, rest.ending)
  {
    var o := LinkOutcome(replies[0], id, parseUrl);
    var rest := FollowChain(o.next.value, replies[1..], id + 1, parseUrl);
    assert FollowChain(url, replies, id, parseUrl) == Chain(LinkOpening(url, id) + o.events + rest.events, rest.ending);
  }

  // ---------------------------------------------------------------------------
  // Properties of the chain

  /** Each hop cancels its connection before the next `startConnection` replaces it. */
  lemma {:induction false} FollowChainCancelsBeforeReplace(url: Url, replies: seq<Reply>, id: nat, parseUrl: string -> Option<Url>)
    requires Openable(url)
    ensures CancelsBeforeReplace(FollowChain(url, replies, id, parseUrl).events)
    decreases |replies|
  {
    var ev := FollowChain(url, replies, id, parseUrl).events;
    if replies == [] {
      OneConnectionHop(LinkConnection(url, id), Message(LinkRequestHead(url)), []);
      assert ev == LinkOpening(url, id) + [];
    } else {
      var o := LinkOutcome(replies[0], id, parseUrl);
      var hop := LinkOpening(url, id) + o.events;
      OneConnectionHop(LinkConnection(url, id), Message(LinkRequestHead(url)), o.events);
      if o.next.Some? {
        var rest := FollowChain(o.next.value, replies[1..], id + 1, parseUrl);
        assert hop[|hop| - 1] == Cancel(hop[0].conn.id);
        FollowChainCancelsBeforeReplace(o.next.value, replies[1..], id + 1, parseUrl);
        HandoverAppend(hop, rest.events);
      }
    }
  }

  /** Every connection of the chain is cellular-only, with TLS exactly on port 443. */
  lemma {:induction false} FollowChainCellular(url: Url, replies: seq<Reply>, id: nat, parseUrl: string -> Option<Url>)
    requires Openable(url)
    ensures CellularConnections(FollowChain(url, replies, id, parseUrl).events)
    decreases |replies|
  {
    var ev := FollowChain(url, replies, id, parseUrl).events;
    if replies == [] {
      OneConnectionHop(LinkConnection(url, id), Message(LinkRequestHead(url)), []);
      assert ev == LinkOpening(url, id) + [];
    } else {
      var o := LinkOutcome(replies[0], id, parseUrl);
      var hop := LinkOpening(url, id) + o.events;
      OneConnectionHop(LinkConnection(url, id), Message(LinkRequestHead(url)), o.events);
      if o.next.Some? {
        var rest := FollowChain(o.next.value, replies[1..], id + 1, parseUrl);
        FollowChainCellular(o.next.value, replies[1..], id + 1, parseUrl);
        CellularAppend(hop, rest.events);
      }
    }
  }

  /** Send errors are only logged, so the caller's completion runs once exactly when the chain finishes. */
  lemma {:induction false} FollowChainCompletesOnce(url: Url, replies: seq<Reply>, id: nat, parseUrl: string -> Option<Url>)
    requires Openable(url)
    ensures var c := FollowChain(url, replies, id, parseUrl);
      CountComplete(c.events) == if c.ending == Finished then 1 else 0
    decreases |replies|
  {
    var begun := LinkOpening(url, id);
    NoCompletes(begun);
    if replies != [] {
      var o := LinkOutcome(replies[0], id, parseUrl);
      LinkOutcomeCompletes(replies[0], id, parseUrl);
      CountCompleteAppend(begun, o.events);
      if o.next.Some? {
        var rest := FollowChain(o.next.value, replies[1..], id + 1, parseUrl);
        FollowChainCompletesOnce(o.next.value, replies[1..], id + 1, parseUrl);
        CountCompleteAppend(begun + o.events, rest.events);
      }
    }
  }

  /**
   * Only "302" is followed: a 301, 303, 307 or 308 with a Location line ends
   * this chain, where CellularConnectionManager would follow it.
   */
  lemma OtherRedirectsNotFollowed(response: string, head: string, initial: char, v: string, tail: string)
    requires response == head + [initial] + LocationPattern + v + "\r\n" + tail
    requires initial == 'L' || initial == 'l'
    requires NoLineTerminator(v)
    requires forall j: nat :: j < |head| ==> !OccursAt(response, LocationPattern, j)
    requires 12 <= |response| && NoCR(response[..12])
    requires response[9..12] in {"301", "303", "307", "308"}
    ensures 12 <= |Characters(response)|
    ensures ParseRedirect302(response) == None
    ensures ParseRedirect(response) == Some(v)
  {
    StatusTextOfPlainLine(response);
    var t := response[9..12];
    assert t[0] == '3' && t[1] == '0' && (t[2] == '1' || t[2] == '3' || t[2] == '7' || t[2] == '8');
    assert AllDigits(t);
    StatusCodeOfDigits(response);
    LocationLineEitherCase(response, head, initial, v, tail);
  }

  /**
   * A 302 with a `Location:` or `location:` line is followed to the URL its
   * value parses to: the hop cancels its connection and the next one is opened
   * for that URL.
   */
  lemma RedirectReplyFollowed(url: Url, replies: seq<Reply>, id: nat,
                              parseUrl: string -> Option<Url>, response: string,
                              head: string, initial: char, v: string, tail: string)
    requires Openable(url) && replies != [] && replies[0].data == Some(response)
    requires response == head + [initial] + LocationPattern + v + "\r\n" + tail
    requires initial == 'L' || initial == 'l'
    requires NoLineTerminator(v)
    requires forall j: nat :: j < |head| ==> !OccursAt(response, LocationPattern, j)
    requires 12 <= |Characters(response)| && StatusText(response) == "302"
    requires parseUrl(v).Some? && Openable(parseUrl(v).value)
    ensures var target := parseUrl(v).value;
      var hop := LinkOpening(url, id) + [Cancel(id)];
      var c := FollowChain(url, replies, id, parseUrl);
      && c.events == hop + FollowChain(target, replies[1..], id + 1, parseUrl).events
      && c.events[|hop|] == Start(LinkConnection(target, id + 1))
  {
    var target := parseUrl(v).value;
    LocationLineEitherCase(response, head, initial, v, tail);
    assert ReceiveLink(replies[0].data) == FollowLink(v);
    FollowChainContinues(url, replies, id, id + 1, parseUrl);
    var rest := FollowChain(target, replies[1..], id + 1, parseUrl);
    var hop := LinkOpening(url, id) + [Cancel(id)];
    assert (hop + rest.events)[|hop|] == rest.events[0];
  }

  // ---------------------------------------------------------------------------
  // The manager

  class RedirectManager {
    var connection: Option<Connection>
    var nextId: nat
    /** What was done to the network, in order. */
    var log: seq<Event>

    constructor()
      ensures connection == None && nextId == 0 && log == []
    {
      connection := None;
      nextId := 0;
      log := [];
    }

    /** Opens a fresh connection for `url` in the slot; the previous one is simply overwritten. */
    method StartConnection(url: Url)
      requires Openable(url)
      modifies this
      ensures connection == Some(LinkConnection(url, old(nextId)))
      ensures nextId == old(nextId) + 1 && log == old(log) + [Start(connection.value)]
    {
      var tls := false;
      var port := 80;
      if StartsWith(url.scheme.value, "https") {
        port := 443;
        tls := true;
      }
      var conn := Connection(nextId, url.host.value, port, CellularParameters(tls, TcpOptions(None, None)));
      connection := Some(conn);
      nextId := nextId + 1;
      log := log + [Start(conn)];
    }

    /** The state handler: the four listed states do nothing, any other cancels the connection. */
    method HandleState(state: ConnectionState) returns (cancelled: bool)
      modifies this`log
      ensures cancelled <==> (state == Waiting || state == Failed) && connection.Some?
      ensures log == old(log) + (if cancelled then [Cancel(connection.value.id)] else [])
    {
      match state
      case Ready => cancelled := false;
      case Setup => cancelled := false;
      case Cancelled => cancelled := false;
      case Preparing => cancelled := false;
      case _ =>
        cancelled := connection.Some?;
        if cancelled {
          log := log + [Cancel(connection.value.id)];
        }
    }

    /** `startConnection(url:)`, then the request sent on the new connection. */
    method OpenAndSend(url: Url)
      requires Openable(url)
      modifies this
      ensures nextId == old(nextId) + 1 && connection == Some(LinkConnection(url, old(nextId)))
      ensures log == old(log) + LinkOpening(url, old(nextId))
    {
      StartConnection(url);
      var str := BuildLinkCommand(url);
      log := log + [Send(connection.value.id, str)];
    }

    /**
     * The receive callback of one hop on the current connection, and the
     * completion it calls: cancel, then follow the link or call the caller back.
     */
    method HandleReply(reply: Reply, parseUrl: string -> Option<Url>) returns (next: Option<Url>, ending: Ending)
      requires connection.Some?
      modifies this`log
      ensures var o := LinkOutcome(reply, connection.value.id, parseUrl);
        log == old(log) + o.events && next == o.next && ending == o.ending
    {
      next := None;
      match ReceiveLink(reply.data)
      case Trap =>
        ending := Crashed;
      case Final =>
        log := log + [Cancel(connection.value.id), Complete];
        ending := Finished;
      case FollowLink(link) =>
        log := log + [Cancel(connection.value.id)];
        var url := parseUrl(link);
        if url.Some? && Openable(url.value) {
          next := url;
          ending := AwaitingReply;
        } else {
          ending := Crashed;
        }
    }

    /** One hop of `openCheckUrl(link:completion:)`: open, send, and handle the reply. */
    method Hop(url: Url, reply: Reply, parseUrl: string -> Option<Url>) returns (next: Option<Url>, ending: Ending)
      requires Openable(url)
      modifies this
      ensures nextId == old(nextId) + 1 && connection == Some(LinkConnection(url, old(nextId)))
      ensures var o := LinkOutcome(reply, old(nextId), parseUrl);
        log == old(log) + (LinkOpening(url, old(nextId)) + o.events) && next == o.next && ending == o.ending
    {
      ghost var id := nextId;
      OpenAndSend(url);
      ghost var begun := log;
      next, ending := HandleReply(reply, parseUrl);
      ghost var o := LinkOutcome(reply, id, parseUrl);
      Concatenated(old(log), LinkOpening(url, id), o.events, begun, log, LinkOpening(url, id) + o.events);
    }

    /**
     * `openCheckUrl(link:completion:)` against a playlist of replies, one per
     * hop: the link must parse to a URL with a scheme and a host; on a redirect
     * the method calls itself on the new URL.
     */
    method OpenCheckUrl(link: string, replies: seq<Reply>, parseUrl: string -> Option<Url>) returns (ending: Ending)
      requires parseUrl(link).Some? && Openable(parseUrl(link).value)
      modifies this
      ensures log == old(log) + FollowChain(parseUrl(link).value, replies, old(nextId), parseUrl).events
      ensures ending == FollowChain(parseUrl(link).value, replies, old(nextId), parseUrl).ending
      ensures nextId == old(nextId) + StartCount(FollowChain(parseUrl(link).value, replies, old(nextId), parseUrl).events)
      ensures connection == LastStart(FollowChain(parseUrl(link).value, replies, old(nextId), parseUrl).events)
    {
      ending := OpenCheckUrlFrom(parseUrl(link).value, replies, parseUrl);
    }

    /** The body of `openCheckUrl(link:completion:)` once the link is parsed. */
    method OpenCheckUrlFrom(url: Url, replies: seq<Reply>, parseUrl: string -> Option<Url>) returns (ending: Ending)
      requires Openable(url)
      modifies this
      ensures log == old(log) + FollowChain(url, replies, old(nextId), parseUrl).events
      ensures ending == FollowChain(url, replies, old(nextId), parseUrl).ending
      ensures nextId == old(nextId) + StartCount(FollowChain(url, replies, old(nextId), parseUrl).events)
      ensures connection == LastStart(FollowChain(url, replies, old(nextId), parseUrl).events)
      decreases |replies|
    {
      ghost var id := nextId;
      ghost var conn := LinkConnection(url, id);
      ghost var text := Message(LinkRequestHead(url));
      if replies == [] {
        OpenAndSend(url);
        OneConnectionHop(conn, text, []);
        assert LinkOpening(url, id) + [] == LinkOpening(url, id);
        return AwaitingReply;
      }
      ghost var whole := FollowChain(url, replies, id, parseUrl);
      ghost var o := LinkOutcome(replies[0], id, parseUrl);
      var next;
      next, ending := Hop(url, replies[0], parseUrl);
      ghost var hop := LinkOpening(url, id) + o.events;
      OneConnectionHop(conn, text, o.events);
      if next.None? {
        FollowChainStops(url, replies, id, parseUrl);
        assert whole == Chain(hop, ending);
        return;
      }
      FollowChainContinues(url, replies, id, nextId, parseUrl);
      ghost var rest := FollowChain(next.value, replies[1..], nextId, parseUrl);
      ghost var before := log;
      ending := OpenCheckUrlFrom(next.value, replies[1..], parseUrl);
      Concatenated(old(log), hop, rest.events, before, log, whole.events);
      StartCountAppend(hop, rest.events);
      LastStartAppend(hop, rest.events);
      assert rest.events[0].Start?;
    }
  }
}
