/**
 * The older RedirectManager (Sources/Trusdk): follows `302` redirects whose
 * header is spelled exactly `Location: `, never cancels a connection and never
 * calls anyone back.
 */
module LegacyRedirect {
  import opened Wrappers
  import opened SwiftText
  import opened Transport
  import opened HttpRequest
  import opened HttpResponse
  import RedirectFollower

  // ---------------------------------------------------------------------------
  // Specification functions

  /** The case-sensitive header pattern of this revision. */
  const LegacyLocationPattern := "Location: "

  /**
   * `parseRedirect(response:)`: only when the three Characters at offsets
   * 9 ..< 12 read exactly "302", the value of the first `Location: <v>\r\n` line.
   */
  function ParseLocationRedirect(response: string): (link: Option<string>)
    requires 12 <= |Characters(response)|
    ensures link.Some? ==>
      StatusText(response) == "302" && exists i: nat :: IsFirstMatch(response, LegacyLocationPattern, i, link.value)
    ensures link.None? ==>
      StatusText(response) != "302" || forall i: nat, v :: !IsMatchAt(response, LegacyLocationPattern, i, v)
  {
    if StatusText(response) == "302" then
      var r := MatchedSlice(response, LegacyLocationPattern, 10);
      if r.Some? then
        var m := FirstMatch(response, LegacyLocationPattern, 0).value;
        assert LegacyLocationPattern[10..] == "";
        assert r.value == m.value;
        assert IsFirstMatch(response, LegacyLocationPattern, m.start, m.value);
        r
      else r
    else None
  }

  /**
   * What one hop leads to. Nil data returns without a word, a short reply traps
   * at the status offsets, a reply without a redirect ends the chain silently,
   * and a redirect opens the link (trapping when it is no URL with a scheme
   * and a host). Nothing is cancelled or called back.
   */
  function LegacyOutcome(reply: Reply, parseUrl: string -> Option<Url>): (o: Outcome)
    ensures o.events == []
    ensures o.next.Some? ==> Openable(o.next.value)
    ensures reply.data.None? <==> o.ending == Stalled
    ensures reply.data.Some? && |Characters(reply.data.value)| < 12 ==> o.ending == Crashed
    ensures reply.data.Some? && 12 <= |Characters(reply.data.value)| ==>
      var link := ParseLocationRedirect(reply.data.value);
      && (o.ending == Finished <==> link.None?)
      && (o.next.Some? <==> link.Some? && parseUrl(link.value).Some? && Openable(parseUrl(link.value).value))
      && (o.next.Some? ==> o.next == parseUrl(link.value) && o.ending == AwaitingReply)
      && (o.ending == Crashed <==> link.Some? && o.next.None?)
  {
    match reply.data
    case None => Outcome([], None, Stalled)
    case Some(text) =>
      if |Characters(text)| < 12 then Outcome([], None, Crashed)
      else
        match ParseLocationRedirect(text)
        case None => Outcome([], None, Finished)
        case Some(link) =>
          match parseUrl(link)
          case None => Outcome([], None, Crashed)
          case Some(url) =>
            if Openable(url) then Outcome([], Some(url), AwaitingReply)
            else Outcome([], None, Crashed)
  }

  /** The events of `openCheckUrl(link:)` against a playlist of replies, one per hop. */
  function LegacyChain(url: Url, replies: seq<Reply>, id: nat, parseUrl: string -> Option<Url>): (c: Chain)
    requires Openable(url)
    ensures |c.events| >= 2 && c.events[..2] == LinkOpening(url, id)
    decreases |replies|
  {
    if replies == [] then Chain(LinkOpening(url, id), AwaitingReply)
    else
      var o := LegacyOutcome(replies[0], parseUrl);
      if o.next.None? then Chain(LinkOpening(url, id), o.ending)
      else
        var rest := LegacyChain(o.next.value, replies[1..], id + 1, parseUrl);
        Chain(LinkOpening(url, id) + rest.events, rest.ending)
  }

  /** A reply that leads nowhere ends the chain after the opening. */
  lemma LegacyChainStops(url: Url, replies: seq<Reply>, id: nat, parseUrl: string -> Option<Url>)
    requires Openable(url) && replies != [] && LegacyOutcome(replies[0], parseUrl).next.None?
    ensures LegacyChain(url, replies, id, parseUrl) == Chain(LinkOpening(url, id), LegacyOutcome(replies[0], parseUrl).ending)
  {
  }

  /** A reply that leads on is followed by the chain from the next URL. */
  lemma LegacyChainContinues(url: Url, replies: seq<Reply>, id: nat, nextId: nat, parseUrl: string -> Option<Url>)
    requires Openable(url) && replies != [] && nextId == id + 1
    requires LegacyOutcome(replies[0], parseUrl).next.Some?
    ensures var o := LegacyOutcome(replies[0], parseUrl);
      var rest := LegacyChain(o.next.value, replies[1..], nextId, parseUrl);
      LegacyChain(url, replies, id, parseUrl) == Chain(LinkOpening(url, id) + rest.events, rest.ending)
  {
    var o := LegacyOutcome(replies[0], parseUrl);
    var rest := LegacyChain(o.next.value, replies[1..], id + 1, parseUrl);
    assert LegacyChain(url, replies, id, parseUrl) == Chain(LinkOpening(url, id) + rest.events, rest.ending);
  }

  // ---------------------------------------------------------------------------
  // Properties

  /** The chain only opens and sends: no connection is cancelled and nobody is called back. */
  lemma {:induction false} LegacyChainOnlyOpens(url: Url, replies: seq<Reply>, id: nat, parseUrl: string -> Option<Url>)
    requires Openable(url)
    ensures var ev := LegacyChain(url, replies, id, parseUrl).events;
      NeverCancels(ev) && CountComplete(ev) == 0
    decreases |replies|
  {
    var begun := LinkOpening(url, id);
    NoCompletes(begun);
    if replies != [] {
      var o := LegacyOutcome(replies[0], parseUrl);
      if o.next.Some? {
        var rest := LegacyChain(o.next.value, replies[1..], id + 1, parseUrl);
        LegacyChainOnlyOpens(o.next.value, replies[1..], id + 1, parseUrl);
        CountCompleteAppend(begun, rest.events);
        assert forall k :: 0 <= k < |begun + rest.events| ==>
          (begun + rest.events)[k] == if k < 2 then begun[k] else rest.events[k - 2];
      }
    }
  }

  /** Every connection of the chain is cellular-only, with TLS exactly on port 443. */
  lemma {:induction false} LegacyChainCellular(url: Url, replies: seq<Reply>, id: nat, parseUrl: string -> Option<Url>)
    requires Openable(url)
    ensures CellularConnections(LegacyChain(url, replies, id, parseUrl).events)
    decreases |replies|
  {
    var begun := LinkOpening(url, id);
    OneConnectionHop(LinkConnection(url, id), Message(LinkRequestHead(url)), []);
    assert begun == begun + [];
    if replies != [] {
      var o := LegacyOutcome(replies[0], parseUrl);
      if o.next.Some? {
        var rest := LegacyChain(o.next.value, replies[1..], id + 1, parseUrl);
        LegacyChainCellular(o.next.value, replies[1..], id + 1, parseUrl);
        CellularAppend(begun, rest.events);
      }
    }
  }

  /**
   * A followed redirect replaces the live connection without cancelling it,
   * unlike the newer revision (`RedirectFollower.FollowChainCancelsBeforeReplace`).
   */
  lemma RedirectLeavesConnectionOpen(url: Url, replies: seq<Reply>, id: nat, parseUrl: string -> Option<Url>)
    requires Openable(url) && replies != []
    requires LegacyOutcome(replies[0], parseUrl).next.Some?
    ensures !CancelsBeforeReplace(LegacyChain(url, replies, id, parseUrl).events)
  {
    var o := LegacyOutcome(replies[0], parseUrl);
    var rest := LegacyChain(o.next.value, replies[1..], id + 1, parseUrl);
    var ev := LegacyChain(url, replies, id, parseUrl).events;
    assert ev == LinkOpening(url, id) + rest.events;
    if replies[1..] == [] {
      assert rest.events == LinkOpening(o.next.value, id + 1);
    } else {
      var o2 := LegacyOutcome(replies[1], parseUrl);
      assert replies[1..][0] == replies[1];
      if o2.next.None? {
        LegacyChainStops(o.next.value, replies[1..], id + 1, parseUrl);
      } else {
        LegacyChainContinues(o.next.value, replies[1..], id + 1, id + 2, parseUrl);
      }
    }
    assert rest.events[0].Start?;
    assert IsStartOf(ev, 0) && IsStartOf(ev, 2);
    assert ev[0..2] == [Start(LinkConnection(url, id)), Send(id, Message(LinkRequestHead(url)))];
    assert Cancel(ev[0].conn.id) !in ev[0..2];
  }

  /** A `Location: ` line is followed on a 302. */
  lemma LocationLineFollowed(response: string, head: string, v: string, tail: string)
    requires response == head + LegacyLocationPattern + v + "\r\n" + tail
    requires NoLineTerminator(v)
    requires forall j: nat :: j < |head| ==> !OccursAt(response, LegacyLocationPattern, j)
    requires 12 <= |Characters(response)| && StatusText(response) == "302"
    ensures ParseLocationRedirect(response) == Some(v)
  {
    FirstMatchOfLine(response, head, LegacyLocationPattern, v, tail);
    assert LegacyLocationPattern[10..] + v == v;
  }

  /**
   * A 302 with a `Location: ` line is followed to the URL its value parses to:
   * the next connection is opened for that URL, with the previous one left open.
   */
  lemma RedirectReplyFollowed(url: Url, replies: seq<Reply>, id: nat,
                              parseUrl: string -> Option<Url>, response: string, head: string, v: string, tail: string)
    requires Openable(url) && replies != [] && replies[0].data == Some(response)
    requires response == head + LegacyLocationPattern + v + "\r\n" + tail
    requires NoLineTerminator(v)
    requires forall j: nat :: j < |head| ==> !OccursAt(response, LegacyLocationPattern, j)
    requires 12 <= |Characters(response)| && StatusText(response) == "302"
    requires parseUrl(v).Some? && Openable(parseUrl(v).value)
    ensures var target := parseUrl(v).value;
      var c := LegacyChain(url, replies, id, parseUrl);
      && c.events == LinkOpening(url, id) + LegacyChain(target, replies[1..], id + 1, parseUrl).events
      && c.events[2] == Start(LinkConnection(target, id + 1))
  {
    LocationLineFollowed(response, head, v, tail);
    LegacyChainContinues(url, replies, id, id + 1, parseUrl);
  }

  /**
   * The match is case-sensitive: a 302 whose only Location header is spelled
   * `location: ` ends this chain, where the newer revision follows it.
   */
  lemma LowercaseLocationIgnored(response: string, head: string, v: string, tail: string)
    requires response == head + ['l'] + LocationPattern + v + "\r\n" + tail
    requires NoLineTerminator(v)
    requires forall j: nat :: j < |head| ==> !OccursAt(response, LocationPattern, j)
    requires forall j: nat :: !OccursAt(response, LegacyLocationPattern, j)
    requires 12 <= |Characters(response)| && StatusText(response) == "302"
    ensures ParseLocationRedirect(response) == None
    ensures RedirectFollower.ParseRedirect302(response) == Some(v)
  {
    forall i: nat, w
      ensures !IsMatchAt(response, LegacyLocationPattern, i, w)
    {
      assert !OccursAt(response, LegacyLocationPattern, i);
    }
    FirstMatchAfter(response, head, 'l', LocationPattern, v, tail);
    assert LocationPattern[9..] + v == v;
  }

  // ---------------------------------------------------------------------------
  // The manager

  class RedirectManager {
    var connection: Option<Connection>
    var nextId: nat
    /** What was done to the network, in order. */
    var log: seq<Event>

    constructor()
      ensures connection == None && nextId == 0 && log == []
    {
      connection := None;
      nextId := 0;
      log := [];
    }

    /** Opens a fresh connection for `url` in the slot; the previous one is simply overwritten. */
    method StartConnection(url: Url)
      requires Openable(url)
      modifies this
      ensures connection == Some(LinkConnection(url, old(nextId)))
      ensures nextId == old(nextId) + 1 && log == old(log) + [Start(connection.value)]
    {
      var tls := false;
      var port := 80;
      if StartsWith(url.scheme.value, "https") {
        port := 443;
        tls := true;
      }
      var conn := Connection(nextId, url.host.value, port, CellularParameters(tls, TcpOptions(None, None)));
      connection := Some(conn);
      nextId := nextId + 1;
      log := log + [Start(conn)];
    }

    /** The state handler only reports the state: no state, not even an undefined one, cancels. */
    method HandleState(state: ConnectionState) returns (cancelled: bool)
      ensures !cancelled
    {
      cancelled := false;
    }

    /** `startConnection(url:)`, then the request sent on the new connection. */
    method OpenAndSend(url: Url)
      requires Openable(url)
      modifies this
      ensures nextId == old(nextId) + 1 && connection == Some(LinkConnection(url, old(nextId)))
      ensures log == old(log) + LinkOpening(url, old(nextId))
    {
      StartConnection(url);
      var str := BuildLinkCommand(url);
      log := log + [Send(connection.value.id, str)];
    }

    /** The receive callback of one hop: nothing is logged, only the next URL or the ending is decided. */
    method HandleReply(reply: Reply, parseUrl: string -> Option<Url>) returns (next: Option<Url>, ending: Ending)
      ensures var o := LegacyOutcome(reply, parseUrl);
        next == o.next && ending == o.ending
    {
      next := None;
      match reply.data {
        case None =>
          ending := Stalled;
        case Some(text) =>
          if |Characters(text)| < 12 {
            ending := Crashed;
          } else {
            match ParseLocationRedirect(text) {
              case None =>
                ending := Finished;
              case Some(link) =>
                var url := parseUrl(link);
                if url.Some? && Openable(url.value) {
                  next := url;
                  ending := AwaitingReply;
                } else {
                  ending := Crashed;
                }
            }
          }
      }
    }

    /**
     * `openCheckUrl(link:)` against a playlist of replies, one per hop: the
     * link must parse to a URL with a scheme and a host; on a redirect the
     * method calls itself on the new URL.
     */
    method OpenCheckUrl(link: string, replies: seq<Reply>, parseUrl: string -> Option<Url>) returns (ending: Ending)
      requires parseUrl(link).Some? && Openable(parseUrl(link).value)
      modifies this
      ensures log == old(log) + LegacyChain(parseUrl(link).value, replies, old(nextId), parseUrl).events
      ensures ending == LegacyChain(parseUrl(link).value, replies, old(nextId), parseUrl).ending
      ensures nextId == old(nextId) + StartCount(LegacyChain(parseUrl(link).value, replies, old(nextId), parseUrl).events)
      ensures connection == LastStart(LegacyChain(parseUrl(link).value, replies, old(nextId), parseUrl).events)
    {
      ending := OpenCheckUrlFrom(parseUrl(link).value, replies, parseUrl);
    }

    /** The body of `openCheckUrl(link:)` once the link is parsed. */
    method OpenCheckUrlFrom(url: Url, replies: seq<Reply>, parseUrl: string -> Option<Url>) returns (ending: Ending)
      requires Openable(url)
      modifies this
      ensures log == old(log) + LegacyChain(url, replies, old(nextId), parseUrl).events
      ensures ending == LegacyChain(url, replies, old(nextId), parseUrl).ending
      ensures nextId == old(nextId) + StartCount(LegacyChain(url, replies, old(nextId), parseUrl).events)
      ensures connection == LastStart(LegacyChain(url, replies, old(nextId), parseUrl).events)
      decreases |replies|
    {
      ghost var id := nextId;
      ghost var whole := LegacyChain(url, replies, id, parseUrl);
      OpenAndSend(url);
      OneConnectionHop(LinkConnection(url, id), Message(LinkRequestHead(url)), []);
      assert LinkOpening(url, id) + [] == LinkOpening(url, id);
      if replies == [] {
        return AwaitingReply;
      }
      var next;
      next, ending := HandleReply(replies[0], parseUrl);
      if next.None? {
        LegacyChainStops(url, replies, id, parseUrl);
        return;
      }
      LegacyChainContinues(url, replies, id, nextId, parseUrl);
      ghost var rest := LegacyChain(next.value, replies[1..], nextId, parseUrl);
      ghost var before := log;
      ending := OpenCheckUrlFrom(next.value, replies[1..], parseUrl);
      Concatenated(old(log), LinkOpening(url, id), rest.events, before, log, whole.events);
      StartCountAppend(LinkOpening(url, id), rest.events);
      LastStartAppend(LinkOpening(url, id), rest.events);
      assert rest.events[0].Start?;
    }
  }
}
