/**
 * CellularConnectionManager: opens the check URL over a cellular-only
 * connection, follows redirects hop by hop, and reads JSON properties.
 */
module CellularConnection {
  import opened Wrappers
  import opened SwiftText
  import opened Transport
  import opened HttpRequest
  import opened HttpResponse
  import Reachability

  const TruSdkVersion := "0.0.13"

  /** Only the first 4 KiB of a reply are read; status and Location sit in the head. */
  const ReceiveLimit := 4096

  // ---------------------------------------------------------------------------
  // Specification functions

  /** The head lines of the request: request line, Host (with its trailing space), User-Agent, Accept, Connection. */
  function CheckRequestHead(url: Url, device: string): (head: seq<string>)
    requires url.host.Some?
    ensures |head| == 5 && head[0] == RequestLine(url)
    ensures head[1] == "Host: " + url.host.value + " "
    ensures head[2] == "User-Agent: " + Reachability.UserAgent(TruSdkVersion, device)
    ensures head[3] == "Accept: */*" && head[4] == "Connection: close"
  {
    [ RequestLine(url),
      "Host: " + url.host.value + " ",
      "User-Agent: tru-sdk-ios/" + TruSdkVersion + " " + device,
      "Accept: */*",
      "Connection: close" ]
  }

  /** The connection `startConnection` opens for `url`: its port and TLS follow the scheme. */
  function CheckConnection(url: Url, id: nat): (c: Connection)
    requires Openable(url)
    ensures c.id == id && c.host == url.host.value
    ensures c.port == 443 <==> StartsWith(url.scheme.value, "https")
    ensures c.port == 80 <==> !StartsWith(url.scheme.value, "https")
    ensures c.params.tls <==> c.port == 443
    ensures CellularOnly(c.params) && c.params.tcp == TcpOptions(Some(5), Some(false))
  {
    var port := SchemePort(url.scheme.value);
    Connection(id, url.host.value, port, CellularParameters(port == 443, TcpOptions(Some(5), Some(false))))
  }

  /** What the receive callback makes of one reply. */
  datatype Verdict = FollowTo(next: Url) | Done | Silent | Trap

  /**
   * The receive callback: nil or empty data does nothing; otherwise the first
   * 4096 bytes are decoded (a cut inside a character makes the force-unwrap
   * trap), the status offsets need 12 Characters, and a Location the URL parser
   * accepts is followed.
   */
  function ReceiveVerdict(data: Option<string>, parseUrl: string -> Option<Url>): (v: Verdict)
    ensures v == Silent <==> data.None? || data.value == []
    ensures data.Some? && data.value != [] ==>
      var text := DecodeBytePrefix(data.value, ReceiveLimit);
      (v == Trap <==> text.None? || |Characters(text.value)| < 12)
    ensures v.FollowTo? <==>
      && data.Some? && data.value != []
      && DecodeBytePrefix(data.value, ReceiveLimit).Some?
      && 12 <= |Characters(DecodeBytePrefix(data.value, ReceiveLimit).value)|
      && ParseRedirect(DecodeBytePrefix(data.value, ReceiveLimit).value).Some?
      && parseUrl(ParseRedirect(DecodeBytePrefix(data.value, ReceiveLimit).value).value).Some?
    ensures v.FollowTo? ==>
      Some(v.next) == parseUrl(ParseRedirect(DecodeBytePrefix(data.value, ReceiveLimit).value).value)
    ensures v.FollowTo? ==>
      && data.Some?
      && DecodeBytePrefix(data.value, ReceiveLimit).Some?
      && 12 <= |Characters(DecodeBytePrefix(data.value, ReceiveLimit).value)|
      && IsRedirectStatus(HttpStatusCode(DecodeBytePrefix(data.value, ReceiveLimit).value))
  {
    match data
    case None => Silent
    case Some(d) =>
      if d == [] then Silent
      else
        match DecodeBytePrefix(d, ReceiveLimit)
        case None => Trap
        case Some(text) =>
          if |Characters(text)| < 12 then Trap
          else
            match ParseRedirect(text)
            case None => Done
            case Some(location) =>
              match parseUrl(location)
              case None => Done
              case Some(next) => FollowTo(next)
  }

  /** `startConnection` followed by the send of the request. */
  function Opening(url: Url, id: nat, device: string): (ev: seq<Event>)
    requires Openable(url)
    ensures |ev| == 2 && ev[0] == Start(CheckConnection(url, id)) && ev[1] == Send(id, Message(CheckRequestHead(url, device)))
  {
    [Start(CheckConnection(url, id)), Send(id, Message(CheckRequestHead(url, device)))]
  }

  /** A failed send calls the hop's completion with nil, which cancels and completes. */
  function SendFailure(reply: Reply, id: nat): (ev: seq<Event>)
    ensures forall i :: 0 <= i < |ev| ==> ev[i] == Cancel(id) || ev[i] == Complete
    ensures reply.sendError ==> ev == [Cancel(id), Complete]
    ensures !reply.sendError ==> ev == []
  {
    if reply.sendError then [Cancel(id), Complete] else []
  }

  /** What the receive callback does to the connection: a final reply cancels and completes, a redirect cancels. */
  function VerdictEvents(v: Verdict, id: nat): (ev: seq<Event>)
    ensures forall i :: 0 <= i < |ev| ==> ev[i] == Cancel(id) || ev[i] == Complete
    ensures v.FollowTo? ==> ev == [Cancel(id)]
    ensures v == Done ==> ev == [Cancel(id), Complete]
    ensures v == Silent || v == Trap ==> ev == []
  {
    match v
    case Silent => []
    case Trap => []
    case Done => [Cancel(id), Complete]
    case FollowTo(_) => [Cancel(id)]
  }

  /**
   * The callbacks of one hop on connection `id`: a failed send completes with
   * nil; then the receive callback stays silent, traps, completes with nil (a
   * cancel and the caller's completion), or cancels and names the next URL.
   * Following a URL without a scheme or host traps in `startConnection`.
   */
  function CheckOutcome(reply: Reply, id: nat, parseUrl: string -> Option<Url>): (o: Outcome)
    ensures forall i :: 0 <= i < |o.events| ==> o.events[i] == Cancel(id) || o.events[i] == Complete
    ensures o.next.Some? ==> Openable(o.next.value) && o.events != [] && o.events[|o.events| - 1] == Cancel(id)
    ensures var v := ReceiveVerdict(reply.data, parseUrl);
      && o.events == SendFailure(reply, id) + VerdictEvents(v, id)
      && (o.next.Some? <==> v.FollowTo? && Openable(v.next))
      && (o.next.Some? ==> o.next.value == v.next && o.ending == AwaitingReply)
      && (o.ending == Stalled <==> v == Silent)
      && (o.ending == Finished <==> v == Done)
      && (o.ending == Crashed <==> v == Trap || (v.FollowTo? && !Openable(v.next)))
  {
    var v := ReceiveVerdict(reply.data, parseUrl);
    var events := SendFailure(reply, id) + VerdictEvents(v, id);
    match v
    case Silent => Outcome(events, None, Stalled)
    case Trap => Outcome(events, None, Crashed)
    case Done => Outcome(events, None, Finished)
    case FollowTo(next) =>
      if Openable(next) then Outcome(events, Some(next), AwaitingReply)
      else Outcome(events, None, Crashed)
  }

  /** Without a failed send, a hop calls the completion once if it ends the chain by finishing, else never. */
  lemma CheckOutcomeCompletes(reply: Reply, id: nat, parseUrl: string -> Option<Url>)
    requires !reply.sendError
    ensures var o := CheckOutcome(reply, id, parseUrl);
      CountComplete(o.events) == if o.next.None? && o.ending == Finished then 1 else 0
  {
    var o := CheckOutcome(reply, id, parseUrl);
    assert SendFailure(reply, id) == [];
    match ReceiveVerdict(reply.data, parseUrl)
    case Silent =>
    case Trap =>
    case Done =>
      assert o.events == [Cancel(id), Complete];
      assert CountComplete([Complete]) == 1 + CountComplete([]);
      assert o.events[1..] == [Complete];
    case FollowTo(next) =>
      assert o.events == [Cancel(id)];
      assert o.events[1..] == [];
  }

  /**
   * The events of `openCheckUrl(url:)` against a playlist of replies, one reply
   * per hop, the first connection numbered `id`.
   */
  function CheckChain(url: Url, replies: seq<Reply>, id: nat, device: string, parseUrl: string -> Option<Url>): (c: Chain)
    requires Openable(url)
    ensures |c.events| >= 2 && c.events[..2] == Opening(url, id, device)
    decreases |replies|
  {
    if replies == [] then Chain(Opening(url, id, device), AwaitingReply)
    else
      var o := CheckOutcome(replies[0], id, parseUrl);
      if o.next.None? then Chain(Opening(url, id, device) + o.events, o.ending)
      else
        var rest := CheckChain(o.next.value, replies[1..], id + 1, device, parseUrl);
        Chain(Opening(url, id, device) + o.events + rest.events, rest.ending)
  }

  /** A hop that leads nowhere ends the chain. */
  lemma CheckChainStops(url: Url, replies: seq<Reply>, id: nat, device: string, parseUrl: string -> Option<Url>)
    requires Openable(url) && replies != [] && CheckOutcome(replies[0], id, parseUrl).next.None?
    ensures var o := CheckOutcome(replies[0], id, parseUrl);
      CheckChain(url, replies, id, device, parseUrl) == Chain(Opening(url, id, device) + o.events, o.ending)
  {
  }

  /** A hop that names the next URL is followed by the chain from that URL, on the next connection. */
  lemma CheckChainContinues(url: Url, replies: seq<Reply>, id: nat, nextId: nat, device: string, parseUrl: string -> Option<Url>)
    requires Openable(url) && replies != [] && nextId == id + 1
    requires CheckOutcome(replies[0], id, parseUrl).next.Some?
    ensures var o := CheckOutcome(replies[0], id, parseUrl);
      var rest := CheckChain(o.next.value, replies[1..], nextId, device, parseUrl);
      CheckChain(url, replies, id, device, parseUrl) == Chain(Opening(url, id, device) + o.events + rest.events, rest.ending)
  {
    var o := CheckOutcome(replies[0], id, parseUrl);
    var rest := CheckChain(o.next.value, replies[1..], id + 1, device, parseUrl);
    assert CheckChain(url, replies, id, device, parseUrl) == Chain(Opening(url, id, device) + o.events + rest.events, rest.ending);
  }

  // ---------------------------------------------------------------------------
  // Properties of the hop loop

  /** Each hop cancels its connection before the next `startConnection` replaces it. */
  lemma {:induction false} CheckChainCancelsBeforeReplace(url: Url, replies: seq<Reply>, id: nat, device: string, parseUrl: string -> Option<Url>)
    requires Openable(url)
    ensures CancelsBeforeReplace(CheckChain(url, replies, id, device, parseUrl).events)
    decreases |replies|
  {
    var ev := CheckChain(url, replies, id, device, parseUrl).events;
    if replies == [] {
      OneConnectionHop(CheckConnection(url, id), Message(CheckRequestHead(url, device)), []);
      assert ev == Opening(url, id, device) + [];
    } else {
      var o := CheckOutcome(replies[0], id, parseUrl);
      var hop := Opening(url, id, device) + o.events;
      OneConnectionHop(CheckConnection(url, id), Message(CheckRequestHead(url, device)), o.events);
      if o.next.Some? {
        var rest := CheckChain(o.next.value, replies[1..], id + 1, device, parseUrl);
        assert hop[|hop| - 1] == Cancel(hop[0].conn.id);
        CheckChainCancelsBeforeReplace(o.next.value, replies[1..], id + 1, device, parseUrl);
        HandoverAppend(hop, rest.events);
      }
    }
  }

  /** Every connection of the chain is cellular-only, with TLS exactly on port 443. */
  lemma {:induction false} CheckChainCellular(url: Url, replies: seq<Reply>, id: nat, device: string, parseUrl: string -> Option<Url>)
    requires Openable(url)
    ensures CellularConnections(CheckChain(url, replies, id, device, parseUrl).events)
    decreases |replies|
  {
    var ev := CheckChain(url, replies, id, device, parseUrl).events;
    if replies == [] {
      OneConnectionHop(CheckConnection(url, id), Message(CheckRequestHead(url, device)), []);
      assert ev == Opening(url, id, device) + [];
    } else {
      var o := CheckOutcome(replies[0], id, parseUrl);
      var hop := Opening(url, id, device) + o.events;
      OneConnectionHop(CheckConnection(url, id), Message(CheckRequestHead(url, device)), o.events);
      if o.next.Some? {
        var rest := CheckChain(o.next.value, replies[1..], id + 1, device, parseUrl);
        CheckChainCellular(o.next.value, replies[1..], id + 1, device, parseUrl);
        CellularAppend(hop, rest.events);
      }
    }
  }

  /** When no send fails, the caller's completion runs once exactly when the chain finishes. */
  lemma {:induction false} CheckChainCompletesOnce(url: Url, replies: seq<Reply>, id: nat, device: string, parseUrl: string -> Option<Url>)
    requires Openable(url)
    requires forall i :: 0 <= i < |replies| ==> !replies[i].sendError
    ensures var c := CheckChain(url, replies, id, device, parseUrl);
      CountComplete(c.events) == if c.ending == Finished then 1 else 0
    decreases |replies|
  {
    if replies == [] {
      NoCompletes(Opening(url, id, device));
    } else {
      var o := CheckOutcome(replies[0], id, parseUrl);
      HopCompletes(url, replies, id, device, parseUrl);
      if o.next.Some? {
        assert forall i :: 0 <= i < |replies[1..]| ==> replies[1..][i] == replies[i + 1];
        CheckChainCompletesOnce(o.next.value, replies[1..], id + 1, device, parseUrl);
      }
    }
  }

  /**
   * Without a send error, a hop that ends the chain completes once exactly
   * when it finishes, and a hop that hands over adds no completion.
   */
  lemma HopCompletes(url: Url, replies: seq<Reply>, id: nat, device: string, parseUrl: string -> Option<Url>)
    requires Openable(url) && replies != [] && !replies[0].sendError
    ensures var o := CheckOutcome(replies[0], id, parseUrl);
      var c := CheckChain(url, replies, id, device, parseUrl);
      && (o.next.None? ==> CountComplete(c.events) == if c.ending == Finished then 1 else 0)
      && (o.next.Some? ==>
            var rest := CheckChain(o.next.value, replies[1..], id + 1, device, parseUrl);
            CountComplete(c.events) == CountComplete(rest.events) && c.ending == rest.ending)
  {
    var begun := Opening(url, id, device);
    NoCompletes(begun);
    var o := CheckOutcome(replies[0], id, parseUrl);
    CheckOutcomeCompletes(replies[0], id, parseUrl);
    CountCompleteAppend(begun, o.events);
    if o.next.Some? {
      CountCompleteAppend(begun + o.events, CheckChain(o.next.value, replies[1..], id + 1, device, parseUrl).events);
    }
  }

  /** A failed send calls the completion at once, so a chain that then finishes completes twice. */
  lemma SendErrorCompletesTwice(url: Url, reply: Reply, device: string, parseUrl: string -> Option<Url>)
    requires Openable(url) && reply.sendError
    requires ReceiveVerdict(reply.data, parseUrl) == Done
    ensures var c := CheckChain(url, [reply], 0, device, parseUrl);
      c.ending == Finished && CountComplete(c.events) == 2
  {
    var c := CheckChain(url, [reply], 0, device, parseUrl);
    var begun := Opening(url, 0, device);
    var tail := [Cancel(0), Complete, Cancel(0), Complete];
    assert c.events == begun + tail;
    NoCompletes(begun);
    assert tail[1..][1..][1..][1..] == [];
    CountCompleteAppend(begun, tail);
  }

  /** There is no hop limit: a playlist of redirects is followed to its end. */
  lemma {:induction false} CheckChainFollowsEveryRedirect(url: Url, replies: seq<Reply>, id: nat, device: string, parseUrl: string -> Option<Url>)
    requires Openable(url)
    requires forall i :: 0 <= i < |replies| ==>
      ReceiveVerdict(replies[i].data, parseUrl).FollowTo? && Openable(ReceiveVerdict(replies[i].data, parseUrl).next)
    ensures var c := CheckChain(url, replies, id, device, parseUrl);
      c.ending == AwaitingReply && StartCount(c.events) == |replies| + 1
    decreases |replies|
  {
    if replies == [] {
      OneConnectionHop(CheckConnection(url, id), Message(CheckRequestHead(url, device)), []);
      assert CheckChain(url, replies, id, device, parseUrl).events == Opening(url, id, device) + [];
    } else {
      var target := ReceiveVerdict(replies[0].data, parseUrl).next;
      FollowedStarts(url, replies, id, device, parseUrl, target);
      assert forall i :: 0 <= i < |replies[1..]| ==> replies[1..][i] == replies[i + 1];
      CheckChainFollowsEveryRedirect(target, replies[1..], id + 1, device, parseUrl);
    }
  }

  /** Following a redirect adds one start to the chain from its target and keeps its ending. */
  lemma FollowedStarts(url: Url, replies: seq<Reply>, id: nat, device: string,
                       parseUrl: string -> Option<Url>, target: Url)
    requires Openable(url) && replies != [] && Openable(target)
    requires ReceiveVerdict(replies[0].data, parseUrl) == FollowTo(target)
    ensures var c := CheckChain(url, replies, id, device, parseUrl);
      var rest := CheckChain(target, replies[1..], id + 1, device, parseUrl);
      StartCount(c.events) == StartCount(rest.events) + 1 && c.ending == rest.ending
  {
    FollowedChain(url, replies, id, device, parseUrl, target);
    var tail := SendFailure(replies[0], id) + [Cancel(id)];
    var hop := Opening(url, id, device) + tail;
    OneConnectionHop(CheckConnection(url, id), Message(CheckRequestHead(url, device)), tail);
    StartCountAppend(hop, CheckChain(target, replies[1..], id + 1, device, parseUrl).events);
  }

  /**
   * A reply within the 4096 bytes read, with a redirect status and a
   * `Location:` or `location:` line, is followed to the URL its value parses
   * to: the hop cancels its connection and the next one is opened for that URL.
   */
  lemma RedirectReplyFollowed(url: Url, replies: seq<Reply>, id: nat, device: string,
                              parseUrl: string -> Option<Url>, response: string,
                              head: string, initial: char, v: string, tail: string)
    requires Openable(url) && replies != [] && replies[0].data == Some(response)
    requires response == head + [initial] + LocationPattern + v + "\r\n" + tail
    requires initial == 'L' || initial == 'l'
    requires NoLineTerminator(v)
    requires forall j: nat :: j < |head| ==> !OccursAt(response, LocationPattern, j)
    requires Utf8Length(response) <= ReceiveLimit
    requires 12 <= |Characters(response)| && IsRedirectStatus(HttpStatusCode(response))
    requires parseUrl(v).Some? && Openable(parseUrl(v).value)
    ensures var target := parseUrl(v).value;
      var hop := Opening(url, id, device) + SendFailure(replies[0], id) + [Cancel(id)];
      var c := CheckChain(url, replies, id, device, parseUrl);
      && c.events == hop + CheckChain(target, replies[1..], id + 1, device, parseUrl).events
      && c.events[|hop|] == Start(CheckConnection(target, id + 1))
  {
    RedirectVerdict(response, head, initial, v, tail, parseUrl);
    FollowedChain(url, replies, id, device, parseUrl, parseUrl(v).value);
  }

  /** A hop whose reply names an openable URL hands over to the chain from that URL. */
  lemma FollowedChain(url: Url, replies: seq<Reply>, id: nat, device: string,
                      parseUrl: string -> Option<Url>, target: Url)
    requires Openable(url) && replies != [] && Openable(target)
    requires ReceiveVerdict(replies[0].data, parseUrl) == FollowTo(target)
    ensures var hop := Opening(url, id, device) + SendFailure(replies[0], id) + [Cancel(id)];
      var c := CheckChain(url, replies, id, device, parseUrl);
      && c.events == hop + CheckChain(target, replies[1..], id + 1, device, parseUrl).events
      && c.events[|hop|] == Start(CheckConnection(target, id + 1))
      && c.ending == CheckChain(target, replies[1..], id + 1, device, parseUrl).ending
  {
    var o := CheckOutcome(replies[0], id, parseUrl);
    FollowedOutcome(replies[0], id, parseUrl, target);
    CheckChainContinues(url, replies, id, id + 1, device, parseUrl);
    var rest := CheckChain(target, replies[1..], id + 1, device, parseUrl);
    var hop := Opening(url, id, device) + SendFailure(replies[0], id) + [Cancel(id)];
    assert Opening(url, id, device) + o.events == hop;
    assert (hop + rest.events)[|hop|] == rest.events[0];
  }

  /** The receive callback's verdict on such a reply. */
  lemma RedirectVerdict(response: string, head: string, initial: char, v: string, tail: string,
                        parseUrl: string -> Option<Url>)
    requires response == head + [initial] + LocationPattern + v + "\r\n" + tail
    requires initial == 'L' || initial == 'l'
    requires NoLineTerminator(v)
    requires forall j: nat :: j < |head| ==> !OccursAt(response, LocationPattern, j)
    requires Utf8Length(response) <= ReceiveLimit
    requires 12 <= |Characters(response)| && IsRedirectStatus(HttpStatusCode(response))
    requires parseUrl(v).Some?
    ensures ReceiveVerdict(Some(response), parseUrl) == FollowTo(parseUrl(v).value)
  {
    ParseRedirectEitherCase(response, head, initial, v, tail);
    assert response[|head|] == initial;
  }

  /** A hop whose reply names an openable URL cancels and leads to that URL. */
  lemma FollowedOutcome(reply: Reply, id: nat, parseUrl: string -> Option<Url>, target: Url)
    requires ReceiveVerdict(reply.data, parseUrl) == FollowTo(target) && Openable(target)
    ensures var o := CheckOutcome(reply, id, parseUrl);
      o.next == Some(target) && o.events == SendFailure(reply, id) + [Cancel(id)]
  {
  }

  // ---------------------------------------------------------------------------
  // JSON replies (jsonResponse, jsonPropertyValue)

  /** A decoded JSON value: a string, or anything else. */
  datatype JsonValue = JString(text: string) | JOther

  type JsonObject = map<string, JsonValue>

  /** `result?[key] as? String`, with the empty string standing for nil. */
  function PropertyValue(key: string, dict: Option<JsonObject>): (value: string)
    ensures dict.Some? && key in dict.value && dict.value[key].JString? ==> value == dict.value[key].text
    ensures value != "" ==> dict.Some? && key in dict.value && dict.value[key] == JString(value)
  {
    if dict.Some? && key in dict.value && dict.value[key].JString? then dict.value[key].text else ""
  }

  /**
   * What `sendAndReceiveDictionary` hands its completion for one received
   * message (`parseJsonResponse`), or None where the status offsets trap.
   * `parseJson` stands for `JSONSerialization.jsonObject(with:) as? [String: Any]`.
   */
  function DictionaryReply(data: Option<string>, parseJson: string -> Option<JsonObject>): (r: Option<Option<JsonObject>>)
    ensures data.None? ==> r == Some(None)
    ensures data.Some? ==> (r.None? <==> |Characters(data.value)| < 12)
    ensures r.Some? && r.value.Some? ==>
      data.Some? && JsonBody(data.value).Some? && parseJson(JsonBody(data.value).value) == r.value
    ensures data.Some? && 12 <= |Characters(data.value)| ==>
      r == Some(if JsonBody(data.value).Some? then parseJson(JsonBody(data.value).value) else None)
  {
    match data
    case None => Some(None)
    case Some(text) =>
      if |Characters(text)| < 12 then None
      else
        match JsonBody(text)
        case None => Some(None)
        case Some(body) => Some(parseJson(body))
  }

  /** The value `jsonPropertyValue` hands its caller for one received message, or None where it traps. */
  function PropertyReply(key: string, data: Option<string>, parseJson: string -> Option<JsonObject>): (r: Option<string>)
    ensures data.None? ==> r == Some("")
    ensures data.Some? ==> (r.None? <==> |Characters(data.value)| < 12)
    ensures data.Some? && r.Some? && r.value != "" ==>
      JsonBody(data.value).Some? && parseJson(JsonBody(data.value).value).Some?
    ensures data.Some? && 12 <= |Characters(data.value)| ==>
      r == Some(if JsonBody(data.value).Some? then PropertyValue(key, parseJson(JsonBody(data.value).value)) else "")
  {
    match DictionaryReply(data, parseJson)
    case None => None
    case Some(dict) => Some(PropertyValue(key, dict))
  }

  // ---------------------------------------------------------------------------
  // The manager

  class CellularConnectionManager {
    /** `UIDevice.current.systemName + "/" + systemVersion`, or "macOS / Unknown". */
    const device: string
    var connection: Option<Connection>
    var nextId: nat
    /** What was done to the network, in order. */
    var log: seq<Event>

    constructor(device: string)
      ensures this.device == device && connection == None && nextId == 0 && log == []
    {
      this.device := device;
      connection := None;
      nextId := 0;
      log := [];
    }

    /** Opens a fresh connection for `url` in the slot; the previous one is simply overwritten. */
    method StartConnection(url: Url)
      requires Openable(url)
      modifies this
      ensures connection == Some(CheckConnection(url, old(nextId)))
      ensures nextId == old(nextId) + 1 && log == old(log) + [Start(connection.value)]
    {
      var tcp := TcpOptions(Some(5), Some(false));
      var tls := false;
      var port := 80;
      if StartsWith(url.scheme.value, "https") {
        port := 443;
        tls := true;
      }
      var conn := Connection(nextId, url.host.value, port, CellularParameters(tls, tcp));
      connection := Some(conn);
      nextId := nextId + 1;
      log := log + [Start(conn)];
    }

    /** The state handler: the four listed states do nothing, any other cancels the connection. */
    method HandleState(state: ConnectionState) returns (cancelled: bool)
      modifies this`log
      ensures cancelled <==> (state == Waiting || state == Failed) && connection.Some?
      ensures log == old(log) + (if cancelled then [Cancel(connection.value.id)] else [])
    {
      match state
      case Ready => cancelled := false;
      case Setup => cancelled := false;
      case Cancelled => cancelled := false;
      case Preparing => cancelled := false;
      case _ =>
        cancelled := connection.Some?;
        if cancelled {
          log := log + [Cancel(connection.value.id)];
        }
    }

    /** The request text, built piece by piece as `createHttpCommand` does. */
    method CreateHttpCommand(url: Url) returns (cmd: string)
      requires url.host.Some?
      ensures cmd == Message(CheckRequestHead(url, device))
    {
      cmd := "GET " + url.path;
      if url.query.Some? {
        cmd := cmd + "?" + url.query.value;
      }
      ghost var target := cmd;
      assert target == "GET " + RequestTarget(url);
      // The literals are written cut at their CRLFs.
      cmd := cmd + (" HTTP/1.1" + "\r\n" + "Host: ") + url.host.value;
      cmd := cmd + (" " + "\r\n" + "User-Agent: tru-sdk-ios/") + TruSdkVersion + " ";
      cmd := cmd + device;
      cmd := cmd + ("\r\n" + "Accept: */*");
      cmd := cmd + ("\r\n" + "Connection: close" + "\r\n\r\n");
      CommandPieces(target, url.host.value, TruSdkVersion, device);
      ghost var h := CheckRequestHead(url, device);
      JoinOfFive(h, "\r\n");
      assert h[0] == target + " HTTP/1.1";
      assert cmd == h[0] + "\r\n" + h[1] + "\r\n" + h[2] + "\r\n" + h[3] + "\r\n" + h[4] + "\r\n\r\n";
    }

    /**
     * The send and receive callbacks of one hop on the current connection: a
     * failed send completes with nil (cancel, then the caller's completion);
     * the received data then ends the chain or names the next URL, after a cancel.
     */
    method HandleReply(reply: Reply, parseUrl: string -> Option<Url>) returns (next: Option<Url>, ending: Ending)
      requires connection.Some?
      modifies this`log
      ensures var o := CheckOutcome(reply, connection.value.id, parseUrl);
        log == old(log) + o.events && next == o.next && ending == o.ending
    {
      if reply.sendError {
        log := log + [Cancel(connection.value.id), Complete];
      }
      next := None;
      match ReceiveVerdict(reply.data, parseUrl)
      case Silent =>
        ending := Stalled;
      case Trap =>
        ending := Crashed;
      case Done =>
        log := log + [Cancel(connection.value.id), Complete];
        ending := Finished;
      case FollowTo(url) =>
        log := log + [Cancel(connection.value.id)];
        if Openable(url) {
          next := Some(url);
          ending := AwaitingReply;
        } else {
          ending := Crashed;
        }
    }

    /** `startConnection(url:)`, then the request sent on the new connection. */
    method OpenAndSend(url: Url)
      requires Openable(url)
      modifies this
      ensures nextId == old(nextId) + 1 && connection == Some(CheckConnection(url, old(nextId)))
      ensures log == old(log) + Opening(url, old(nextId), device)
    {
      StartConnection(url);
      var cmd := CreateHttpCommand(url);
      log := log + [Send(connection.value.id, cmd)];
    }

    /** One hop of `openCheckUrl(url:completion:)`: open, send, and handle the reply. */
    method Hop(url: Url, reply: Reply, parseUrl: string -> Option<Url>) returns (next: Option<Url>, ending: Ending)
      requires Openable(url)
      modifies this
      ensures nextId == old(nextId) + 1 && connection == Some(CheckConnection(url, old(nextId)))
      ensures var o := CheckOutcome(reply, old(nextId), parseUrl);
        log == old(log) + (Opening(url, old(nextId), device) + o.events) && next == o.next && ending == o.ending
    {
      ghost var id := nextId;
      OpenAndSend(url);
      ghost var begun := log;
      next, ending := HandleReply(reply, parseUrl);
      ghost var o := CheckOutcome(reply, id, parseUrl);
      Concatenated(old(log), Opening(url, id, device), o.events, begun, log, Opening(url, id, device) + o.events);
    }

    /**
     * `openCheckUrl(url:completion:)` against a playlist of replies, one per
     * hop: opens, sends, and on a redirect cancels and calls itself on the new
     * URL.
     */
    method OpenCheckUrl(url: Url, replies: seq<Reply>, parseUrl: string -> Option<Url>) returns (ending: Ending)
      requires Openable(url)
      modifies this
      ensures log == old(log) + CheckChain(url, replies, old(nextId), device, parseUrl).events
      ensures ending == CheckChain(url, replies, old(nextId), device, parseUrl).ending
      ensures nextId == old(nextId) + StartCount(CheckChain(url, replies, old(nextId), device, parseUrl).events)
      ensures connection == LastStart(CheckChain(url, replies, old(nextId), device, parseUrl).events)
      decreases |replies|
    {
      ghost var id := nextId;
      ghost var conn := CheckConnection(url, id);
      ghost var text := Message(CheckRequestHead(url, device));
      if replies == [] {
        OpenAndSend(url);
        OneConnectionHop(conn, text, []);
        assert Opening(url, id, device) + [] == Opening(url, id, device);
        return AwaitingReply;
      }
      ghost var whole := CheckChain(url, replies, id, device, parseUrl);
      ghost var o := CheckOutcome(replies[0], id, parseUrl);
      var next;
      next, ending := Hop(url, replies[0], parseUrl);
      ghost var hop := Opening(url, id, device) + o.events;
      OneConnectionHop(conn, text, o.events);
      if next.None? {
        CheckChainStops(url, replies, id, device, parseUrl);
        assert whole == Chain(hop, ending);
        return;
      }
      CheckChainContinues(url, replies, id, nextId, device, parseUrl);
      ghost var rest := CheckChain(next.value, replies[1..], nextId, device, parseUrl);
      ghost var before := log;
      ending := OpenCheckUrl(next.value, replies[1..], parseUrl);
      Concatenated(old(log), hop, rest.events, before, log, whole.events);
      StartCountAppend(hop, rest.events);
      LastStartAppend(hop, rest.events);
      assert rest.events[0].Start?;
    }

    /**
     * `jsonResponse(url:completion:)` with one reply: returns the dictionaries
     * handed to the completion, in order (a failed send hands nil first), and
     * whether the status offsets trapped. The connection is never cancelled.
     */
    method JsonResponse(url: Url, reply: Reply, parseJson: string -> Option<JsonObject>)
      returns (delivered: seq<Option<JsonObject>>, crashed: bool)
      requires Openable(url)
      modifies this
      ensures log == old(log) + Opening(url, old(nextId), device)
      ensures nextId == old(nextId) + 1 && connection == Some(CheckConnection(url, old(nextId)))
      ensures var r := DictionaryReply(reply.data, parseJson);
        && crashed == r.None?
        && delivered == (if reply.sendError then [None] else []) + (if r.Some? then [r.value] else [])
    {
      StartConnection(url);
      var cmd := CreateHttpCommand(url);
      log := log + [Send(connection.value.id, cmd)];
      delivered := if reply.sendError then [None] else [];
      var r := DictionaryReply(reply.data, parseJson);
      crashed := r.None?;
      if r.Some? {
        delivered := delivered + [r.value];
      }
    }

    /**
     * `jsonPropertyValue(for:from:)` with one reply: returns the values handed
     * to the completion, in order, and whether the status offsets trapped. The
     * connection is never cancelled.
     */
    method JsonPropertyValue(key: string, url: Url, reply: Reply, parseJson: string -> Option<JsonObject>)
      returns (delivered: seq<string>, crashed: bool)
      requires Openable(url)
      modifies this
      ensures log == old(log) + Opening(url, old(nextId), device)
      ensures nextId == old(nextId) + 1 && connection == Some(CheckConnection(url, old(nextId)))
      ensures var r := PropertyReply(key, reply.data, parseJson);
        && crashed == r.None?
        && delivered == (if reply.sendError then [""] else []) + (if r.Some? then [r.value] else [])
    {
      StartConnection(url);
      var cmd := CreateHttpCommand(url);
      log := log + [Send(connection.value.id, cmd)];
      delivered := if reply.sendError then [""] else [];
      var r := PropertyReply(key, reply.data, parseJson);
      crashed := r.None?;
      if r.Some? {
        delivered := delivered + [r.value];
      }
    }
  }

  /** Proof step: the pieces `createHttpCommand` appends, regrouped into CRLF-separated lines. */
  lemma CommandPieces(target: string, host: string, version: string, device: string)
    ensures target + (" HTTP/1.1" + "\r\n" + "Host: ") + host + (" " + "\r\n" + "User-Agent: tru-sdk-ios/") + version + " " + device
        + ("\r\n" + "Accept: */*") + ("\r\n" + "Connection: close" + "\r\n\r\n")
      == (target + " HTTP/1.1") + "\r\n" + ("Host: " + host + " ") + "\r\n"
        + ("User-Agent: tru-sdk-ios/" + version + " " + device) + "\r\n" + "Accept: */*" + "\r\n"
        + "Connection: close" + "\r\n\r\n"
  {
    Regroup(target, " HTTP/1.1", "\r\n", "Host: ", host, " ", "User-Agent: tru-sdk-ios/", version, " ", device,
      "Accept: */*", "Connection: close", "\r\n\r\n");
  }

  /** Proof step: concatenation regrouped, the same pieces in the same order. */
  lemma Regroup(t: string, a1: string, sep: string, a2: string, host: string, b1: string, b2: string,
                v: string, sp: string, dev: string, acc: string, conn: string, end: string)
    ensures t + (a1 + sep + a2) + host + (b1 + sep + b2) + v + sp + dev + (sep + acc) + (sep + conn + end)
      == (t + a1) + sep + (a2 + host + b1) + sep + (b2 + v + sp + dev) + sep + acc + sep + conn + end
  {
  }

  /** Five lines joined, written out left to right. */
  lemma JoinOfFive(h: seq<string>, sep: string)
    requires |h| == 5
    ensures Join(h, sep) == h[0] + sep + h[1] + sep + h[2] + sep + h[3] + sep + h[4]
  {
    assert Join([h[0]], sep) == h[0];
    JoinSnoc([h[0]], h[1], sep);
    assert [h[0]] + [h[1]] == h[..2];
    JoinSnoc(h[..2], h[2], sep);
    assert h[..2] + [h[2]] == h[..3];
    JoinSnoc(h[..3], h[3], sep);
    assert h[..3] + [h[3]] == h[..4];
    JoinSnoc(h[..4], h[4], sep);
    assert h[..4] + [h[4]] == h;
  }

  /** Cut at its CRLFs, the request gives back its five head lines and the blank line. */
  lemma CheckCommandLines(url: Url, device: string)
    requires url.host.Some?
    requires NoCR(url.path) && NoCR(url.host.value) && NoCR(device)
    requires url.query.Some? ==> NoCR(url.query.value)
    ensures Split(Message(CheckRequestHead(url, device)), "\r\n") == CheckRequestHead(url, device) + ["", ""]
  {
    var head := CheckRequestHead(url, device);
    NoCRAppend(url.path, if url.query.Some? then "?" + url.query.value else "");
    NoCRAppend("GET " + RequestTarget(url), " HTTP/1.1");
    NoCRAppend("Host: " + url.host.value, " ");
    NoCRAppend("User-Agent: tru-sdk-ios/" + TruSdkVersion + " ", device);
    assert forall i | 0 <= i < |head| :: NoCR(head[i]);
    MessageLines(head);
  }
}
