/**
 * The hand-built HTTP/1.1 request text. Every manager writes a request line,
 * some header lines, each ended by CRLF, and a blank line.
 */
module HttpRequest {
  import opened Wrappers
  import opened SwiftText
  import opened Transport

  /** `url.path`, then `?` and `url.query` when there is a query. */
  function RequestTarget(url: Url): (target: string)
    ensures url.query.None? ==> target == url.path
    ensures url.query.Some? ==> target == url.path + "?" + url.query.value
  {
    url.path + (if url.query.Some? then "?" + url.query.value else "")
  }

  function RequestLine(url: Url): string {
    "GET " + RequestTarget(url) + " HTTP/1.1"
  }

  /** A request with these head lines: each line ended by CRLF, then an empty line. */
  function Message(head: seq<string>): string {
    Join(head, "\r\n") + "\r\n\r\n"
  }

  /** The head of the request the two RedirectManager revisions send. */
  function LinkRequestHead(url: Url): (head: seq<string>)
    requires Openable(url)
    ensures |head| == 3 && head[0] == RequestLine(url) && head[2] == "Connection: close"
    ensures head[1] == "Host: " + url.host.value + ":" + DecimalText(SchemePort(url.scheme.value)) + " "
  {
    [ RequestLine(url),
      "Host: " + url.host.value + ":" + DecimalText(SchemePort(url.scheme.value)) + " ",
      "Connection: close" ]
  }

  /**
   * The start of every hop in both RedirectManager revisions: the connection
   * for `url` opens, and the link request is sent on it.
   */
  function LinkOpening(url: Url, id: nat): (ev: seq<Event>)
    requires Openable(url)
    ensures |ev| == 2 && ev[0] == Start(LinkConnection(url, id)) && ev[1] == Send(id, Message(LinkRequestHead(url)))
  {
    [Start(LinkConnection(url, id)), Send(id, Message(LinkRequestHead(url)))]
  }

  lemma {:induction false} JoinSnoc(parts: seq<string>, x: string, sep: string)
    requires parts != []
    ensures Join(parts + [x], sep) == Join(parts, sep) + sep + x
    decreases |parts|
  {
    if |parts| == 1 {
      assert (parts + [x])[1..] == [x];
    } else {
      assert (parts + [x])[1..] == parts[1..] + [x];
      JoinSnoc(parts[1..], x, sep);
    }
  }

  /**
   * Reading a request back: cut at every CRLF, it gives the head lines, then the
   * empty line and the empty body.
   */
  lemma MessageLines(head: seq<string>)
    requires head != []
    requires forall i :: 0 <= i < |head| ==> NoCR(head[i])
    ensures Split(Message(head), "\r\n") == head + ["", ""]
  {
    JoinSnoc(head, "", "\r\n");
    JoinSnoc(head + [""], "", "\r\n");
    assert Join(head + ["", ""], "\r\n") == Message(head) by {
      assert head + ["", ""] == head + [""] + [""];
    }
    var parts := head + ["", ""];
    forall i, k | 0 <= i < |parts| && 0 <= k < |parts[i]|
      ensures parts[i][k] != "\r\n"[0]
    {
      assert i < |head|;
    }
    SplitJoin(parts, "\r\n");
  }

  lemma JoinOfThree(h: seq<string>, sep: string)
    requires |h| == 3
    ensures Join(h, sep) == h[0] + sep + h[1] + sep + h[2]
  {
    assert Join([h[0]], sep) == h[0];
    JoinSnoc([h[0]], h[1], sep);
    assert [h[0]] + [h[1]] == h[..2];
    JoinSnoc(h[..2], h[2], sep);
    assert h[..2] + [h[2]] == h;
  }

  /** Proof step: the pieces `openCheckUrl(link:)` appends, regrouped into CRLF-separated lines. */
  lemma LinkCommandPieces(target: string, host: string, port: string)
    ensures target + (" HTTP/1.1" + "\r\n" + "Host: ") + host + ":" + port + ((" " + "\r\n" + "Connection: close") + "\r\n\r\n")
      == (target + " HTTP/1.1") + "\r\n" + ("Host: " + host + ":" + port + " ") + "\r\n" + "Connection: close" + "\r\n\r\n"
  {
    RegroupLink(target, " HTTP/1.1", "\r\n", "Host: ", host, ":", port, " ", "Connection: close", "\r\n\r\n");
  }

  /** Proof step: concatenation regrouped, the same pieces in the same order. */
  lemma RegroupLink(t: string, a1: string, sep: string, a2: string, host: string, colon: string, port: string,
                    sp: string, conn: string, end: string)
    ensures t + (a1 + sep + a2) + host + colon + port + ((sp + sep + conn) + end)
      == (t + a1) + sep + (a2 + host + colon + port + sp) + sep + conn + end
  {
  }

  /**
   * The request `openCheckUrl(link:)` builds in both RedirectManager
   * revisions, piece by piece.
   */
  method BuildLinkCommand(url: Url) returns (str: string)
    requires Openable(url)
    ensures str == Message(LinkRequestHead(url))
  {
    str := "GET " + url.path;
    if url.query.Some? {
      str := str + "?" + url.query.value;
    }
    ghost var target := str;
    assert target == "GET " + RequestTarget(url);
    // The literals are written cut at their CRLFs.
    str := str + (" HTTP/1.1" + "\r\n" + "Host: ") + url.host.value;
    var port := if StartsWith(url.scheme.value, "https") then 443 else 80;
    str := str + ":" + DecimalText(port);
    str := str + ((" " + "\r\n" + "Connection: close") + "\r\n\r\n");
    LinkCommandPieces(target, url.host.value, DecimalText(port));
    ghost var h := LinkRequestHead(url);
    JoinOfThree(h, "\r\n");
    assert h[0] == target + " HTTP/1.1";
  }

  /**
   * Reading the sent request back: its Host line names the host and the port
   * the connection was opened on, and that port text parses back to the port.
   */
  lemma LinkHostLine(url: Url, id: nat)
    requires Openable(url) && NoCR(url.path) && NoCR(url.host.value)
    requires url.query.Some? ==> NoCR(url.query.value)
    ensures var c := LinkConnection(url, id);
      var lines := Split(Message(LinkRequestHead(url)), "\r\n");
      && |lines| == 5
      && lines[1] == "Host: " + c.host + ":" + DecimalText(c.port) + " "
      && ParseInt(DecimalText(c.port)) == Some(c.port as int)
      && (c.params.tls <==> c.port == 443)
  {
    var head := LinkRequestHead(url);
    var port := SchemePort(url.scheme.value);
    assert NoCR(DecimalText(port)) by {
      var d := DecimalText(port);
      assert forall i :: 0 <= i < |d| ==> IsAsciiDigit(d[i]);
    }
    NoCRAppend(url.path, if url.query.Some? then "?" + url.query.value else "");
    NoCRAppend("GET " + RequestTarget(url), " HTTP/1.1");
    NoCRAppend("Host: " + url.host.value, ":");
    NoCRAppend("Host: " + url.host.value + ":", DecimalText(port));
    NoCRAppend("Host: " + url.host.value + ":" + DecimalText(port), " ");
    assert forall i | 0 <= i < |head| :: NoCR(head[i]);
    MessageLines(head);
    ParseIntOfDecimalText(port);
  }
}
