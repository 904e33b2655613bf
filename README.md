# tru.ID iOS SDK: a verified model of its network core

The tru.ID iOS SDK runs a phone check by opening a check URL over the
handset's **cellular** data connection. It bypasses Wi-Fi and follows the
server's HTTP redirects hop by hop until a final response arrives. Every
revision of the SDK writes its HTTP/1.1 request by hand on a raw
`NWConnection`. It also reads the status code, the `Location` header and a
JSON body straight out of the response text.

This project models the following:

- **The request text** (`HttpRequest`, `CellularConnection.CellularConnectionManager.CreateHttpCommand`).
  This is the request line, the head lines and the blank line. Read back by
  cutting at CRLF, they give the head lines again. The Host line of the link
  revisions names the port the connection was opened on.
- **Reading a response** (`HttpResponse`).
  - The status code comes from Characters 9 to 11 of the response, where the CRLF counts as one Swift Character.
  - The regular expression `<prefix>(.*)\r\n` is modelled with ICU's line terminators and its leftmost match.
  - The redirect target and the JSON body behind the first blank line are read out of the same text.
- **The three hop loops**, each a class with a connection slot and an event log.
  - `CellularConnectionManager`: cellular-only, 5-second timeout, follows 301/302/303/307/308.
  - The newer `RedirectManager` (`Sources/TruSDK`): follows only 302, with `Location` or `location`.
  - The older `RedirectManager` (`Sources/Trusdk`): follows only 302 with `Location: `, never cancels and never calls back.

  The server's side of each hop is one `Reply` taken from a playlist. Each
  loop is proved equal to a chain function, and the properties are proved
  about that function. The properties are:
  - every connection is cellular-only;
  - each connection is cancelled before the next one replaces it, or, in the older revision, never;
  - in the newer `RedirectManager`, the caller is called back once exactly when the chain finishes;
  - in `CellularConnectionManager` the same holds while no send fails, but a failed send calls the caller back an extra time;
  - the older `RedirectManager` never calls the caller back;
  - a reply with a followed status and a `Location` line whose value parses to an openable URL makes the next hop open that URL;
  - `CellularConnectionManager` has no hop limit: a playlist of such replies is followed to its end.
- **`TraceCollector` and `DebugInfo`** (`Tracing`).
  - The trace buffer and the timestamp-keyed debug buffer are modelled.
  - `toString()` renders the debug buffer in ascending key order, through a loop proved against a sorted-keys specification.
- **The URLSession helpers** `APIHelper.makeRequest` and `SessionEndpoint.makeRequest` (`Reachability`).
  Each classifies a data-task callback into data, a redirect to follow, or an error.
- **`ObjcTruSDK`** (`ObjcSdk`): the comma-joined list of operator codes, and how reachability results are remapped.

The clock, the device string, `URL(string:)`, `JSONSerialization` and the
`JSONDecoder` calls are parameters of the model. So is the connection
manager's own `isReachable`.

## Model

| member | source | states |
|---|---|---|
| SwiftText.IndexOf | Sources/TruSDK/CellularConnectionManager.swift:162 | `range(of:)`: the first offset at or after `from` where the pattern occurs, and none before it; None when it occurs nowhere |
| SwiftText.IndexOfFindsContained | Sources/TruSDK/CellularConnectionManager.swift:162 | a search from the start succeeds exactly when the pattern occurs somewhere |
| SwiftText.CharactersFlatten | Sources/TruSDK/CellularConnectionManager.swift:186 | the Character view joins back to the string, and every Character is CRLF or one scalar |
| SwiftText.CharactersOfNoCR | Sources/TruSDK/CellularConnectionManager.swift:186 | without a CR, Character offsets are scalar offsets |
| SwiftText.CharactersAppend | Sources/TruSDK/CellularConnectionManager.swift:105 | the Character view of a concatenation splits, unless a CR is glued to an LF |
| SwiftText.SliceOfTerminatedLine | Sources/TruSDK/CellularConnectionManager.swift:105 | dropping `drop` Characters in front and one behind `p + v + CRLF` leaves `p[drop..] + v`: the CRLF is one Character |
| SwiftText.ParseInt | Sources/TruSDK/CellularConnectionManager.swift:187 | `Int(String)`: a value only for an optional sign then ASCII digits within the 64-bit range, and then the value those digits denote; and conversely every such text, unsigned, with `+` or with `-`, gives that value |
| SwiftText.DecimalTextRoundTrip | Sources/TruSDK/RedirectManager.swift:110 | the `%d` text of a port reads back as the port |
| SwiftText.ParseIntOfDecimalText | Sources/TruSDK/RedirectManager.swift:110 | `Int` of the printed number gives the number back |
| SwiftText.DecodeBytePrefix | Sources/TruSDK/CellularConnectionManager.swift:88-91 | decoding the first 4096 bytes fails exactly when the cut falls inside one character's encoding; otherwise it gives the prefix within that many bytes: the whole message when it fits, else exactly the bytes read |
| SwiftText.TrimStart | Sources/TruSDK/ObjcTruSDK.swift:21 | removes exactly the leading whitespace and newlines |
| SwiftText.TrimEnd | Sources/TruSDK/ObjcTruSDK.swift:21 | removes exactly the trailing whitespace and newlines |
| SwiftText.Trim | Sources/TruSDK/ObjcTruSDK.swift:21 | `trimmingCharacters(in: .whitespacesAndNewlines)`: a segment of the text with only whitespace in front of and behind it, neither end whitespace, and empty exactly when the text is all whitespace |
| SwiftText.SplitJoin | Sources/TruSDK/ObjcTruSDK.swift:26 | cutting a joined list at the separator gives the parts back when no part holds the separator |
| Transport.SchemePort | Sources/TruSDK/CellularConnectionManager.swift:46-50 | port 443 exactly for a scheme starting with "https", otherwise 80 |
| Transport.CellularParameters | Sources/TruSDK/CellularConnectionManager.swift:53-56 | cellular required, Wi-Fi prohibited, expensive paths allowed |
| Transport.LinkConnection | Sources/TruSDK/RedirectManager.swift:32-46 | the link revisions' connection: default TCP options, scheme port, TLS exactly on 443, cellular only |
| Transport.OneConnectionHop | Sources/TruSDK/RedirectManager.swift:100-125 | a hop that starts one connection and then only cancels or calls back starts one cellular connection and replaces none |
| Transport.LastStart | Sources/TruSDK/RedirectManager.swift:15-46 | the connection a manager's slot holds after a log: none exactly when nothing was started, otherwise the connection of a start with no start after it |
| Transport.LastStartAppend | Sources/TruSDK/RedirectManager.swift:15-46 | the last start of a concatenation is in its second part when that part starts anything |
| Transport.HandoverAppend | Sources/TruSDK/RedirectManager.swift:115-118 | a hop ending in the cancel of its own connection, followed by a chain that cancels before replacing, still cancels before replacing |
| Transport.CellularAppend | Sources/TruSDK/RedirectManager.swift:41-46 | appending logs keeps every connection cellular-only |
| HttpRequest.RequestTarget | Sources/TruSDK/CellularConnectionManager.swift:113-117 | the path, plus `?query` exactly when there is a query |
| HttpRequest.LinkRequestHead | Sources/TruSDK/RedirectManager.swift:104-111 | three head lines: request line, `Host: <host>:<port> ` and `Connection: close` |
| HttpRequest.MessageLines | Sources/TruSDK/CellularConnectionManager.swift:119-127 | a request cut at CRLF gives its head lines, then the blank line and the empty body |
| HttpRequest.LinkOpening | Sources/TruSDK/RedirectManager.swift:102-114 | every hop of both link revisions starts the link connection and sends the link request on it |
| HttpRequest.BuildLinkCommand | Sources/TruSDK/RedirectManager.swift:104-111 | the text built piece by piece is the three head lines joined by CRLF and ended by a blank line |
| HttpRequest.LinkHostLine | Sources/Trusdk/RedirectManager.swift:100-107 | the second line read back names the connection's host and port, and the port text parses back to the port |
| HttpResponse.RunEnd | Sources/TruSDK/CellularConnectionManager.swift:103 | `.*` runs exactly to the next ICU line terminator |
| HttpResponse.CaptureUnique | Sources/TruSDK/CellularConnectionManager.swift:103 | at a given offset `<prefix>(.*)\r\n` captures at most one value |
| HttpResponse.RunMatches | Sources/TruSDK/CellularConnectionManager.swift:103 | after the prefix, the pattern matches exactly when the run of non-terminators is followed by CRLF |
| HttpResponse.MatchAt | Sources/TruSDK/CellularConnectionManager.swift:103 | the match at one offset, or none at all |
| HttpResponse.FirstMatch | Sources/TruSDK/CellularConnectionManager.swift:103 | `range(of:options: .regularExpression)`: a match with no match starting earlier, or no match anywhere |
| HttpResponse.FirstMatchIsTheFirst | Sources/TruSDK/CellularConnectionManager.swift:103 | any leftmost match is the one the search finds |
| HttpResponse.MatchedSlice | Sources/TruSDK/CellularConnectionManager.swift:103-105 | the Swift slice of the match is the prefix without its first `drop` Characters, then the captured value |
| HttpResponse.StatusText | Sources/TruSDK/CellularConnectionManager.swift:186 | Characters 9 to 11 of the response: three scalars, unless the slice holds the CRLF |
| HttpResponse.HttpStatusCode | Sources/TruSDK/CellularConnectionManager.swift:185-188 | `Int(status) ?? 0`: 0 when the status text does not parse, otherwise the parsed value, which lies in -99 to 999 |
| HttpResponse.StatusTextOfPlainLine | Sources/TruSDK/CellularConnectionManager.swift:186 | without a CR in the first 12 scalars, the status text is scalars 9 to 11 |
| HttpResponse.StatusCodeOfDigits | Sources/TruSDK/CellularConnectionManager.swift:185-188 | a conventional status line yields the value of its three digits |
| HttpResponse.ParseRedirect | Sources/TruSDK/CellularConnectionManager.swift:98-110 | a value only for 301-303 or 307-308, and then it is the first `ocation: <v>\r\n` capture; none when the status is no redirect or no line matches |
| HttpResponse.FirstMatchOfLine | Sources/TruSDK/CellularConnectionManager.swift:103 | the first `<prefix><v>\r\n` line, with no earlier prefix, is the match found |
| HttpResponse.FirstMatchAfter | Sources/TruSDK/CellularConnectionManager.swift:102-103 | a header after a letter that cannot start the prefix is found, whatever that letter is |
| HttpResponse.LocationLineEitherCase | Sources/TruSDK/CellularConnectionManager.swift:102-105 | both `Location:` and `location:` lines yield their value |
| HttpResponse.ParseRedirectEitherCase | Sources/TruSDK/CellularConnectionManager.swift:98-110 | on a redirect status, either spelling of the header is returned up to its CRLF |
| HttpResponse.ContainsPastPrefix | Sources/TruSDK/CellularConnectionManager.swift:159-160 | text in front that cannot start the pattern does not change `contains` |
| HttpResponse.ContentTypeNamesJson | Sources/TruSDK/CellularConnectionManager.swift:156-160 | the sliced `ype: <value>` names `application/json` exactly when the first Content-Type value does |
| HttpResponse.JsonBody | Sources/TruSDK/CellularConnectionManager.swift:152-183 | the decoder gets everything after the first blank line |
| HttpResponse.JsonBodyWhen | Sources/TruSDK/CellularConnectionManager.swift:153-162 | a body is handed over exactly when the status is 200, the first Content-Type names JSON and the head ends with a blank line |
| CellularConnection.CheckConnection | Sources/TruSDK/CellularConnectionManager.swift:41-58 | port 443 with TLS for https schemes, else 80 without; timeout 5, no keepalive; cellular only |
| CellularConnection.CheckRequestHead | Sources/TruSDK/CellularConnectionManager.swift:112-130 | five head lines: `GET <target> HTTP/1.1`, `Host: <host> `, `User-Agent: ` and the SDK user agent, `Accept: */*`, `Connection: close` |
| CellularConnection.ReceiveVerdict | Sources/TruSDK/CellularConnectionManager.swift:88-106 | silent exactly for nil or empty data; a trap exactly for data that does not decode or has fewer than 12 Characters; a URL to follow exactly when the decoded reply has a redirect status and a Location line whose value `URL(string:)` parses, and then it is that URL |
| CellularConnection.Opening | Sources/TruSDK/CellularConnectionManager.swift:197-202 | a hop starts the connection and sends the request built for the URL |
| CellularConnection.SendFailure | Sources/TruSDK/CellularConnectionManager.swift:81-86 | a failed send cancels and completes; a successful send adds nothing |
| CellularConnection.VerdictEvents | Sources/TruSDK/CellularConnectionManager.swift:202-212 | a final reply cancels and completes, a redirect only cancels, and a silent or trapping receive adds nothing |
| CellularConnection.CheckOutcome | Sources/TruSDK/CellularConnectionManager.swift:80-106 | the send events then the receive events; a next URL exactly for a verdict to follow an openable URL, and then that URL, with a reply awaited; stalled exactly when silent, finished exactly when final, crashed exactly for a trap or an URL that cannot be opened |
| CellularConnection.CheckChain | Sources/TruSDK/CellularConnectionManager.swift:195-214 | the chain of hops `openCheckUrl` runs over a playlist: it always begins by opening the connection for the URL and sending the request |
| CellularConnection.CheckOutcomeCompletes | Sources/TruSDK/CellularConnectionManager.swift:202-212 | without a send error, a hop completes once if it finishes the chain, otherwise never |
| CellularConnection.CheckChainContinues | Sources/TruSDK/CellularConnectionManager.swift:203-206 | a redirect hop is followed by the chain from the next URL on the next connection |
| CellularConnection.CheckChainCancelsBeforeReplace | Sources/TruSDK/CellularConnectionManager.swift:203-206 | every connection is cancelled before the next one takes the slot |
| CellularConnection.CheckChainCellular | Sources/TruSDK/CellularConnectionManager.swift:53-58 | every connection of the chain is cellular-only with TLS exactly on 443 |
| CellularConnection.CheckChainCompletesOnce | Sources/TruSDK/CellularConnectionManager.swift:202-212 | without send errors, the caller's completion runs once exactly when the chain finishes |
| CellularConnection.HopCompletes | Sources/TruSDK/CellularConnectionManager.swift:202-212 | without a send error, a hop that ends the chain completes once exactly when it finishes, and a hop that hands over adds no completion |
| CellularConnection.SendErrorCompletesTwice | Sources/TruSDK/CellularConnectionManager.swift:81-93 | a failed send followed by a final reply completes the caller twice |
| CellularConnection.CheckChainFollowsEveryRedirect | Sources/TruSDK/CellularConnectionManager.swift:195-214 | there is no hop limit: a playlist of replies that each name an openable URL opens one connection per reply, plus the first, and ends awaiting a reply |
| CellularConnection.RedirectReplyFollowed | Sources/TruSDK/CellularConnectionManager.swift:88-106 | a reply within 4096 bytes, of 12 or more Characters, with a 301-303/307/308 status and a `Location:` or `location:` line whose value parses to an openable URL: the hop cancels, and the next event starts the connection for that URL |
| CellularConnection.FollowedChain | Sources/TruSDK/CellularConnectionManager.swift:202-206 | a hop whose verdict is to follow an openable URL is its opening, the send events and one cancel, then the chain from that URL, which starts at once and decides the ending |
| CellularConnection.FollowedStarts | Sources/TruSDK/CellularConnectionManager.swift:202-206 | following a redirect adds one start to the chain from its target and keeps its ending |
| CellularConnection.RedirectVerdict | Sources/TruSDK/CellularConnectionManager.swift:98-106 | the receive verdict on such a reply is to follow the URL its Location value parses to |
| CellularConnection.FollowedOutcome | Sources/TruSDK/CellularConnectionManager.swift:202-206 | a hop whose verdict is to follow an openable URL cancels its connection and leads to that URL |
| CellularConnection.PropertyValue | Sources/TruSDK/CellularConnectionManager.swift:242-246 | the string under the key, and a non-empty value only when the dictionary holds that string |
| CellularConnection.DictionaryReply | Sources/TruSDK/CellularConnectionManager.swift:139-148 | nil data gives nil; a reply shorter than 12 Characters traps; otherwise the parsed JSON body, or nil when there is no JSON body |
| CellularConnection.PropertyReply | Sources/TruSDK/CellularConnectionManager.swift:241-247 | nil data gives ""; a reply shorter than 12 Characters traps; otherwise the string under the key in the parsed JSON body, or "" when there is no JSON body |
| CellularConnection.CellularConnectionManager.StartConnection | Sources/TruSDK/CellularConnectionManager.swift:21-78 | the slot holds the connection for the URL, under a fresh number, and the start is logged |
| CellularConnection.CellularConnectionManager.HandleState | Sources/TruSDK/CellularConnectionManager.swift:59-74 | the waiting and failed states cancel the live connection; the four listed states do nothing |
| CellularConnection.CellularConnectionManager.CreateHttpCommand | Sources/TruSDK/CellularConnectionManager.swift:112-130 | the text built piece by piece is the five head lines joined by CRLF and ended by a blank line |
| CellularConnection.CellularConnectionManager.HandleReply | Sources/TruSDK/CellularConnectionManager.swift:80-96 | logs the hop's events and returns its next URL and ending |
| CellularConnection.CellularConnectionManager.OpenAndSend | Sources/TruSDK/CellularConnectionManager.swift:197-202 | logs the opening of the next-numbered connection for the URL and the send of the request; the slot holds that connection and the counter moves on by one |
| CellularConnection.CellularConnectionManager.Hop | Sources/TruSDK/CellularConnectionManager.swift:195-212 | one hop logs its opening and the hop's events, the slot holds the hop's connection, and the counter moves on by one |
| CellularConnection.CellularConnectionManager.OpenCheckUrl | Sources/TruSDK/CellularConnectionManager.swift:195-214 | the log grows by exactly the chain's events, the counter by its number of starts, the slot holds the last connection started, and the call ends as the chain does |
| CellularConnection.CellularConnectionManager.JsonResponse | Sources/TruSDK/CellularConnectionManager.swift:216-229 | logs one opening and never cancels; the slot holds that connection; hands over nil for a send error, then the parsed reply unless it trapped |
| CellularConnection.CellularConnectionManager.JsonPropertyValue | Sources/TruSDK/CellularConnectionManager.swift:231-248 | logs one opening and never cancels; the slot holds that connection; hands over "" for a send error, then the property unless it trapped |
| CellularConnection.CheckCommandLines | Sources/TruSDK/CellularConnectionManager.swift:112-130 | the request cut at CRLF gives back its five head lines and the blank line |
| RedirectFollower.ParseRedirect302 | Sources/TruSDK/RedirectManager.swift:85-98 | a value only when the status text is exactly "302", and then it is the first `ocation: ` capture |
| RedirectFollower.ReceiveLink | Sources/TruSDK/RedirectManager.swift:72-82 | nil data is final; a trap exactly for replies under 12 Characters; otherwise the link of a 302 `ocation: ` line is followed, and a reply without one is final |
| RedirectFollower.LinkOutcome | Sources/TruSDK/RedirectManager.swift:114-124 | a next URL exactly for a link that parses to an openable URL, and then that URL, after exactly one cancel; final exactly when the reply is final, with a cancel and a completion; a trap logs nothing; crashed exactly for a trap or a link that cannot be opened |
| RedirectFollower.FollowChain | Sources/TruSDK/RedirectManager.swift:100-125 | the chain of hops over a playlist: it always begins by opening the link connection and sending the link request |
| RedirectFollower.LinkOutcomeCompletes | Sources/TruSDK/RedirectManager.swift:114-124 | a hop completes once if it finishes the chain, otherwise never |
| RedirectFollower.FollowChainContinues | Sources/TruSDK/RedirectManager.swift:115-118 | a redirect hop is followed by the chain from the link on the next connection |
| RedirectFollower.FollowChainCancelsBeforeReplace | Sources/TruSDK/RedirectManager.swift:115-118 | every connection is cancelled before the next one takes the slot |
| RedirectFollower.FollowChainCellular | Sources/TruSDK/RedirectManager.swift:41-46 | every connection is cellular-only with TLS exactly on 443 |
| RedirectFollower.FollowChainCompletesOnce | Sources/TruSDK/RedirectManager.swift:66-83 | send errors are only logged, so the completion runs once exactly when the chain finishes |
| RedirectFollower.OtherRedirectsNotFollowed | Sources/TruSDK/RedirectManager.swift:86-88 | a 301, 303, 307 or 308 with a Location line is not followed here, though CellularConnectionManager would follow it |
| RedirectFollower.RedirectReplyFollowed | Sources/TruSDK/RedirectManager.swift:72-98 | a 302 reply of 12 or more Characters with a `Location:` or `location:` line whose value parses to an openable URL: the hop cancels, and the next event starts the link connection for that URL |
| RedirectFollower.RedirectManager.StartConnection | Sources/TruSDK/RedirectManager.swift:15-64 | the slot holds the link connection under a fresh number, and the start is logged |
| RedirectFollower.RedirectManager.HandleState | Sources/TruSDK/RedirectManager.swift:47-62 | the waiting and failed states cancel the live connection; the four listed states do nothing |
| RedirectFollower.RedirectManager.OpenAndSend | Sources/TruSDK/RedirectManager.swift:103-114 | logs the opening of the next-numbered link connection and the send of the request; the slot holds it and the counter moves on by one |
| RedirectFollower.RedirectManager.HandleReply | Sources/TruSDK/RedirectManager.swift:114-124 | logs the hop's events and returns its next URL and ending |
| RedirectFollower.RedirectManager.Hop | Sources/TruSDK/RedirectManager.swift:103-124 | one hop logs its opening and the hop's events, the slot holds the hop's connection, and the counter moves on by one |
| RedirectFollower.RedirectManager.OpenCheckUrl | Sources/TruSDK/RedirectManager.swift:100-125 | the log grows by exactly the chain's events from the parsed link, the counter by its number of starts, and the slot holds the last connection started |
| RedirectFollower.RedirectManager.OpenCheckUrlFrom | Sources/TruSDK/RedirectManager.swift:103-124 | the log grows by exactly the chain's events, the counter by its number of starts, the slot holds the last connection started, and the call ends as the chain does |
| LegacyRedirect.ParseLocationRedirect | Sources/Trusdk/RedirectManager.swift:82-94 | a value only for status text "302", and then it is the first `Location: ` capture |
| LegacyRedirect.LegacyOutcome | Sources/Trusdk/RedirectManager.swift:70-79 | a hop logs nothing after its send; nil data stalls the chain; a reply under 12 Characters traps; otherwise the chain finishes exactly when there is no `Location: ` link, follows exactly a link that parses to an openable URL, and crashes on a link that does not |
| LegacyRedirect.LegacyChain | Sources/Trusdk/RedirectManager.swift:96-116 | the chain of hops over a playlist: it always begins by opening the link connection and sending the link request |
| LegacyRedirect.LegacyChainContinues | Sources/Trusdk/RedirectManager.swift:110-114 | a redirect is followed by the chain from the link, with no cancel in between |
| LegacyRedirect.LegacyChainOnlyOpens | Sources/Trusdk/RedirectManager.swift:96-116 | the chain never cancels a connection and never calls anyone back |
| LegacyRedirect.LegacyChainCellular | Sources/Trusdk/RedirectManager.swift:41-46 | every connection is cellular-only with TLS exactly on 443 |
| LegacyRedirect.RedirectLeavesConnectionOpen | Sources/Trusdk/RedirectManager.swift:110-114 | a followed redirect replaces the live connection without cancelling it |
| LegacyRedirect.LocationLineFollowed | Sources/Trusdk/RedirectManager.swift:85-90 | a 302 with a `Location: ` line yields its value |
| LegacyRedirect.LowercaseLocationIgnored | Sources/Trusdk/RedirectManager.swift:86 | a 302 whose only header is `location: ` is not followed here, though the newer revision follows it |
| LegacyRedirect.RedirectReplyFollowed | Sources/Trusdk/RedirectManager.swift:70-94 | a 302 reply with a `Location: ` line whose value parses to an openable URL: the next event after the opening starts the link connection for that URL, with no cancel in between |
| LegacyRedirect.RedirectManager.StartConnection | Sources/Trusdk/RedirectManager.swift:15-62 | the slot holds the link connection under a fresh number, and the start is logged |
| LegacyRedirect.RedirectManager.HandleState | Sources/Trusdk/RedirectManager.swift:47-60 | no state cancels the connection |
| LegacyRedirect.RedirectManager.OpenAndSend | Sources/Trusdk/RedirectManager.swift:99-110 | logs the opening of the next-numbered link connection and the send of the request; the slot holds it and the counter moves on by one |
| LegacyRedirect.RedirectManager.HandleReply | Sources/Trusdk/RedirectManager.swift:70-79 | returns the hop's next URL and ending |
| LegacyRedirect.RedirectManager.OpenCheckUrl | Sources/Trusdk/RedirectManager.swift:96-116 | the log grows by exactly the chain's events from the parsed link, the counter by its number of starts, and the slot holds the last connection started |
| LegacyRedirect.RedirectManager.OpenCheckUrlFrom | Sources/Trusdk/RedirectManager.swift:99-115 | the log grows by exactly the chain's events, the counter by its number of starts, the slot holds the last connection started, and the call ends as the chain does |
| Tracing.BelowIrreflexive | Sources/TruSDK/TraceCollector.swift:106 | the key order used by `sorted()` is irreflexive |
| Tracing.BelowTransitive | Sources/TruSDK/TraceCollector.swift:106 | the key order is transitive |
| Tracing.BelowTotal | Sources/TruSDK/TraceCollector.swift:106 | any two distinct keys are ordered |
| Tracing.Insert | Sources/TruSDK/TraceCollector.swift:106 | inserting into an ascending list keeps it ascending and adds exactly the key |
| Tracing.AscendingUnique | Sources/TruSDK/TraceCollector.swift:106 | two ascending lists with the same members are equal, so the sorted order is unique |
| Tracing.SortedKeys | Sources/TruSDK/TraceCollector.swift:106 | `keys.sorted()`: ascending, holding exactly the keys |
| Tracing.SortKeys | Sources/TruSDK/TraceCollector.swift:106 | the loop returns an ascending list holding exactly the keys |
| Tracing.Entry | Sources/TruSDK/TraceCollector.swift:92-98 | `tag - log` with a tag, the bare log without: the log always ends the entry |
| Tracing.Rendered | Sources/TruSDK/TraceCollector.swift:104-111 | the text `toString()` builds from the listed keys: at least two characters, the `: `, per key |
| Tracing.Text | Sources/TruSDK/TraceCollector.swift:104-111 | `toString()`: empty exactly when the buffer is |
| Tracing.TextIsAscending | Sources/TruSDK/TraceCollector.swift:104-111 | any ascending listing of the keys renders as `toString()` |
| Tracing.TextAppendsLatest | Sources/TruSDK/TraceCollector.swift:92-111 | an entry under a timestamp later than all others renders after all of them |
| Tracing.RenderedUnchanged | Sources/TruSDK/TraceCollector.swift:104-111 | rendering only reads the entries it lists |
| Tracing.DebugInfo.Add | Sources/TruSDK/TraceCollector.swift:92-98 | stores `tag - log`, or the bare log, under the timestamp, replacing any entry there |
| Tracing.DebugInfo.Clear | Sources/TruSDK/TraceCollector.swift:100-102 | the buffer is empty |
| Tracing.DebugInfo.ToString | Sources/TruSDK/TraceCollector.swift:104-111 | one `key: value` per entry, in ascending key order, nothing between them |
| Tracing.TraceCollector.StartTrace | Sources/TruSDK/TraceCollector.swift:22-36 | when tracing is off, it turns it on and restarts both buffers with the device line; when on, nothing changes |
| Tracing.TraceCollector.StopTrace | Sources/TruSDK/TraceCollector.swift:39-48 | every switch off and both buffers empty; the body is kept |
| Tracing.TraceCollector.GetTraceInfo | Sources/TruSDK/TraceCollector.swift:51-55 | the current trace, the debug buffer itself and the body |
| Tracing.TraceCollector.AddTrace | Sources/TruSDK/TraceCollector.swift:58-64 | appends the log and a newline only while tracing |
| Tracing.TraceCollector.AddDebug | Sources/TruSDK/TraceCollector.swift:66-75 | adds a debug entry only while collection is on |
| Tracing.TraceCollector.AddBody | Sources/TruSDK/TraceCollector.swift:77-79 | the stored body is replaced |
| Tracing.SessionRendersInOrder | Sources/TruSDK/TraceCollector.swift:22-36 | after `startTrace`, lines added at ascending times render in the order added, after the device line |
| Tracing.SessionKeys | Sources/TruSDK/TraceCollector.swift:92-98 | the session's keys are exactly its timestamps |
| Reachability.ApiOutcome | Sources/TruSDK/APIHelper.swift:38-69 | a transport error, a missing response or missing data each give their error; data exactly for an answered 2xx that decodes; a redirect to follow (or the unwrap trap) exactly for an answered 3xx; otherwise the decoded or the generic body error |
| Reachability.SessionOutcome | Sources/TruSDK/SessionEndpoint.swift:38-67 | the same error cases; success exactly for an answered 2xx that decodes; otherwise the decoded or the generic body error |
| Reachability.HelpersAgreeOutsideRedirects | Sources/TruSDK/SessionEndpoint.swift:38-67 | outside answered 3xx replies the two helpers give the same result |
| Reachability.OnlyApiHelperFollows | Sources/TruSDK/APIHelper.swift:59-61 | on an answered 3xx, APIHelper follows while SessionEndpoint reports a body failure |
| Reachability.UserAgentVersion | Sources/TruSDK/APIHelper.swift:91-93 | the SDK version reads back from the user agent, between the product name and the first space |
| Reachability.UserAgent | Sources/TruSDK/APIHelper.swift:91-93 | `tru-sdk-ios/<version> <device>`, part by part |
| ObjcSdk.OperatorCodes | Sources/TruSDK/ObjcTruSDK.swift:19-25 | no more codes than carriers, and none empty |
| ObjcSdk.OperatorCodesListed | Sources/TruSDK/ObjcTruSDK.swift:19-25 | a code is listed exactly when it is non-empty and some carrier has it |
| ObjcSdk.HasCodeSnoc | Sources/TruSDK/ObjcTruSDK.swift:20 | a carrier list has a code exactly when its front or its last carrier has it |
| ObjcSdk.OperatorsSplitBack | Sources/TruSDK/ObjcTruSDK.swift:26 | the operator string is empty without codes, and otherwise splits back into the codes |
| ObjcSdk.OperatorCode | Sources/TruSDK/ObjcTruSDK.swift:20-21 | the MCC and MNC joined, with only the whitespace around them cut off, and empty exactly when both together are blank |
| ObjcSdk.Remap | Sources/TruSDK/ObjcTruSDK.swift:56-66 | details alone on success; the error with status -1 on failure; the fixed "Unknown" error without one |
| ObjcSdk.RemapReportsOneSide | Sources/TruSDK/ObjcTruSDK.swift:56-66 | exactly one side is present, errors carry status -1, and a reported error handed back in is reported unchanged |
| ObjcSdk.ObjcTruSDK.constructor | Sources/TruSDK/ObjcTruSDK.swift:14-27 | `operators` is the comma-joined non-empty trimmed codes of the carriers, in order |
| ObjcSdk.ObjcTruSDK.IsReachable | Sources/TruSDK/ObjcTruSDK.swift:54-68 | the manager's answer for this residency and the operator list, remapped; details exactly when the endpoint was reached; any error has status -1 |
| ObjcSdk.ObjcTruSDK.IsReachableDefault | Sources/TruSDK/ObjcTruSDK.swift:72-76 | the call with no data residency, passed on unchanged |

## Left out

- Threads and queues are not modelled: `DispatchQueue` and the `.main` queue callbacks, and the `queue.sync`/`queue.async` of `TraceCollector`. Each callback runs to completion, in the order the model gives it.
- In CellularConnectionManager the send callback is taken to fire before the receive callback. Both may fire on one hop.
- Logging is not modelled: `NSLog`, `print`, `os_log` and the console switch of `addDebug`. None of it changes state.
- `NWPathMonitor` is left out. The managers only log the path type it reports.
- The following are parameters instead of being modelled:
  - the clock (`DateUtils.now()` and the ISO timestamp);
  - the device string (`UIDevice` or "macOS / Unknown");
  - `URL(string:)`;
  - `JSONSerialization`;
  - `JSONDecoder` for the model type and for `ReachabilityError`.
- The server's side of a hop is a `Reply` from a playlist, with a send error flag and the received text. A reply's text is taken to be valid UTF-8 as a whole.
- CellularConnectionManager's `receive` of at most 4096 bytes is one chunk. Later chunks are not read.
- Swift's Character view merges only the CRLF grapheme cluster. Combining marks and other clusters are single scalars here.
- Swift's `String <` on timestamps is modelled as scalar-by-scalar lexicographic order.
- The iteration order of `serviceSubscriberCellularProviders` is an input sequence.
- TraceInfo keeps a reference to the live `DebugInfo`, as the source does. No lemma states what later changes to the buffer do to a `TraceInfo` handed out earlier.
- `JsonValue` distinguishes strings from every other JSON value. Nothing else of a parsed JSON object is modelled.
- `createURLRequest`, `deviceInfo()` and the `URLSession` set-up are not part of this model. Neither are the `check`, `checkWithTrace` and `checkUrlWithResponseBody` delegations.
- `TruSDK.swift`, `Trusdk.swift` and `ReachabilityDetails.swift` are not part of this model. The first two are one-line entry points that call `openCheckUrl(link:)`; the third holds the decoded details type, which is a type parameter here.
- The connection manager's own `isReachable`, which ObjcTruSDK calls, is a parameter. Its implementation is not part of this model.
- Connections are not actually opened. A `Start` event records the host, port and parameters given to `NWConnection`, and "cancel" is a `Cancel` event.
- The `guard let data = str.data(using: .utf8)` branches of `jsonResponse` and `jsonPropertyValue` cannot fail for a Swift string, so they are not modelled.
- The request text follows the code, which writes a space after the host on the Host line.
