/**
 * Reading a raw HTTP response the way CellularConnectionManager does: the
 * status code from fixed Character offsets, a header value through the regular
 * expression `<prefix>(.*)\r\n`, and the JSON body behind the blank line.
 */
module HttpResponse {
  import opened Wrappers
  import opened SwiftText

  // ---------------------------------------------------------------------------
  // The regular expression `<prefix>(.*)\r\n`

  /** ICU's line terminators. Without DOTALL, `.` matches none of them. */
  predicate IsLineTerminator(c: char) {
    || ('\n' <= c <= '\r')
    || c == '\U{0085}' || c == '\U{2028}' || c == '\U{2029}'
  }

  predicate NoLineTerminator(v: string) {
    forall i :: 0 <= i < |v| ==> !IsLineTerminator(v[i])
  }

  /** `<prefix>(.*)\r\n` matches `s` from offset `i`, and the group captures `v`. */
  predicate IsMatchAt(s: string, prefix: string, i: nat, v: string) {
    && i + |prefix| + |v| + 2 <= |s|
    && s[i..i + |prefix|] == prefix
    && s[i + |prefix|..i + |prefix| + |v|] == v
    && NoLineTerminator(v)
    && s[i + |prefix| + |v|..i + |prefix| + |v| + 2] == "\r\n"
  }

  /** The leftmost match: no match starts before offset `i`. */
  ghost predicate IsFirstMatch(s: string, prefix: string, i: nat, v: string) {
    IsMatchAt(s, prefix, i, v) && forall j: nat, w :: j < i ==> !IsMatchAt(s, prefix, j, w)
  }

  /** The first occurrence of the literal `p`. */
  predicate IsFirstOccurrence(s: string, p: string, k: nat) {
    OccursAt(s, p, k) && forall j: nat :: j < k ==> !OccursAt(s, p, j)
  }

  datatype Match = Match(start: nat, value: string)

  /** The end of the run of non-terminators that starts at `k`. */
  function RunEnd(s: string, k: nat): (e: nat)
    requires k <= |s|
    ensures k <= e <= |s|
    ensures forall j :: k <= j < e ==> !IsLineTerminator(s[j])
    ensures e < |s| ==> IsLineTerminator(s[e])
    decreases |s| - k
  {
    if k == |s| || IsLineTerminator(s[k]) then k else RunEnd(s, k + 1)
  }

  /** A capture is the whole run of non-terminators after the prefix, because a CR ends it. */
  lemma CaptureIsRun(s: string, prefix: string, i: nat, v: string)
    requires IsMatchAt(s, prefix, i, v)
    ensures RunEnd(s, i + |prefix|) == i + |prefix| + |v|
  {
    var k := i + |prefix|;
    assert s[k + |v|] == '\r' by {
      assert s[k + |v|..k + |v| + 2][0] == '\r';
    }
    assert forall j :: k <= j < k + |v| ==> s[j] == v[j - k];
  }

  lemma CapturesAreRuns(s: string, prefix: string, i: nat)
    ensures forall v :: IsMatchAt(s, prefix, i, v) ==> RunEnd(s, i + |prefix|) == i + |prefix| + |v|
  {
    forall v | IsMatchAt(s, prefix, i, v)
      ensures RunEnd(s, i + |prefix|) == i + |prefix| + |v|
    {
      CaptureIsRun(s, prefix, i, v);
    }
  }

  /** At a given offset the regular expression captures at most one value. */
  lemma CaptureUnique(s: string, prefix: string, i: nat, v: string, w: string)
    requires IsMatchAt(s, prefix, i, v) && IsMatchAt(s, prefix, i, w)
    ensures v == w
  {
    CaptureIsRun(s, prefix, i, v);
    CaptureIsRun(s, prefix, i, w);
  }

  /** After the prefix, the regular expression matches exactly when the run is followed by CRLF. */
  lemma RunMatches(s: string, prefix: string, i: nat)
    requires OccursAt(s, prefix, i)
    ensures var k := i + |prefix|; var e := RunEnd(s, k);
      && (OccursAt(s, "\r\n", e) ==> IsMatchAt(s, prefix, i, s[k..e]))
      && (!OccursAt(s, "\r\n", e) ==> forall v :: !IsMatchAt(s, prefix, i, v))
  {
    var k := i + |prefix|;
    var e := RunEnd(s, k);
    if OccursAt(s, "\r\n", e) {
      var v := s[k..e];
      assert s[k..k + |v|] == v;
      assert forall j :: 0 <= j < |v| ==> v[j] == s[k + j];
    } else {
      forall v | IsMatchAt(s, prefix, i, v)
        ensures false
      {
        CaptureIsRun(s, prefix, i, v);
      }
    }
  }

  /** Whether the regular expression matches at offset `i`, and what it captures there. */
  function MatchAt(s: string, prefix: string, i: nat): (r: Option<string>)
    ensures r.Some? ==> IsMatchAt(s, prefix, i, r.value)
    ensures r.None? ==> forall v :: !IsMatchAt(s, prefix, i, v)
  {
    if !OccursAt(s, prefix, i) then None
    else
      var k := i + |prefix|;
      var e := RunEnd(s, k);
      RunMatches(s, prefix, i);
      if OccursAt(s, "\r\n", e) then Some(s[k..e]) else None
  }

  /** The leftmost match at or after `from` (`range(of:options: .regularExpression)`). */
  function FirstMatch(s: string, prefix: string, from: nat): (r: Option<Match>)
    ensures r.Some? ==> from <= r.value.start && IsMatchAt(s, prefix, r.value.start, r.value.value)
    ensures r.Some? ==> forall j: nat, w :: from <= j < r.value.start ==> !IsMatchAt(s, prefix, j, w)
    ensures r.None? ==> forall j: nat, w :: from <= j ==> !IsMatchAt(s, prefix, j, w)
    decreases |s| - from
  {
    if |s| < from then None
    else
      match MatchAt(s, prefix, from)
      case Some(v) => Some(Match(from, v))
      case None => FirstMatch(s, prefix, from + 1)
  }

  /** The first match found by the search is the only leftmost match. */
  lemma FirstMatchIsTheFirst(s: string, prefix: string, i: nat, v: string)
    requires IsFirstMatch(s, prefix, i, v)
    ensures FirstMatch(s, prefix, 0) == Some(Match(i, v))
  {
    var r := FirstMatch(s, prefix, 0);
    assert r.Some?;
    assert r.value.start == i;
    CaptureUnique(s, prefix, i, v, r.value.value);
  }

  /**
   * The matched text `s[range]` cut by Swift's Character offsets: `drop`
   * Characters off the front and one (the CRLF) off the back.
   */
  function MatchedSlice(s: string, prefix: string, drop: nat): (r: Option<string>)
    requires prefix != [] && NoCR(prefix) && drop <= |prefix|
    ensures r.Some? <==> FirstMatch(s, prefix, 0).Some?
    ensures r.Some? ==> r.value == prefix[drop..] + FirstMatch(s, prefix, 0).value.value
  {
    match FirstMatch(s, prefix, 0)
    case None => None
    case Some(m) =>
      var line := s[m.start..m.start + |prefix| + |m.value| + 2];
      assert line == prefix + m.value + "\r\n";
      assert NoCR(m.value) by {
        forall j | 0 <= j < |m.value| ensures m.value[j] != '\r' {
          assert !IsLineTerminator(m.value[j]);
        }
      }
      SliceOfTerminatedLine(prefix, m.value, drop);
      Some(SliceCharacters(line, drop, 1))
  }

  // ---------------------------------------------------------------------------
  // The status code (CellularConnectionManager.httpStatusCode)

  lemma FlattenThree(cs: seq<string>)
    requires |cs| == 3
    ensures Flatten(cs) == cs[0] + cs[1] + cs[2]
  {
    assert cs[1..][1..][1..] == [];
    assert Flatten(cs[1..][1..]) == cs[2];
  }

  /**
   * The Characters at offsets 9 ..< 12: "302" in "HTTP/1.1 302 Found". They
   * are three scalars, unless one of them is the CRLF.
   */
  function StatusText(response: string): (t: string)
    requires 12 <= |Characters(response)|
    ensures |t| == 3 || !NoCR(t)
  {
    var cs := Characters(response)[9..12];
    CharactersFlatten(response);
    assert forall i :: 0 <= i < 3 ==> cs[i] == Characters(response)[9 + i];
    FlattenThree(cs);
    var t := Flatten(cs);
    assert cs[0] == "\r\n" ==> t[0] == '\r';
    assert cs[1] == "\r\n" ==> t[|cs[0]|] == '\r';
    assert cs[2] == "\r\n" ==> t[|cs[0]| + |cs[1]|] == '\r';
    t
  }

  /** `Int(status) ?? 0` for the three Characters at offsets 9 ..< 12. */
  function HttpStatusCode(response: string): (code: int)
    requires 12 <= |Characters(response)|
    ensures -99 <= code <= 999
    ensures ParseInt(StatusText(response)).None? ==> code == 0
    ensures ParseInt(StatusText(response)).Some? ==> code == ParseInt(StatusText(response)).value
  {
    var text := StatusText(response);
    match ParseInt(text)
    case None => 0
    case Some(n) =>
      assert text[0] != '\r' && text[1] != '\r' && |text| == 3;
      DecimalValueBound(text[1..]);
      if IsAsciiDigit(text[0]) then
        DecimalValueBound(text);
        n
      else n
  }

  /** Twelve scalars without a CR are twelve Characters, so the code sits at scalars 9 ..< 12. */
  lemma StatusTextOfPlainLine(response: string)
    requires 12 <= |response| && NoCR(response[..12])
    ensures 12 <= |Characters(response)|
    ensures StatusText(response) == response[9..12]
  {
    var head := response[..12];
    assert response == head + response[12..];
    CharactersAppend(head, response[12..]);
    CharactersOfNoCR(head);
    var cs := Characters(response)[9..12];
    assert cs == [[response[9]], [response[10]], [response[11]]];
    FlattenThree(cs);
  }

  lemma DecimalValueOfThree(t: string)
    requires |t| == 3 && AllDigits(t)
    ensures DecimalValue(t) == 100 * DigitValue(t[0]) + 10 * DigitValue(t[1]) + DigitValue(t[2])
  {
    var t2 := t[..2];
    assert t2[..1] == [t[0]] && t2[1] == t[1];
    assert DecimalValue(t) == 10 * DecimalValue(t2) + DigitValue(t[2]);
    assert DecimalValue(t2) == 10 * DecimalValue([t[0]]) + DigitValue(t[1]);
    assert [t[0]][..0] == [];
    assert DecimalValue([t[0]]) == DigitValue(t[0]);
  }

  /** A conventional status line gives the three digits' value. */
  lemma StatusCodeOfDigits(response: string)
    requires 12 <= |response| && NoCR(response[..12]) && AllDigits(response[9..12])
    ensures 12 <= |Characters(response)|
    ensures HttpStatusCode(response) ==
      100 * DigitValue(response[9]) + 10 * DigitValue(response[10]) + DigitValue(response[11])
  {
    StatusTextOfPlainLine(response);
    var t := response[9..12];
    DecimalValueOfThree(t);
    DecimalValueBound(t);
    assert ParseInt(t) == Some(DecimalValue(t) as int);
  }

  // ---------------------------------------------------------------------------
  // Redirects (CellularConnectionManager.parseRedirect)

  /** `301...303 ~= status || 307...308 ~= status`. */
  predicate IsRedirectStatus(code: int) {
    301 <= code <= 303 || 307 <= code <= 308
  }

  /** Without its first letter, the pattern accepts both `Location:` and `location:`. */
  const LocationPattern := "ocation: "

  /**
   * The text of the Location header when the status is a redirect: the value of
   * the first `ocation: <v>\r\n` line, or nothing.
   */
  function ParseRedirect(response: string): (location: Option<string>)
    requires 12 <= |Characters(response)|
    ensures location.Some? ==>
      IsRedirectStatus(HttpStatusCode(response)) && exists i: nat :: IsFirstMatch(response, LocationPattern, i, location.value)
    ensures location.None? ==>
      !IsRedirectStatus(HttpStatusCode(response)) || forall i: nat, v :: !IsMatchAt(response, LocationPattern, i, v)
  {
    if IsRedirectStatus(HttpStatusCode(response)) then
      var r := MatchedSlice(response, LocationPattern, 9);
      if r.Some? then
        var m := FirstMatch(response, LocationPattern, 0).value;
        assert LocationPattern[9..] == "";
        assert r.value == m.value;
        assert IsFirstMatch(response, LocationPattern, m.start, m.value);
        r
      else r
    else None
  }

  /** A line `<prefix><v>\r\n` placed after `before` is a match. */
  lemma MatchOfLine(s: string, before: string, prefix: string, v: string, after: string)
    requires s == before + prefix + v + "\r\n" + after
    requires NoLineTerminator(v)
    ensures IsMatchAt(s, prefix, |before|, v)
  {
    var i := |before|;
    assert s[i..i + |prefix|] == prefix;
    assert s[i + |prefix|..i + |prefix| + |v|] == v;
    assert s[i + |prefix| + |v|..i + |prefix| + |v| + 2] == "\r\n";
  }

  /** The first line `<prefix><v>\r\n`, with no earlier occurrence of the prefix, is the match found. */
  lemma FirstMatchOfLine(s: string, before: string, prefix: string, v: string, after: string)
    requires s == before + prefix + v + "\r\n" + after
    requires NoLineTerminator(v)
    requires forall j: nat :: j < |before| ==> !OccursAt(s, prefix, j)
    ensures FirstMatch(s, prefix, 0) == Some(Match(|before|, v))
  {
    MatchOfLine(s, before, prefix, v, after);
    forall j: nat, w | j < |before|
      ensures !IsMatchAt(s, prefix, j, w)
    {
      assert !OccursAt(s, prefix, j);
    }
    FirstMatchIsTheFirst(s, prefix, |before|, v);
  }

  /** A prefix line right after a character that cannot start the prefix is the first match. */
  lemma FirstMatchAfter(s: string, head: string, initial: char, prefix: string, v: string, tail: string)
    requires s == head + [initial] + prefix + v + "\r\n" + tail
    requires prefix != [] && initial != prefix[0]
    requires NoLineTerminator(v)
    requires forall j: nat :: j < |head| ==> !OccursAt(s, prefix, j)
    ensures FirstMatch(s, prefix, 0) == Some(Match(|head| + 1, v))
  {
    var before := head + [initial];
    assert s == before + prefix + v + "\r\n" + tail;
    assert s[|head|] == initial;
    assert !OccursAt(s, prefix, |head|);
    FirstMatchOfLine(s, before, prefix, v, tail);
  }

  /** The pattern finds a `Location:` or a `location:` line alike. */
  lemma LocationLineEitherCase(response: string, head: string, initial: char, v: string, tail: string)
    requires response == head + [initial] + LocationPattern + v + "\r\n" + tail
    requires initial == 'L' || initial == 'l'
    requires NoLineTerminator(v)
    requires forall j: nat :: j < |head| ==> !OccursAt(response, LocationPattern, j)
    ensures MatchedSlice(response, LocationPattern, 9) == Some(v)
  {
    FirstMatchAfter(response, head, initial, LocationPattern, v, tail);
    assert LocationPattern[9..] == [];
    assert LocationPattern[9..] + v == v;
  }

  /** Either spelling of the header is followed, up to the CRLF that ends its line. */
  lemma ParseRedirectEitherCase(response: string, head: string, initial: char, v: string, tail: string)
    requires response == head + [initial] + LocationPattern + v + "\r\n" + tail
    requires initial == 'L' || initial == 'l'
    requires NoLineTerminator(v)
    requires forall j: nat :: j < |head| ==> !OccursAt(response, LocationPattern, j)
    requires 12 <= |Characters(response)| && IsRedirectStatus(HttpStatusCode(response))
    ensures ParseRedirect(response) == Some(v)
  {
    LocationLineEitherCase(response, head, initial, v, tail);
  }

  // ---------------------------------------------------------------------------
  // The JSON body (CellularConnectionManager.parseJsonResponse, up to the decoder)

  const ContentTypePattern := "Content-Type: "
  const JsonMediaType := "application/json"
  const HeaderTerminator := "\r\n\r\n"

  /** Text in front that cannot start the pattern does not change whether it occurs. */
  lemma ContainsPastPrefix(q: string, v: string, p: string)
    requires p != [] && forall i :: 0 <= i < |q| ==> q[i] != p[0]
    ensures Contains(q + v, p) <==> Contains(v, p)
  {
    if Contains(q + v, p) {
      var i: nat :| i <= |q + v| && OccursAt(q + v, p, i);
      assert (q + v)[i] == p[0];
      assert (q + v)[i..i + |p|] == v[i - |q|..i - |q| + |p|];
      assert OccursAt(v, p, i - |q|);
    }
    if Contains(v, p) {
      var i: nat :| i <= |v| && OccursAt(v, p, i);
      assert (q + v)[|q| + i..|q| + i + |p|] == v[i..i + |p|];
      assert OccursAt(q + v, p, |q| + i);
    }
  }

  /**
   * What `contentType.contains("application/json")` decides. The Swift code
   * slices the `Content-Type: ` line 9 Characters in, so it searches
   * "ype: <value>"; the leftover "ype: " never changes the outcome.
   */
  lemma ContentTypeNamesJson(response: string)
    ensures var ct := MatchedSlice(response, ContentTypePattern, 9);
      (ct.Some? && Contains(ct.value, JsonMediaType)) <==>
      exists i: nat, v :: IsFirstMatch(response, ContentTypePattern, i, v) && Contains(v, JsonMediaType)
  {
    var ct := MatchedSlice(response, ContentTypePattern, 9);
    if ct.Some? {
      var m := FirstMatch(response, ContentTypePattern, 0).value;
      assert ct.value == "ype: " + m.value;
      ContainsPastPrefix("ype: ", m.value, JsonMediaType);
      assert IsFirstMatch(response, ContentTypePattern, m.start, m.value);
      forall i: nat, v | IsFirstMatch(response, ContentTypePattern, i, v)
        ensures v == m.value
      {
        FirstMatchIsTheFirst(response, ContentTypePattern, i, v);
      }
    }
  }

  /**
   * The text handed to the JSON decoder: everything after the first blank line,
   * provided the status is 200 and the `Content-Type` names `application/json`.
   */
  function JsonBody(response: string): (body: Option<string>)
    requires 12 <= |Characters(response)|
    ensures body.Some? ==> exists k: nat :: IsFirstOccurrence(response, HeaderTerminator, k) && body.value == response[k + 4..]
  {
    var ct := MatchedSlice(response, ContentTypePattern, 9);
    if HttpStatusCode(response) != 200 || ct.None? || !Contains(ct.value, JsonMediaType) then None
    else
      match IndexOf(response, HeaderTerminator, 0)
      case None => None
      case Some(k) =>
        assert IsFirstOccurrence(response, HeaderTerminator, k);
        Some(response[k + 4..])
  }

  /** A body is handed over exactly when the status is 200, the type is JSON and the headers end. */
  lemma JsonBodyWhen(response: string)
    requires 12 <= |Characters(response)|
    ensures JsonBody(response).Some? <==>
      && HttpStatusCode(response) == 200
      && (exists i: nat, v :: IsFirstMatch(response, ContentTypePattern, i, v) && Contains(v, JsonMediaType))
      && Contains(response, HeaderTerminator)
  {
    ContentTypeNamesJson(response);
    IndexOfFindsContained(response, HeaderTerminator);
  }
}
