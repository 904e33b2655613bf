/**
 * TraceCollector and DebugInfo: a trace buffer switched on and off per check
 * session, and a map of debug lines keyed by their timestamps whose rendering
 * lists the lines in ascending key order.
 */
module Tracing {
  import opened Wrappers
  import CellularConnection

  // ---------------------------------------------------------------------------
  // The order of the keys

  /**
   * Swift's `<` on the timestamp keys, lexicographic on scalars (the keys are
   * ISO 8601 timestamps, so no normalisation is involved).
   */
  predicate Below(a: string, b: string)
    decreases |a|
  {
    b != [] && (a == [] || a[0] < b[0] || (a[0] == b[0] && Below(a[1..], b[1..])))
  }

  lemma {:induction false} BelowIrreflexive(a: string)
    ensures !Below(a, a)
    decreases |a|
  {
    if a != [] {
      BelowIrreflexive(a[1..]);
    }
  }

  lemma {:induction false} BelowTransitive(a: string, b: string, c: string)
    requires Below(a, b) && Below(b, c)
    ensures Below(a, c)
    decreases |a|
  {
    if a != [] && a[0] == b[0] && b[0] == c[0] {
      BelowTransitive(a[1..], b[1..], c[1..]);
    }
  }

  lemma {:induction false} BelowTotal(a: string, b: string)
    ensures a == b || Below(a, b) || Below(b, a)
    decreases |a|
  {
    if a != [] && b != [] && a[0] == b[0] {
      BelowTotal(a[1..], b[1..]);
      if a[1..] == b[1..] {
        assert a == [a[0]] + a[1..] && b == [b[0]] + b[1..];
      }
    }
  }

  /** Strictly ascending, hence without duplicates. */
  predicate Ascending(ks: seq<string>) {
    forall i, j :: 0 <= i < j < |ks| ==> Below(ks[i], ks[j])
  }

  function Members(ks: seq<string>): set<string> {
    set k | k in ks
  }

  lemma NoMembers(ks: seq<string>)
    ensures Members(ks) == {} <==> ks == []
  {
    if ks != [] {
      assert ks[0] in Members(ks);
    }
  }

  /** Puts `k` into its place in an ascending sequence (no change when it is there already). */
  function Insert(ks: seq<string>, k: string): (r: seq<string>)
    requires Ascending(ks)
    ensures Ascending(r) && Members(r) == Members(ks) + {k}
    decreases |ks|
  {
    if ks == [] then [k]
    else if k == ks[0] then ks
    else if Below(k, ks[0]) then
      PrependBelow(k, ks);
      [k] + ks
    else
      var tail := Insert(ks[1..], k);
      KeepHead(ks, k, tail);
      [ks[0]] + tail
  }

  lemma PrependBelow(k: string, ks: seq<string>)
    requires Ascending(ks) && ks != [] && Below(k, ks[0])
    ensures Ascending([k] + ks) && Members([k] + ks) == Members(ks) + {k}
  {
    forall j | 0 < j < |ks| ensures Below(k, ks[j]) {
      BelowTransitive(k, ks[0], ks[j]);
    }
    var longer := [k] + ks;
    forall i, j | 0 <= i < j < |longer| ensures Below(longer[i], longer[j]) {
      assert longer[j] == ks[j - 1];
      if i > 0 {
        assert longer[i] == ks[i - 1];
      }
    }
  }

  lemma KeepHead(ks: seq<string>, k: string, tail: seq<string>)
    requires Ascending(ks) && ks != [] && k != ks[0] && !Below(k, ks[0])
    requires Ascending(tail) && Members(tail) == Members(ks[1..]) + {k}
    ensures Ascending([ks[0]] + tail) && Members([ks[0]] + tail) == Members(ks) + {k}
  {
    BelowTotal(k, ks[0]);
    forall x | x in tail ensures Below(ks[0], x) {
      assert x in Members(tail);
      if x != k {
        var j :| 0 <= j < |ks[1..]| && ks[1..][j] == x;
        assert ks[j + 1] == x;
      }
    }
    var longer := [ks[0]] + tail;
    forall i, j | 0 <= i < j < |longer| ensures Below(longer[i], longer[j]) {
      assert longer[j] == tail[j - 1];
      if i > 0 {
        assert longer[i] == tail[i - 1];
      }
    }
    assert ks == [ks[0]] + ks[1..];
    assert Members(ks) == {ks[0]} + Members(ks[1..]);
    assert Members([ks[0]] + tail) == {ks[0]} + Members(tail);
  }

  /** Two ascending sequences with the same members are the same sequence. */
  lemma {:induction false} AscendingUnique(a: seq<string>, b: seq<string>)
    requires Ascending(a) && Ascending(b) && Members(a) == Members(b)
    ensures a == b
    decreases |a|
  {
    if a != [] {
      assert a[0] in Members(b);
      assert b != [];
      if a[0] != b[0] {
        assert b[0] in Members(a);
        var i :| 0 <= i < |a| && a[i] == b[0];
        var j :| 0 <= j < |b| && b[j] == a[0];
        assert Below(a[0], b[0]) && Below(b[0], a[0]);
        BelowTransitive(a[0], b[0], a[0]);
        BelowIrreflexive(a[0]);
        assert false;
      }
      forall x ensures x in Members(a[1..]) <==> x in Members(b[1..]) {
        if x in Members(a[1..]) {
          var i :| 0 <= i < |a[1..]| && a[1..][i] == x;
          assert Below(a[0], x);
          BelowIrreflexive(a[0]);
          assert x in Members(a) && x != b[0];
          var j :| 0 <= j < |b| && b[j] == x;
          assert b[1..][j - 1] == x;
        }
        if x in Members(b[1..]) {
          var j :| 0 <= j < |b[1..]| && b[1..][j] == x;
          assert Below(b[0], x);
          BelowIrreflexive(b[0]);
          assert x in Members(b) && x != a[0];
          var i :| 0 <= i < |a| && a[i] == x;
          assert a[1..][i - 1] == x;
        }
      }
      assert Members(a[1..]) == Members(b[1..]);
      AscendingUnique(a[1..], b[1..]);
      assert a == [a[0]] + a[1..] && b == [b[0]] + b[1..];
    } else {
      NoMembers(b);
    }
  }

  /** `keys.sorted()`: the keys in ascending order. */
  ghost function SortedKeys(keys: set<string>): (ks: seq<string>)
    ensures Ascending(ks) && Members(ks) == keys
    decreases keys
  {
    if keys == {} then []
    else
      var k :| k in keys;
      Insert(SortedKeys(keys - {k}), k)
  }

  // ---------------------------------------------------------------------------
  // The rendering of the debug buffer

  /** The value `add(tag:log:)` stores: `"tag - log"`, or the bare log without a tag. */
  function Entry(tag: Option<string>, log: string): (e: string)
    ensures |e| >= |log| && e[|e| - |log|..] == log
    ensures tag.None? ==> e == log
    ensures tag.Some? ==> |e| == |tag.value| + 3 + |log| && e[..|tag.value| + 3] == tag.value + " - "
  {
    match tag
    case None => log
    case Some(t) => t + " - " + log
  }

  function Line(key: string, value: string): string {
    key + ": " + value
  }

  /** The lines of `ks`, in the order of `ks`, with no separator between them. */
  function Rendered(buffer: map<string, string>, ks: seq<string>): (r: string)
    requires forall k :: k in ks ==> k in buffer
    ensures |r| >= 2 * |ks|
    decreases |ks|
  {
    if ks == [] then ""
    else Rendered(buffer, ks[..|ks| - 1]) + Line(ks[|ks| - 1], buffer[ks[|ks| - 1]])
  }

  /** What `toString()` renders: one `key: value` line per entry, keys ascending; nothing for an empty buffer. */
  ghost function Text(buffer: map<string, string>): (t: string)
    ensures |t| == 0 <==> buffer.Keys == {}
  {
    var ks := SortedKeys(buffer.Keys);
    assert ks != [] ==> ks[0] in Members(ks);
    Rendered(buffer, ks)
  }

  /** Any ascending listing of the keys renders as `Text`. */
  lemma TextIsAscending(buffer: map<string, string>, ks: seq<string>)
    requires Ascending(ks) && Members(ks) == buffer.Keys
    ensures forall k :: k in ks ==> k in buffer
    ensures Text(buffer) == Rendered(buffer, ks)
  {
    AscendingUnique(ks, SortedKeys(buffer.Keys));
  }

  /**
   * An entry under a key later than every present key (the next timestamp)
   * renders after all earlier lines.
   */
  lemma TextAppendsLatest(buffer: map<string, string>, now: string, value: string)
    requires forall k :: k in buffer ==> Below(k, now)
    ensures Text(buffer[now := value]) == Text(buffer) + Line(now, value)
  {
    var ks := SortedKeys(buffer.Keys);
    var longer := ks + [now];
    AscendingSnoc(ks, now);
    var after := buffer[now := value];
    MembersSnoc(ks, now);
    assert after.Keys == buffer.Keys + {now};
    TextIsAscending(after, longer);
    assert longer[..|longer| - 1] == ks;
    EarlierKeysKept(buffer, now, value, ks);
    RenderedUnchanged(buffer, after, ks);
    calc {
      Text(after);
      Rendered(after, longer);
      Rendered(after, ks) + Line(now, after[now]);
      Rendered(buffer, ks) + Line(now, value);
    }
  }

  /** The entries under keys below `now` are untouched by an entry under `now`. */
  lemma EarlierKeysKept(buffer: map<string, string>, now: string, value: string, ks: seq<string>)
    requires forall k :: k in buffer ==> Below(k, now)
    requires Members(ks) == buffer.Keys
    ensures forall k :: k in ks ==> k in buffer && k in buffer[now := value] && buffer[now := value][k] == buffer[k]
  {
    forall k | k in ks ensures k in buffer && buffer[now := value][k] == buffer[k] {
      assert k in Members(ks);
      BelowIrreflexive(k);
    }
  }

  /** Proof step: the members of a list with one more key at its end. */
  lemma MembersSnoc(ks: seq<string>, k: string)
    ensures Members(ks + [k]) == Members(ks) + {k}
  {
  }

  /** A key above every member may follow an ascending sequence. */
  lemma AscendingSnoc(ks: seq<string>, k: string)
    requires Ascending(ks) && forall x :: x in ks ==> Below(x, k)
    ensures Ascending(ks + [k])
  {
    var longer := ks + [k];
    forall i, j | 0 <= i < j < |longer| ensures Below(longer[i], longer[j]) {
      assert longer[i] == ks[i];
      if j < |ks| {
        assert longer[j] == ks[j];
      }
    }
  }

  /** Rendering only reads the entries it lists. */
  lemma {:induction false} RenderedUnchanged(buffer: map<string, string>, other: map<string, string>, ks: seq<string>)
    requires forall k :: k in ks ==> k in buffer && k in other && buffer[k] == other[k]
    ensures Rendered(buffer, ks) == Rendered(other, ks)
    decreases |ks|
  {
    if ks != [] {
      RenderedUnchanged(buffer, other, ks[..|ks| - 1]);
    }
  }

  // ---------------------------------------------------------------------------
  // DebugInfo

  /** The debug buffer: timestamps mapped to debug lines. */
  class DebugInfo {
    var bufferMap: map<string, string>

    constructor()
      ensures bufferMap == map[]
    {
      bufferMap := map[];
    }

    /** `add(tag:log:)` at the time `now`; a line under the same timestamp is overwritten. */
    method Add(now: string, tag: Option<string>, log: string)
      modifies this
      ensures bufferMap == old(bufferMap)[now := Entry(tag, log)]
    {
      match tag
      case None =>
        bufferMap := bufferMap[now := log];
      case Some(t) =>
        bufferMap := bufferMap[now := t + " - " + log];
    }

    method Clear()
      modifies this
      ensures bufferMap == map[]
    {
      bufferMap := map[];
    }

    /** `toString()`: every line in ascending key order. */
    method ToString() returns (stringBuffer: string)
      ensures stringBuffer == Text(bufferMap)
    {
      var keys := SortKeys(bufferMap.Keys);
      TextIsAscending(bufferMap, keys);
      stringBuffer := "";
      for i := 0 to |keys|
        invariant stringBuffer == Rendered(bufferMap, keys[..i])
      {
        var key := keys[i];
        assert key in bufferMap;
        var value := bufferMap[key];
        assert keys[..i + 1][..i] == keys[..i];
        stringBuffer := stringBuffer + (key + ": " + value);
      }
      assert keys[..|keys|] == keys;
    }
  }

  /** `sorted()` on the key set: each key is put into its place in turn. */
  method SortKeys(keys: set<string>) returns (ks: seq<string>)
    ensures Ascending(ks) && Members(ks) == keys
  {
    ks := [];
    var remaining := keys;
    while remaining != {}
      invariant Ascending(ks) && Members(ks) + remaining == keys
      decreases remaining
    {
      var k :| k in remaining;
      ks := Insert(ks, k);
      remaining := remaining - {k};
    }
  }

  // ---------------------------------------------------------------------------
  // TraceCollector

  /** What `traceInfo()` hands out: the trace, the debug buffer itself, and the body. */
  datatype TraceInfo = TraceInfo(trace: string, debugInfo: DebugInfo, responseBody: Option<CellularConnection.JsonObject>)

  class TraceCollector {
    var trace: string
    var isTraceEnabled: bool
    var body: Option<CellularConnection.JsonObject>
    const debugInfo: DebugInfo
    var isDebugInfoCollectionEnabled: bool
    var isConsoleLogsEnabled: bool

    constructor()
      ensures trace == "" && !isTraceEnabled && body.None?
      ensures fresh(debugInfo) && debugInfo.bufferMap == map[]
      ensures !isDebugInfoCollectionEnabled && !isConsoleLogsEnabled
    {
      trace := "";
      isTraceEnabled := false;
      body := None;
      debugInfo := new DebugInfo();
      isDebugInfoCollectionEnabled := false;
      isConsoleLogsEnabled := false;
    }

    /**
     * `startTrace()`, with the device string and the clock as parameters:
     * when tracing is off, switch it on and restart both buffers with the
     * device line; when it is on already, change nothing.
     */
    method StartTrace(device: string, now: string)
      modifies this, debugInfo
      ensures old(isTraceEnabled) ==> unchanged(this) && unchanged(debugInfo)
      ensures !old(isTraceEnabled) ==>
        && isTraceEnabled && trace == device + "\n"
        && debugInfo.bufferMap == map[now := device + "\n"]
      ensures body == old(body) && isDebugInfoCollectionEnabled == old(isDebugInfoCollectionEnabled)
      ensures isConsoleLogsEnabled == old(isConsoleLogsEnabled)
    {
      if !isTraceEnabled {
        isTraceEnabled := true;
        trace := "";
        debugInfo.Clear();
        trace := trace + (device + "\n");
        debugInfo.Add(now, None, device + "\n");
      }
    }

    /** `stopTrace()`: every switch off and both buffers empty; the body stays. */
    method StopTrace()
      modifies this, debugInfo
      ensures !isTraceEnabled && !isDebugInfoCollectionEnabled && !isConsoleLogsEnabled
      ensures trace == "" && debugInfo.bufferMap == map[]
      ensures body == old(body)
    {
      isTraceEnabled := false;
      isDebugInfoCollectionEnabled := false;
      isConsoleLogsEnabled := false;
      trace := "";
      debugInfo.Clear();
    }

    /** `traceInfo()`: the current state, read without change. */
    method GetTraceInfo() returns (info: TraceInfo)
      ensures info.trace == trace && info.debugInfo == debugInfo && info.responseBody == body
    {
      info := TraceInfo(trace, debugInfo, body);
    }

    /** `addTrace(log:)`: the line and a newline, only while tracing. */
    method AddTrace(log: string)
      modifies this`trace
      ensures trace == if isTraceEnabled then old(trace) + log + "\n" else old(trace)
    {
      if isTraceEnabled {
        trace := trace + (log + "\n");
      }
    }

    /**
     * `addDebug(type:tag:log:)` at the time `now`: a debug line only while
     * collection is on; the console switch touches no buffer. The source's
     * default tag is "Tru.ID", so a call that names no tag passes
     * `Some("Tru.ID")`; `None` stands for an explicit `tag: nil`, which stores
     * the bare log.
     */
    method AddDebug(now: string, tag: Option<string>, log: string)
      modifies debugInfo
      ensures debugInfo.bufferMap ==
        if isDebugInfoCollectionEnabled then old(debugInfo.bufferMap)[now := Entry(tag, log)]
        else old(debugInfo.bufferMap)
    {
      if isDebugInfoCollectionEnabled {
        debugInfo.Add(now, tag, log);
      }
    }

    /** `addBody(body:)`: the stored body is replaced. */
    method AddBody(newBody: Option<CellularConnection.JsonObject>)
      modifies this`body
      ensures body == newBody
    {
      body := newBody;
    }
  }

  /**
   * A debug session: debug lines added at ascending timestamps after a
   * `startTrace` render in the order they were added, after the device line.
   */
  lemma {:induction false} SessionRendersInOrder(device: string, times: seq<string>, lines: seq<string>)
    requires |times| == |lines| && times != [] && Ascending(times)
    ensures Text(Session(device, times, lines)) == Line(times[0], device + "\n") + Lines(times[1..], lines[1..])
    decreases |times|
  {
    if |times| == 1 {
      TextOfOneLine(times[0], device + "\n");
      assert Lines(times[1..], lines[1..]) == "";
    } else {
      var n := |times| - 1;
      AscendingPrefix(times, n);
      SessionRendersInOrder(device, times[..n], lines[..n]);
      SessionStep(device, times, lines);
      LinesOfTail(times, lines);
    }
  }

  /** Proof step: a prefix of an ascending list is ascending. */
  lemma AscendingPrefix(ks: seq<string>, n: nat)
    requires Ascending(ks) && n <= |ks|
    ensures Ascending(ks[..n])
  {
  }

  /** Proof step: dropping the first pair and then the last is dropping the last and then the first. */
  lemma LinesOfTail(times: seq<string>, lines: seq<string>)
    requires |times| == |lines| && |times| > 1
    ensures var n := |times| - 1;
      Lines(times[1..], lines[1..]) == Lines(times[..n][1..], lines[..n][1..]) + Line(times[n], lines[n])
  {
    var n := |times| - 1;
    assert times[..n][1..] == times[1..][..n - 1];
    assert lines[..n][1..] == lines[1..][..n - 1];
  }

  /** The last line added, at the latest time, renders last. */
  lemma SessionStep(device: string, times: seq<string>, lines: seq<string>)
    requires |times| == |lines| && |times| > 1 && Ascending(times)
    ensures var n := |times| - 1;
      Text(Session(device, times, lines)) == Text(Session(device, times[..n], lines[..n])) + Line(times[n], lines[n])
  {
    var n := |times| - 1;
    var before := Session(device, times[..n], lines[..n]);
    SessionKeys(device, times[..n], lines[..n]);
    forall k | k in before ensures Below(k, times[n]) {
      var j :| 0 <= j < n && times[..n][j] == k;
    }
    TextAppendsLatest(before, times[n], lines[n]);
  }

  /** A buffer of one line renders as that line. */
  lemma TextOfOneLine(key: string, value: string)
    ensures Text(map[key := value]) == Line(key, value)
  {
    var empty: map<string, string> := map[];
    assert Text(empty) == "" by {
      assert SortedKeys({}) == [];
    }
    TextAppendsLatest(empty, key, value);
    assert empty[key := value] == map[key := value];
  }

  /** The debug buffer after a start at `times[0]` and a line per later time. */
  function Session(device: string, times: seq<string>, lines: seq<string>): (buffer: map<string, string>)
    requires |times| == |lines| && times != []
    decreases |times|
  {
    if |times| == 1 then map[times[0] := device + "\n"]
    else
      var n := |times| - 1;
      Session(device, times[..n], lines[..n])[times[n] := lines[n]]
  }

  lemma {:induction false} SessionKeys(device: string, times: seq<string>, lines: seq<string>)
    requires |times| == |lines| && times != []
    ensures Session(device, times, lines).Keys == Members(times)
    decreases |times|
  {
    if |times| > 1 {
      var n := |times| - 1;
      SessionKeys(device, times[..n], lines[..n]);
      assert times == times[..n] + [times[n]];
      assert Members(times) == Members(times[..n]) + {times[n]};
    }
  }

  /** The lines of the pairs, concatenated in sequence order. */
  function Lines(times: seq<string>, lines: seq<string>): string
    requires |times| == |lines|
    decreases |times|
  {
    if times == [] then ""
    else
      var n := |times| - 1;
      Lines(times[..n], lines[..n]) + Line(times[n], lines[n])
  }
}
