/**
 * The pieces of Swift and Foundation string behaviour the SDK's hand-written
 * HTTP code relies on: substring search, the Character view (where "\r\n" is a
 * single Character), `Int(String)`, UTF-8 lengths, whitespace trimming, and
 * `joined(separator:)` with its inverse.
 *
 * A `string` here is a sequence of Unicode scalars. Only the CRLF grapheme
 * cluster is merged into one Character; combining marks are not.
 */
module SwiftText {
  import opened Wrappers

  // ---------------------------------------------------------------------------
  // Substrings

  predicate StartsWith(s: string, p: string) {
    |p| <= |s| && s[..|p|] == p
  }

  /** `p` occurs in `s` starting at scalar offset `i`. */
  predicate OccursAt(s: string, p: string, i: nat) {
    i + |p| <= |s| && s[i..i + |p|] == p
  }

  predicate Contains(s: string, p: string) {
    exists i: nat | i <= |s| :: OccursAt(s, p, i)
  }

  /** The first offset at or after `from` where `p` occurs (Foundation's `range(of:)`). */
  function IndexOf(s: string, p: string, from: nat): (r: Option<nat>)
    ensures r.Some? ==> from <= r.value && OccursAt(s, p, r.value)
    ensures r.Some? ==> forall j: nat :: from <= j < r.value ==> !OccursAt(s, p, j)
    ensures r.None? ==> forall j: nat :: from <= j ==> !OccursAt(s, p, j)
    decreases |s| - from
  {
    if |s| < from + |p| then None
    else if OccursAt(s, p, from) then Some(from)
    else IndexOf(s, p, from + 1)
  }

  /** A search from the start finds something exactly when the pattern occurs. */
  lemma IndexOfFindsContained(s: string, p: string)
    ensures IndexOf(s, p, 0).Some? <==> Contains(s, p)
  {
    if Contains(s, p) {
      var i: nat :| OccursAt(s, p, i);
      assert IndexOf(s, p, 0).Some?;
    }
  }

  // ---------------------------------------------------------------------------
  // The Character view

  predicate NoCR(s: string) {
    forall i :: 0 <= i < |s| ==> s[i] != '\r'
  }

  lemma NoCRAppend(a: string, b: string)
    requires NoCR(a) && NoCR(b)
    ensures NoCR(a + b)
  {
    assert forall i :: 0 <= i < |a + b| ==> (a + b)[i] == if i < |a| then a[i] else b[i - |a|];
  }

  function Flatten(cs: seq<string>): string {
    if cs == [] then [] else cs[0] + Flatten(cs[1..])
  }

  /**
   * Swift's view of a string as Characters: "\r\n" is one Character, and every
   * other scalar is a Character of its own. Offsets such as
   * `index(_, offsetBy: k)` count these units.
   */
  function Characters(s: string): (cs: seq<string>)
    decreases |s|
  {
    if s == [] then []
    else if 2 <= |s| && s[0] == '\r' && s[1] == '\n' then ["\r\n"] + Characters(s[2..])
    else [s[..1]] + Characters(s[1..])
  }

  /** Joining the Characters back gives the string, and each Character is a CRLF or one scalar. */
  lemma {:induction false} CharactersFlatten(s: string)
    ensures Flatten(Characters(s)) == s
    ensures forall i :: 0 <= i < |Characters(s)| ==> Characters(s)[i] == "\r\n" || |Characters(s)[i]| == 1
    decreases |s|
  {
    if s != [] {
      var k := FirstCharacterLength(s);
      CharactersUnfold(s);
      CharactersFlatten(s[k..]);
      assert s == s[..k] + s[k..];
    }
  }

  /** `t[t.index(start, offsetBy: front) ..< t.index(end, offsetBy: -back)]`. */
  function SliceCharacters(t: string, front: nat, back: nat): string
    requires front + back <= |Characters(t)|
  {
    Flatten(Characters(t)[front..|Characters(t)| - back])
  }

  /** Without a carriage return every scalar is its own Character. */
  lemma {:induction false} CharactersOfNoCR(s: string)
    requires NoCR(s)
    ensures |Characters(s)| == |s|
    ensures forall i :: 0 <= i < |s| ==> Characters(s)[i] == [s[i]]
    decreases |s|
  {
    if s != [] {
      CharactersOfNoCR(s[1..]);
    }
  }

  /** The number of scalars in the first Character of `s`. */
  function FirstCharacterLength(s: string): (n: nat)
    requires s != []
    ensures 1 <= n <= |s|
  {
    if 2 <= |s| && s[0] == '\r' && s[1] == '\n' then 2 else 1
  }

  lemma CharactersUnfold(s: string)
    requires s != []
    ensures Characters(s) == [s[..FirstCharacterLength(s)]] + Characters(s[FirstCharacterLength(s)..])
  {
    if FirstCharacterLength(s) == 2 {
      assert s[..2] == "\r\n";
    }
  }

  /** The Character view of a concatenation splits, unless a CR is glued to an LF. */
  lemma {:induction false} CharactersAppend(a: string, b: string)
    requires a == [] || a[|a| - 1] != '\r'
    ensures Characters(a + b) == Characters(a) + Characters(b)
    decreases |a|
  {
    if a == [] {
      assert a + b == b;
    } else {
      var k := FirstCharacterLength(a);
      assert FirstCharacterLength(a + b) == k;
      calc {
        Characters(a + b);
      == { CharactersUnfold(a + b); }
        [(a + b)[..k]] + Characters((a + b)[k..]);
      == { assert (a + b)[..k] == a[..k]; assert (a + b)[k..] == a[k..] + b; }
        [a[..k]] + Characters(a[k..] + b);
      == { CharactersAppend(a[k..], b); }
        [a[..k]] + (Characters(a[k..]) + Characters(b));
      == { CharactersUnfold(a); }
        Characters(a) + Characters(b);
      }
    }
  }

  /** A line without CR, cut in two and ended by CRLF: the Characters of the parts, then the CRLF. */
  lemma CharactersOfLine(a: string, m: string)
    requires NoCR(a) && NoCR(m)
    ensures Characters(a + m + "\r\n") == Characters(a) + Characters(m) + ["\r\n"]
  {
    var am := a + m;
    assert am == [] || am[|am| - 1] != '\r' by {
      if am != [] {
        if |m| > 0 {
          assert am[|am| - 1] == m[|m| - 1];
        } else {
          assert am[|am| - 1] == a[|a| - 1];
        }
      }
    }
    CharactersAppend(am, "\r\n");
    CharactersAppend(a, m);
    assert Characters("\r\n") == ["\r\n"];
  }

  /**
   * The Swift slice that drops `drop` Characters from the front and one from the
   * back of `p + v + "\r\n"` is `p[drop..] + v`: the closing CRLF is a single
   * Character, so `offsetBy: -1` removes both scalars.
   */
  lemma SliceOfTerminatedLine(p: string, v: string, drop: nat)
    requires p != [] && NoCR(p) && NoCR(v) && drop <= |p|
    ensures drop + 1 <= |Characters(p + v + "\r\n")|
    ensures SliceCharacters(p + v + "\r\n", drop, 1) == p[drop..] + v
  {
    var a, m := p[..drop], p[drop..] + v;
    assert p + v == a + m;
    assert NoCR(a) && NoCR(m) by {
      assert forall i :: 0 <= i < |a| ==> a[i] == p[i];
      assert forall i :: 0 <= i < |m| ==> m[i] == (p + v)[drop + i];
    }
    CharactersOfLine(a, m);
    CharactersOfNoCR(a);
    var cs := Characters(p + v + "\r\n");
    assert cs == Characters(a) + Characters(m) + ["\r\n"];
    assert cs[drop..|cs| - 1] == Characters(m);
    CharactersFlatten(m);
  }

  // ---------------------------------------------------------------------------
  // Decimal numbers and Swift's Int(String)

  predicate IsAsciiDigit(c: char) {
    '0' <= c <= '9'
  }

  predicate AllDigits(s: string) {
    forall i :: 0 <= i < |s| ==> IsAsciiDigit(s[i])
  }

  function DigitValue(c: char): nat
    requires IsAsciiDigit(c)
  {
    c as int - '0' as int
  }

  function DecimalValue(ds: string): nat
    requires AllDigits(ds)
    decreases |ds|
  {
    if ds == [] then 0 else 10 * DecimalValue(ds[..|ds| - 1]) + DigitValue(ds[|ds| - 1])
  }

  function Pow10(n: nat): nat {
    if n == 0 then 1 else 10 * Pow10(n - 1)
  }

  /** A string of `k` digits denotes a number below 10^k. */
  lemma {:induction false} DecimalValueBound(ds: string)
    requires AllDigits(ds)
    ensures DecimalValue(ds) < Pow10(|ds|)
    decreases |ds|
  {
    if ds != [] {
      DecimalValueBound(ds[..|ds| - 1]);
    }
  }

  const IntMin: int := -0x8000_0000_0000_0000
  const IntMax: int := 0x7FFF_FFFF_FFFF_FFFF

  /**
   * Swift's `Int(_: String)`: an optional `+` or `-`, then one or more ASCII
   * digits, and the value must fit the 64-bit `Int`; anything else is nil.
   */
  function ParseInt(s: string): (r: Option<int>)
    ensures r.Some? ==> IntMin <= r.value <= IntMax
    ensures r.Some? ==> |s| > 0 && AllDigits(s[1..]) && (IsAsciiDigit(s[0]) || s[0] == '+' || s[0] == '-')
    ensures r.Some? && IsAsciiDigit(s[0]) ==> r.value == DecimalValue(s)
    ensures r.Some? && s[0] == '+' ==> r.value == DecimalValue(s[1..])
    ensures r.Some? && s[0] == '-' ==> r.value == -(DecimalValue(s[1..]) as int)
    ensures r.Some? && !IsAsciiDigit(s[0]) ==> |s| > 1
    ensures |s| > 0 && IsAsciiDigit(s[0]) && AllDigits(s) && DecimalValue(s) <= IntMax ==> r == Some(DecimalValue(s))
    ensures |s| > 1 && s[0] == '+' && AllDigits(s[1..]) && DecimalValue(s[1..]) <= IntMax ==> r == Some(DecimalValue(s[1..]))
    ensures |s| > 1 && s[0] == '-' && AllDigits(s[1..]) && IntMin <= -(DecimalValue(s[1..]) as int) ==>
      r == Some(-(DecimalValue(s[1..]) as int))
  {
    if s == [] then None
    else
      var negative := s[0] == '-';
      var digits := if s[0] == '+' || s[0] == '-' then s[1..] else s;
      if digits == [] || !AllDigits(digits) then None
      else
        var v: int := if negative then -(DecimalValue(digits) as int) else DecimalValue(digits);
        if IntMin <= v <= IntMax then Some(v) else None
  }

  /** `String(format: "%d", n)` for a natural number. */
  function DecimalText(n: nat): (r: string)
    ensures |r| >= 1 && AllDigits(r)
  {
    if n < 10 then [('0' as int + n) as char]
    else DecimalText(n / 10) + [('0' as int + n % 10) as char]
  }

  /** Printing a number and reading it back gives the number. */
  lemma {:induction false} DecimalTextRoundTrip(n: nat)
    ensures DecimalValue(DecimalText(n)) == n
  {
    if n >= 10 {
      DecimalTextRoundTrip(n / 10);
      var t := DecimalText(n);
      assert t[..|t| - 1] == DecimalText(n / 10);
    }
  }

  /** `Int(String(n))` gives `n` back for every non-negative `Int`. */
  lemma ParseIntOfDecimalText(n: nat)
    requires n <= IntMax
    ensures ParseInt(DecimalText(n)) == Some(n)
  {
    DecimalTextRoundTrip(n);
  }

  // ---------------------------------------------------------------------------
  // UTF-8

  function Utf8Width(c: char): nat {
    if c as int < 0x80 then 1
    else if c as int < 0x800 then 2
    else if c as int < 0x1_0000 then 3
    else 4
  }

  /** The number of bytes in the UTF-8 encoding of `s`. */
  function Utf8Length(s: string): nat
    decreases |s|
  {
    if s == [] then 0 else Utf8Width(s[0]) + Utf8Length(s[1..])
  }

  /** `lengthOfBytes(using: .utf8) > 0` exactly for a non-empty string. */
  lemma Utf8LengthPositive(s: string)
    ensures Utf8Length(s) > 0 <==> s != []
  {
  }

  /** Byte `n` of the UTF-8 encoding of `s` falls strictly inside the encoding of one character. */
  predicate CutsCharacter(s: string, n: nat) {
    exists k :: 0 <= k < |s| && Utf8Length(s[..k]) < n < Utf8Length(s[..k + 1])
  }

  /**
   * Decodes the first `n` bytes of the UTF-8 encoding of `s`. The result is
   * the longest prefix that fits. It is None exactly when byte `n` falls
   * inside one character's encoding: those bytes are not valid UTF-8 on their own.
   */
  function DecodeBytePrefix(s: string, n: nat): (r: Option<string>)
    ensures r.None? <==> CutsCharacter(s, n)
    ensures r.Some? ==> r.value <= s && Utf8Length(r.value) <= n
    ensures r.Some? ==> r.value == s || Utf8Length(r.value) == n
    ensures Utf8Length(s) <= n ==> r == Some(s)
    decreases |s|
  {
    if s == [] || n == 0 then
      assert !CutsCharacter(s, n);
      Some([])
    else
      CutsCharacterStep(s, n);
      if Utf8Width(s[0]) > n then None
      else
        match DecodeBytePrefix(s[1..], n - Utf8Width(s[0]))
        case None => None
        case Some(t) =>
          assert s == [s[0]] + s[1..];
          Some([s[0]] + t)
  }

  /** The UTF-8 length of a non-empty prefix: the first character's width, then the rest. */
  lemma Utf8LengthOfPrefix(s: string, k: nat)
    requires 0 < k <= |s|
    ensures Utf8Length(s[..k]) == Utf8Width(s[0]) + Utf8Length(s[1..][..k - 1])
  {
    assert s[..k][1..] == s[1..][..k - 1];
  }

  /** Byte `n` cuts a character of `s` when it cuts the first one or, past it, one of the rest. */
  lemma CutsCharacterStep(s: string, n: nat)
    requires s != [] && n > 0
    ensures CutsCharacter(s, n) <==>
      Utf8Width(s[0]) > n || (Utf8Width(s[0]) <= n && CutsCharacter(s[1..], n - Utf8Width(s[0])))
  {
    var w := Utf8Width(s[0]);
    Utf8LengthOfPrefix(s, 1);
    if CutsCharacter(s, n) && w <= n {
      var k :| 0 <= k < |s| && Utf8Length(s[..k]) < n < Utf8Length(s[..k + 1]);
      Utf8LengthOfPrefix(s, k + 1);
      if k > 0 {
        Utf8LengthOfPrefix(s, k);
        assert Utf8Length(s[1..][..k - 1]) < n - w < Utf8Length(s[1..][..k]);
      }
    }
    if w > n {
      assert s[..0] == [];
      assert Utf8Length(s[..0]) < n < Utf8Length(s[..1]);
    } else if CutsCharacter(s[1..], n - w) {
      var k :| 0 <= k < |s[1..]| && Utf8Length(s[1..][..k]) < n - w < Utf8Length(s[1..][..k + 1]);
      Utf8LengthOfPrefix(s, k + 1);
      Utf8LengthOfPrefix(s, k + 2);
      assert Utf8Length(s[..k + 1]) < n < Utf8Length(s[..k + 2]);
    }
  }

  // ---------------------------------------------------------------------------
  // Trimming (Foundation's CharacterSet.whitespacesAndNewlines)

  /** General categories Zs, Zl, Zp, plus U+0009 to U+000D and U+0085. */
  predicate IsWhitespaceOrNewline(c: char) {
    || ('\t' <= c <= '\r')
    || c == ' ' || c == '\U{0085}' || c == '\U{00A0}' || c == '\U{1680}'
    || ('\U{2000}' <= c <= '\U{200A}')
    || c == '\U{2028}' || c == '\U{2029}' || c == '\U{202F}' || c == '\U{205F}' || c == '\U{3000}'
  }

  function TrimStart(s: string): (r: string)
    ensures |r| <= |s| && r == s[|s| - |r|..]
    ensures forall k :: 0 <= k < |s| - |r| ==> IsWhitespaceOrNewline(s[k])
    ensures r == [] || !IsWhitespaceOrNewline(r[0])
    decreases |s|
  {
    if s != [] && IsWhitespaceOrNewline(s[0]) then TrimStart(s[1..]) else s
  }

  function TrimEnd(s: string): (r: string)
    ensures |r| <= |s| && r == s[..|r|]
    ensures forall k :: |r| <= k < |s| ==> IsWhitespaceOrNewline(s[k])
    ensures r == [] || !IsWhitespaceOrNewline(r[|r| - 1])
    decreases |s|
  {
    if s != [] && IsWhitespaceOrNewline(s[|s| - 1]) then TrimEnd(s[..|s| - 1]) else s
  }

  /** Everything of `s` in front of offset `i` and from offset `j` on is whitespace. */
  predicate OnlySpaceOutside(s: string, i: int, j: int) {
    && 0 <= i <= j <= |s|
    && (forall k :: 0 <= k < i ==> IsWhitespaceOrNewline(s[k]))
    && (forall k :: j <= k < |s| ==> IsWhitespaceOrNewline(s[k]))
  }

  /** `r` is a segment of `s` with only whitespace in front of and behind it. */
  ghost predicate IsTrimmedSegment(s: string, r: string) {
    exists i, j :: OnlySpaceOutside(s, i, j) && r == s[i..j]
  }

  /**
   * `trimmingCharacters(in: .whitespacesAndNewlines)`: the segment of the
   * string left once the whitespace in front and behind is cut off. It neither
   * starts nor ends with whitespace, and nothing is left exactly when the
   * string was all whitespace.
   */
  function Trim(s: string): (r: string)
    ensures |r| <= |s|
    ensures IsTrimmedSegment(s, r)
    ensures r == [] || (!IsWhitespaceOrNewline(r[0]) && !IsWhitespaceOrNewline(r[|r| - 1]))
    ensures r == [] <==> forall k :: 0 <= k < |s| ==> IsWhitespaceOrNewline(s[k])
  {
    var t := TrimStart(s);
    var r := TrimEnd(t);
    assert IsTrimmedSegment(s, r) by {
      var i := |s| - |t|;
      assert r == s[i..i + |r|];
      assert forall k :: i + |r| <= k < |s| ==> s[k] == t[k - i];
      assert OnlySpaceOutside(s, i, i + |r|);
    }
    assert r != [] ==> r[0] == t[0];
    assert r == [] ==> t == [];
    r
  }

  // ---------------------------------------------------------------------------
  // joined(separator:) and its inverse

  function Join(parts: seq<string>, sep: string): string
    decreases |parts|
  {
    if parts == [] then ""
    else if |parts| == 1 then parts[0]
    else parts[0] + sep + Join(parts[1..], sep)
  }

  /** Cuts `s` at every occurrence of `sep`, left to right. */
  function Split(s: string, sep: string): (parts: seq<string>)
    requires sep != []
    ensures |parts| >= 1
    decreases |s|
  {
    match IndexOf(s, sep, 0)
    case None => [s]
    case Some(k) => [s[..k]] + Split(s[k + |sep|..], sep)
  }

  /** Splitting undoes joining when no part contains the separator's first character. */
  lemma {:induction false} SplitJoin(parts: seq<string>, sep: string)
    requires sep != [] && parts != []
    requires forall i, k :: 0 <= i < |parts| && 0 <= k < |parts[i]| ==> parts[i][k] != sep[0]
    ensures Split(Join(parts, sep), sep) == parts
    decreases |parts|
  {
    var s := Join(parts, sep);
    var h := parts[0];
    if |parts| == 1 {
      assert s == h;
    } else {
      var rest := Join(parts[1..], sep);
      assert s == h + sep + rest;
      assert OccursAt(s, sep, |h|) by {
        assert s[|h|..|h| + |sep|] == sep;
      }
      assert IndexOf(s, sep, 0) == Some(|h|);
      assert s[..|h|] == h;
      assert s[|h| + |sep|..] == rest;
      SplitJoin(parts[1..], sep);
    }
  }
}
