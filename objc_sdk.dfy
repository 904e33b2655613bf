/**
 * ObjcTruSDK, the Objective-C facade: the comma-separated list of the
 * handset's mobile operators (MCC followed by MNC) built once at
 * initialisation, and the remapping of reachability results into a pair of
 * optionals.
 */
module ObjcSdk {
  import opened Wrappers
  import opened SwiftText
  import opened Reachability

  /** A `CTCarrier`: its mobile country code and mobile network code, either possibly absent. */
  datatype Carrier = Carrier(mobileCountryCode: Option<string>, mobileNetworkCode: Option<string>)

  /**
   * `String(format: "%@%@", mcc ?? "", mnc ?? "")`, trimmed of whitespace and
   * newlines: the two codes joined, with only the whitespace around them cut
   * off, and empty exactly when both codes together are blank.
   */
  function OperatorCode(c: Carrier): (code: string)
    ensures var joined := c.mobileCountryCode.GetOr("") + c.mobileNetworkCode.GetOr("");
      && |code| <= |joined|
      && IsTrimmedSegment(joined, code)
      && (code == "" <==> forall k :: 0 <= k < |joined| ==> IsWhitespaceOrNewline(joined[k]))
  {
    Trim(c.mobileCountryCode.GetOr("") + c.mobileNetworkCode.GetOr(""))
  }

  /** The non-empty operator codes of the carriers, in iteration order. */
  function OperatorCodes(carriers: seq<Carrier>): (codes: seq<string>)
    ensures |codes| <= |carriers|
    ensures forall i :: 0 <= i < |codes| ==> codes[i] != ""
    decreases |carriers|
  {
    if carriers == [] then []
    else
      var n := |carriers| - 1;
      var front := OperatorCodes(carriers[..n]);
      if OperatorCode(carriers[n]) != "" then front + [OperatorCode(carriers[n])] else front
  }

  /** Some carrier of the sequence has the code `op`. */
  predicate HasCode(carriers: seq<Carrier>, op: string) {
    exists c :: c in carriers && OperatorCode(c) == op
  }

  /** A code is listed exactly when it is non-empty and some carrier has it. */
  lemma {:induction false} OperatorCodesListed(carriers: seq<Carrier>, op: string)
    ensures op in OperatorCodes(carriers) <==> op != "" && HasCode(carriers, op)
    decreases |carriers|
  {
    if carriers != [] {
      var n := |carriers| - 1;
      var front := carriers[..n];
      var code := OperatorCode(carriers[n]);
      OperatorCodesListed(front, op);
      HasCodeSnoc(carriers, op);
      assert OperatorCodes(carriers) == if code != "" then OperatorCodes(front) + [code] else OperatorCodes(front);
    }
  }

  /** A code is had by the sequence exactly when the front or the last carrier has it. */
  lemma HasCodeSnoc(carriers: seq<Carrier>, op: string)
    requires carriers != []
    ensures var n := |carriers| - 1;
      HasCode(carriers, op) <==> HasCode(carriers[..n], op) || OperatorCode(carriers[n]) == op
  {
    var n := |carriers| - 1;
    if HasCode(carriers, op) {
      HasCodeSplits(carriers, op);
    }
    if HasCode(carriers[..n], op) {
      var c :| c in carriers[..n] && OperatorCode(c) == op;
      assert c in carriers;
    }
  }

  lemma HasCodeSplits(carriers: seq<Carrier>, op: string)
    requires carriers != [] && HasCode(carriers, op)
    ensures var n := |carriers| - 1;
      HasCode(carriers[..n], op) || OperatorCode(carriers[n]) == op
  {
    var n := |carriers| - 1;
    var c :| c in carriers && OperatorCode(c) == op;
    var i :| 0 <= i < |carriers| && carriers[i] == c;
    if i < n {
      assert carriers[..n][i] == c;
    }
  }

  /** The operator list reads back as its codes when no code holds a comma. */
  lemma OperatorsSplitBack(carriers: seq<Carrier>)
    requires forall c, k :: c in carriers && 0 <= k < |OperatorCode(c)| ==> OperatorCode(c)[k] != ','
    ensures OperatorCodes(carriers) == [] ==> Join(OperatorCodes(carriers), ",") == ""
    ensures OperatorCodes(carriers) != [] ==> Split(Join(OperatorCodes(carriers), ","), ",") == OperatorCodes(carriers)
  {
    var codes := OperatorCodes(carriers);
    if codes != [] {
      forall i, k | 0 <= i < |codes| && 0 <= k < |codes[i]| ensures codes[i][k] != ',' {
        OperatorCodesListed(carriers, codes[i]);
        var c :| c in carriers && OperatorCode(c) == codes[i];
      }
      SplitJoin(codes, ",");
    }
  }

  /** A failed reachability request: the error, when one came with it. */
  datatype Reachable<Details> = Reached(details: Details) | Unreached(error: Option<ReachabilityError>)

  const NoErrorType := ReachabilityError("Unknown", "No Error type", -1, "Received an error with no known type")

  /**
   * The switch in `isReachable(dataResidency:completion:)`: details alone on
   * success; on failure the error with its status forced to -1, or a fixed
   * "Unknown" error when none came.
   */
  function Remap<Details>(result: Reachable<Details>): (pair: (Option<Details>, Option<ReachabilityError>))
    ensures result.Reached? ==> pair == (Some(result.details), None)
    ensures result.Unreached? && result.error.Some? ==>
      var e := result.error.value;
      pair == (None, Some(ReachabilityError(e.errorType, e.title, -1, e.detail)))
    ensures result == Unreached(None) ==> pair == (None, Some(NoErrorType))
  {
    match result
    case Unreached(error) =>
      if error.Some? then
        var e := error.value;
        (None, Some(ReachabilityError(e.errorType, e.title, -1, e.detail)))
      else (None, Some(NoErrorType))
    case Reached(details) => (Some(details), None)
  }

  /**
   * Exactly one side of the pair is present, an error always carries status
   * -1, and handing a reported error back in reports it unchanged.
   */
  lemma RemapReportsOneSide<Details>(result: Reachable<Details>)
    ensures var pair := Remap(result);
      && (pair.0.Some? <==> pair.1.None?)
      && (pair.1.Some? ==> pair.1.value.status == -1)
      && (pair.1.Some? ==> Remap(Unreached(pair.1)) == pair)
  {
    match result
    case Reached(d) =>
    case Unreached(error) =>
      var pair := Remap(result);
      var e := pair.1.value;
      assert Remap<Details>(Unreached(pair.1)).1 == Some(ReachabilityError(e.errorType, e.title, -1, e.detail));
  }

  class ObjcTruSDK {
    /** The comma-joined operator codes, fixed at initialisation. */
    const operators: string

    /**
     * `init(connectionManager:)` over the carrier map's values, taken in
     * iteration order (`None` for a missing map).
     */
    constructor(providers: Option<seq<Carrier>>)
      ensures operators == Join(OperatorCodes(providers.GetOr([])), ",")
    {
      var carriers := providers.GetOr([]);
      var ops: seq<string> := [];
      for i := 0 to |carriers|
        invariant ops == OperatorCodes(carriers[..i])
      {
        var carrier := carriers[i];
        var op := Trim(carrier.mobileCountryCode.GetOr("") + carrier.mobileNetworkCode.GetOr(""));
        Utf8LengthPositive(op);
        assert carriers[..i + 1][..i] == carriers[..i];
        if Utf8Length(op) > 0 {
          ops := ops + [op];
        }
      }
      assert carriers[..|carriers|] == carriers;
      operators := Join(ops, ",");
    }

    /**
     * `isReachable(dataResidency:completion:)`: the connection manager's
     * answer for this residency and the operator list, remapped.
     */
    function IsReachable<Details>(dataResidency: Option<string>, reach: (Option<string>, string) -> Reachable<Details>)
      : (pair: (Option<Details>, Option<ReachabilityError>))
      ensures pair == Remap(reach(dataResidency, operators))
      ensures pair.0.Some? <==> reach(dataResidency, operators).Reached?
      ensures pair.1.Some? ==> pair.1.value.status == -1
    {
      RemapReportsOneSide(reach(dataResidency, operators));
      Remap(reach(dataResidency, operators))
    }

    /** `isReachable(completion:)`: the call without a data residency, both results passed on. */
    function IsReachableDefault<Details>(reach: (Option<string>, string) -> Reachable<Details>)
      : (pair: (Option<Details>, Option<ReachabilityError>))
      ensures pair == IsReachable(None, reach)
      ensures pair.0.Some? <==> reach(None, operators).Reached?
      ensures pair.1.Some? ==> pair.1.value.status == -1
    {
      IsReachable(None, reach)
    }
  }
}
