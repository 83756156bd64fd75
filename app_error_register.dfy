/**
 * `NetworkingError`: the app's networking error kinds and the three error
 * values built on them. Each value supplies the facts that the
 * `AppError` protocol extensions turn into a code, a description and a
 * user-info dictionary.
 */
module ErrorRegister {
  import opened Wrappers
  import opened AppError

  /** `NetworkingError.Kind`, an `Int`-backed enum. */
  datatype Kind = EmptyResponse | NotExpectedResultType | UnknownError

  /** The raw value, which is the kind's `code`. */
  function RawValue(k: Kind): int {
    match k
    case EmptyResponse => 10001
    case NotExpectedResultType => 10002
    case UnknownError => 10000
  }

  /** `Kind(rawValue:)`: the kind with that raw value, if there is one. */
  function KindOf(raw: int): (k: Option<Kind>)
    ensures k.Some? ==> RawValue(k.value) == raw
  {
    if raw == 10001 then Some(Kind.EmptyResponse)
    else if raw == 10002 then Some(Kind.NotExpectedResultType)
    else if raw == 10000 then Some(Kind.UnknownError)
    else None
  }

  /** The raw values tell the kinds apart and `Kind(rawValue:)` recovers each kind. */
  lemma KindRawValues()
    ensures forall k :: KindOf(RawValue(k)) == Some(k)
    ensures forall k, j :: RawValue(k) == RawValue(j) ==> k == j
    ensures forall raw :: KindOf(raw).Some? <==> raw in {10000, 10001, 10002}
  {
    forall k ensures KindOf(RawValue(k)) == Some(k) {
      match k
      case EmptyResponse =>
      case NotExpectedResultType =>
      case UnknownError =>
    }
  }

  /**
   * The three error structs. `expected` and `got` are the names Swift
   * prints for the two metatypes.
   */
  datatype NetworkingError =
    | EmptyResponseError(file: Option<string>, line: Option<int>)
    | NotExpectedResultTypeError(file: Option<string>, line: Option<int>, expected: string, got: string)
    | UnknownNetworkError(file: Option<string>, line: Option<int>, statusCode: Option<int>, message: Option<string>)
  {
    /** `code`: the kind's raw value, or for an unknown error its status code when it has one. */
    function Code(): int {
      match this
      case EmptyResponseError(_, _) => RawValue(Kind.EmptyResponse)
      case NotExpectedResultTypeError(_, _, _, _) => RawValue(Kind.NotExpectedResultType)
      case UnknownNetworkError(_, _, statusCode, _) => statusCode.GetOr(RawValue(Kind.UnknownError))
    }

    /** `errorDescription`. */
    function ErrorDescription(): string {
      match this
      case EmptyResponseError(_, _) => "Response is empty"
      case NotExpectedResultTypeError(_, _, expected, got) => "Not Expected result type expected " + expected + " got " + got
      case UnknownNetworkError(_, _, _, message) => message.GetOr("Unknown error")
    }

    /** `localizedDescription`, looked up through the app's `localized` table. */
    function LocalizedDescription(localize: string -> string): (r: Option<string>)
      ensures r.Some?
    {
      match this
      case EmptyResponseError(_, _) => Some(localize("k.network.response_is_empty"))
      case _ => Some(localize(""))
    }

    /** What the error hands to the protocol extensions. */
    function Facts(localize: string -> string): (f: ErrorFacts)
      ensures f.file == file && f.line == line
      ensures ErrorCode(f) == Code()
    {
      ErrorFacts(Code(), ErrorDescription(), LocalizedDescription(localize), file, line)
    }
  }

  /**
   * Each error is of its own kind wherever it was raised, and its user info
   * carries its own description; an unknown error without a status code or
   * a message falls back on 10000 and "Unknown error".
   */
  lemma ErrorsOfTheirKind(e: NetworkingError, localize: string -> string)
    ensures e.EmptyResponseError? ==> Is(e.Facts(localize), RawValue(Kind.EmptyResponse))
    ensures e.NotExpectedResultTypeError? ==> Is(e.Facts(localize), RawValue(Kind.NotExpectedResultType))
    ensures e.UnknownNetworkError? && e.statusCode.None? ==> Is(e.Facts(localize), RawValue(Kind.UnknownError))
    ensures e.UnknownNetworkError? && e.statusCode.Some? ==> ErrorCode(e.Facts(localize)) == e.statusCode.value
    ensures e.UnknownNetworkError? ==>
      ErrorUserInfo(e.Facts(localize))[DescriptionKey] == (if e.message.Some? then e.message.value else "Unknown error")
    ensures e.EmptyResponseError? ==>
      ErrorUserInfo(e.Facts(localize))[LocalizedDescriptionKey] == localize("k.network.response_is_empty")
    ensures !e.UnknownNetworkError? ==> KindOf(e.Code()).Some?
  {
  }

  /**
   * Two errors of the same fixed kind are `==` whatever else they carry, and
   * errors of different fixed kinds never are.
   */
  lemma EqualityByKind(a: NetworkingError, b: NetworkingError, localize: string -> string)
    requires !a.UnknownNetworkError? && !b.UnknownNetworkError?
    ensures Equal(a.Facts(localize), b.Facts(localize)) <==> a.EmptyResponseError? == b.EmptyResponseError?
  {
  }

  /**
   * Because `==` and `is(errorKind:)` compare codes only, an unknown error
   * whose status code is 10001 counts as an empty response.
   */
  lemma StatusCodeCanPassForKind(file: Option<string>, line: Option<int>, message: Option<string>, localize: string -> string)
    ensures var u := UnknownNetworkError(file, line, Some(10001), message);
      && Is(u.Facts(localize), RawValue(Kind.EmptyResponse))
      && Equal(u.Facts(localize), EmptyResponseError(None, None).Facts(localize))
  {
  }
}
