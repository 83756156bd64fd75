/**
 * `AppErrorProtocol` and its default implementations: an app error is
 * identified by its integer code alone, and describes itself through a
 * fixed domain, a user-info dictionary and a one-line description that
 * Swift builds by string interpolation.
 */
module AppError {
  import opened Wrappers

  /** What an error conforming to `DescriptiveErrorProtocol` provides itself. */
  datatype ErrorFacts = ErrorFacts(
    code: int,
    errorDescription: string,
    localizedDescription: Option<string>,
    file: Option<string>,
    line: Option<int>)

  /** Text that `#file` stands for in `kErrorDomain`. */
  const SourceFile: string := "AppProject/_BasicSetup/AppErrorProtocol.swift"
  const DomainPrefix: string := "app.error.domain.name.must.be.set.here "

  /** `kErrorDomain`, also the default `domain` and the `errorDomain` of every app error. */
  function ErrorDomain(): (d: string)
    ensures |d| == |DomainPrefix| + |SourceFile|
    ensures d[..|DomainPrefix|] == DomainPrefix && d[|DomainPrefix|..] == SourceFile
  {
    DomainPrefix + SourceFile
  }

  /** `kCFErrorDescriptionKey` and `kCFErrorLocalizedDescriptionKey`. */
  const DescriptionKey: string := "NSDescription"
  const LocalizedDescriptionKey: string := "NSLocalizedDescription"

  // ---------------------------------------------------------------------
  // Integers as Swift prints them
  // ---------------------------------------------------------------------

  predicate IsDigit(c: char) {
    '0' <= c <= '9'
  }

  predicate AllDigits(s: string) {
    forall k :: 0 <= k < |s| ==> IsDigit(s[k])
  }

  function DigitChar(d: nat): (c: char)
    requires d < 10
    ensures IsDigit(c) && c as int - '0' as int == d
  {
    (d + '0' as int) as char
  }

  /** The decimal digits of `n`, without leading zeros. */
  function NatString(n: nat): (s: string)
    ensures |s| >= 1 && AllDigits(s)
    ensures s[0] == '0' ==> n == 0 && s == "0"
    decreases n
  {
    if n < 10 then [DigitChar(n)] else NatString(n / 10) + [DigitChar(n % 10)]
  }

  /** `"\(i)"` for an `Int`: an optional minus sign, then the digits. */
  function IntString(i: int): (s: string)
    ensures |s| >= 1
  {
    if i < 0 then "-" + NatString(-i) else NatString(i)
  }

  /** Reads a string of decimal digits. */
  function ParseNat(s: string): nat
    requires |s| >= 1 && AllDigits(s)
    decreases |s|
  {
    var last := (s[|s| - 1] as int - '0' as int) as nat;
    if |s| == 1 then last else ParseNat(s[..|s| - 1]) * 10 + last
  }

  /** Reads an optional minus sign and decimal digits. */
  function ParseInt(s: string): int
    requires |s| >= 1
    requires if s[0] == '-' then |s| >= 2 && AllDigits(s[1..]) else AllDigits(s)
  {
    if s[0] == '-' then -(ParseNat(s[1..]) as int) else ParseNat(s)
  }

  lemma {:induction false} ParseNatString(n: nat)
    ensures ParseNat(NatString(n)) == n
    decreases n
  {
    if n >= 10 {
      var s := NatString(n);
      assert s[..|s| - 1] == NatString(n / 10);
      ParseNatString(n / 10);
    }
  }

  /** Printing an integer loses nothing: it reads back as itself, so distinct integers print differently. */
  lemma ParseIntString(i: int)
    ensures var s := IntString(i);
      && (if s[0] == '-' then |s| >= 2 && AllDigits(s[1..]) else AllDigits(s))
      && ParseInt(s) == i
  {
    if i < 0 {
      assert ("-" + NatString(-i))[1..] == NatString(-i);
      ParseNatString(-i);
    } else {
      ParseNatString(i);
    }
  }

  // ---------------------------------------------------------------------
  // The protocol extensions
  // ---------------------------------------------------------------------

  /** `is(errorKind:)`: the kind's code is the error's code. */
  function Is(e: ErrorFacts, kindCode: int): bool {
    kindCode == e.code
  }

  /** `==` on two app errors. */
  function Equal(a: ErrorFacts, b: ErrorFacts): bool {
    a.code == b.code
  }

  /** Errors are equal exactly when each is of the other's kind, and `==` is an equivalence. */
  lemma EqualIsEquivalence()
    ensures forall a, b :: Equal(a, b) <==> Is(a, b.code) && Is(b, a.code)
    ensures forall a :: Equal(a, a)
    ensures forall a, b :: Equal(a, b) ==> Equal(b, a)
    ensures forall a, b, c :: Equal(a, b) && Equal(b, c) ==> Equal(a, c)
  {
  }

  /** `errorCode`. */
  function ErrorCode(e: ErrorFacts): (c: int)
    ensures Is(e, c)
  {
    e.code
  }

  /** `errorUserInfo`: the description, and the localized description or "" when there is none. */
  function ErrorUserInfo(e: ErrorFacts): (info: map<string, string>)
    ensures info.Keys == {DescriptionKey, LocalizedDescriptionKey} && |info| == 2
    ensures info[DescriptionKey] == e.errorDescription
    ensures info[LocalizedDescriptionKey] == e.localizedDescription.GetOr("")
  {
    map[DescriptionKey := e.errorDescription, LocalizedDescriptionKey := e.localizedDescription.GetOr("")]
  }

  /** `recoveryOption`: never any. */
  function RecoveryOption(e: ErrorFacts): (r: Option<string>)
    ensures r.None?
  {
    None
  }

  /** `description`, and `debugDescription`, which is the same text. */
  function Description(e: ErrorFacts): string {
    "domain:" + ErrorDomain() + " code:" + IntString(e.code) + " description:" + e.errorDescription
      + " file:" + e.file.GetOr("-") + " line:" + IntString(e.line.GetOr(0))
  }

  /**
   * A missing file prints as "-" and a missing line as 0, so they cannot be
   * told from a file named "-" at line 0; the description always opens with
   * the domain and ends with the printed line, which reads back as the line.
   */
  lemma DescriptionLaws(e: ErrorFacts)
    ensures Description(e.(file := None, line := None)) == Description(e.(file := Some("-"), line := Some(0)))
    ensures var d := Description(e); var opening := "domain:" + ErrorDomain() + " code:";
      && |opening| <= |d| && d[..|opening|] == opening
    ensures var d := Description(e); var l := IntString(e.line.GetOr(0));
      && |l| <= |d| && d[|d| - |l|..] == l && ParseInt(d[|d| - |l|..]) == e.line.GetOr(0)
  {
    var d := Description(e);
    var opening := "domain:" + ErrorDomain() + " code:";
    var l := IntString(e.line.GetOr(0));
    var middle := IntString(e.code) + " description:" + e.errorDescription + " file:" + e.file.GetOr("-") + " line:";
    var front := "domain:" + ErrorDomain() + " code:" + IntString(e.code) + " description:" + e.errorDescription
      + " file:" + e.file.GetOr("-") + " line:";
    assert d == front + l;
    assert front == opening + middle;
    assert d == opening + (middle + l);
    assert d[..|opening|] == opening;
    assert d[|d| - |l|..] == l;
    ParseIntString(e.line.GetOr(0));
  }
}
