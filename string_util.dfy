/**
 * The `String` helpers: length, slicing by integer offsets, and
 * `isEmailAddress`, which matches the whole string against the pattern
 * `[A-Z0-9a-z._%+-]+@[A-Za-z0-9.-]+\.[A-Za-z]{2,}`. A string is a sequence
 * of characters; each `char` stands for one Swift `Character`.
 */
module StringUtil {
  import opened Wrappers

  /** `length`. */
  function Length(s: string): (n: nat)
    ensures n == |s|
  {
    |s|
  }

  /**
   * `substring(from:)`: the characters from offset `i` on. `index(from:)`
   * traps unless `0 <= i <= length`.
   */
  function SubstringFrom(s: string, i: int): (r: string)
    requires 0 <= i <= Length(s)
    ensures |r| == Length(s) - i
    ensures forall k :: 0 <= k < |r| ==> r[k] == s[i + k]
  {
    s[i..]
  }

  /** `substring(to:)`: the first `i` characters, under the same bound. */
  function SubstringTo(s: string, i: int): (r: string)
    requires 0 <= i <= Length(s)
    ensures |r| == i
    ensures forall k :: 0 <= k < i ==> r[k] == s[k]
  {
    s[..i]
  }

  /** `substring(with:)` for `lo..<hi`; both ends are offsets under the same bound. */
  function SubstringWith(s: string, lo: int, hi: int): (r: string)
    requires 0 <= lo <= hi <= Length(s)
    ensures |r| == hi - lo
    ensures forall k :: 0 <= k < |r| ==> r[k] == s[lo + k]
  {
    s[lo..hi]
  }

  /** Cutting at any offset and gluing the halves gives the string back. */
  lemma SubstringRoundTrip(s: string, i: int)
    requires 0 <= i <= Length(s)
    ensures SubstringTo(s, i) + SubstringFrom(s, i) == s
    ensures Length(SubstringTo(s, i)) + Length(SubstringFrom(s, i)) == Length(s)
  {
    var t := SubstringTo(s, i) + SubstringFrom(s, i);
    assert forall k :: 0 <= k < |s| ==> t[k] == s[k];
  }

  /** A range slice is the prefix up to `hi` with the first `lo` characters dropped. */
  lemma SubstringWithComposes(s: string, lo: int, hi: int)
    requires 0 <= lo <= hi <= Length(s)
    ensures SubstringWith(s, lo, hi) == SubstringFrom(SubstringTo(s, hi), lo)
    ensures SubstringWith(s, 0, Length(s)) == s
  {
    var a := SubstringWith(s, lo, hi);
    var b := SubstringFrom(SubstringTo(s, hi), lo);
    assert |a| == |b|;
    assert forall k :: 0 <= k < |a| ==> a[k] == b[k];
  }

  // ---------------------------------------------------------------------
  // isEmailAddress
  // ---------------------------------------------------------------------

  predicate IsLetter(c: char) {
    'A' <= c <= 'Z' || 'a' <= c <= 'z'
  }

  predicate IsDigit(c: char) {
    '0' <= c <= '9'
  }

  /** `[A-Z0-9a-z._%+-]`. */
  predicate IsLocalChar(c: char) {
    IsLetter(c) || IsDigit(c) || c == '.' || c == '_' || c == '%' || c == '+' || c == '-'
  }

  /** `[A-Za-z0-9.-]`. */
  predicate IsDomainChar(c: char) {
    IsLetter(c) || IsDigit(c) || c == '.' || c == '-'
  }

  predicate AllLocal(s: string) {
    forall k :: 0 <= k < |s| ==> IsLocalChar(s[k])
  }

  predicate AllDomain(s: string) {
    forall k :: 0 <= k < |s| ==> IsDomainChar(s[k])
  }

  predicate AllLetters(s: string) {
    forall k :: 0 <= k < |s| ==> IsLetter(s[k])
  }

  /** The whole string belongs to the pattern's language: the cut points `at` and `dot` exist. */
  ghost predicate EmailShape(s: string) {
    exists at: nat, dot: nat ::
      ShapedAt(s, at, dot)
  }

  /** `s[..at]` is the local part, `s[at]` the '@', `s[at + 1..dot]` the domain, then '.' and the letters. */
  predicate ShapedAt(s: string, at: nat, dot: nat) {
    && 0 < at && at + 1 < dot && dot + 3 <= |s|
    && AllLocal(s[..at]) && s[at] == '@'
    && AllDomain(s[at + 1..dot]) && s[dot] == '.'
    && AllLetters(s[dot + 1..])
  }

  /** The first offset holding `c`. */
  function FirstIndex(s: string, c: char): (r: Option<nat>)
    ensures r.Some? ==> r.value < |s| && s[r.value] == c && forall k :: 0 <= k < r.value ==> s[k] != c
    ensures r.None? ==> forall k :: 0 <= k < |s| ==> s[k] != c
  {
    if |s| == 0 then None
    else if s[0] == c then Some(0)
    else match FirstIndex(s[1..], c)
      case None => None
      case Some(i) => Some(i + 1)
  }

  /** The last offset holding `c`. */
  function LastIndex(s: string, c: char): (r: Option<nat>)
    ensures r.Some? ==> r.value < |s| && s[r.value] == c && forall k :: r.value < k < |s| ==> s[k] != c
    ensures r.None? ==> forall k :: 0 <= k < |s| ==> s[k] != c
  {
    if |s| == 0 then None
    else if s[|s| - 1] == c then Some(|s| - 1)
    else LastIndex(s[..|s| - 1], c)
  }

  /**
   * `isEmailAddress`: split at the '@' and then at the domain's last '.';
   * the parts before are non-empty runs of their classes and at least two
   * letters end the string.
   */
  function IsEmailAddress(s: string): bool {
    match FirstIndex(s, '@')
    case None => false
    case Some(at) =>
      var domain := s[at + 1..];
      && at > 0 && AllLocal(s[..at]) && AllDomain(domain)
      && match LastIndex(domain, '.')
        case None => false
        case Some(dot) => dot > 0 && dot + 3 <= |domain| && AllLetters(domain[dot + 1..])
  }

  lemma RecognisedIsShaped(s: string)
    requires IsEmailAddress(s)
    ensures EmailShape(s)
  {
    var at := FirstIndex(s, '@').value;
    var domain := s[at + 1..];
    var dot := LastIndex(domain, '.').value;
    var d := at + 1 + dot;
    assert s[at + 1..d] == domain[..dot];
    assert s[d + 1..] == domain[dot + 1..];
    assert ShapedAt(s, at, d);
  }

  lemma ShapedIsRecognised(s: string, at: nat, dot: nat)
    requires ShapedAt(s, at, dot)
    ensures IsEmailAddress(s)
  {
    assert forall k :: 0 <= k < at ==> s[k] == s[..at][k];
    assert FirstIndex(s, '@') == Some(at);
    var domain := s[at + 1..];
    assert forall k :: 0 <= k < dot - at - 1 ==> domain[k] == s[at + 1..dot][k];
    assert forall k :: dot - at - 1 < k < |domain| ==> domain[k] == s[dot + 1..][k - (dot - at)];
    assert LastIndex(domain, '.') == Some(dot - at - 1);
    assert domain[dot - at..] == s[dot + 1..];
  }

  /** The recogniser accepts exactly the strings of the pattern's language. */
  lemma EmailRecogniserCorrect(s: string)
    ensures IsEmailAddress(s) <==> EmailShape(s)
  {
    if IsEmailAddress(s) {
      RecognisedIsShaped(s);
    }
    if EmailShape(s) {
      var at: nat, dot: nat :| ShapedAt(s, at, dot);
      ShapedIsRecognised(s, at, dot);
    }
  }

  /**
   * Every accepted address has a single '@' with something before it, a '.'
   * after it, and ends in two letters.
   */
  lemma EmailConsequences(s: string)
    requires IsEmailAddress(s)
    ensures var at := FirstIndex(s, '@').value;
      && 0 < at
      && (forall k :: 0 <= k < |s| && s[k] == '@' ==> k == at)
      && (exists k :: at < k < |s| && s[k] == '.')
      && |s| >= at + 5 && IsLetter(s[|s| - 1]) && IsLetter(s[|s| - 2])
  {
    var at := FirstIndex(s, '@').value;
    var domain := s[at + 1..];
    assert forall k :: at < k < |s| ==> s[k] == domain[k - at - 1];
    var dot := LastIndex(domain, '.').value;
    assert s[at + 1 + dot] == '.';
    assert IsLetter(domain[dot + 1..][|domain| - dot - 2]);
    assert IsLetter(domain[dot + 1..][|domain| - dot - 3]);
  }

  /** A usual address is accepted. */
  lemma EmailAccepted()
    ensures IsEmailAddress("jo@mail.com")
  {
    var s := "jo@mail.com";
    assert s[..2] == "jo" && AllLocal("jo");
    assert s[3..7] == "mail" && AllDomain("mail");
    assert s[8..] == "com" && AllLetters("com");
    assert ShapedAt(s, 2, 7);
    ShapedIsRecognised(s, 2, 7);
  }

  /** The pattern also admits an address made of dots and a dash. */
  lemma EmailAcceptsPunctuation()
    ensures IsEmailAddress("..@-.ab")
  {
    var t := "..@-.ab";
    assert t[..2] == ".." && AllLocal("..");
    assert t[3..4] == "-" && AllDomain("-");
    assert t[5..] == "ab" && AllLetters("ab");
    assert ShapedAt(t, 2, 4);
    ShapedIsRecognised(t, 2, 4);
  }

  /** An ending of one letter is refused. */
  lemma EmailRefusesShortEnding()
    ensures !IsEmailAddress("jo@mail.c")
  {
    var a := "jo@mail.c";
    assert !IsLetter(a[|a| - 2]);
    if IsEmailAddress(a) {
      EmailConsequences(a);
    }
  }

  /** A doubled '@' is refused. */
  lemma EmailRefusesTwoAts()
    ensures !IsEmailAddress("jo@@mail.com")
  {
    var b := "jo@@mail.com";
    assert b[2] == '@' && b[3] == '@';
    if IsEmailAddress(b) {
      EmailConsequences(b);
    }
  }

  /** An empty part before the '@' is refused. */
  lemma EmailRefusesEmptyLocalPart()
    ensures !IsEmailAddress("@mail.com")
  {
    assert FirstIndex("@mail.com", '@') == Some(0);
  }

  /** A digit in the ending is refused. */
  lemma EmailRefusesDigitInEnding()
    ensures !IsEmailAddress("jo@mail.c0m")
  {
    var d := "jo@mail.c0m";
    assert !IsLetter(d[|d| - 2]);
    if IsEmailAddress(d) {
      EmailConsequences(d);
    }
  }
}
