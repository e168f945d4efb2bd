/** Shared vocabulary: optional values, results, the API's error kinds, and the
    few Python string operations the backend relies on (str.strip, the ASCII
    part of str.lower, and str() of an integer id). */
module Common {

  datatype Option<+T> = None | Some(value: T) {
    function GetOr(default: T): T {
      match this
      case Some(v) => v
      case None => default
    }
  }

  datatype Result<+T, +E> = Ok(value: T) | Err(error: E)

  /** Primary keys. Users have UUID keys in the database; the model only needs
      them to be distinct, so every key is an integer handed out fresh by a counter. */
  type UserId = int
  type CategoryId = int
  type NoteId = int

  /** Field-keyed validation messages, as Django and the REST framework report them. */
  type ErrorDict = map<string, seq<string>>

  /** Appends a message to the list kept under a field name. */
  function AddError(errors: ErrorDict, field: string, message: string): ErrorDict {
    errors[field := (if field in errors then errors[field] else []) + [message]]
  }

  /** Appends several messages under one field; no messages, no entry. */
  function AddErrors(errors: ErrorDict, field: string, messages: seq<string>): ErrorDict {
    if messages == [] then errors
    else errors[field := (if field in errors then errors[field] else []) + messages]
  }

  /** What a request can end in besides success. */
  datatype ApiError =
    | BadRequest(errors: ErrorDict)   // 400: serializer or model validation failed
    | NotFound                        // 404: no such object, or not visible to the caller
    | Forbidden                       // 403: not authenticated, or object permission refused
    | IntegrityError                  // uncaught database constraint violation (500)
    | ValueError(message: string)     // uncaught Python ValueError (500)
    | ModelValidation(errors: ErrorDict) // uncaught Django ValidationError from Model.save (500)

  // ---------------------------------------------------------------------------
  // Python's str.strip() with no argument

  /** Python's str.isspace() for a single character. */
  predicate IsSpace(c: char) {
    c == ' ' || ('\t' <= c <= '\r') || ('\U{1C}' <= c <= '\U{1F}') || c == '\U{85}' || c == '\U{A0}'
    || c == '\U{1680}' || ('\U{2000}' <= c <= '\U{200A}') || c == '\U{2028}' || c == '\U{2029}'
    || c == '\U{202F}' || c == '\U{205F}' || c == '\U{3000}'
  }

  predicate AllSpace(s: string) {
    forall i | 0 <= i < |s| :: IsSpace(s[i])
  }

  /** Number of leading whitespace characters. */
  function LeadingSpaces(s: string): (k: nat)
    ensures k <= |s|
    ensures AllSpace(s[..k])
    ensures k == |s| || !IsSpace(s[k])
  {
    if |s| > 0 && IsSpace(s[0]) then
      var k := 1 + LeadingSpaces(s[1..]);
      assert s[..k] == [s[0]] + s[1..][..k - 1];
      k
    else 0
  }

  /** Length of s once trailing whitespace is dropped. */
  function TrailingStart(s: string): (j: nat)
    ensures j <= |s|
    ensures AllSpace(s[j..])
    ensures j == 0 || !IsSpace(s[j - 1])
  {
    if |s| > 0 && IsSpace(s[|s| - 1]) then
      var j := TrailingStart(s[..|s| - 1]);
      assert s[j..] == s[..|s| - 1][j..] + [s[|s| - 1]];
      j
    else |s|
  }

  /** The bounds [i, j) of s that str.strip() keeps. */
  function StripBounds(s: string): (b: (nat, nat))
    ensures b.0 <= b.1 <= |s|
    ensures AllSpace(s[..b.0]) && AllSpace(s[b.1..])
    ensures b.0 < b.1 ==> !IsSpace(s[b.0]) && !IsSpace(s[b.1 - 1])
    ensures b.0 == b.1 ==> AllSpace(s)
  {
    var i := LeadingSpaces(s);
    var j := i + TrailingStart(s[i..]);
    assert s[i..][TrailingStart(s[i..])..] == s[j..];
    if i == j then
      assert s == s[..i] + s[i..];
      (i, j)
    else
      assert s[i..][j - i - 1] == s[j - 1];
      (i, j)
  }

  /** Python's str.strip(): drops leading and trailing whitespace. */
  function Strip(s: string): (r: string)
    ensures |r| <= |s|
    ensures r == [] <==> AllSpace(s)
    ensures r != [] ==> !IsSpace(r[0]) && !IsSpace(r[|r| - 1])
  {
    var b := StripBounds(s);
    var r := s[b.0..b.1];
    assert b.0 < b.1 ==> !IsSpace(s[b.0]);
    r
  }

  /** Stripping twice is stripping once. */
  lemma StripIdempotent(s: string)
    ensures Strip(Strip(s)) == Strip(s)
  {
    var r := Strip(s);
    var b := StripBounds(r);
    if r == [] {
    } else {
      assert LeadingSpaces(r) == 0;
      assert TrailingStart(r) == |r|;
    }
  }

  /** A string without surrounding whitespace is its own stripped form. */
  lemma StripOfTrimmed(s: string)
    requires s == [] || (!IsSpace(s[0]) && !IsSpace(s[|s| - 1]))
    ensures Strip(s) == s
  {
    if s != [] {
      assert LeadingSpaces(s) == 0;
      assert TrailingStart(s) == |s|;
    }
  }

  /** Whitespace around a trimmed string is exactly what strip() removes. */
  lemma StripSurrounded(a: string, s: string, b: string)
    requires AllSpace(a) && AllSpace(b)
    requires s != [] && !IsSpace(s[0]) && !IsSpace(s[|s| - 1])
    ensures Strip(a + s + b) == s
  {
    var t := a + s + b;
    var i := LeadingSpaces(t);
    assert t[|a|] == s[0];
    assert i == |a|;
    var u := t[i..];
    assert u == s + b;
    var j := TrailingStart(u);
    assert u[|s| - 1] == s[|s| - 1];
    assert j == |s|;
    assert u[..j] == s;
  }

  // ---------------------------------------------------------------------------
  // ASCII lower-casing (the part of str.lower() the model needs)

  function LowerChar(c: char): char {
    if 'A' <= c <= 'Z' then (c as int + 32) as char else c
  }

  function AsciiLower(s: string): (r: string)
    ensures |r| == |s|
    ensures forall i | 0 <= i < |s| :: r[i] == LowerChar(s[i])
  {
    seq(|s|, i requires 0 <= i < |s| => LowerChar(s[i]))
  }

  // ---------------------------------------------------------------------------
  // str() of an integer, and its inverse

  function DigitChar(d: nat): char
    requires d < 10
  {
    ('0' as int + d) as char
  }

  predicate IsDigitChar(c: char) { '0' <= c <= '9' }

  /** Decimal rendering of a natural number, as Python's str(int). */
  function DecimalString(n: nat): (r: string)
    ensures |r| >= 1
    ensures forall i | 0 <= i < |r| :: IsDigitChar(r[i])
    decreases n
  {
    if n < 10 then [DigitChar(n)] else DecimalString(n / 10) + [DigitChar(n % 10)]
  }

  /** Reads a string of decimal digits back as a number. */
  function DecimalValue(s: string): nat
    requires forall i | 0 <= i < |s| :: IsDigitChar(s[i])
  {
    if s == [] then 0
    else
      assert IsDigitChar(s[|s| - 1]);
      DecimalValue(s[..|s| - 1]) * 10 + (s[|s| - 1] as int - '0' as int)
  }

  lemma {:induction false} DecimalRoundTrip(n: nat)
    ensures DecimalValue(DecimalString(n)) == n
    decreases n
  {
    if n >= 10 {
      var p := DecimalString(n / 10);
      var s := p + [DigitChar(n % 10)];
      assert s[..|s| - 1] == p;
      DecimalRoundTrip(n / 10);
    }
  }

  /** Distinct numbers have distinct renderings. */
  lemma DecimalStringInjective(a: nat, b: nat)
    ensures DecimalString(a) == DecimalString(b) <==> a == b
  {
    if DecimalString(a) == DecimalString(b) {
      DecimalRoundTrip(a);
      DecimalRoundTrip(b);
    }
  }
}
