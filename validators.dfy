/** validate_hex_color: the colour check attached to Category.color.
    The pattern is `^#([A-Fa-f0-9]{6}|[A-Fa-f0-9]{3})$` applied with re.match,
    where Python's `$` (without MULTILINE) matches at the very end of the
    string or just before one final newline. */
module Validators {
  import opened Common

  /** Raise-or-return, as a value: Pass, or the ValidationError's message. */
  datatype Check = Pass | Fail(message: string)

  predicate IsHexDigit(c: char) {
    ('0' <= c <= '9') || ('a' <= c <= 'f') || ('A' <= c <= 'F')
  }

  // ---------------------------------------------------------------------------
  // The pattern, piece by piece

  /** `[A-Fa-f0-9]{n}` matches at position i. */
  predicate HexRunAt(s: string, i: nat, n: nat) {
    i + n <= |s| && forall k | i <= k < i + n :: IsHexDigit(s[k])
  }

  /** `$` matches at position i: the end, or just before a final newline. */
  predicate DollarAt(s: string, i: nat) {
    i == |s| || (i + 1 == |s| && s[i] == '\n')
  }

  /** re.match anchors at 0; after `#` the six-digit branch is tried first and,
      if it or the `$` after it fails, the three-digit branch. */
  predicate PatternMatches(s: string) {
    && |s| >= 1
    && s[0] == '#'
    && ((HexRunAt(s, 1, 6) && DollarAt(s, 7)) || (HexRunAt(s, 1, 3) && DollarAt(s, 4)))
  }

  // ---------------------------------------------------------------------------
  // The accepted language, stated directly

  /** `#` followed by exactly three or exactly six hex digits. */
  predicate IsColorCode(s: string) {
    && (|s| == 4 || |s| == 7)
    && s[0] == '#'
    && forall k | 1 <= k < |s| :: IsHexDigit(s[k])
  }

  /** A colour code, optionally followed by one newline (what `$` lets through). */
  predicate AcceptedColor(s: string) {
    IsColorCode(s) || (|s| >= 1 && s[|s| - 1] == '\n' && IsColorCode(s[..|s| - 1]))
  }

  /** validate_hex_color (validators.py:5-14). */
  function ValidateHexColor(value: string): (r: Check)
    ensures r == Pass <==> AcceptedColor(value)
    ensures r.Fail? ==> r.message == value + " is not a valid HEX color code"
  {
    PatternMatchesExactly(value);
    if PatternMatches(value) then Pass else Fail(value + " is not a valid HEX color code")
  }

  /** The pattern accepts exactly the colour codes, each optionally followed by one newline. */
  lemma PatternMatchesExactly(s: string)
    ensures PatternMatches(s) <==> AcceptedColor(s)
  {
    if PatternMatches(s) {
      if HexRunAt(s, 1, 6) && DollarAt(s, 7) {
        if |s| == 8 {
          assert IsColorCode(s[..7]);
        }
      } else {
        if |s| == 5 {
          assert IsColorCode(s[..4]);
        }
      }
    }
    if AcceptedColor(s) && !IsColorCode(s) {
      var t := s[..|s| - 1];
      assert IsColorCode(t);
      assert forall k | 1 <= k < |t| :: IsHexDigit(s[k]);
      if |t| == 7 {
        assert HexRunAt(s, 1, 6) && DollarAt(s, 7);
      } else {
        assert HexRunAt(s, 1, 3) && DollarAt(s, 4);
      }
    }
  }

  // ---------------------------------------------------------------------------
  // What the validator promises

  predicate AllHex(d: string) {
    forall k | 0 <= k < |d| :: IsHexDigit(d[k])
  }

  /** `#` followed by six hex digits passes, with or without one trailing newline. */
  lemma SixHexDigitsPass(d: string)
    requires |d| == 6 && AllHex(d)
    ensures ValidateHexColor("#" + d) == Pass
    ensures ValidateHexColor("#" + d + "\n") == Pass
  {
    var s := "#" + d;
    assert forall k | 1 <= k < |s| :: s[k] == d[k - 1];
    assert (s + "\n")[..|s|] == s;
  }

  /** `#` followed by three hex digits passes, with or without one trailing newline. */
  lemma ThreeHexDigitsPass(d: string)
    requires |d| == 3 && AllHex(d)
    ensures ValidateHexColor("#" + d) == Pass
    ensures ValidateHexColor("#" + d + "\n") == Pass
  {
    var s := "#" + d;
    assert forall k | 1 <= k < |s| :: s[k] == d[k - 1];
    assert (s + "\n")[..|s|] == s;
  }

  /** Any other number of hex digits fails, with or without one trailing newline. */
  lemma OtherDigitCountsFail(d: string)
    requires AllHex(d) && |d| != 3 && |d| != 6
    ensures ValidateHexColor("#" + d).Fail?
    ensures ValidateHexColor("#" + d + "\n").Fail?
  {
    var s := "#" + d;
    var t := s + "\n";
    assert t[..|s|] == s;
    assert t[|s|] == '\n' && !IsHexDigit('\n');
    assert !IsColorCode(t);
    if |d| == 7 {
      assert t[7] == d[6];
    }
  }

  /** A value that does not start with `#` fails. */
  lemma MissingHashFails(s: string)
    requires s == [] || s[0] != '#'
    ensures ValidateHexColor(s).Fail?
  {
    if s != [] && s[|s| - 1] == '\n' && |s| >= 2 {
      assert s[..|s| - 1][0] == s[0];
    }
  }

  /** A character after the `#` that is not a hex digit fails the value, unless it is the one final newline. */
  lemma NonHexCharacterFails(s: string, k: nat)
    requires 1 <= k < |s| && !IsHexDigit(s[k])
    requires !(k == |s| - 1 && s[k] == '\n')
    ensures ValidateHexColor(s).Fail?
  {
    if |s| >= 1 && s[|s| - 1] == '\n' {
      var t := s[..|s| - 1];
      assert k < |t| && t[k] == s[k];
    }
  }

  /** An accepted value without a trailing newline has 4 or 7 characters, within Category.color's max_length of 7. */
  lemma AcceptedLengths(s: string)
    requires ValidateHexColor(s) == Pass
    ensures s[|s| - 1] != '\n' ==> |s| == 4 || |s| == 7
    ensures s[|s| - 1] == '\n' ==> |s| == 5 || |s| == 8
  {
    if s[|s| - 1] == '\n' {
      assert !IsHexDigit('\n');
    }
  }

  /** Hex digits are case-insensitive: lower-casing a value never changes the verdict. */
  lemma CaseInsensitive(s: string)
    ensures ValidateHexColor(s) == Pass <==> ValidateHexColor(AsciiLower(s)) == Pass
  {
    var t := AsciiLower(s);
    assert forall c: char :: IsHexDigit(c) <==> IsHexDigit(LowerChar(c));
    assert forall c: char :: c == '#' <==> LowerChar(c) == '#';
    assert forall c: char :: c == '\n' <==> LowerChar(c) == '\n';
    assert IsColorCode(s) <==> IsColorCode(t);
    if |s| >= 1 {
      var s' := s[..|s| - 1];
      var t' := t[..|t| - 1];
      assert forall i | 0 <= i < |s'| :: t'[i] == LowerChar(s'[i]);
      assert IsColorCode(s') <==> IsColorCode(t');
    }
  }

  /** The values the documentation and tests use that pass. */
  lemma AcceptedExamples()
    ensures ValidateHexColor("#abc") == Pass
    ensures ValidateHexColor("#ABC") == Pass
    ensures ValidateHexColor("#aabbcc") == Pass
    ensures ValidateHexColor("#FF5733") == Pass
    ensures ValidateHexColor("#abc\n") == Pass
  {
    assert "#abc" == "#" + "abc";
    ThreeHexDigitsPass("abc");
    assert "#ABC" == "#" + "ABC";
    ThreeHexDigitsPass("ABC");
    assert "#aabbcc" == "#" + "aabbcc";
    SixHexDigitsPass("aabbcc");
    assert "#FF5733" == "#" + "FF5733";
    SixHexDigitsPass("FF5733");
    assert "#abc\n" == "#" + "abc" + "\n";
  }

  /** A value without the leading '#' that the documentation uses fails. */
  lemma RejectedWithoutHash()
    ensures ValidateHexColor("invalid").Fail?
  {
    var v := "invalid";
    MissingHashFails(v);
  }

  /** Letters beyond f fail even in a three-character value. */
  lemma RejectedLetters()
    ensures ValidateHexColor("zzz").Fail?
  {
    var v := "zzz";
    MissingHashFails(v);
  }

  /** Four digits fail, and so does a value with two trailing newlines. */
  lemma RejectedDigitRuns()
    ensures ValidateHexColor("#abcd").Fail?
    ensures ValidateHexColor("#aabbcc\n\n").Fail?
  {
    var four := "#abcd";
    assert four == "#" + "abcd";
    OtherDigitCountsFail("abcd");
    var doubled := "#aabbcc\n\n";
    NonHexCharacterFails(doubled, 7);
  }
}
