/**
 * The mobile-number rule of the contacts page (next-web/src/app/page.tsx):
 * the validator `isValidMobile`, which tests the regular expression
 * `^01[0-9]*$`, and the keystroke filter `replace(/[^0-9]/g, "")` that both
 * mobile inputs apply.
 */
module Mobile {

  /** The character class `[0-9]`: the ten ASCII digits and nothing else. */
  predicate IsDigit(c: char) {
    '0' <= c <= '9'
  }

  predicate AllDigits(s: string) {
    forall i :: 0 <= i < |s| ==> IsDigit(s[i])
  }

  // ---------------------------------------------------------------------
  // The validator, as the regular expression runs it
  // ---------------------------------------------------------------------

  /** States of the automaton for `^01[0-9]*$`. */
  datatype MatchState = Start | SawZero | InDigits | Dead

  function Step(q: MatchState, c: char): MatchState {
    match q
    case Start => if c == '0' then SawZero else Dead
    case SawZero => if c == '1' then InDigits else Dead
    case InDigits => if IsDigit(c) then InDigits else Dead
    case Dead => Dead
  }

  function Run(q: MatchState, s: string): MatchState
    decreases |s|
  {
    if s == [] then q else Run(Step(q, s[0]), s[1..])
  }

  /**
   * `isValidMobile`: the anchored pattern `^01[0-9]*$` accepts the whole
   * string. Without the `m` flag `^` and `$` are the ends of the input.
   * It accepts exactly the strings that follow the rule "01" then digits.
   */
  function IsValidMobile(value: string): (ok: bool)
    ensures ok <==> MobileRule(value)
  {
    StartAcceptsRule(value);
    Run(Start, value) == InDigits
  }

  /** The rule in words: "01" followed by zero or more ASCII digits. */
  predicate MobileRule(value: string) {
    |value| >= 2 && value[0] == '0' && value[1] == '1' && AllDigits(value[2..])
  }

  lemma {:induction false} DeadStaysDead(s: string)
    ensures Run(Dead, s) == Dead
    decreases |s|
  {
    if s != [] {
      DeadStaysDead(s[1..]);
    }
  }

  /** Once past "01" the automaton accepts exactly the all-digit tails. */
  lemma {:induction false} DigitsTail(s: string)
    ensures Run(InDigits, s) == (if AllDigits(s) then InDigits else Dead)
    decreases |s|
  {
    if s != [] {
      DigitsTail(s[1..]);
      if IsDigit(s[0]) {
        assert AllDigits(s) <==> AllDigits(s[1..]) by {
          if AllDigits(s[1..]) {
            forall i | 0 <= i < |s| ensures IsDigit(s[i]) {
              if i > 0 { assert s[i] == s[1..][i - 1]; }
            }
          }
        }
      } else {
        DeadStaysDead(s[1..]);
      }
    }
  }

  /** Run from its start state, the automaton accepts exactly the strings that obey the rule. */
  lemma {:induction false} StartAcceptsRule(value: string)
    ensures Run(Start, value) == InDigits <==> MobileRule(value)
  {
    if |value| == 0 {
    } else if value[0] != '0' {
      DeadStaysDead(value[1..]);
    } else if |value| == 1 {
      assert Run(Start, value) == Run(Step(Start, value[0]), value[1..]);
      assert value[1..] == [];
      assert Run(Start, value) == SawZero || Run(Start, value) == Dead;
    } else if value[1] != '1' {
      assert Run(Start, value) == Run(Dead, value[2..]) by {
        assert value[1..][1..] == value[2..];
      }
      DeadStaysDead(value[2..]);
    } else {
      assert Run(Start, value) == Run(InDigits, value[2..]) by {
        assert value[1..][1..] == value[2..];
      }
      DigitsTail(value[2..]);
    }
  }

  /** Examples of the pattern, including the mobile input's placeholder. */
  lemma MobileExamples()
    ensures IsValidMobile("01")
    ensures IsValidMobile("017001")
    ensures IsValidMobile("01700000000")
    ensures !IsValidMobile("")
    ensures !IsValidMobile("0")
    ensures !IsValidMobile("1700")
    ensures !IsValidMobile("017a")
    ensures !IsValidMobile("9001")
  {
  }

  // ---------------------------------------------------------------------
  // The keystroke filter
  // ---------------------------------------------------------------------

  /**
   * `value.replace(/[^0-9]/g, "")`: drop every character outside `[0-9]`,
   * keep the digits in their original order.
   */
  function DigitsOnly(s: string): (r: string)
    ensures AllDigits(r)
    ensures |r| <= |s|
    decreases |s|
  {
    if s == [] then []
    else (if IsDigit(s[0]) then [s[0]] else []) + DigitsOnly(s[1..])
  }

  /** The filter works character by character, so it keeps the order of what it keeps. */
  lemma {:induction false} DigitsOnlyAppend(a: string, b: string)
    ensures DigitsOnly(a + b) == DigitsOnly(a) + DigitsOnly(b)
    decreases |a|
  {
    if a == [] {
      assert a + b == b;
    } else {
      assert (a + b)[0] == a[0] && (a + b)[1..] == a[1..] + b;
      DigitsOnlyAppend(a[1..], b);
    }
  }

  /** Every digit is kept as often as it occurs; nothing else survives. */
  lemma {:induction false} DigitsOnlyCounts(s: string, c: char)
    ensures multiset(DigitsOnly(s))[c] == if IsDigit(c) then multiset(s)[c] else 0
    decreases |s|
  {
    if s != [] {
      DigitsOnlyCounts(s[1..], c);
      assert s == [s[0]] + s[1..];
    }
  }

  /** A string of digits passes the filter untouched. */
  lemma {:induction false} DigitsOnlyKeepsDigits(s: string)
    requires AllDigits(s)
    ensures DigitsOnly(s) == s
    decreases |s|
  {
    if s != [] {
      assert IsDigit(s[0]);
      DigitsOnlyKeepsDigits(s[1..]);
    }
  }

  /** Filtering twice is filtering once. */
  lemma {:induction false} DigitsOnlyIdempotent(s: string)
    ensures DigitsOnly(DigitsOnly(s)) == DigitsOnly(s)
  {
    DigitsOnlyKeepsDigits(DigitsOnly(s));
  }

  /** A number the validator accepts is never altered by the input filter. */
  lemma {:induction false} ValidMobileSurvivesFilter(value: string)
    requires IsValidMobile(value)
    ensures DigitsOnly(value) == value
  {
    assert AllDigits(value) by {
      forall i | 0 <= i < |value| ensures IsDigit(value[i]) {
        if i >= 2 { assert value[i] == value[2..][i - 2]; }
      }
    }
    DigitsOnlyKeepsDigits(value);
  }

  /**
   * After filtering, only the "01" prefix decides validity: the filter has
   * already removed everything that could fail `[0-9]*`.
   */
  lemma {:induction false} FilteredValidIffPrefix(raw: string)
    ensures IsValidMobile(DigitsOnly(raw)) <==> (|DigitsOnly(raw)| >= 2 && DigitsOnly(raw)[..2] == "01")
  {
    var f := DigitsOnly(raw);
    if |f| >= 2 {
      assert AllDigits(f[2..]) by {
        forall i | 0 <= i < |f[2..]| ensures IsDigit(f[2..][i]) {
          assert f[2..][i] == f[i + 2];
        }
      }
      assert f[..2] == "01" <==> (f[0] == '0' && f[1] == '1') by {
        if f[0] == '0' && f[1] == '1' { assert f[..2] == [f[0], f[1]]; }
      }
    }
  }
}
