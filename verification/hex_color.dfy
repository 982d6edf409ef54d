/** The colour tool's hex validator, `/^#([0-9A-Fa-f]{3}){1,2}$/`
    (app/colors/page.tsx, lines 75 and 85). */
module HexColor {

  predicate IsHexDigit(c: char) {
    ('0' <= c <= '9') || ('A' <= c <= 'F') || ('a' <= c <= 'f')
  }

  predicate AllHexDigits(s: string) {
    forall i :: 0 <= i < |s| ==> IsHexDigit(s[i])
  }

  /** The group `([0-9A-Fa-f]{3})` repeated so that the whole of `t` is
      consumed; `done` groups have matched already and at most two may. */
  predicate MatchGroups(t: string, done: nat)
    decreases |t|
  {
    if |t| == 0 then 1 <= done
    else
      done < 2 && |t| >= 3
      && IsHexDigit(t[0]) && IsHexDigit(t[1]) && IsHexDigit(t[2])
      && MatchGroups(t[3..], done + 1)
  }

  /** The anchored regular expression, matched group by group. */
  predicate MatchesHexPattern(s: string) {
    |s| >= 1 && s[0] == '#' && MatchGroups(s[1..], 0)
  }

  /** The colour grammar in plain terms: a `#` and then exactly three or
      exactly six hex digits, in either case. */
  predicate IsValidHex(s: string) {
    (|s| == 4 || |s| == 7) && s[0] == '#' && AllHexDigits(s[1..])
  }

  /** The pattern accepts exactly the strings of the grammar. */
  lemma {:induction false} PatternIsGrammar(s: string)
    ensures MatchesHexPattern(s) <==> IsValidHex(s)
  {
    if |s| >= 1 && s[0] == '#' {
      var t := s[1..];
      if |t| == 3 || |t| == 6 {
        if AllHexDigits(t) {
          if |t| == 6 {
            assert t[3..][3..] == [];
            assert t[3..][0] == t[3] && t[3..][1] == t[4] && t[3..][2] == t[5];
          }
          assert MatchGroups(t[3..], 1);
        }
      }
      if MatchGroups(t, 0) {
        assert |t| >= 3 && MatchGroups(t[3..], 1);
        if |t[3..]| != 0 {
          assert MatchGroups(t[3..][3..], 2);
          assert t[3..][3..] == [];
        }
        assert |t| == 3 || |t| == 6;
        forall i | 0 <= i < |t|
          ensures IsHexDigit(t[i])
        {
          if i >= 3 {
            assert t[i] == t[3..][i - 3];
          }
        }
      }
    }
  }

  /** A `#` and six hex digits, checked digit by digit. */
  lemma SixDigitsValid(s: string)
    requires |s| == 7 && s[0] == '#'
    requires IsHexDigit(s[1]) && IsHexDigit(s[2]) && IsHexDigit(s[3])
    requires IsHexDigit(s[4]) && IsHexDigit(s[5]) && IsHexDigit(s[6])
    ensures IsValidHex(s)
  {
    assert forall i :: 0 <= i < 6 ==> s[1..][i] == s[i + 1];
  }

  /** What an `<input type="color">` reports: `#` and six lower-case hex digits. */
  predicate IsPickerValue(s: string) {
    |s| == 7 && s[0] == '#' && forall i :: 1 <= i < 7 ==> ('0' <= s[i] <= '9') || ('a' <= s[i] <= 'f')
  }

  lemma PickerValueIsValid(s: string)
    requires IsPickerValue(s)
    ensures IsValidHex(s)
  {
    assert forall i :: 0 <= i < 6 ==> s[1..][i] == s[i + 1];
  }
}
