/** Ordinal string comparisons used by the value mappers. */
module Strings {

  /** `s.EndsWith(suffix)`: compares characters from the back of both strings
      until the suffix is used up. */
  function EndsWith(s: string, suffix: string): (b: bool)
    ensures b ==> |suffix| <= |s|
    ensures b ==> forall i :: 0 <= i < |suffix| ==> s[|s| - |suffix| + i] == suffix[i]
    decreases |suffix|
  {
    if suffix == [] then true
    else if s == [] then false
    else s[|s| - 1] == suffix[|suffix| - 1] && EndsWith(s[..|s| - 1], suffix[..|suffix| - 1])
  }

  /** The back-to-front comparison agrees with "the last |suffix| characters of s are suffix". */
  lemma {:induction false} EndsWithIsTailSlice(s: string, suffix: string)
    ensures EndsWith(s, suffix) <==> |suffix| <= |s| && s[|s| - |suffix|..] == suffix
    decreases |suffix|
  {
    if suffix == [] || s == [] {
    } else {
      var s', suffix' := s[..|s| - 1], suffix[..|suffix| - 1];
      EndsWithIsTailSlice(s', suffix');
      if |suffix| <= |s| {
        assert s[|s| - |suffix|..] == s'[|s'| - |suffix'|..] + [s[|s| - 1]];
        assert suffix == suffix' + [suffix[|suffix| - 1]];
      }
    }
  }

  /** Every string of the form p + suffix ends with suffix, whatever p is. */
  lemma EndsWithAnyPrefix(p: string, suffix: string)
    ensures EndsWith(p + suffix, suffix)
  {
    EndsWithIsTailSlice(p + suffix, suffix);
    assert (p + suffix)[|p|..] == suffix;
  }

  /** A string ends with suffix exactly when it is some p followed by suffix. */
  lemma EndsWithIffConcat(s: string, suffix: string)
    ensures EndsWith(s, suffix) <==> exists p :: s == p + suffix
  {
    EndsWithIsTailSlice(s, suffix);
    if EndsWith(s, suffix) {
      var p := s[..|s| - |suffix|];
      assert s == p + suffix;
    }
    if exists p :: s == p + suffix {
      var p :| s == p + suffix;
      EndsWithAnyPrefix(p, suffix);
    }
  }
}
