/**
 * Removing a run of padding characters from the end of a fixed-width text
 * field. The ITCH decoder strips trailing spaces from symbols and the
 * MoldUDP64 tracker strips trailing spaces and NULs from session names;
 * both are the function below with a different padding set.
 */
module Trimming {

  /** `s` without its longest suffix made only of characters in `pads`. */
  function StripTrailing<T(==)>(s: seq<T>, pads: set<T>): (r: seq<T>)
    ensures |r| <= |s| && r == s[..|r|]
    ensures forall i :: |r| <= i < |s| ==> s[i] in pads
    ensures |r| == 0 || r[|r| - 1] !in pads
  {
    if |s| == 0 || s[|s| - 1] !in pads then s
    else StripTrailing(s[..|s| - 1], pads)
  }

  /** The three properties above determine the stripped length uniquely. */
  lemma {:induction false} StripTrailingUnique<T>(s: seq<T>, pads: set<T>, n: nat)
    requires n <= |s|
    requires forall i :: n <= i < |s| ==> s[i] in pads
    requires n == 0 || s[n - 1] !in pads
    ensures StripTrailing(s, pads) == s[..n]
  {
    if n < |s| {
      var init := s[..|s| - 1];
      assert init[..n] == s[..n];
      StripTrailingUnique(init, pads, n);
    }
  }

  /** Dropping padding from the end does not change the stripped text. */
  lemma StripTrailingOfPrefix<T>(s: seq<T>, pads: set<T>, n: nat)
    requires n <= |s|
    requires forall i :: n <= i < |s| ==> s[i] in pads
    ensures StripTrailing(s[..n], pads) == StripTrailing(s, pads)
  {
    var r := StripTrailing(s[..n], pads);
    StripTrailingUnique(s, pads, |r|);
  }

  lemma StripTrailingIdempotent<T>(s: seq<T>, pads: set<T>)
    ensures StripTrailing(StripTrailing(s, pads), pads) == StripTrailing(s, pads)
  {
    var r := StripTrailing(s, pads);
    StripTrailingUnique(r, pads, |r|);
  }
}
