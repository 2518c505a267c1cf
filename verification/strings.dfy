/** String helpers the parser relies on: Go's `strings.HasPrefix` and the
    line accumulator's contents as a function of the lines written to it. */
module Strings {

  /** True when `p` is a prefix of `s` (Go's strings.HasPrefix). */
  predicate HasPrefix(s: string, p: string)
  {
    |p| <= |s| && s[..|p|] == p
  }

  /** The text a builder holds after each line of `lines` was written to it
      followed by a newline, in order. Defined from the end, because the
      accumulator grows at its end. */
  function Join(lines: seq<string>): string
  {
    if |lines| == 0 then ""
    else Join(lines[..|lines| - 1]) + lines[|lines| - 1] + "\n"
  }

  /** The last element of a non-empty sequence. */
  function Last<T>(s: seq<T>): T
    requires |s| > 0
  {
    s[|s| - 1]
  }

  /** All elements but the last; the empty sequence stays empty. */
  function DropLast<T>(s: seq<T>): seq<T>
  {
    if |s| == 0 then [] else s[..|s| - 1]
  }

  /** The non-empty strings of `s`, in order. */
  function NonEmpty(s: seq<string>): (r: seq<string>)
    ensures |r| <= |s|
    ensures forall k :: 0 <= k < |r| ==> r[k] != ""
  {
    if |s| == 0 then []
    else NonEmpty(s[..|s| - 1]) + (if s[|s| - 1] != "" then [s[|s| - 1]] else [])
  }

  /** A string that differs from `p` at a position both have does not start
      with `p`. */
  lemma MismatchIsNotPrefix(s: string, p: string, k: nat)
    requires k < |p| && k < |s| && s[k] != p[k]
    ensures !HasPrefix(s, p)
  {
    if |p| <= |s| {
      assert s[..|p|][k] == s[k];
    }
  }

  /** Joining two runs of lines one after the other is joining each and
      concatenating the texts. */
  lemma {:induction false} JoinConcat(a: seq<string>, b: seq<string>)
    ensures Join(a + b) == Join(a) + Join(b)
    decreases |b|
  {
    if |b| == 0 {
      assert a + b == a;
    } else {
      var b' := b[..|b| - 1];
      assert (a + b)[..|a + b| - 1] == a + b';
      JoinConcat(a, b');
    }
  }
}
