/** Python's `str.split(sep)` for a one-character separator, and the facts the
    spell filter parser and the BigQuery table paths rely on. */
module Strings {

  /** The number of occurrences of `c` in `s`. */
  function Count(s: string, c: char): nat {
    if s == [] then 0 else (if s[0] == c then 1 else 0) + Count(s[1..], c)
  }

  /** The position of the first `c` in `s`. */
  function FirstIndex(s: string, c: char): (i: nat)
    requires c in s
    ensures i < |s| && s[i] == c && c !in s[..i]
    ensures forall k | 0 <= k < i :: s[k] != c
  {
    if s[0] == c then 0
    else
      var j := FirstIndex(s[1..], c);
      assert s[..j + 1] == [s[0]] + s[1..][..j];
      j + 1
  }

  /** `s.split(sep)`: the pieces between separators, empty pieces included. */
  function Split(s: string, sep: char): (parts: seq<string>)
    ensures |parts| >= 1
    decreases |s|
  {
    if sep !in s then [s]
    else
      var i := FirstIndex(s, sep);
      [s[..i]] + Split(s[i + 1..], sep)
  }

  lemma {:induction false} CountZero(s: string, c: char)
    ensures Count(s, c) == 0 <==> c !in s
  {
    if s != [] {
      CountZero(s[1..], c);
      assert s == [s[0]] + s[1..];
    }
  }

  lemma {:induction false} CountAppend(a: string, b: string, c: char)
    ensures Count(a + b, c) == Count(a, c) + Count(b, c)
  {
    if a == [] {
      assert a + b == b;
    } else {
      assert (a + b)[1..] == a[1..] + b;
      CountAppend(a[1..], b, c);
    }
  }

  /** Splitting at a separator that `a` does not contain peels `a` off the front. */
  lemma SplitAt(a: string, b: string, sep: char)
    requires sep !in a
    ensures Split(a + [sep] + b, sep) == [a] + Split(b, sep)
  {
    var s := a + [sep] + b;
    assert s[|a|] == sep;
    var i := FirstIndex(s, sep);
    assert forall k | 0 <= k < |a| :: s[k] == a[k];
    assert i == |a|;
    assert s[..i] == a;
    assert s[i + 1..] == b;
  }

  /** One more piece than there are separators. */
  lemma {:induction false} SplitLength(s: string, sep: char)
    ensures |Split(s, sep)| == Count(s, sep) + 1
    decreases |s|
  {
    if sep !in s {
      CountZero(s, sep);
    } else {
      var i := FirstIndex(s, sep);
      assert |Split(s, sep)| == 1 + |Split(s[i + 1..], sep)|;
      SplitLength(s[i + 1..], sep);
      CountAtFirst(s, sep);
    }
  }

  /** With a single separator, the split is the text before it and the text after it. */
  lemma SplitOne(s: string, sep: char)
    requires sep in s && Count(s, sep) == 1
    ensures Split(s, sep) == [s[..FirstIndex(s, sep)], s[FirstIndex(s, sep) + 1..]]
  {
    var i := FirstIndex(s, sep);
    var b := s[i + 1..];
    CountAtFirst(s, sep);
    CountZero(b, sep);
    assert Split(b, sep) == [b];
  }

  /** The first separator is one occurrence; none come before it. */
  lemma CountAtFirst(s: string, sep: char)
    requires sep in s
    ensures Count(s, sep) == 1 + Count(s[FirstIndex(s, sep) + 1..], sep)
  {
    var i := FirstIndex(s, sep);
    assert s[..i] + s[i..] == s;
    CountAppend(s[..i], s[i..], sep);
    CountZero(s[..i], sep);
    assert s[i..][1..] == s[i + 1..];
  }
}
