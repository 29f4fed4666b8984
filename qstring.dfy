/** The two QString operations the classifier relies on, on `seq<char>`. */
module QStrings {

  /** `s.section(sep, 1)` with the default flags: the fields of `s` from the
      second one on, joined by `sep` again; the empty string when `s` holds
      no `sep`. It is a tail of `s`, shorter than `s` when `s` is non-empty. */
  function SectionAfterFirst(s: string, sep: char): (r: string)
    ensures sep !in s ==> r == []
    ensures s != [] ==> |r| < |s|
    ensures IsTail(r, s)
    decreases |s|
  {
    if s == [] then []
    else if s[0] == sep then s[1..]
    else SectionAfterFirst(s[1..], sep)
  }

  /** When `s` holds a `sep`, the section is exactly the text after the
      first one. */
  lemma {:induction false} SectionIsTextAfterFirstSeparator(s: string, sep: char)
    requires sep in s
    ensures exists k :: 0 <= k < |s| && s[k] == sep && sep !in s[..k] && SectionAfterFirst(s, sep) == s[k + 1..]
    decreases |s|
  {
    if s[0] == sep {
      assert sep !in s[..0];
    } else {
      assert sep in s[1..];
      SectionIsTextAfterFirstSeparator(s[1..], sep);
      var k :| 0 <= k < |s[1..]| && s[1..][k] == sep && sep !in s[1..][..k] &&
        SectionAfterFirst(s[1..], sep) == s[1..][k + 1..];
      assert s[..k + 1] == [s[0]] + s[1..][..k];
      assert s[k + 2..] == s[1..][k + 1..];
    }
  }

  /** Text appended after a string that already holds `sep` ends up at
      the end of its section. */
  lemma {:induction false} SectionOfAppend(y: string, z: string, sep: char)
    requires sep in y
    ensures SectionAfterFirst(y + z, sep) == SectionAfterFirst(y, sep) + z
    decreases |y|
  {
    assert (y + z)[0] == y[0] && (y + z)[1..] == y[1..] + z;
    if y[0] != sep {
      assert sep in y[1..];
      SectionOfAppend(y[1..], z, sep);
    }
  }

  /** `t` is a tail (a suffix, in the string sense) of `s`. */
  predicate IsTail(t: string, s: string) {
    |t| <= |s| && s[|s| - |t|..] == t
  }

  lemma TailOfTail(t: string, u: string, s: string)
    requires IsTail(t, u) && IsTail(u, s)
    ensures IsTail(t, s)
  {
    assert s[|s| - |t|..] == s[|s| - |u|..][|u| - |t|..];
  }

  /** ASCII stand-in for `QChar::toLower`. */
  function LowerChar(c: char): char {
    if 'A' <= c <= 'Z' then (c as int + 32) as char else c
  }

  /** ASCII stand-in for `QString::toLower`: every character lower-cased,
      nothing else changed. */
  function ToLower(s: string): (r: string)
    ensures |r| == |s|
    ensures forall i :: 0 <= i < |s| ==> r[i] == LowerChar(s[i])
  {
    if s == [] then [] else [LowerChar(s[0])] + ToLower(s[1..])
  }
}
