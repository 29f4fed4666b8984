/** What `MimeCategorizer::category` computes, as a pure function of the
    category list, the pattern matcher and the filename. */
module Classification {
  import opened Wrappers
  import opened QStrings
  import opened MimeCategories
  import opened SuffixIndex

  /** The values `suffix` takes in the lookup loop when it starts out as `s`:
      `s` itself, then each section after the first '.', while non-empty.
      The loop ends because each section is shorter than the last. */
  function Chain(s: string): seq<string>
    decreases |s|
  {
    if s == [] then [] else [s] + Chain(SectionAfterFirst(s, '.'))
  }

  /** The suffix candidates of a filename, in the order the loop tries them. */
  function SuffixCandidates(filename: string): seq<string> {
    Chain(SectionAfterFirst(filename, '.'))
  }

  /** Value `i` of the chain is the section after value `i - 1`'s first
      '.', and strictly shorter than it. */
  lemma {:induction false} ChainStepAt(s: string, i: nat)
    requires 0 < i < |Chain(s)|
    ensures Chain(s)[i] == SectionAfterFirst(Chain(s)[i - 1], '.') && |Chain(s)[i]| < |Chain(s)[i - 1]|
    decreases |s|
  {
    assert s != [];
    var t := SectionAfterFirst(s, '.');
    var c := Chain(s);
    var rest := Chain(t);
    assert c == [s] + rest;
    if i == 1 {
      assert t != [];
      assert rest[0] == t by {
        assert rest == [t] + Chain(SectionAfterFirst(t, '.'));
      }
      assert c[1] == t && c[0] == s;
    } else {
      ChainStepAt(t, i - 1);
      assert c[i] == rest[i - 1] && c[i - 1] == rest[i - 2];
    }
  }

  /** Each value after the first is the section after the previous one's
      first '.', and strictly shorter than it. */
  lemma ChainSteps(s: string)
    ensures forall i :: 0 < i < |Chain(s)| ==>
      Chain(s)[i] == SectionAfterFirst(Chain(s)[i - 1], '.') && |Chain(s)[i]| < |Chain(s)[i - 1]|
  {
    forall i | 0 < i < |Chain(s)|
      ensures Chain(s)[i] == SectionAfterFirst(Chain(s)[i - 1], '.') && |Chain(s)[i]| < |Chain(s)[i - 1]|
    {
      ChainStepAt(s, i);
    }
  }

  /** Every value is a non-empty tail of `s`. */
  lemma {:induction false} ChainTails(s: string)
    ensures forall i :: 0 <= i < |Chain(s)| ==> Chain(s)[i] != [] && IsTail(Chain(s)[i], s)
    decreases |s|
  {
    if s != [] {
      var t := SectionAfterFirst(s, '.');
      ChainTails(t);
      var rest := Chain(t);
      var r := Chain(s);
      assert r == [s] + rest;
      forall i | 0 <= i < |r| ensures r[i] != [] && IsTail(r[i], s) {
        if i > 0 {
          assert r[i] == rest[i - 1];
          TailOfTail(r[i], t, s);
        }
      }
    }
  }

  /** Nothing follows the last value's first '.'. */
  lemma {:induction false} ChainLast(s: string)
    ensures Chain(s) != [] ==> SectionAfterFirst(Chain(s)[|Chain(s)| - 1], '.') == []
    decreases |s|
  {
    if s != [] {
      var t := SectionAfterFirst(s, '.');
      ChainLast(t);
      var rest := Chain(t);
      var r := Chain(s);
      assert r == [s] + rest;
      if rest != [] {
        assert r[|r| - 1] == rest[|rest| - 1];
      }
    }
  }

  /** The loop's values form a fixed chain: it starts at `s`, each next
      value is the section after the previous one's first '.', and is
      strictly shorter; every value is a non-empty tail of `s`; the last one
      has nothing after its first '.'. */
  lemma ChainShape(s: string)
    ensures Chain(s) == [] <==> s == []
    ensures Chain(s) != [] ==> Chain(s)[0] == s
    ensures forall i :: 0 < i < |Chain(s)| ==>
      Chain(s)[i] == SectionAfterFirst(Chain(s)[i - 1], '.') && |Chain(s)[i]| < |Chain(s)[i - 1]|
    ensures forall i :: 0 <= i < |Chain(s)| ==> Chain(s)[i] != [] && IsTail(Chain(s)[i], s)
    ensures Chain(s) != [] ==> SectionAfterFirst(Chain(s)[|Chain(s)| - 1], '.') == []
  {
    if s != [] {
      assert Chain(s) == [s] + Chain(SectionAfterFirst(s, '.'));
    }
    ChainSteps(s);
    ChainTails(s);
    ChainLast(s);
  }

  /** The candidates of a filename: none when there is no non-empty text
      after its first '.'; otherwise the first is that text, each next one
      is the text after the previous one's first '.', every one is a
      strictly shorter non-empty tail of the name, and after the last one
      nothing is left. */
  lemma CandidatesShape(filename: string)
    ensures SuffixCandidates(filename) == [] <==> SectionAfterFirst(filename, '.') == []
    ensures SuffixCandidates(filename) != [] ==> SuffixCandidates(filename)[0] == SectionAfterFirst(filename, '.')
    ensures forall i :: 0 < i < |SuffixCandidates(filename)| ==>
      SuffixCandidates(filename)[i] == SectionAfterFirst(SuffixCandidates(filename)[i - 1], '.')
    ensures forall i :: 0 <= i < |SuffixCandidates(filename)| ==>
      SuffixCandidates(filename)[i] != [] && |SuffixCandidates(filename)[i]| < |filename| &&
      IsTail(SuffixCandidates(filename)[i], filename)
    ensures SuffixCandidates(filename) != [] ==>
      SectionAfterFirst(SuffixCandidates(filename)[|SuffixCandidates(filename)| - 1], '.') == []
  {
    var t := SectionAfterFirst(filename, '.');
    ChainShape(t);
    var r := SuffixCandidates(filename);
    forall i | 0 <= i < |r|
      ensures r[i] != [] && |r[i]| < |filename| && IsTail(r[i], filename)
    {
      TailOfTail(r[i], t, filename);
    }
  }

  /** One pass of the loop body: the exact candidate in the case-sensitive
      map, and on a miss its lower-cased form in the case-insensitive map. */
  function Lookup(caseSensitiveMap: SuffixMap, caseInsensitiveMap: SuffixMap, suffix: string): Option<MimeCategory> {
    if suffix in caseSensitiveMap then Some(caseSensitiveMap[suffix])
    else if ToLower(suffix) in caseInsensitiveMap then Some(caseInsensitiveMap[ToLower(suffix)])
    else None
  }

  /** What the suffix loop leaves in `category`: every pass overwrites it,
      so only the last candidate's lookup counts. */
  function SuffixPhase(caseSensitiveMap: SuffixMap, caseInsensitiveMap: SuffixMap, candidates: seq<string>): Option<MimeCategory> {
    if candidates == [] then None
    else Lookup(caseSensitiveMap, caseInsensitiveMap, candidates[|candidates| - 1])
  }

  /** One pass of the loop: the last lookup over the chain from `suffix` is
      this pass's lookup when no section follows, and otherwise the last
      lookup over the chain from the next section. */
  lemma SuffixPhaseStep(caseSensitiveMap: SuffixMap, caseInsensitiveMap: SuffixMap, suffix: string)
    requires suffix != []
    ensures SuffixPhase(caseSensitiveMap, caseInsensitiveMap, Chain(suffix)) ==
      if SectionAfterFirst(suffix, '.') == [] then Lookup(caseSensitiveMap, caseInsensitiveMap, suffix)
      else SuffixPhase(caseSensitiveMap, caseInsensitiveMap, Chain(SectionAfterFirst(suffix, '.')))
  {
    var next := SectionAfterFirst(suffix, '.');
    var chain := Chain(suffix);
    assert chain == [suffix] + Chain(next);
    if next != [] {
      ChainShape(next);
      assert chain[|chain| - 1] == Chain(next)[|Chain(next)| - 1];
    }
  }

  /** `Lookup` against the maps built from `cats`. */
  function IndexLookup(cats: seq<MimeCategory>, suffix: string): Option<MimeCategory> {
    Lookup(BuiltMap(cats, CaseSensitive), BuiltMap(cats, CaseInsensitive), suffix)
  }

  /** Category `i` is the first of `cats` with a pattern matching `filename`. */
  predicate IsFirstMatch(cats: seq<MimeCategory>, i: int, matcher: Matcher, filename: string) {
    0 <= i < |cats| && HasMatchingPattern(cats[i], matcher, filename) &&
    forall j :: 0 <= j < i ==> !HasMatchingPattern(cats[j], matcher, filename)
  }

  /** Reference for `matchPatterns`: the first category in list order that
      has a pattern matching the whole filename, and nothing if none has. */
  function FirstPatternMatch(cats: seq<MimeCategory>, matcher: Matcher, filename: string): (r: Option<MimeCategory>)
    ensures r.Some? ==> exists i :: IsFirstMatch(cats, i, matcher, filename) && r.value == cats[i]
    ensures r.None? ==> forall j :: 0 <= j < |cats| ==> !HasMatchingPattern(cats[j], matcher, filename)
    decreases |cats|
  {
    if cats == [] then None
    else if HasMatchingPattern(cats[0], matcher, filename) then
      assert IsFirstMatch(cats, 0, matcher, filename);
      Some(cats[0])
    else
      var r := FirstPatternMatch(cats[1..], matcher, filename);
      assert r.Some? ==> exists i :: IsFirstMatch(cats, i, matcher, filename) && r.value == cats[i] by {
        if r.Some? {
          var i :| IsFirstMatch(cats[1..], i, matcher, filename) && r.value == cats[1..][i];
          assert forall j :: 0 < j < i + 1 ==> cats[j] == cats[1..][j - 1];
          assert IsFirstMatch(cats, i + 1, matcher, filename);
        }
      }
      r
  }

  /** Reference for `category(const QString &)`: nothing for an empty name;
      otherwise the suffix phase over the freshly built maps, and the
      patterns only when that phase found nothing. A category found is
      always one of the list. */
  function Classify(cats: seq<MimeCategory>, matcher: Matcher, filename: string): (r: Option<MimeCategory>)
    ensures r.Some? ==> r.value in cats
  {
    if filename == [] then None
    else
      var hit := SuffixPhase(BuiltMap(cats, CaseSensitive), BuiltMap(cats, CaseInsensitive), SuffixCandidates(filename));
      BuiltMapValues(cats, CaseSensitive);
      BuiltMapValues(cats, CaseInsensitive);
      if hit.Some? then hit else FirstPatternMatch(cats, matcher, filename)
  }

  /** The part of a `FileInfo` the classifier reads. */
  datatype FileInfo = FileInfo(name: string, isDir: bool, isDirInfo: bool)

  /** Reference for `category(FileInfo *)`: directories are never
      classified, whatever their name. */
  function ClassifyItem(cats: seq<MimeCategory>, matcher: Matcher, item: FileInfo): (r: Option<MimeCategory>)
    ensures (item.isDir || item.isDirInfo) ==> r == None
    ensures r.Some? ==> r.value in cats
  {
    if item.isDir || item.isDirInfo then None else Classify(cats, matcher, item.name)
  }

  lemma {:induction false} SectionOfJoin(stem: string, s: string)
    requires '.' !in stem
    ensures SectionAfterFirst(stem + "." + s, '.') == s
    decreases |stem|
  {
    if stem == [] {
      assert stem + "." + s == ['.'] + s;
    } else {
      assert (stem + "." + s)[1..] == stem[1..] + "." + s;
      SectionOfJoin(stem[1..], s);
    }
  }

  /** A name `stem.s` with no other dot has exactly one candidate, `s`. */
  lemma SingleCandidate(stem: string, s: string)
    requires '.' !in stem && '.' !in s && s != []
    ensures SuffixCandidates(stem + "." + s) == [s]
  {
    SectionOfJoin(stem, s);
    assert SectionAfterFirst(s, '.') == [];
    assert Chain(s) == [s] + Chain([]);
  }

  /** A name `stem.a.b` has the candidates `a.b` and then `b`. */
  lemma TwoCandidates(stem: string, a: string, b: string)
    requires '.' !in stem && '.' !in a && '.' !in b && b != []
    ensures SuffixCandidates(stem + "." + a + "." + b) == [a + "." + b, b]
  {
    assert stem + "." + a + "." + b == stem + "." + (a + "." + b);
    SectionOfJoin(stem, a + "." + b);
    SectionOfJoin(a, b);
    assert SectionAfterFirst(b, '.') == [];
    assert Chain(b) == [b];
    assert Chain(a + "." + b) == [a + "." + b] + Chain(b);
  }

  /** The chain from `x.b`, where `b` holds no dot, is non-empty and ends
      with `b`, however many dots `x` holds. */
  lemma {:induction false} ChainLastOf(x: string, b: string)
    requires '.' !in b && b != []
    ensures Chain(x + "." + b) != [] && Chain(x + "." + b)[|Chain(x + "." + b)| - 1] == b
    decreases |x|
  {
    var s := x + "." + b;
    var next := SectionAfterFirst(s, '.');
    if '.' in x {
      var x' := SectionAfterFirst(x, '.');
      assert s == x + ("." + b);
      SectionOfAppend(x, "." + b, '.');
      assert next == x' + "." + b;
      ChainLastOf(x', b);
      LastOfPrepend(s, Chain(next));
    } else {
      SectionOfJoin(x, b);
      assert SectionAfterFirst(b, '.') == [];
      assert Chain(b) == [b] + Chain([]);
      LastOfPrepend(s, Chain(next));
    }
  }

  /** The chain from a non-empty string is that string followed by the
      chain from its section; its last value is that chain's last one
      when the section is non-empty. */
  lemma LastOfPrepend(s: string, rest: seq<string>)
    requires s != [] && rest == Chain(SectionAfterFirst(s, '.')) && rest != []
    ensures Chain(s) != [] && Chain(s)[|Chain(s)| - 1] == rest[|rest| - 1]
  {
    assert Chain(s) == [s] + rest;
  }

  /** Only the text after the last dot decides the suffix phase, whatever
      precedes it: a name `stem.b`, where `b` holds no dot, goes to the
      lookup of `b`, and to the patterns when that lookup misses. */
  lemma LastDotDecides(cats: seq<MimeCategory>, matcher: Matcher, stem: string, b: string)
    requires '.' !in b && b != []
    ensures Classify(cats, matcher, stem + "." + b) ==
      if IndexLookup(cats, b).Some? then IndexLookup(cats, b)
      else FirstPatternMatch(cats, matcher, stem + "." + b)
  {
    var name := stem + "." + b;
    assert name != [];
    var t := SectionAfterFirst(name, '.');
    if '.' in stem {
      assert name == stem + ("." + b);
      SectionOfAppend(stem, "." + b, '.');
      assert t == SectionAfterFirst(stem, '.') + "." + b;
      ChainLastOf(SectionAfterFirst(stem, '.'), b);
    } else {
      SectionOfJoin(stem, b);
      assert SectionAfterFirst(b, '.') == [];
      assert Chain(b) == [b] + Chain([]);
    }
  }

  /** A name with no non-empty text after its first dot (no dot at all, or
      one dot at the very end, as in ".") goes straight to the patterns. */
  lemma NoCandidatesMeansPatterns(cats: seq<MimeCategory>, matcher: Matcher, filename: string)
    requires filename != [] && SectionAfterFirst(filename, '.') == []
    ensures SuffixCandidates(filename) == []
    ensures Classify(cats, matcher, filename) == FirstPatternMatch(cats, matcher, filename)
  {
  }

  /** A case-sensitive suffix classifies `stem.s` to the earliest category
      declaring it, whatever the patterns say. */
  lemma ClassifyByCaseSensitiveSuffix(cats: seq<MimeCategory>, matcher: Matcher, stem: string, s: string)
    requires '.' !in s && s != []
    requires FirstDeclarer(cats, s, CaseSensitive).Some?
    ensures Classify(cats, matcher, stem + "." + s) == Some(cats[FirstDeclarer(cats, s, CaseSensitive).value])
  {
    LastDotDecides(cats, matcher, stem, s);
    BuiltMapOwner(cats, CaseSensitive, s);
  }

  /** When no category declares `s` case-sensitively, its lower-cased form
      is looked up: `stem.s` goes to the earliest category declaring
      `ToLower(s)` case-insensitively, whatever the patterns say. */
  lemma ClassifyByCaseInsensitiveSuffix(cats: seq<MimeCategory>, matcher: Matcher, stem: string, s: string)
    requires '.' !in s && s != []
    requires FirstDeclarer(cats, s, CaseSensitive).None?
    requires FirstDeclarer(cats, ToLower(s), CaseInsensitive).Some?
    ensures Classify(cats, matcher, stem + "." + s) ==
      Some(cats[FirstDeclarer(cats, ToLower(s), CaseInsensitive).value])
  {
    LastDotDecides(cats, matcher, stem, s);
    BuiltMapOwner(cats, CaseSensitive, s);
    BuiltMapOwner(cats, CaseInsensitive, ToLower(s));
  }

  /** Two categories declaring the same suffix case-sensitively: the first
      one added gets the file, the second one never does. */
  lemma DuplicateSuffixFirstWins(a: MimeCategory, b: MimeCategory, matcher: Matcher, stem: string, s: string)
    requires '.' !in s && s != []
    requires s in a.caseSensitiveSuffixes && s in b.caseSensitiveSuffixes
    ensures Classify([a, b], matcher, stem + "." + s) == Some(a)
  {
    ClassifyByCaseSensitiveSuffix([a, b], matcher, stem, s);
  }

  /** Two categories declaring the lower-cased suffix case-insensitively,
      and neither declaring `s` case-sensitively: the first one added gets
      the file. */
  lemma DuplicateInsensitiveSuffixFirstWins(a: MimeCategory, b: MimeCategory, matcher: Matcher, stem: string, s: string)
    requires '.' !in s && s != []
    requires s !in a.caseSensitiveSuffixes && s !in b.caseSensitiveSuffixes
    requires ToLower(s) in a.caseInsensitiveSuffixes && ToLower(s) in b.caseInsensitiveSuffixes
    ensures Classify([a, b], matcher, stem + "." + s) == Some(a)
  {
    ClassifyByCaseInsensitiveSuffix([a, b], matcher, stem, s);
  }

  /** First owner wins only within one map: a category added later that
      declares `s` case-sensitively takes the file from an earlier one that
      declares it only case-insensitively, because the case-sensitive map
      is consulted first. */
  lemma CaseSensitiveBeatsEarlierInsensitive(a: MimeCategory, b: MimeCategory, matcher: Matcher, stem: string, s: string)
    requires '.' !in s && s != []
    requires s !in a.caseSensitiveSuffixes && ToLower(s) in a.caseInsensitiveSuffixes
    requires s in b.caseSensitiveSuffixes
    ensures Classify([a, b], matcher, stem + "." + s) == Some(b)
  {
    ClassifyByCaseSensitiveSuffix([a, b], matcher, stem, s);
  }

  /** For `stem.a.b` only `b` decides the suffix phase: a hit on the
      compound `a.b` is overwritten by the lookup of `b`, and if `b` misses
      the patterns decide. */
  lemma LastCandidateDecides(cats: seq<MimeCategory>, matcher: Matcher, stem: string, a: string, b: string)
    requires '.' !in b && b != []
    ensures Classify(cats, matcher, stem + "." + a + "." + b) ==
      if IndexLookup(cats, b).Some? then IndexLookup(cats, b)
      else FirstPatternMatch(cats, matcher, stem + "." + a + "." + b)
  {
    LastDotDecides(cats, matcher, stem + "." + a, b);
  }

  /** The `tar.bz2` case: whatever owns the compound suffix, `stem.tar.bz2`
      goes to whichever category the lookup of `bz2` alone finds, in
      either map, whenever that lookup finds one. */
  lemma CompoundSuffixFallsBack(cats: seq<MimeCategory>, matcher: Matcher, stem: string)
    requires IndexLookup(cats, "bz2").Some?
    ensures Classify(cats, matcher, stem + "." + "tar" + "." + "bz2") == IndexLookup(cats, "bz2")
  {
    LastCandidateDecides(cats, matcher, stem, "tar", "bz2");
  }
}
