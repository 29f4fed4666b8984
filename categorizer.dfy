/** `MimeCategorizer`: the list of categories it owns, the two suffix maps
    it caches, and the dirty flag that says when the cache must be rebuilt
    before the next lookup. */
module Categorizer {
  import opened Wrappers
  import opened QStrings
  import opened MimeCategories
  import opened SuffixIndex
  import opened Classification
  import opened DefaultCategories

  /** Every entry is a separate object: `readSettings` creates a new
      category for each stored group, so no identity occurs twice. */
  predicate DistinctObjects(cats: seq<MimeCategory>) {
    forall i, j :: 0 <= i < j < |cats| ==> cats[i].id != cats[j].id
  }

  /** `QList::removeAll`: the list without any occurrence of `c`, the other
      entries kept in their order. */
  function RemoveAll(cats: seq<MimeCategory>, c: MimeCategory): (r: seq<MimeCategory>)
    ensures forall x :: x in r <==> x in cats && x != c
    ensures |r| <= |cats|
    decreases |cats|
  {
    if cats == [] then []
    else (if cats[0] == c then [] else [cats[0]]) + RemoveAll(cats[1..], c)
  }

  /** Every occurrence of `c` goes and every other entry stays as often as
      it was there. */
  lemma {:induction false} RemoveAllCounts(cats: seq<MimeCategory>, c: MimeCategory)
    ensures multiset(RemoveAll(cats, c)) == multiset(cats)[c := 0]
    decreases |cats|
  {
    if cats != [] {
      RemoveAllCounts(cats[1..], c);
      assert cats == [cats[0]] + cats[1..];
    }
  }

  /** Removing distributes over concatenation, so the survivors keep their
      relative order. */
  lemma {:induction false} RemoveAllConcat(a: seq<MimeCategory>, b: seq<MimeCategory>, c: MimeCategory)
    ensures RemoveAll(a + b, c) == RemoveAll(a, c) + RemoveAll(b, c)
    decreases |a|
  {
    if a != [] {
      RemoveAllConcat(a[1..], b, c);
      assert (a + b)[1..] == a[1..] + b;
    } else {
      assert a + b == b;
    }
  }

  /** Removing a category that is not in the list changes nothing. */
  lemma {:induction false} RemoveAllAbsent(cats: seq<MimeCategory>, c: MimeCategory)
    requires c !in cats
    ensures RemoveAll(cats, c) == cats
    decreases |cats|
  {
    if cats != [] {
      RemoveAllAbsent(cats[1..], c);
      assert cats == [cats[0]] + cats[1..];
    }
  }

  /** `addSuffixes`: each suffix that is already a key is reported as a
      duplicate and left with its owner; every other one is bound to
      `category`. The map is passed by reference in the source; here the
      updated map is returned. */
  method AddSuffixes(suffixMap: SuffixMap, category: MimeCategory, suffixList: seq<string>)
    returns (m: SuffixMap, duplicates: seq<string>)
    ensures m == Inserted(suffixMap, category, suffixList)
    ensures duplicates == Conflicts(suffixMap, category, suffixList)
  {
    m := suffixMap;
    duplicates := [];
    for j := 0 to |suffixList|
      invariant Inserted(m, category, suffixList[j..]) == Inserted(suffixMap, category, suffixList)
      invariant duplicates + Conflicts(m, category, suffixList[j..]) == Conflicts(suffixMap, category, suffixList)
    {
      var suffix := suffixList[j];
      AddSuffixesStep(m, category, suffixList, j);
      if suffix in m {
        duplicates := duplicates + [suffix];
      } else {
        m := m[suffix := category];
      }
    }
  }

  /** One pass of the `addSuffixes` loop, on the remaining suffixes. */
  lemma AddSuffixesStep(m: SuffixMap, category: MimeCategory, suffixList: seq<string>, j: nat)
    requires j < |suffixList|
    ensures Inserted(m, category, suffixList[j..]) ==
      Inserted(if suffixList[j] in m then m else m[suffixList[j] := category], category, suffixList[j + 1..])
    ensures Conflicts(m, category, suffixList[j..]) ==
      if suffixList[j] in m then [suffixList[j]] + Conflicts(m, category, suffixList[j + 1..])
      else Conflicts(m[suffixList[j] := category], category, suffixList[j + 1..])
  {
    var rest := suffixList[j..];
    assert rest[0] == suffixList[j] && rest[1..] == suffixList[j + 1..];
  }

  class MimeCategorizer {
    /** The pattern engine the categories' patterns are matched with. */
    const matcher: Matcher
    var categories: seq<MimeCategory>
    var mapsDirty: bool
    var caseSensitiveSuffixMap: SuffixMap
    var caseInsensitiveSuffixMap: SuffixMap

    /** A clean cache holds exactly the maps built from the current list. */
    ghost predicate Valid()
      reads this
    {
      !mapsDirty ==>
        caseSensitiveSuffixMap == BuiltMap(categories, CaseSensitive) &&
        caseInsensitiveSuffixMap == BuiltMap(categories, CaseInsensitive)
    }

    /** Starts dirty and reads the settings: the stored categories, or the
        default table when none were stored. `first` is the identity of the
        first default category created. */
    constructor (matcher: Matcher, stored: seq<MimeCategory>, first: nat)
      requires DistinctObjects(stored)
      ensures Valid() && this.matcher == matcher
      ensures categories == if stored == [] then DefaultList(first) else stored
      ensures mapsDirty
    {
      this.matcher := matcher;
      categories := [];
      mapsDirty := true;
      caseSensitiveSuffixMap := map[];
      caseInsensitiveSuffixMap := map[];
      new;
      ReadSettings(stored, first);
    }

    /** `clear`: the list is emptied and the cache marked dirty. */
    method Clear()
      modifies this
      ensures categories == [] && mapsDirty
      ensures caseSensitiveSuffixMap == old(caseSensitiveSuffixMap)
      ensures caseInsensitiveSuffixMap == old(caseInsensitiveSuffixMap)
      ensures Valid()
    {
      categories := [];
      mapsDirty := true;
    }

    /** `add`: a null pointer is rejected and nothing changes; otherwise the
        category is appended and the cache marked dirty. */
    method Add(category: Option<MimeCategory>) returns (outcome: Result<()>)
      requires Valid()
      modifies this
      ensures category.None? ==> outcome == NullPointerError && unchanged(this)
      ensures category.Some? ==>
        outcome == Ok(()) && categories == old(categories) + [category.value] && mapsDirty &&
        caseSensitiveSuffixMap == old(caseSensitiveSuffixMap) &&
        caseInsensitiveSuffixMap == old(caseInsensitiveSuffixMap)
      ensures Valid()
    {
      if category.None? {
        return NullPointerError;
      }
      categories := categories + [category.value];
      mapsDirty := true;
      outcome := Ok(());
    }

    /** `remove`: a null pointer is rejected and nothing changes; otherwise
        every occurrence of the category leaves the list and the cache is
        marked dirty. */
    method Remove(category: Option<MimeCategory>) returns (outcome: Result<()>)
      requires Valid()
      modifies this
      ensures category.None? ==> outcome == NullPointerError && unchanged(this)
      ensures category.Some? ==>
        outcome == Ok(()) && categories == RemoveAll(old(categories), category.value) && mapsDirty &&
        caseSensitiveSuffixMap == old(caseSensitiveSuffixMap) &&
        caseInsensitiveSuffixMap == old(caseInsensitiveSuffixMap)
      ensures Valid()
    {
      if category.None? {
        return NullPointerError;
      }
      categories := RemoveAll(categories, category.value);
      mapsDirty := true;
      outcome := Ok(());
    }

    /** `buildMaps`: both maps cleared, then filled category by category in
        list order; afterwards the cache is clean. */
    method BuildMaps()
      modifies this
      ensures categories == old(categories)
      ensures caseSensitiveSuffixMap == BuiltMap(categories, CaseSensitive)
      ensures caseInsensitiveSuffixMap == BuiltMap(categories, CaseInsensitive)
      ensures !mapsDirty && Valid()
    {
      caseInsensitiveSuffixMap := map[];
      caseSensitiveSuffixMap := map[];
      var i := 0;
      while i < |categories|
        invariant 0 <= i <= |categories| && categories == old(categories)
        invariant Fill(caseInsensitiveSuffixMap, categories[i..], CaseInsensitive) == BuiltMap(categories, CaseInsensitive)
        invariant Fill(caseSensitiveSuffixMap, categories[i..], CaseSensitive) == BuiltMap(categories, CaseSensitive)
      {
        var category := categories[i];
        assert categories[i..][0] == category && categories[i..][1..] == categories[i + 1..];
        var duplicates;
        caseInsensitiveSuffixMap, duplicates :=
          AddSuffixes(caseInsensitiveSuffixMap, category, category.caseInsensitiveSuffixes);
        caseSensitiveSuffixMap, duplicates :=
          AddSuffixes(caseSensitiveSuffixMap, category, category.caseSensitiveSuffixes);
        i := i + 1;
      }
      mapsDirty := false;
    }

    /** `matchPatterns`: the first category, in list order, with a pattern
        matching the whole filename. */
    method MatchPatterns(filename: string) returns (r: Option<MimeCategory>)
      ensures r == FirstPatternMatch(categories, matcher, filename)
    {
      for i := 0 to |categories|
        invariant forall j :: 0 <= j < i ==> !HasMatchingPattern(categories[j], matcher, filename)
      {
        var category := categories[i];
        var patterns := category.patterns;
        for k := 0 to |patterns|
          invariant forall q :: 0 <= q < k ==> !matcher(patterns[q], filename)
        {
          if matcher(patterns[k], filename) {
            assert IsFirstMatch(categories, i, matcher, filename);
            FirstMatchIsResult(categories, i, matcher, filename);
            return Some(category);
          }
        }
      }
      return None;
    }

    /** `category(const QString &)`: nothing for an empty name; otherwise the
        cache is rebuilt if dirty, every suffix candidate is looked up in
        turn (the last lookup is the one that counts), and the patterns
        are tried when that left nothing. */
    method Category(filename: string) returns (r: Option<MimeCategory>)
      requires Valid()
      modifies this
      ensures r == Classify(categories, matcher, filename)
      ensures categories == old(categories) && Valid()
      ensures filename == [] || old(!mapsDirty) ==> unchanged(this)
      ensures filename != [] ==> !mapsDirty
    {
      if filename == [] {
        return None;
      }
      if mapsDirty {
        BuildMaps();
      }
      assert caseSensitiveSuffixMap == BuiltMap(categories, CaseSensitive);
      assert caseInsensitiveSuffixMap == BuiltMap(categories, CaseInsensitive);
      ghost var goal := SuffixPhase(caseSensitiveSuffixMap, caseInsensitiveSuffixMap, SuffixCandidates(filename));
      var category: Option<MimeCategory> := None;
      var suffix := SectionAfterFirst(filename, '.');
      while suffix != []
        invariant suffix != [] ==> SuffixPhase(caseSensitiveSuffixMap, caseInsensitiveSuffixMap, Chain(suffix)) == goal
        invariant suffix == [] ==> category == goal
        modifies {}
        decreases |suffix|
      {
        category := if suffix in caseSensitiveSuffixMap then Some(caseSensitiveSuffixMap[suffix]) else None;
        if category.None? {
          var lower := ToLower(suffix);
          category := if lower in caseInsensitiveSuffixMap then Some(caseInsensitiveSuffixMap[lower]) else None;
        }
        SuffixPhaseStep(caseSensitiveSuffixMap, caseInsensitiveSuffixMap, suffix);
        suffix := SectionAfterFirst(suffix, '.');
      }
      assert Classify(categories, matcher, filename) ==
        if category.Some? then category else FirstPatternMatch(categories, matcher, filename);
      if category.None? {
        category := MatchPatterns(filename);
      }
      r := category;
    }

    /** `category(FileInfo *)`: a null pointer is rejected; directories are
        not classified; any other item is classified by its name. */
    method CategoryOfItem(item: Option<FileInfo>) returns (r: Result<Option<MimeCategory>>)
      requires Valid()
      modifies this
      ensures item.None? ==> r == NullPointerError && unchanged(this)
      ensures item.Some? ==> r == Ok(ClassifyItem(categories, matcher, item.value))
      ensures categories == old(categories) && Valid()
      ensures item.Some? && (item.value.isDir || item.value.isDirInfo || item.value.name == [] || old(!mapsDirty)) ==>
        unchanged(this)
      ensures item.Some? && !item.value.isDir && !item.value.isDirInfo && item.value.name != [] ==> !mapsDirty
    {
      if item.None? {
        return NullPointerError;
      }
      var info := item.value;
      if info.isDir || info.isDirInfo {
        return Ok(None);
      }
      var c := Category(info.name);
      r := Ok(c);
    }

    /** `addDefaultCategories`: the twenty built-in categories appended in
        table order, each through `add`. */
    method AddDefaultCategories(first: nat)
      requires Valid()
      modifies this
      ensures categories == old(categories) + DefaultList(first) && mapsDirty
      ensures Valid()
    {
      var table := DefaultList(first);
      for i := 0 to |table|
        invariant categories == old(categories) + table[..i] && Valid()
        invariant i > 0 ==> mapsDirty
      {
        var outcome := Add(Some(table[i]));
        assert table[..i + 1] == table[..i] + [table[i]];
      }
      assert table[..|table|] == table;
    }

    /** `readSettings`: the list is cleared, one category is added per
        stored group in order, and the defaults are installed when no group
        was stored. */
    method ReadSettings(stored: seq<MimeCategory>, first: nat)
      requires DistinctObjects(stored)
      modifies this
      ensures categories == if stored == [] then DefaultList(first) else stored
      ensures mapsDirty && Valid()
    {
      Clear();
      for i := 0 to |stored|
        invariant categories == stored[..i] && mapsDirty && Valid()
      {
        var outcome := Add(Some(stored[i]));
        assert stored[..i + 1] == stored[..i] + [stored[i]];
      }
      assert stored[..|stored|] == stored;
      if categories == [] {
        AddDefaultCategories(first);
      }
    }
  }

  /** When category `i` is the first with a matching pattern, the reference
      picks exactly that one. */
  lemma FirstMatchIsResult(cats: seq<MimeCategory>, i: int, matcher: Matcher, filename: string)
    requires IsFirstMatch(cats, i, matcher, filename)
    ensures FirstPatternMatch(cats, matcher, filename) == Some(cats[i])
  {
    var r := FirstPatternMatch(cats, matcher, filename);
    if r.Some? {
      var j :| IsFirstMatch(cats, j, matcher, filename) && r.value == cats[j];
      assert j == i;
    }
  }

  /** Two lookups with no change to the list in between agree. */
  method ClassifyTwice(categorizer: MimeCategorizer, filename: string) returns (a: Option<MimeCategory>, b: Option<MimeCategory>)
    requires categorizer.Valid()
    modifies categorizer
    ensures a == b && a == Classify(categorizer.categories, categorizer.matcher, filename)
  {
    a := categorizer.Category(filename);
    b := categorizer.Category(filename);
  }

  /** A categorizer started without stored settings puts `main.cpp` in the
      C/C++ category of the default table. */
  method DefaultsClassifyCpp(matcher: Matcher, first: nat) returns (r: Option<MimeCategory>)
    ensures r == Some(DefaultList(first)[5]) && r.value.name == "C/C++"
  {
    var categorizer := new MimeCategorizer(matcher, [], first);
    r := categorizer.Category("main" + "." + "cpp");
    MainCppIsCee(first, matcher);
    DefaultListShape(first);
  }
}
