/** The two suffix maps that `buildMaps` derives from the category list, as
    pure functions of that list, and what they contain. */
module SuffixIndex {
  import opened Wrappers
  import opened MimeCategories

  /** `QMap<QString, MimeCategory *>`: suffix to owning category. */
  type SuffixMap = map<string, MimeCategory>

  /** The map after `addSuffixes(m, c, suffixes)`, suffix by suffix. */
  function Inserted(m: SuffixMap, c: MimeCategory, suffixes: seq<string>): SuffixMap
    decreases |suffixes|
  {
    if suffixes == [] then m
    else Inserted(if suffixes[0] in m then m else m[suffixes[0] := c], c, suffixes[1..])
  }

  /** After `addSuffixes(m, c, suffixes)` every suffix that was not yet a key
      is bound to `c`, a key that was already there keeps its owner, and
      nothing else is a key. */
  lemma {:induction false} InsertedContents(m: SuffixMap, c: MimeCategory, suffixes: seq<string>, s: string)
    ensures s in Inserted(m, c, suffixes) <==> s in m || s in suffixes
    ensures s in Inserted(m, c, suffixes) ==> Inserted(m, c, suffixes)[s] == if s in m then m[s] else c
    decreases |suffixes|
  {
    if suffixes != [] {
      assert s in suffixes <==> s == suffixes[0] || s in suffixes[1..];
      InsertedContents(if suffixes[0] in m then m else m[suffixes[0] := c], c, suffixes[1..], s);
    }
  }

  /** The suffixes that `addSuffixes(m, c, suffixes)` reports as duplicates
      (and does not insert), in the order it meets them. */
  function Conflicts(m: SuffixMap, c: MimeCategory, suffixes: seq<string>): seq<string>
    decreases |suffixes|
  {
    if suffixes == [] then []
    else if suffixes[0] in m then [suffixes[0]] + Conflicts(m, c, suffixes[1..])
    else Conflicts(m[suffixes[0] := c], c, suffixes[1..])
  }

  /** `addSuffixes` applied to `m` for every category of `cats` in list
      order, with the list of the given sensitivity. */
  function Fill(m: SuffixMap, cats: seq<MimeCategory>, sensitivity: Sensitivity): SuffixMap
    decreases |cats|
  {
    if cats == [] then m
    else Fill(Inserted(m, cats[0], SuffixList(cats[0], sensitivity)), cats[1..], sensitivity)
  }

  /** Every duplicate reported while `Fill` runs. */
  function FillConflicts(m: SuffixMap, cats: seq<MimeCategory>, sensitivity: Sensitivity): seq<string>
    decreases |cats|
  {
    if cats == [] then []
    else
      var l := SuffixList(cats[0], sensitivity);
      Conflicts(m, cats[0], l) + FillConflicts(Inserted(m, cats[0], l), cats[1..], sensitivity)
  }

  /** One of the maps `buildMaps` leaves behind: cleared, then filled. */
  function BuiltMap(cats: seq<MimeCategory>, sensitivity: Sensitivity): SuffixMap {
    Fill(map[], cats, sensitivity)
  }

  /** Every duplicate `buildMaps` reports for that map. */
  function BuildConflicts(cats: seq<MimeCategory>, sensitivity: Sensitivity): seq<string> {
    FillConflicts(map[], cats, sensitivity)
  }

  /** Reference owner of a suffix: the position of the earliest category in
      `cats` that declares `s` in its list of the given sensitivity. */
  function FirstDeclarer(cats: seq<MimeCategory>, s: string, sensitivity: Sensitivity): (r: Option<nat>)
    ensures r.Some? ==>
      r.value < |cats| && s in SuffixList(cats[r.value], sensitivity) &&
      forall j :: 0 <= j < r.value ==> s !in SuffixList(cats[j], sensitivity)
    ensures r.None? ==> forall j :: 0 <= j < |cats| ==> s !in SuffixList(cats[j], sensitivity)
    decreases |cats|
  {
    if cats == [] then None
    else if s in SuffixList(cats[0], sensitivity) then Some(0)
    else
      match FirstDeclarer(cats[1..], s, sensitivity)
      case None => None
      case Some(i) => Some(i + 1)
  }

  /** All suffixes of the given sensitivity, category by category. */
  function AllSuffixes(cats: seq<MimeCategory>, sensitivity: Sensitivity): seq<string>
    decreases |cats|
  {
    if cats == [] then [] else SuffixList(cats[0], sensitivity) + AllSuffixes(cats[1..], sensitivity)
  }

  /** No string occurs twice. */
  predicate DuplicateFree(l: seq<string>)
    decreases |l|
  {
    l == [] || (l[0] !in l[1..] && DuplicateFree(l[1..]))
  }

  lemma {:induction false} FillOwner(m: SuffixMap, cats: seq<MimeCategory>, sensitivity: Sensitivity, s: string)
    ensures s in Fill(m, cats, sensitivity) <==> s in m || FirstDeclarer(cats, s, sensitivity).Some?
    ensures s in Fill(m, cats, sensitivity) ==>
      Fill(m, cats, sensitivity)[s] ==
        if s in m then m[s] else cats[FirstDeclarer(cats, s, sensitivity).value]
    decreases |cats|
  {
    if cats != [] {
      var m' := Inserted(m, cats[0], SuffixList(cats[0], sensitivity));
      FillOwner(m', cats[1..], sensitivity, s);
      InsertedContents(m, cats[0], SuffixList(cats[0], sensitivity), s);
    }
  }

  /** First owner wins: a suffix is a key of the built map exactly when some
      category declares it, and its value is the earliest such category. */
  lemma BuiltMapOwner(cats: seq<MimeCategory>, sensitivity: Sensitivity, s: string)
    ensures s in BuiltMap(cats, sensitivity) <==> FirstDeclarer(cats, s, sensitivity).Some?
    ensures s in BuiltMap(cats, sensitivity) ==>
      BuiltMap(cats, sensitivity)[s] == cats[FirstDeclarer(cats, s, sensitivity).value]
  {
    FillOwner(map[], cats, sensitivity, s);
  }

  /** The keys of a built map are the union of the categories' lists. */
  lemma BuiltMapKeys(cats: seq<MimeCategory>, sensitivity: Sensitivity, s: string)
    ensures s in BuiltMap(cats, sensitivity) <==>
      exists i :: 0 <= i < |cats| && s in SuffixList(cats[i], sensitivity)
  {
    BuiltMapOwner(cats, sensitivity, s);
  }

  /** Every value of a built map is a category of the list. */
  lemma BuiltMapValues(cats: seq<MimeCategory>, sensitivity: Sensitivity)
    ensures forall s :: s in BuiltMap(cats, sensitivity) ==> BuiltMap(cats, sensitivity)[s] in cats
  {
    forall s | s in BuiltMap(cats, sensitivity) ensures BuiltMap(cats, sensitivity)[s] in cats {
      BuiltMapOwner(cats, sensitivity, s);
    }
  }

  lemma {:induction false} FirstDeclarerAppend(cats: seq<MimeCategory>, c: MimeCategory, s: string, sensitivity: Sensitivity)
    ensures FirstDeclarer(cats + [c], s, sensitivity) ==
      if FirstDeclarer(cats, s, sensitivity).Some? then FirstDeclarer(cats, s, sensitivity)
      else if s in SuffixList(c, sensitivity) then Some(|cats|)
      else None
    decreases |cats|
  {
    if cats != [] {
      assert (cats + [c])[1..] == cats[1..] + [c];
      FirstDeclarerAppend(cats[1..], c, s, sensitivity);
    }
  }

  /** Appending a category never takes a suffix away from its owner; the
      new category only gains the suffixes nobody declared before. */
  lemma AppendKeepsOwners(cats: seq<MimeCategory>, c: MimeCategory, sensitivity: Sensitivity, s: string)
    ensures s in BuiltMap(cats, sensitivity) ==>
      s in BuiltMap(cats + [c], sensitivity) &&
      BuiltMap(cats + [c], sensitivity)[s] == BuiltMap(cats, sensitivity)[s]
    ensures s !in BuiltMap(cats, sensitivity) ==>
      (s in BuiltMap(cats + [c], sensitivity) <==> s in SuffixList(c, sensitivity)) &&
      (s in BuiltMap(cats + [c], sensitivity) ==> BuiltMap(cats + [c], sensitivity)[s] == c)
  {
    BuiltMapOwner(cats, sensitivity, s);
    BuiltMapOwner(cats + [c], sensitivity, s);
    FirstDeclarerAppend(cats, c, s, sensitivity);
    if FirstDeclarer(cats, s, sensitivity).Some? {
      assert (cats + [c])[FirstDeclarer(cats, s, sensitivity).value] == cats[FirstDeclarer(cats, s, sensitivity).value];
    }
  }

  lemma {:induction false} DuplicateFreeAppend(a: seq<string>, b: seq<string>)
    ensures DuplicateFree(a + b) <==> DuplicateFree(a) && DuplicateFree(b) && forall s :: s in a ==> s !in b
    decreases |a|
  {
    if a != [] {
      assert (a + b)[1..] == a[1..] + b;
      DuplicateFreeAppend(a[1..], b);
      assert forall s :: s in a <==> s == a[0] || s in a[1..];
    } else {
      assert a + b == b;
    }
  }

  /** Putting a category in front keeps the suffixes duplicate-free when
      its own list is and shares nothing with the rest. */
  lemma PrependDuplicateFree(c: MimeCategory, rest: seq<MimeCategory>, sensitivity: Sensitivity)
    requires DuplicateFree(SuffixList(c, sensitivity)) && DuplicateFree(AllSuffixes(rest, sensitivity))
    requires forall s :: s in SuffixList(c, sensitivity) ==> s !in AllSuffixes(rest, sensitivity)
    ensures AllSuffixes([c] + rest, sensitivity) == SuffixList(c, sensitivity) + AllSuffixes(rest, sensitivity)
    ensures DuplicateFree(AllSuffixes([c] + rest, sensitivity))
  {
    assert ([c] + rest)[1..] == rest;
    DuplicateFreeAppend(SuffixList(c, sensitivity), AllSuffixes(rest, sensitivity));
  }

  lemma {:induction false} ConflictsEmpty(m: SuffixMap, c: MimeCategory, l: seq<string>)
    ensures Conflicts(m, c, l) == [] <==> DuplicateFree(l) && forall s :: s in l ==> s !in m
    decreases |l|
  {
    if l != [] {
      assert forall s :: s in l <==> s == l[0] || s in l[1..];
      if l[0] in m {
        assert !(forall s :: s in l ==> s !in m);
      } else {
        ConflictsEmpty(m[l[0] := c], c, l[1..]);
      }
    }
  }

  lemma {:induction false} FillConflictsEmpty(m: SuffixMap, cats: seq<MimeCategory>, sensitivity: Sensitivity)
    ensures FillConflicts(m, cats, sensitivity) == [] <==>
      DuplicateFree(AllSuffixes(cats, sensitivity)) &&
      forall s :: s in AllSuffixes(cats, sensitivity) ==> s !in m
    decreases |cats|
  {
    if cats != [] {
      var l := SuffixList(cats[0], sensitivity);
      var rest := AllSuffixes(cats[1..], sensitivity);
      ConflictsEmpty(m, cats[0], l);
      FillConflictsEmpty(Inserted(m, cats[0], l), cats[1..], sensitivity);
      forall s ensures s in Inserted(m, cats[0], l) <==> s in m || s in l {
        InsertedContents(m, cats[0], l, s);
      }
      DuplicateFreeAppend(l, rest);
      assert forall s :: s in l + rest <==> s in l || s in rest;
    }
  }

  /** `buildMaps` reports no duplicate exactly when no suffix is declared
      twice across the list. */
  lemma NoConflictsIffDuplicateFree(cats: seq<MimeCategory>, sensitivity: Sensitivity)
    ensures BuildConflicts(cats, sensitivity) == [] <==> DuplicateFree(AllSuffixes(cats, sensitivity))
  {
    FillConflictsEmpty(map[], cats, sensitivity);
  }

  lemma {:induction false} InAllSuffixes(cats: seq<MimeCategory>, i: nat, s: string, sensitivity: Sensitivity)
    requires i < |cats| && s in SuffixList(cats[i], sensitivity)
    ensures s in AllSuffixes(cats, sensitivity)
    decreases |cats|
  {
    if i > 0 {
      InAllSuffixes(cats[1..], i - 1, s, sensitivity);
    }
  }

  lemma {:induction false} DeclaredTwice(cats: seq<MimeCategory>, k: nat, i: nat, s: string, sensitivity: Sensitivity)
    requires k < i < |cats|
    requires s in SuffixList(cats[k], sensitivity) && s in SuffixList(cats[i], sensitivity)
    ensures !DuplicateFree(AllSuffixes(cats, sensitivity))
    decreases |cats|
  {
    var l := SuffixList(cats[0], sensitivity);
    var rest := AllSuffixes(cats[1..], sensitivity);
    assert AllSuffixes(cats, sensitivity) == l + rest;
    assert cats[1..][i - 1] == cats[i];
    if k == 0 {
      InAllSuffixes(cats[1..], i - 1, s, sensitivity);
      DuplicateFreeAppend(l, rest);
    } else {
      assert cats[1..][k - 1] == cats[k];
      DeclaredTwice(cats[1..], k - 1, i - 1, s, sensitivity);
      DuplicateFreeAppend(l, rest);
    }
  }

  /** Without duplicates, every suffix a category declares maps to that
      category. */
  lemma DuplicateFreeOwner(cats: seq<MimeCategory>, i: nat, s: string, sensitivity: Sensitivity)
    requires DuplicateFree(AllSuffixes(cats, sensitivity))
    requires i < |cats| && s in SuffixList(cats[i], sensitivity)
    ensures s in BuiltMap(cats, sensitivity) && BuiltMap(cats, sensitivity)[s] == cats[i]
  {
    BuiltMapOwner(cats, sensitivity, s);
    var first := FirstDeclarer(cats, s, sensitivity);
    if first.None? {
      assert false;
    }
    var k := first.value;
    if k < i {
      DeclaredTwice(cats, k, i, s, sensitivity);
      assert false;
    }
    if k > i {
      assert false;
    }
  }

  /** The concatenated lists are empty exactly when every list is. */
  lemma {:induction false} AllSuffixesEmpty(cats: seq<MimeCategory>, sensitivity: Sensitivity)
    ensures AllSuffixes(cats, sensitivity) == [] <==>
      forall i :: 0 <= i < |cats| ==> SuffixList(cats[i], sensitivity) == []
    decreases |cats|
  {
    if cats != [] {
      AllSuffixesEmpty(cats[1..], sensitivity);
      assert forall i :: 1 <= i < |cats| ==> cats[i] == cats[1..][i - 1];
    }
  }

  /** When no category declares a suffix, the map is empty. */
  lemma NoSuffixesEmptyMap(cats: seq<MimeCategory>, sensitivity: Sensitivity)
    requires forall i :: 0 <= i < |cats| ==> SuffixList(cats[i], sensitivity) == []
    ensures BuiltMap(cats, sensitivity) == map[]
  {
    forall s ensures s !in BuiltMap(cats, sensitivity) {
      BuiltMapKeys(cats, sensitivity, s);
    }
  }
}
