# MimeCategorizer, modelled in Dafny

QZedStat colours files in its tree map by "MIME category": C/C++ sources,
HTML, scripts, and so on. `MimeCategorizer` owns the list of categories. It
also keeps two suffix maps that it uses as a lookup cache: one for
case-sensitive suffixes and one for case-insensitive suffixes. Both maps send
a suffix to the category that owns it. A dirty flag says when the maps must
be rebuilt from the list. Classifying a filename works like this:

- Every "suffix candidate" is looked up in turn. The first candidate is the
  text after the first `.`, the next is the text after that one's first `.`,
  and so on.
- The case-sensitive map is tried with the candidate exactly as it is. After
  a miss, the case-insensitive map is tried with the candidate lower-cased.
- When the suffix phase leaves nothing, the categories' wildcard patterns are
  tried in list order.

The project is organised like this:

- `wrappers.dfy`: `Option`, and a `Result` whose only error is a null
  pointer.
- `qstring.dfy` (`QStrings`): `QString::section('.', 1)` and `toLower` on
  `seq<char>`.
- `mime_category.dfy` (`MimeCategories`): the category record, with its
  identity, name, two suffix lists and patterns. Pattern matching is a
  parameter.
- `suffix_index.dfy` (`SuffixIndex`): what `addSuffixes` and `buildMaps`
  put in a map, written as pure functions of the list. It also holds the
  lemmas about who owns each suffix and when duplicates are reported.
- `classification.dfy` (`Classification`): the reference function for
  `category()`, with the shape of the candidate chain and lemmas about
  outcomes.
- `default_categories.dfy` (`DefaultCategories`): the 20-entry built-in
  table. It is proved to have no duplicate suffix and to classify by
  suffix.
- `categorizer.dfy` (`Categorizer`): the `MimeCategorizer` class itself.
  It has the list, the two maps and the dirty flag as fields. Every method
  is proved against the functions above, and the class invariant says that
  a clean cache equals the maps built from the list.

Three behaviours of the code decide outcomes. The model keeps them as the
code has them:

- **First owner wins.** `addSuffixes` (src/MimeCategorizer.cpp:158-166)
  inserts a suffix only when it is not yet a key. When two categories
  declare a suffix in the same map, the earlier one keeps it and the later
  one is only logged. This holds within one map only. The case-sensitive
  map is consulted first (src/MimeCategorizer.cpp:74-77). So a later
  category that declares the suffix case-sensitively takes the file from
  an earlier one that declares it only case-insensitively
  (`CaseSensitiveBeatsEarlierInsensitive`).
- **The last candidate decides.** The lookup loop in `category()`
  (src/MimeCategorizer.cpp:70-84) has no early exit. Every pass overwrites
  `category`, so a hit on `tar.bz2` is replaced by the lookup of `bz2`.
  Only the last candidate counts (`LastCandidateDecides`,
  `CompoundSuffixFallsBack`).
- **`remove` uses `removeAll`** (src/MimeCategorizer.cpp:129). Every
  occurrence of the category leaves the list.

One premise concerns the default table. Each default entry is added with a
one-argument `MimeCategory::addSuffixes` call, so it gets that method's
default sensitivity. `MimeCategory.h` is not part of this model. The
model takes as given that the default is case-insensitive and that
case-insensitive suffixes are stored lower-cased. The following rest on
that premise:

- `DefaultListShape`'s clause that no entry has case-sensitive suffixes;
- `DefaultCaseSensitiveMapEmpty`, `DefaultsBuildWithoutConflicts`,
  `DefaultClassification`, `MainCppIsCee`, `UpperCaseCppIsCee` and
  `DefaultsClassifyCpp`;
- storing the Java suffix "Java" as "java".

## Model

| member | source | states |
|---|---|---|
| QStrings.SectionAfterFirst | src/MimeCategorizer.cpp:68 | `section('.', 1)` is a tail of its input. It is empty when the input has no separator and strictly shorter when the input is non-empty, so the suffix loop terminates. |
| QStrings.SectionIsTextAfterFirstSeparator | src/MimeCategorizer.cpp:67-68 | When the string holds a separator, the section is exactly the text after the first one. |
| QStrings.SectionOfAppend | src/MimeCategorizer.cpp:68 | When a string already holds the separator, text appended to it ends up at the end of its section. |
| QStrings.ToLower | src/MimeCategorizer.cpp:77 | Lower-casing keeps the length and maps every character through the ASCII lower-case function. |
| SuffixIndex.Inserted | src/MimeCategorizer.cpp:156-168 | Reference definition of the map `addSuffixes` leaves: suffix by suffix, a missing key is bound to the category and an existing key is left alone. `InsertedContents` states what it holds. |
| SuffixIndex.Conflicts | src/MimeCategorizer.cpp:158-163 | Reference definition of the duplicates `addSuffixes` logs: the suffixes already present as keys when they are met, in order. `ConflictsEmpty` characterises when there are none. |
| SuffixIndex.Fill | src/MimeCategorizer.cpp:140-146 | Reference definition of the `buildMaps` loop: `addSuffixes` for every category in list order, with the list of one sensitivity. `FillOwner` and `BuiltMapOwner` state what it holds. |
| SuffixIndex.BuiltMap | src/MimeCategorizer.cpp:135-149 | Reference definition of one map after `buildMaps`: cleared, then filled. Its keys and owners are given by `BuiltMapOwner` and `BuiltMapKeys`. |
| Classification.Chain | src/MimeCategorizer.cpp:70-84 | Reference definition of the values the loop variable `suffix` takes: each one is the section after the previous one's first dot, until it is empty. `ChainShape` states its shape. |
| Classification.SuffixCandidates | src/MimeCategorizer.cpp:67-84 | Reference definition of a filename's suffix candidates: the chain starting from `section('.', 1)` of the name. `CandidatesShape` states its shape. |
| Classification.Lookup | src/MimeCategorizer.cpp:74-77 | Reference definition of one pass of the loop body: the candidate exactly in the case-sensitive map, and on a miss its lower-cased form in the case-insensitive map. |
| Classification.SuffixPhase | src/MimeCategorizer.cpp:65-84 | Reference definition of what the loop leaves in `category`: nothing without candidates, and otherwise the lookup of the last candidate. `SuffixPhaseStep` ties it to one pass, and `Categorizer.MimeCategorizer.Category` proves the loop equal to it. |
| DefaultCategories.DefaultList | src/MimeCategorizer.cpp:244-439 | Reference definition of the default table: the twenty names and suffix lists in source order, with the identities `first` to `first + 19`. `DefaultListShape`, `DefaultsHaveNoDuplicates` and `DefaultClassification` state its properties. |
| Categorizer.MimeCategorizer.Valid | src/MimeCategorizer.cpp:60-63 | The class invariant: when the dirty flag is clear, both cached maps equal the maps built from the current list. This is what lets `category()` skip `buildMaps`. Every method keeps it. |
| SuffixIndex.InsertedContents | src/MimeCategorizer.cpp:156-168 | After `addSuffixes`, the keys are the old keys plus the suffixes added. An existing key keeps its owner, and every new key belongs to the category passed in. |
| SuffixIndex.FirstDeclarer | src/MimeCategorizer.cpp:140-146 | Reference owner of a suffix: the earliest position whose list declares it, with no earlier declarer. It is `None` exactly when no category declares it. |
| SuffixIndex.BuiltMapOwner | src/MimeCategorizer.cpp:135-149 | A suffix is a key of a built map if and only if some category declares it. Its value is the earliest declarer (first owner wins). |
| SuffixIndex.BuiltMapKeys | src/MimeCategorizer.cpp:135-149 | The keys of a built map are exactly the union of the categories' lists of that sensitivity. |
| SuffixIndex.BuiltMapValues | src/MimeCategorizer.cpp:135-149 | Every value of a built map is a category of the list. |
| SuffixIndex.AppendKeepsOwners | src/MimeCategorizer.cpp:116-122 | After a category is appended, rebuilding keeps every existing key with its owner. The new category gets exactly the suffixes of its own that were not claimed yet. |
| SuffixIndex.ConflictsEmpty | src/MimeCategorizer.cpp:156-168 | One `addSuffixes` call reports no duplicate if and only if its list is duplicate-free and shares no key with the map. |
| SuffixIndex.NoConflictsIffDuplicateFree | src/MimeCategorizer.cpp:135-169 | `buildMaps` reports no duplicate for a map if and only if no suffix of that sensitivity is declared twice across the list. |
| SuffixIndex.DuplicateFreeOwner | src/MimeCategorizer.cpp:135-169 | Without duplicates, every suffix a category declares maps to that category. |
| SuffixIndex.AllSuffixesEmpty | src/MimeCategorizer.cpp:140-146 | The concatenated suffix lists are empty if and only if every category's list is empty. |
| SuffixIndex.NoSuffixesEmptyMap | src/MimeCategorizer.cpp:135-149 | When no category declares a suffix of a sensitivity, that built map is empty. |
| Classification.ChainShape | src/MimeCategorizer.cpp:70-84 | The values the loop gives `suffix`: empty exactly for an empty start, which comes first. Each next value is the section of the previous one and strictly shorter. Every value is a non-empty tail, and the last has nothing after its first dot. |
| Classification.CandidatesShape | src/MimeCategorizer.cpp:67-84 | A filename's candidates are empty exactly when nothing follows its first dot; otherwise the first is that text. Each next one is the section of the previous one, every one is a non-empty tail shorter than the name, and nothing is left after the last. |
| Classification.SuffixPhaseStep | src/MimeCategorizer.cpp:70-84 | One pass of the loop: with no further section, the outcome is this pass's lookup. Otherwise it is the outcome of the remaining chain. |
| Classification.FirstPatternMatch | src/MimeCategorizer.cpp:98-113 | Reference for `matchPatterns`: a result is the first category in list order with a matching pattern. `None` means that no category has one. |
| Classification.Classify | src/MimeCategorizer.cpp:55-95 | Reference for `category(const QString &)`. Any category it returns is one of the list. |
| Classification.ClassifyItem | src/MimeCategorizer.cpp:43-52 | Directories and directory-info nodes are never classified. Any category returned belongs to the list. |
| Classification.ChainLastOf | src/MimeCategorizer.cpp:70-84 | Starting from `x.b` with `b` dot-free, the loop runs at least once, and its last value of `suffix` is `b`, however many dots `x` holds. |
| Classification.LastDotDecides | src/MimeCategorizer.cpp:55-95 | For any name `stem.b` with `b` dot-free, the result is the lookup of `b` (case-sensitive map first, then lower-cased in the case-insensitive map), and `matchPatterns` when that lookup misses. |
| Classification.SingleCandidate | src/MimeCategorizer.cpp:67-84 | `stem.s` with no other dot has exactly the candidate `s`. |
| Classification.TwoCandidates | src/MimeCategorizer.cpp:79-83 | `stem.a.b` has the candidates `a.b` and then `b`. |
| Classification.NoCandidatesMeansPatterns | src/MimeCategorizer.cpp:68-87 | A name with nothing after its first dot has no candidates and is classified by the patterns alone. |
| Classification.ClassifyByCaseSensitiveSuffix | src/MimeCategorizer.cpp:74 | A case-sensitive suffix `s` (the text after the last dot) sends `stem.s` to its earliest declarer, whatever the patterns say. The stem may hold any number of dots, as in `my.notes.s`. |
| Classification.ClassifyByCaseInsensitiveSuffix | src/MimeCategorizer.cpp:76-77 | On a case-sensitive miss, `stem.s`, with `s` the text after the last dot and any stem, goes to the earliest declarer of `ToLower(s)` in the case-insensitive lists. |
| Classification.DuplicateSuffixFirstWins | src/MimeCategorizer.cpp:158-167 | When two categories both declare the same suffix case-sensitively, the first one added gets the file. |
| Classification.DuplicateInsensitiveSuffixFirstWins | src/MimeCategorizer.cpp:158-167 | When neither declares the suffix case-sensitively and both declare its lower-cased form case-insensitively, the first one added gets the file. |
| Classification.CaseSensitiveBeatsEarlierInsensitive | src/MimeCategorizer.cpp:74-77 | Mixed case: a later category declaring the suffix case-sensitively gets the file instead of an earlier one that declares it only case-insensitively. |
| Classification.LastCandidateDecides | src/MimeCategorizer.cpp:70-87 | For `stem.a.b`, with `b` dot-free and any `stem` and `a`, the lookup of `b` alone decides the suffix phase. If it misses, the patterns decide. |
| Classification.CompoundSuffixFallsBack | src/MimeCategorizer.cpp:79-83 | Whenever the lookup of `bz2` alone finds a category, `stem.tar.bz2` goes to that category, for any stem. The lookup tries the case-sensitive map and then the case-insensitive map. |
| DefaultCategories.DefaultListShape | src/MimeCategorizer.cpp:242-441 | The table has twenty entries, from Ada through C/C++ to VHDL. No entry has case-sensitive suffixes or patterns. |
| DefaultCategories.DefaultsHaveNoDuplicates | src/MimeCategorizer.cpp:242-441 | No suffix in the table is declared twice. |
| DefaultCategories.DefaultsBuildWithoutConflicts | src/MimeCategorizer.cpp:135-169 | Building the maps over the defaults reports no duplicate in either map. |
| DefaultCategories.DefaultCaseSensitiveMapEmpty | src/MimeCategorizer.cpp:242-441 | Over the defaults, the case-sensitive map is empty. |
| DefaultCategories.DefaultClassification | src/MimeCategorizer.cpp:55-95 | With the defaults, `stem.s` belongs to the entry declaring `ToLower(s)`, where `s` is the text after the last dot. This holds for any stem, such as `jquery.min` in `jquery.min.js`, and whatever the matcher. |
| DefaultCategories.MainCppIsCee | src/MimeCategorizer.cpp:293-304 | `main.cpp` is classified as the C/C++ entry. |
| DefaultCategories.UpperCaseCppIsCee | src/MimeCategorizer.cpp:293-304 | `Main.CPP` is also classified as C/C++, through the case-insensitive map, so it gets the same answer as `main.cpp`. |
| Categorizer.RemoveAll | src/MimeCategorizer.cpp:129 | `removeAll` keeps exactly the entries different from the one removed, and the list never grows. |
| Categorizer.RemoveAllCounts | src/MimeCategorizer.cpp:129 | Every occurrence goes, and every other entry stays as often as before. |
| Categorizer.RemoveAllConcat | src/MimeCategorizer.cpp:129 | Removal distributes over concatenation, so the survivors keep their order. |
| Categorizer.RemoveAllAbsent | src/MimeCategorizer.cpp:129 | Removing a category that is absent changes nothing. |
| Categorizer.AddSuffixes | src/MimeCategorizer.cpp:152-169 | The loop leaves the map `Inserted` describes, and it reports exactly the duplicates `Conflicts` describes. |
| Categorizer.MimeCategorizer.constructor | src/MimeCategorizer.cpp:20-25 | Takes stored categories that are separate objects (`DistinctObjects`). Starts dirty. The list is the stored categories, or the default table when none were stored. |
| Categorizer.MimeCategorizer.Clear | src/MimeCategorizer.cpp:35-40 | Empties the list and marks the cache dirty. |
| Categorizer.MimeCategorizer.Add | src/MimeCategorizer.cpp:116-122 | A null pointer is rejected with nothing changed. Otherwise the category is appended, the cache is marked dirty and the invariant is kept. |
| Categorizer.MimeCategorizer.Remove | src/MimeCategorizer.cpp:125-132 | A null pointer is rejected with nothing changed. Otherwise every occurrence leaves the list and the cache is marked dirty. |
| Categorizer.MimeCategorizer.BuildMaps | src/MimeCategorizer.cpp:135-149 | Leaves both maps equal to the maps built from the list and the cache clean. The list is unchanged. |
| Categorizer.MimeCategorizer.MatchPatterns | src/MimeCategorizer.cpp:98-113 | Returns `FirstPatternMatch`: the first category with a pattern matching the whole name. |
| Categorizer.MimeCategorizer.Category | src/MimeCategorizer.cpp:55-95 | Returns `Classify` of the current list. The list is unchanged and the cache is clean afterwards. Nothing changes for an empty name or a clean cache. |
| Categorizer.MimeCategorizer.CategoryOfItem | src/MimeCategorizer.cpp:43-52 | A null item is rejected with nothing changed. Otherwise the result is `ClassifyItem`. |
| Categorizer.MimeCategorizer.AddDefaultCategories | src/MimeCategorizer.cpp:242-441 | Appends the twenty defaults in table order and leaves the cache dirty. |
| Categorizer.MimeCategorizer.ReadSettings | src/MimeCategorizer.cpp:172-202 | Takes stored categories that are separate objects, as the `new` at line 190 makes them (`DistinctObjects`). Clears the list and adds the stored categories in order, falling back to the defaults when none were stored. |
| Categorizer.ClassifyTwice | src/MimeCategorizer.cpp:60-63 | Two lookups with no change in between agree: rebuilding the cache never changes an answer. |
| Categorizer.DefaultsClassifyCpp | src/MimeCategorizer.cpp:20-25 | A categorizer started without stored settings classifies `main.cpp` as C/C++. |

## Left out

- Colours and `tr()`: neither affects classification. A category's name is the untranslated text.
- Logging: the "Duplicate suffix" message becomes the `duplicates` list that `AddSuffixes` returns. `BuildMaps` discards it, as the source only logs it.
- Settings I/O: reading `QSettings` is replaced by the `stored` parameter, already turned into categories. `writeSettings` and the destructor, which only writes settings and frees memory, are not modelled.
- `QRegExp::exactMatch`: the wildcard engine is not part of this model and is the `matcher` parameter.
- QStrings.ToLower: lower-cases ASCII letters only, not the full Unicode mapping of `QString::toLower`.
- `MimeCategory` is not part of this model. Its suffix lists are taken as already normalised. For the default table this rests on the premise stated above: the default sensitivity of `addSuffixes` is taken to be case-insensitive, with lower-cased storage, so the table's Java suffix "Java" is held as "java". Adding patterns to a category after `add` (`addPatterns`) is folded into the stored category value, because categories are values that do not change.
- Memory: `new`, `delete` in `remove` and `qDeleteAll` in `clear` are not modelled. Object identity is the `id` field, and `first` gives the identities of the defaults' fresh objects. `add` is not given any uniqueness rule, because the source accepts the same pointer twice, and then `remove` drops both copies. The stored categories passed to the constructor and `ReadSettings` must carry distinct ids (`DistinctObjects`), as the source creates a new object for each stored group.
- `CHECK_PTR` and `CHECK_MAGIC` become the `None` case of an `Option` argument, answered with `NullPointerError`. Memory corruption is not modelled.
- The null-entry skip in `matchPatterns` is not modelled: `add` rejects null, so the list never holds one.
- Categorizer.MimeCategorizer.BuildMaps: does not state in which order the duplicate messages of the two maps interleave.
