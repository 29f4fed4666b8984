/** The category record the classifier works on. `MimeCategory` itself is
    not part of this model: its suffix and pattern lists are taken as given,
    already normalised, and a category never changes once it is in the
    categorizer's list. */
module MimeCategories {

  /** `Qt::CaseSensitivity`. */
  datatype Sensitivity = CaseSensitive | CaseInsensitive

  /** One compiled pattern: its wildcard source and its case sensitivity. */
  datatype Pattern = Pattern(wildcard: string, sensitivity: Sensitivity)

  /** `QRegExp::exactMatch` of a compiled pattern against a whole filename.
      The wildcard engine is not part of this model, so the classifier takes
      it as a parameter. */
  type Matcher = (Pattern, string) -> bool

  /** A category. `id` stands for the object's address: two categories are
      the same entry of the list exactly when they are equal values. The
      colour is not modelled. */
  datatype MimeCategory = MimeCategory(
    id: nat,
    name: string,
    caseSensitiveSuffixes: seq<string>,
    caseInsensitiveSuffixes: seq<string>,
    patterns: seq<Pattern>)

  /** `caseSensitiveSuffixList()` or `caseInsensitiveSuffixList()`. */
  function SuffixList(c: MimeCategory, sensitivity: Sensitivity): seq<string> {
    match sensitivity
    case CaseSensitive => c.caseSensitiveSuffixes
    case CaseInsensitive => c.caseInsensitiveSuffixes
  }

  /** Some pattern of `c` matches the whole of `filename`. */
  predicate HasMatchingPattern(c: MimeCategory, matcher: Matcher, filename: string) {
    exists p :: p in c.patterns && matcher(p, filename)
  }
}
