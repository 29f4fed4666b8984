/** The built-in table that `addDefaultCategories` installs. Each entry is
    added with a one-argument `MimeCategory::addSuffixes` call, so it gets
    that method's default sensitivity. `MimeCategory` is not part of this
    model, and this module takes as given that the default is
    case-insensitive and that case-insensitive suffixes are stored
    lower-cased. Under that premise no entry has case-sensitive suffixes
    or patterns. `DefaultListShape`, `DefaultCaseSensitiveMapEmpty`,
    `DefaultsBuildWithoutConflicts`, `DefaultClassification`,
    `MainCppIsCee`, `UpperCaseCppIsCee` and the stored form "java" of the
    Java suffix all rest on it. */
module DefaultCategories {
  import opened Wrappers
  import opened QStrings
  import opened MimeCategories
  import opened SuffixIndex
  import opened Classification

  /** One row of the table. */
  function Language(id: nat, name: string, suffixes: seq<string>): MimeCategory {
    MimeCategory(id, name, [], suffixes, [])
  }

  const AdaSuffixes: seq<string> := ["ada", "a", "adb", "ads"]
  const AspSuffixes: seq<string> := ["asp", "aspx"]
  const BashSuffixes: seq<string> := ["sh", "ksh"]
  const CShellSuffixes: seq<string> := ["csh", "tcsh"]
  const CSharpSuffixes: seq<string> := ["cs"]
  const CCppSuffixes: seq<string> := ["cpp", "c", "h", "hpp", "cc", "hh"]
  const ColdFusionSuffixes: seq<string> := ["cfs"]
  const CssSuffixes: seq<string> := ["css"]
  const FortranSuffixes: seq<string> := ["f", "for", "f77", "f90", "f95", "f03", "hpf"]
  const HtmlSuffixes: seq<string> := ["htm", "html", "shtml", "stm", "sht", "oth", "xhtml"]
  const JavaSuffixes: seq<string> := ["java"]
  const JavaScriptSuffixes: seq<string> := ["js"]
  const PascalSuffixes: seq<string> := ["pas", "p", "pp", "pa3", "pa4", "pa5"]
  const PerlSuffixes: seq<string> := ["pl", "pm"]
  const PhpSuffixes: seq<string> := ["php"]
  const PythonSuffixes: seq<string> := ["py"]
  const RubySuffixes: seq<string> := ["rb"]
  const SqlSuffixes: seq<string> := ["sql"]
  const VisualBasicSuffixes: seq<string> := ["vb", "frm", "mod", "cls", "bas"]
  const VhdlSuffixes: seq<string> := ["vhd", "vhdl"]

  /** The table in the order `addDefaultCategories` adds it; the entries
      are new objects, whose identities are `first` up to `first + 19`. */
  function DefaultList(first: nat): seq<MimeCategory> {
    [
      Language(first + 0, "Ada", AdaSuffixes),
      Language(first + 1, "ASP, ASP.NET", AspSuffixes),
      Language(first + 2, "Bash", BashSuffixes),
      Language(first + 3, "C Shell", CShellSuffixes),
      Language(first + 4, "C#", CSharpSuffixes),
      Language(first + 5, "C/C++", CCppSuffixes),
      Language(first + 6, "ColdFusion", ColdFusionSuffixes),
      Language(first + 7, "CSS", CssSuffixes),
      Language(first + 8, "Fortran", FortranSuffixes),
      Language(first + 9, "HTML", HtmlSuffixes),
      Language(first + 10, "Java", JavaSuffixes),
      Language(first + 11, "JavaScript", JavaScriptSuffixes),
      Language(first + 12, "Pascal", PascalSuffixes),
      Language(first + 13, "Perl", PerlSuffixes),
      Language(first + 14, "PHP", PhpSuffixes),
      Language(first + 15, "Python", PythonSuffixes),
      Language(first + 16, "Ruby", RubySuffixes),
      Language(first + 17, "SQL", SqlSuffixes),
      Language(first + 18, "VB", VisualBasicSuffixes),
      Language(first + 19, "VHDL", VhdlSuffixes)
    ]
  }

  /** Twenty categories, Ada through VHDL, with case-insensitive suffixes
      only and no patterns. */
  lemma DefaultListShape(f: nat)
    ensures |DefaultList(f)| == 20
    ensures DefaultList(f)[0].name == "Ada" && DefaultList(f)[5].name == "C/C++" && DefaultList(f)[19].name == "VHDL"
    ensures forall i :: 0 <= i < 20 ==>
      DefaultList(f)[i].caseSensitiveSuffixes == [] && DefaultList(f)[i].patterns == []
  {
  }

  /** Index-based duplicate check, which the verifier can evaluate on a
      short literal list: no element from position `j` on equals `l[i]`. */
  predicate NoneEqualFrom(l: seq<string>, i: nat, j: nat)
    requires i < |l|
    decreases |l| - j
  {
    j >= |l| || (l[j] != l[i] && NoneEqualFrom(l, i, j + 1))
  }

  /** No two elements from position `i` on are equal. */
  predicate DistinctFrom(l: seq<string>, i: nat)
    decreases |l| - i
  {
    i >= |l| || (NoneEqualFrom(l, i, i + 1) && DistinctFrom(l, i + 1))
  }

  lemma {:induction false} NoneEqualFromSound(l: seq<string>, i: nat, j: nat)
    requires i < |l| && j <= |l| && NoneEqualFrom(l, i, j)
    ensures l[i] !in l[j..]
    decreases |l| - j
  {
    if j < |l| {
      NoneEqualFromSound(l, i, j + 1);
      assert l[j..] == [l[j]] + l[j + 1..];
    }
  }

  lemma {:induction false} DistinctFromSound(l: seq<string>, i: nat)
    requires i <= |l| && DistinctFrom(l, i)
    ensures DuplicateFree(l[i..])
    decreases |l| - i
  {
    if i < |l| {
      NoneEqualFromSound(l, i, i + 1);
      DistinctFromSound(l, i + 1);
      assert l[i..][1..] == l[i + 1..];
    }
  }

  /** Puts `c` in front of `rest` in the duplicate-freedom proof below. */
  lemma Prepend(c: MimeCategory, rest: seq<MimeCategory>)
    requires DistinctFrom(c.caseInsensitiveSuffixes, 0)
    requires DuplicateFree(AllSuffixes(rest, CaseInsensitive))
    requires forall s :: s in c.caseInsensitiveSuffixes ==> s !in AllSuffixes(rest, CaseInsensitive)
    ensures AllSuffixes([c] + rest, CaseInsensitive) == c.caseInsensitiveSuffixes + AllSuffixes(rest, CaseInsensitive)
    ensures DuplicateFree(AllSuffixes([c] + rest, CaseInsensitive))
  {
    DistinctFromSound(c.caseInsensitiveSuffixes, 0);
    assert c.caseInsensitiveSuffixes[0..] == c.caseInsensitiveSuffixes;
    PrependDuplicateFree(c, rest, CaseInsensitive);
  }

  /** Every suffix in `l` is absent from the categories from position `k` on. */
  lemma {:induction false} DisjointFromTail(cats: seq<MimeCategory>, k: nat, l: seq<string>)
    requires k <= |cats|
    requires forall m :: k <= m < |cats| ==> forall s :: s in l ==> s !in cats[m].caseInsensitiveSuffixes
    ensures forall s :: s in l ==> s !in AllSuffixes(cats[k..], CaseInsensitive)
    decreases |cats| - k
  {
    if k < |cats| {
      DisjointFromTail(cats, k + 1, l);
      assert cats[k..] == [cats[k]] + cats[k + 1..];
      assert ([cats[k]] + cats[k + 1..])[1..] == cats[k + 1..];
    }
  }

  /** Extends duplicate-freedom of the tail after position `k` to the tail
      from `k`, when the suffixes at `k` are distinct and declared nowhere
      later. */
  lemma TailStep(cats: seq<MimeCategory>, k: nat)
    requires k < |cats|
    requires FreshAt(cats, k)
    requires DuplicateFree(AllSuffixes(cats[k + 1..], CaseInsensitive))
    ensures DuplicateFree(AllSuffixes(cats[k..], CaseInsensitive))
  {
    assert cats[k..] == [cats[k]] + cats[k + 1..];
    DisjointFromTail(cats, k + 1, cats[k].caseInsensitiveSuffixes);
    Prepend(cats[k], cats[k + 1..]);
  }

  /** The suffixes at position `k` are distinct and declared nowhere later. */
  predicate FreshAt(cats: seq<MimeCategory>, k: nat)
    requires k < |cats|
  {
    DistinctFrom(cats[k].caseInsensitiveSuffixes, 0) &&
    forall m :: k < m < |cats| ==>
      forall s :: s in cats[k].caseInsensitiveSuffixes ==> s !in cats[m].caseInsensitiveSuffixes
  }

  // The table, checked one entry at a time: `XIsDistinct` says that entry X
  // lists no suffix twice, `XIsFresh` (split into parts for the larger
  // entries) that no later entry lists one of X's suffixes, and `FreshK`
  // restates both for position K of `DefaultList`.

  lemma VhdlIsDistinct()
    ensures DistinctFrom(VhdlSuffixes, 0)
  {
  }

  lemma Fresh19(f: nat)
    ensures FreshAt(DefaultList(f), 19)
  {
    VhdlIsDistinct();
  }

  lemma VisualBasicIsDistinct()
    ensures DistinctFrom(VisualBasicSuffixes, 0)
  {
  }

  lemma VisualBasicIsFresh()
    ensures forall s :: s in VisualBasicSuffixes ==> s !in VhdlSuffixes
  {
  }

  lemma Fresh18(f: nat)
    ensures FreshAt(DefaultList(f), 18)
  {
    VisualBasicIsDistinct();
    VisualBasicIsFresh();
  }

  lemma SqlIsDistinct()
    ensures DistinctFrom(SqlSuffixes, 0)
  {
  }

  lemma SqlIsFresh()
    ensures forall s :: s in SqlSuffixes ==> s !in VisualBasicSuffixes
    ensures forall s :: s in SqlSuffixes ==> s !in VhdlSuffixes
  {
  }

  lemma Fresh17(f: nat)
    ensures FreshAt(DefaultList(f), 17)
  {
    SqlIsDistinct();
    SqlIsFresh();
  }

  lemma RubyIsDistinct()
    ensures DistinctFrom(RubySuffixes, 0)
  {
  }

  lemma RubyIsFresh()
    ensures forall s :: s in RubySuffixes ==> s !in SqlSuffixes
    ensures forall s :: s in RubySuffixes ==> s !in VisualBasicSuffixes
    ensures forall s :: s in RubySuffixes ==> s !in VhdlSuffixes
  {
  }

  lemma Fresh16(f: nat)
    ensures FreshAt(DefaultList(f), 16)
  {
    RubyIsDistinct();
    RubyIsFresh();
  }

  lemma PythonIsDistinct()
    ensures DistinctFrom(PythonSuffixes, 0)
  {
  }

  lemma PythonIsFresh()
    ensures forall s :: s in PythonSuffixes ==> s !in RubySuffixes
    ensures forall s :: s in PythonSuffixes ==> s !in SqlSuffixes
    ensures forall s :: s in PythonSuffixes ==> s !in VisualBasicSuffixes
    ensures forall s :: s in PythonSuffixes ==> s !in VhdlSuffixes
  {
  }

  lemma Fresh15(f: nat)
    ensures FreshAt(DefaultList(f), 15)
  {
    PythonIsDistinct();
    PythonIsFresh();
  }

  lemma PhpIsDistinct()
    ensures DistinctFrom(PhpSuffixes, 0)
  {
  }

  lemma PhpIsFresh()
    ensures forall s :: s in PhpSuffixes ==> s !in PythonSuffixes
    ensures forall s :: s in PhpSuffixes ==> s !in RubySuffixes
    ensures forall s :: s in PhpSuffixes ==> s !in SqlSuffixes
    ensures forall s :: s in PhpSuffixes ==> s !in VisualBasicSuffixes
    ensures forall s :: s in PhpSuffixes ==> s !in VhdlSuffixes
  {
  }

  lemma Fresh14(f: nat)
    ensures FreshAt(DefaultList(f), 14)
  {
    PhpIsDistinct();
    PhpIsFresh();
  }

  lemma PerlIsDistinct()
    ensures DistinctFrom(PerlSuffixes, 0)
  {
  }

  lemma PerlIsFresh()
    ensures forall s :: s in PerlSuffixes ==> s !in PhpSuffixes
    ensures forall s :: s in PerlSuffixes ==> s !in PythonSuffixes
    ensures forall s :: s in PerlSuffixes ==> s !in RubySuffixes
    ensures forall s :: s in PerlSuffixes ==> s !in SqlSuffixes
    ensures forall s :: s in PerlSuffixes ==> s !in VisualBasicSuffixes
    ensures forall s :: s in PerlSuffixes ==> s !in VhdlSuffixes
  {
  }

  lemma Fresh13(f: nat)
    ensures FreshAt(DefaultList(f), 13)
  {
    PerlIsDistinct();
    PerlIsFresh();
  }

  lemma PascalIsDistinct()
    ensures DistinctFrom(PascalSuffixes, 0)
  {
  }

  lemma PascalIsFresh1()
    ensures forall s :: s in PascalSuffixes ==> s !in PerlSuffixes
    ensures forall s :: s in PascalSuffixes ==> s !in PhpSuffixes
    ensures forall s :: s in PascalSuffixes ==> s !in PythonSuffixes
    ensures forall s :: s in PascalSuffixes ==> s !in RubySuffixes
    ensures forall s :: s in PascalSuffixes ==> s !in SqlSuffixes
  {
  }

  lemma PascalIsFresh2()
    ensures forall s :: s in PascalSuffixes ==> s !in VisualBasicSuffixes
    ensures forall s :: s in PascalSuffixes ==> s !in VhdlSuffixes
  {
  }

  lemma Fresh12(f: nat)
    ensures FreshAt(DefaultList(f), 12)
  {
    PascalIsDistinct();
    PascalIsFresh1();
    PascalIsFresh2();
  }

  lemma JavaScriptIsDistinct()
    ensures DistinctFrom(JavaScriptSuffixes, 0)
  {
  }

  lemma JavaScriptIsFresh()
    ensures forall s :: s in JavaScriptSuffixes ==> s !in PascalSuffixes
    ensures forall s :: s in JavaScriptSuffixes ==> s !in PerlSuffixes
    ensures forall s :: s in JavaScriptSuffixes ==> s !in PhpSuffixes
    ensures forall s :: s in JavaScriptSuffixes ==> s !in PythonSuffixes
    ensures forall s :: s in JavaScriptSuffixes ==> s !in RubySuffixes
    ensures forall s :: s in JavaScriptSuffixes ==> s !in SqlSuffixes
    ensures forall s :: s in JavaScriptSuffixes ==> s !in VisualBasicSuffixes
    ensures forall s :: s in JavaScriptSuffixes ==> s !in VhdlSuffixes
  {
  }

  lemma Fresh11(f: nat)
    ensures FreshAt(DefaultList(f), 11)
  {
    JavaScriptIsDistinct();
    JavaScriptIsFresh();
  }

  lemma JavaIsDistinct()
    ensures DistinctFrom(JavaSuffixes, 0)
  {
  }

  lemma JavaIsFresh()
    ensures forall s :: s in JavaSuffixes ==> s !in JavaScriptSuffixes
    ensures forall s :: s in JavaSuffixes ==> s !in PascalSuffixes
    ensures forall s :: s in JavaSuffixes ==> s !in PerlSuffixes
    ensures forall s :: s in JavaSuffixes ==> s !in PhpSuffixes
    ensures forall s :: s in JavaSuffixes ==> s !in PythonSuffixes
    ensures forall s :: s in JavaSuffixes ==> s !in RubySuffixes
    ensures forall s :: s in JavaSuffixes ==> s !in SqlSuffixes
    ensures forall s :: s in JavaSuffixes ==> s !in VisualBasicSuffixes
    ensures forall s :: s in JavaSuffixes ==> s !in VhdlSuffixes
  {
  }

  lemma Fresh10(f: nat)
    ensures FreshAt(DefaultList(f), 10)
  {
    JavaIsDistinct();
    JavaIsFresh();
  }

  lemma HtmlIsDistinct()
    ensures DistinctFrom(HtmlSuffixes, 0)
  {
  }

  lemma HtmlIsFresh1()
    ensures forall s :: s in HtmlSuffixes ==> s !in JavaSuffixes
    ensures forall s :: s in HtmlSuffixes ==> s !in JavaScriptSuffixes
    ensures forall s :: s in HtmlSuffixes ==> s !in PascalSuffixes
  {
  }

  lemma HtmlIsFresh2()
    ensures forall s :: s in HtmlSuffixes ==> s !in PerlSuffixes
    ensures forall s :: s in HtmlSuffixes ==> s !in PhpSuffixes
    ensures forall s :: s in HtmlSuffixes ==> s !in PythonSuffixes
    ensures forall s :: s in HtmlSuffixes ==> s !in RubySuffixes
    ensures forall s :: s in HtmlSuffixes ==> s !in SqlSuffixes
  {
  }

  lemma HtmlIsFresh3()
    ensures forall s :: s in HtmlSuffixes ==> s !in VisualBasicSuffixes
    ensures forall s :: s in HtmlSuffixes ==> s !in VhdlSuffixes
  {
  }

  lemma Fresh9(f: nat)
    ensures FreshAt(DefaultList(f), 9)
  {
    HtmlIsDistinct();
    HtmlIsFresh1();
    HtmlIsFresh2();
    HtmlIsFresh3();
  }

  lemma FortranIsDistinct()
    ensures DistinctFrom(FortranSuffixes, 0)
  {
  }

  lemma FortranIsFresh1()
    ensures forall s :: s in FortranSuffixes ==> s !in HtmlSuffixes
    ensures forall s :: s in FortranSuffixes ==> s !in JavaSuffixes
  {
  }

  lemma FortranIsFresh2()
    ensures forall s :: s in FortranSuffixes ==> s !in JavaScriptSuffixes
    ensures forall s :: s in FortranSuffixes ==> s !in PascalSuffixes
  {
  }

  lemma FortranIsFresh3()
    ensures forall s :: s in FortranSuffixes ==> s !in PerlSuffixes
    ensures forall s :: s in FortranSuffixes ==> s !in PhpSuffixes
    ensures forall s :: s in FortranSuffixes ==> s !in PythonSuffixes
    ensures forall s :: s in FortranSuffixes ==> s !in RubySuffixes
    ensures forall s :: s in FortranSuffixes ==> s !in SqlSuffixes
  {
  }

  lemma FortranIsFresh4()
    ensures forall s :: s in FortranSuffixes ==> s !in VisualBasicSuffixes
    ensures forall s :: s in FortranSuffixes ==> s !in VhdlSuffixes
  {
  }

  lemma Fresh8(f: nat)
    ensures FreshAt(DefaultList(f), 8)
  {
    FortranIsDistinct();
    FortranIsFresh1();
    FortranIsFresh2();
    FortranIsFresh3();
    FortranIsFresh4();
  }

  lemma CssIsDistinct()
    ensures DistinctFrom(CssSuffixes, 0)
  {
  }

  lemma CssIsFresh()
    ensures forall s :: s in CssSuffixes ==> s !in FortranSuffixes
    ensures forall s :: s in CssSuffixes ==> s !in HtmlSuffixes
    ensures forall s :: s in CssSuffixes ==> s !in JavaSuffixes
    ensures forall s :: s in CssSuffixes ==> s !in JavaScriptSuffixes
    ensures forall s :: s in CssSuffixes ==> s !in PascalSuffixes
    ensures forall s :: s in CssSuffixes ==> s !in PerlSuffixes
    ensures forall s :: s in CssSuffixes ==> s !in PhpSuffixes
    ensures forall s :: s in CssSuffixes ==> s !in PythonSuffixes
    ensures forall s :: s in CssSuffixes ==> s !in RubySuffixes
    ensures forall s :: s in CssSuffixes ==> s !in SqlSuffixes
    ensures forall s :: s in CssSuffixes ==> s !in VisualBasicSuffixes
    ensures forall s :: s in CssSuffixes ==> s !in VhdlSuffixes
  {
  }

  lemma Fresh7(f: nat)
    ensures FreshAt(DefaultList(f), 7)
  {
    CssIsDistinct();
    CssIsFresh();
  }

  lemma ColdFusionIsDistinct()
    ensures DistinctFrom(ColdFusionSuffixes, 0)
  {
  }

  lemma ColdFusionIsFresh()
    ensures forall s :: s in ColdFusionSuffixes ==> s !in CssSuffixes
    ensures forall s :: s in ColdFusionSuffixes ==> s !in FortranSuffixes
    ensures forall s :: s in ColdFusionSuffixes ==> s !in HtmlSuffixes
    ensures forall s :: s in ColdFusionSuffixes ==> s !in JavaSuffixes
    ensures forall s :: s in ColdFusionSuffixes ==> s !in JavaScriptSuffixes
    ensures forall s :: s in ColdFusionSuffixes ==> s !in PascalSuffixes
    ensures forall s :: s in ColdFusionSuffixes ==> s !in PerlSuffixes
    ensures forall s :: s in ColdFusionSuffixes ==> s !in PhpSuffixes
    ensures forall s :: s in ColdFusionSuffixes ==> s !in PythonSuffixes
    ensures forall s :: s in ColdFusionSuffixes ==> s !in RubySuffixes
    ensures forall s :: s in ColdFusionSuffixes ==> s !in SqlSuffixes
    ensures forall s :: s in ColdFusionSuffixes ==> s !in VisualBasicSuffixes
    ensures forall s :: s in ColdFusionSuffixes ==> s !in VhdlSuffixes
  {
  }

  lemma Fresh6(f: nat)
    ensures FreshAt(DefaultList(f), 6)
  {
    ColdFusionIsDistinct();
    ColdFusionIsFresh();
  }

  lemma CCppIsDistinct()
    ensures DistinctFrom(CCppSuffixes, 0)
  {
  }

  lemma CCppIsFresh1()
    ensures forall s :: s in CCppSuffixes ==> s !in ColdFusionSuffixes
    ensures forall s :: s in CCppSuffixes ==> s !in CssSuffixes
    ensures forall s :: s in CCppSuffixes ==> s !in FortranSuffixes
  {
  }

  lemma CCppIsFresh2()
    ensures forall s :: s in CCppSuffixes ==> s !in HtmlSuffixes
    ensures forall s :: s in CCppSuffixes ==> s !in JavaSuffixes
    ensures forall s :: s in CCppSuffixes ==> s !in JavaScriptSuffixes
  {
  }

  lemma CCppIsFresh3()
    ensures forall s :: s in CCppSuffixes ==> s !in PascalSuffixes
    ensures forall s :: s in CCppSuffixes ==> s !in PerlSuffixes
    ensures forall s :: s in CCppSuffixes ==> s !in PhpSuffixes
    ensures forall s :: s in CCppSuffixes ==> s !in PythonSuffixes
  {
  }

  lemma CCppIsFresh4()
    ensures forall s :: s in CCppSuffixes ==> s !in RubySuffixes
    ensures forall s :: s in CCppSuffixes ==> s !in SqlSuffixes
    ensures forall s :: s in CCppSuffixes ==> s !in VisualBasicSuffixes
    ensures forall s :: s in CCppSuffixes ==> s !in VhdlSuffixes
  {
  }

  lemma Fresh5(f: nat)
    ensures FreshAt(DefaultList(f), 5)
  {
    CCppIsDistinct();
    CCppIsFresh1();
    CCppIsFresh2();
    CCppIsFresh3();
    CCppIsFresh4();
  }

  lemma CSharpIsDistinct()
    ensures DistinctFrom(CSharpSuffixes, 0)
  {
  }

  lemma CSharpIsFresh()
    ensures forall s :: s in CSharpSuffixes ==> s !in CCppSuffixes
    ensures forall s :: s in CSharpSuffixes ==> s !in ColdFusionSuffixes
    ensures forall s :: s in CSharpSuffixes ==> s !in CssSuffixes
    ensures forall s :: s in CSharpSuffixes ==> s !in FortranSuffixes
    ensures forall s :: s in CSharpSuffixes ==> s !in HtmlSuffixes
    ensures forall s :: s in CSharpSuffixes ==> s !in JavaSuffixes
    ensures forall s :: s in CSharpSuffixes ==> s !in JavaScriptSuffixes
    ensures forall s :: s in CSharpSuffixes ==> s !in PascalSuffixes
    ensures forall s :: s in CSharpSuffixes ==> s !in PerlSuffixes
    ensures forall s :: s in CSharpSuffixes ==> s !in PhpSuffixes
    ensures forall s :: s in CSharpSuffixes ==> s !in PythonSuffixes
    ensures forall s :: s in CSharpSuffixes ==> s !in RubySuffixes
    ensures forall s :: s in CSharpSuffixes ==> s !in SqlSuffixes
    ensures forall s :: s in CSharpSuffixes ==> s !in VisualBasicSuffixes
    ensures forall s :: s in CSharpSuffixes ==> s !in VhdlSuffixes
  {
  }

  lemma Fresh4(f: nat)
    ensures FreshAt(DefaultList(f), 4)
  {
    CSharpIsDistinct();
    CSharpIsFresh();
  }

  lemma CShellIsDistinct()
    ensures DistinctFrom(CShellSuffixes, 0)
  {
  }

  lemma CShellIsFresh1()
    ensures forall s :: s in CShellSuffixes ==> s !in CSharpSuffixes
    ensures forall s :: s in CShellSuffixes ==> s !in CCppSuffixes
    ensures forall s :: s in CShellSuffixes ==> s !in ColdFusionSuffixes
    ensures forall s :: s in CShellSuffixes ==> s !in CssSuffixes
    ensures forall s :: s in CShellSuffixes ==> s !in FortranSuffixes
    ensures forall s :: s in CShellSuffixes ==> s !in HtmlSuffixes
    ensures forall s :: s in CShellSuffixes ==> s !in JavaSuffixes
    ensures forall s :: s in CShellSuffixes ==> s !in JavaScriptSuffixes
  {
  }

  lemma CShellIsFresh2()
    ensures forall s :: s in CShellSuffixes ==> s !in PascalSuffixes
    ensures forall s :: s in CShellSuffixes ==> s !in PerlSuffixes
    ensures forall s :: s in CShellSuffixes ==> s !in PhpSuffixes
    ensures forall s :: s in CShellSuffixes ==> s !in PythonSuffixes
    ensures forall s :: s in CShellSuffixes ==> s !in RubySuffixes
    ensures forall s :: s in CShellSuffixes ==> s !in SqlSuffixes
    ensures forall s :: s in CShellSuffixes ==> s !in VisualBasicSuffixes
    ensures forall s :: s in CShellSuffixes ==> s !in VhdlSuffixes
  {
  }

  lemma Fresh3(f: nat)
    ensures FreshAt(DefaultList(f), 3)
  {
    CShellIsDistinct();
    CShellIsFresh1();
    CShellIsFresh2();
  }

  lemma BashIsDistinct()
    ensures DistinctFrom(BashSuffixes, 0)
  {
  }

  lemma BashIsFresh1()
    ensures forall s :: s in BashSuffixes ==> s !in CShellSuffixes
    ensures forall s :: s in BashSuffixes ==> s !in CSharpSuffixes
    ensures forall s :: s in BashSuffixes ==> s !in CCppSuffixes
    ensures forall s :: s in BashSuffixes ==> s !in ColdFusionSuffixes
    ensures forall s :: s in BashSuffixes ==> s !in CssSuffixes
    ensures forall s :: s in BashSuffixes ==> s !in FortranSuffixes
    ensures forall s :: s in BashSuffixes ==> s !in HtmlSuffixes
    ensures forall s :: s in BashSuffixes ==> s !in JavaSuffixes
    ensures forall s :: s in BashSuffixes ==> s !in JavaScriptSuffixes
  {
  }

  lemma BashIsFresh2()
    ensures forall s :: s in BashSuffixes ==> s !in PascalSuffixes
    ensures forall s :: s in BashSuffixes ==> s !in PerlSuffixes
    ensures forall s :: s in BashSuffixes ==> s !in PhpSuffixes
    ensures forall s :: s in BashSuffixes ==> s !in PythonSuffixes
    ensures forall s :: s in BashSuffixes ==> s !in RubySuffixes
    ensures forall s :: s in BashSuffixes ==> s !in SqlSuffixes
    ensures forall s :: s in BashSuffixes ==> s !in VisualBasicSuffixes
    ensures forall s :: s in BashSuffixes ==> s !in VhdlSuffixes
  {
  }

  lemma Fresh2(f: nat)
    ensures FreshAt(DefaultList(f), 2)
  {
    BashIsDistinct();
    BashIsFresh1();
    BashIsFresh2();
  }

  lemma AspIsDistinct()
    ensures DistinctFrom(AspSuffixes, 0)
  {
  }

  lemma AspIsFresh1()
    ensures forall s :: s in AspSuffixes ==> s !in BashSuffixes
    ensures forall s :: s in AspSuffixes ==> s !in CShellSuffixes
    ensures forall s :: s in AspSuffixes ==> s !in CSharpSuffixes
    ensures forall s :: s in AspSuffixes ==> s !in CCppSuffixes
    ensures forall s :: s in AspSuffixes ==> s !in ColdFusionSuffixes
    ensures forall s :: s in AspSuffixes ==> s !in CssSuffixes
    ensures forall s :: s in AspSuffixes ==> s !in FortranSuffixes
    ensures forall s :: s in AspSuffixes ==> s !in HtmlSuffixes
    ensures forall s :: s in AspSuffixes ==> s !in JavaSuffixes
    ensures forall s :: s in AspSuffixes ==> s !in JavaScriptSuffixes
  {
  }

  lemma AspIsFresh2()
    ensures forall s :: s in AspSuffixes ==> s !in PascalSuffixes
    ensures forall s :: s in AspSuffixes ==> s !in PerlSuffixes
    ensures forall s :: s in AspSuffixes ==> s !in PhpSuffixes
    ensures forall s :: s in AspSuffixes ==> s !in PythonSuffixes
    ensures forall s :: s in AspSuffixes ==> s !in RubySuffixes
    ensures forall s :: s in AspSuffixes ==> s !in SqlSuffixes
    ensures forall s :: s in AspSuffixes ==> s !in VisualBasicSuffixes
    ensures forall s :: s in AspSuffixes ==> s !in VhdlSuffixes
  {
  }

  lemma Fresh1(f: nat)
    ensures FreshAt(DefaultList(f), 1)
  {
    AspIsDistinct();
    AspIsFresh1();
    AspIsFresh2();
  }

  lemma AdaIsDistinct()
    ensures DistinctFrom(AdaSuffixes, 0)
  {
  }

  lemma AdaIsFresh1()
    ensures forall s :: s in AdaSuffixes ==> s !in AspSuffixes
    ensures forall s :: s in AdaSuffixes ==> s !in BashSuffixes
    ensures forall s :: s in AdaSuffixes ==> s !in CShellSuffixes
    ensures forall s :: s in AdaSuffixes ==> s !in CSharpSuffixes
    ensures forall s :: s in AdaSuffixes ==> s !in CCppSuffixes
    ensures forall s :: s in AdaSuffixes ==> s !in ColdFusionSuffixes
    ensures forall s :: s in AdaSuffixes ==> s !in CssSuffixes
  {
  }

  lemma AdaIsFresh2()
    ensures forall s :: s in AdaSuffixes ==> s !in FortranSuffixes
    ensures forall s :: s in AdaSuffixes ==> s !in HtmlSuffixes
    ensures forall s :: s in AdaSuffixes ==> s !in JavaSuffixes
  {
  }

  lemma AdaIsFresh3()
    ensures forall s :: s in AdaSuffixes ==> s !in JavaScriptSuffixes
    ensures forall s :: s in AdaSuffixes ==> s !in PascalSuffixes
    ensures forall s :: s in AdaSuffixes ==> s !in PerlSuffixes
    ensures forall s :: s in AdaSuffixes ==> s !in PhpSuffixes
    ensures forall s :: s in AdaSuffixes ==> s !in PythonSuffixes
    ensures forall s :: s in AdaSuffixes ==> s !in RubySuffixes
    ensures forall s :: s in AdaSuffixes ==> s !in SqlSuffixes
  {
  }

  lemma AdaIsFresh4()
    ensures forall s :: s in AdaSuffixes ==> s !in VisualBasicSuffixes
    ensures forall s :: s in AdaSuffixes ==> s !in VhdlSuffixes
  {
  }

  lemma Fresh0(f: nat)
    ensures FreshAt(DefaultList(f), 0)
  {
    AdaIsDistinct();
    AdaIsFresh1();
    AdaIsFresh2();
    AdaIsFresh3();
    AdaIsFresh4();
  }

  /** Every position of the table satisfies `FreshAt`. */
  lemma AllFresh(f: nat)
    ensures forall k :: 0 <= k < 20 ==> FreshAt(DefaultList(f), k)
  {
    Fresh0(f);
    Fresh1(f);
    Fresh2(f);
    Fresh3(f);
    Fresh4(f);
    Fresh5(f);
    Fresh6(f);
    Fresh7(f);
    Fresh8(f);
    Fresh9(f);
    Fresh10(f);
    Fresh11(f);
    Fresh12(f);
    Fresh13(f);
    Fresh14(f);
    Fresh15(f);
    Fresh16(f);
    Fresh17(f);
    Fresh18(f);
    Fresh19(f);
  }

  /** The table from position `k` on declares no suffix twice. */
  lemma {:induction false} DefaultTail(f: nat, k: nat)
    requires k <= 20
    ensures DuplicateFree(AllSuffixes(DefaultList(f)[k..], CaseInsensitive))
    decreases 20 - k
  {
    if k == 20 {
      assert DefaultList(f)[k..] == [];
    } else {
      DefaultTail(f, k + 1);
      AllFresh(f);
      TailStep(DefaultList(f), k);
    }
  }

  /** No suffix of the table is declared twice. */
  lemma DefaultsHaveNoDuplicates(f: nat)
    ensures DuplicateFree(AllSuffixes(DefaultList(f), CaseInsensitive))
  {
    DefaultTail(f, 0);
    assert DefaultList(f)[0..] == DefaultList(f);
  }

  /** Building the maps over the defaults reports no duplicate suffix in
      either map. */
  lemma DefaultsBuildWithoutConflicts(f: nat)
    ensures BuildConflicts(DefaultList(f), CaseInsensitive) == []
    ensures BuildConflicts(DefaultList(f), CaseSensitive) == []
  {
    DefaultsHaveNoDuplicates(f);
    NoConflictsIffDuplicateFree(DefaultList(f), CaseInsensitive);
    DefaultListShape(f);
    AllSuffixesEmpty(DefaultList(f), CaseSensitive);
    NoConflictsIffDuplicateFree(DefaultList(f), CaseSensitive);
  }

  /** Over the defaults, the case-sensitive map is empty. */
  lemma DefaultCaseSensitiveMapEmpty(f: nat)
    ensures BuiltMap(DefaultList(f), CaseSensitive) == map[]
  {
    DefaultListShape(f);
    NoSuffixesEmptyMap(DefaultList(f), CaseSensitive);
  }

  /** With the defaults, a file `stem.s` whose lower-cased suffix a category
      declares is classified as that category, whatever the matcher. */
  lemma DefaultClassification(f: nat, matcher: Matcher, stem: string, s: string, i: nat)
    requires '.' !in s && s != []
    requires i < |DefaultList(f)| && ToLower(s) in DefaultList(f)[i].caseInsensitiveSuffixes
    ensures Classify(DefaultList(f), matcher, stem + "." + s) == Some(DefaultList(f)[i])
  {
    DefaultCaseSensitiveMapEmpty(f);
    DefaultsHaveNoDuplicates(f);
    DuplicateFreeOwner(DefaultList(f), i, ToLower(s), CaseInsensitive);
    LastDotDecides(DefaultList(f), matcher, stem, s);
  }

  /** `main.cpp` is a file of the sixth entry, C/C++. */
  lemma MainCppIsCee(f: nat, matcher: Matcher)
    ensures Classify(DefaultList(f), matcher, "main" + "." + "cpp") == Some(DefaultList(f)[5])
  {
    assert ToLower("cpp") == "cpp";
    DefaultClassification(f, matcher, "main", "cpp", 5);
  }

  /** The case-insensitive map also makes `Main.CPP` a C/C++ file: the
      upper-case name is classified exactly as `main.cpp` is. */
  lemma UpperCaseCppIsCee(f: nat, matcher: Matcher)
    ensures Classify(DefaultList(f), matcher, "Main" + "." + "CPP") == Some(DefaultList(f)[5])
    ensures Classify(DefaultList(f), matcher, "Main" + "." + "CPP") ==
      Classify(DefaultList(f), matcher, "main" + "." + "cpp")
  {
    assert ToLower("CPP") == "cpp";
    DefaultClassification(f, matcher, "Main", "CPP", 5);
    MainCppIsCee(f, matcher);
  }
}
