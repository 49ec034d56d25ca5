/**
 * Which directory entries are spreadsheets, and the names of the parquet
 * twins written beside each one: every `.xlsx` in the name replaced by a
 * suffix `S`, then every `.xls` replaced by `S`, with `S` the raw or the clean suffix.
 */
module Naming {
  import opened PyStrings

  const Xlsx := ".xlsx"
  const Xls := ".xls"
  const RawSuffix := "_raw.parquet"
  const CleanSuffix := "_clean.parquet"

  /** A directory entry is processed when its name ends with either spreadsheet extension. */
  predicate IsExcelName(file: string)
  {
    EndsWith(file, Xlsx) || EndsWith(file, Xls)
  }

  predicate IsOutputSuffix(suffix: string)
  {
    suffix == RawSuffix || suffix == CleanSuffix
  }

  /** The chained replace-all that turns a spreadsheet name into a parquet name. */
  function DeriveName(file: string, suffix: string): string
  {
    ReplaceAll(ReplaceAll(file, Xlsx, suffix), Xls, suffix)
  }

  function RawName(file: string): string
  {
    DeriveName(file, RawSuffix)
  }

  function CleanName(file: string): string
  {
    DeriveName(file, CleanSuffix)
  }

  /** Where the raw twin is written: the raw name joined to the folder. */
  function RawPath(folder: string, file: string): string
  {
    Join(folder, RawName(file))
  }

  /** Where the clean twin is written: the clean name joined to the folder. */
  function CleanPath(folder: string, file: string): string
  {
    Join(folder, CleanName(file))
  }

  /** A spreadsheet name is a stem followed by one of the two extensions. */
  lemma ExcelNameParts(file: string) returns (stem: string, ext: string)
    requires IsExcelName(file)
    ensures (ext == Xlsx || ext == Xls) && file == stem + ext
  {
    ext := if EndsWith(file, Xlsx) then Xlsx else Xls;
    stem := file[..|file| - |ext|];
    assert file == stem + file[|file| - |ext|..];
  }

  lemma SuffixFacts(suffix: string)
    requires IsOutputSuffix(suffix)
    ensures suffix != [] && suffix[0] == '_' && suffix[|suffix| - 1] == 't'
    ensures forall i: nat :: !OccursAt(suffix, Xls, i)
    ensures forall i: nat :: !OccursAt(suffix, Xlsx, i)
    ensures '/' !in suffix
  {
    assert Xls[1] == 'x' && Xlsx[1] == 'x';
    assert 'x' !in suffix;
    AbsentByChar(suffix, Xls, 1);
    AbsentByChar(suffix, Xlsx, 1);
  }

  /**
   * The final extension becomes the suffix, and the part before it is
   * rewritten on its own: no replacement reaches across the boundary.
   */
  lemma FinalExtensionBecomesSuffix(stem: string, ext: string, suffix: string)
    requires ext == Xlsx || ext == Xls
    requires IsOutputSuffix(suffix)
    ensures DeriveName(stem + ext, suffix) == DeriveName(stem, suffix) + suffix
  {
    if ext == Xlsx {
      FinalXlsxBecomesSuffix(stem, suffix);
    } else {
      FinalXlsBecomesSuffix(stem, suffix);
    }
  }

  lemma FinalXlsxBecomesSuffix(stem: string, suffix: string)
    requires IsOutputSuffix(suffix)
    ensures DeriveName(stem + Xlsx, suffix) == DeriveName(stem, suffix) + suffix
  {
    SuffixFacts(suffix);
    assert Xlsx[1..] == "xlsx" && Xls[1..] == "xls";
    var u := ReplaceAll(stem, Xlsx, suffix);
    NoStraddle(stem, Xlsx, Xlsx);
    ReplaceAllConcat(stem, Xlsx, Xlsx, suffix);
    ReplaceAllWhole(Xlsx, suffix);
    assert ReplaceAll(stem + Xlsx, Xlsx, suffix) == u + suffix;
    NoStraddle(u, suffix, Xls);
    ReplaceAllConcat(u, suffix, Xls, suffix);
    ReplaceAllUnchanged(suffix, Xls, suffix);
  }

  lemma FinalXlsBecomesSuffix(stem: string, suffix: string)
    requires IsOutputSuffix(suffix)
    ensures DeriveName(stem + Xls, suffix) == DeriveName(stem, suffix) + suffix
  {
    assert Xlsx[1..] == "xlsx" && Xls[1..] == "xls";
    var u := ReplaceAll(stem, Xlsx, suffix);
    NoStraddle(stem, Xls, Xlsx);
    ReplaceAllConcat(stem, Xls, Xlsx, suffix);
    ReplaceAllShort(Xls, Xlsx, suffix);
    assert ReplaceAll(stem + Xls, Xlsx, suffix) == u + Xls;
    NoStraddle(u, Xls, Xls);
    ReplaceAllConcat(u, Xls, Xls, suffix);
    ReplaceAllWhole(Xls, suffix);
  }

  /** A stem in which `.xls` never occurs is kept verbatim. */
  lemma PlainStemKept(stem: string, suffix: string)
    requires forall i: nat :: !OccursAt(stem, Xls, i)
    ensures DeriveName(stem, suffix) == stem
  {
    forall i: nat ensures !OccursAt(stem, Xlsx, i) {
      if i + |Xlsx| <= |stem| {
        assert stem[i..i + |Xls|] == stem[i..i + |Xlsx|][..|Xls|];
        assert !OccursAt(stem, Xls, i);
      }
    }
    ReplaceAllUnchanged(stem, Xlsx, suffix);
    ReplaceAllUnchanged(stem, Xls, suffix);
  }

  /**
   * For a spreadsheet whose only `.xls` is its final extension, the twins are
   * named stem + `_raw.parquet` and stem + `_clean.parquet`, and they differ.
   */
  lemma PlainNameTwins(stem: string, ext: string)
    requires ext == Xlsx || ext == Xls
    requires forall i: nat :: !OccursAt(stem, Xls, i)
    ensures RawName(stem + ext) == stem + RawSuffix
    ensures CleanName(stem + ext) == stem + CleanSuffix
    ensures RawName(stem + ext) != CleanName(stem + ext)
  {
    FinalExtensionBecomesSuffix(stem, ext, RawSuffix);
    FinalExtensionBecomesSuffix(stem, ext, CleanSuffix);
    PlainStemKept(stem, RawSuffix);
    PlainStemKept(stem, CleanSuffix);
    assert |stem + RawSuffix| != |stem + CleanSuffix|;
  }

  /** Every derived name of a spreadsheet ends with its suffix. */
  lemma DerivedNameEndsWithSuffix(file: string, suffix: string)
    requires IsExcelName(file) && IsOutputSuffix(suffix)
    ensures EndsWith(DeriveName(file, suffix), suffix)
  {
    var stem, ext := ExcelNameParts(file);
    FinalExtensionBecomesSuffix(stem, ext, suffix);
    var d := DeriveName(stem, suffix);
    assert (d + suffix)[|d + suffix| - |suffix|..] == suffix;
  }

  /** No string ends with both suffixes. */
  lemma SuffixesExclusive(s: string)
    ensures !(EndsWith(s, RawSuffix) && EndsWith(s, CleanSuffix))
  {
    EndsWithAt(s, RawSuffix, 0);
    EndsWithAt(s, CleanSuffix, 2);
    assert RawSuffix[0] == '_' && CleanSuffix[2] == 'l';
  }

  /** The raw and the clean twin of any spreadsheet have different names, whatever its name. */
  lemma RawAndCleanNamesDiffer(file: string)
    requires IsExcelName(file)
    ensures RawName(file) != CleanName(file)
  {
    DerivedNameEndsWithSuffix(file, RawSuffix);
    DerivedNameEndsWithSuffix(file, CleanSuffix);
    SuffixesExclusive(RawName(file));
  }

  /** So do their paths in any folder, and each path ends with its suffix. */
  lemma RawAndCleanPathsDiffer(folder: string, file: string)
    requires IsExcelName(file)
    ensures EndsWith(RawPath(folder, file), RawSuffix)
    ensures EndsWith(CleanPath(folder, file), CleanSuffix)
    ensures RawPath(folder, file) != CleanPath(folder, file)
  {
    DerivedNameEndsWithSuffix(file, RawSuffix);
    DerivedNameEndsWithSuffix(file, CleanSuffix);
    EndsWithTrans(RawPath(folder, file), RawName(file), RawSuffix);
    EndsWithTrans(CleanPath(folder, file), CleanName(file), CleanSuffix);
    SuffixesExclusive(RawPath(folder, file));
  }

  /** A derived parquet name is never itself selected as a spreadsheet. */
  lemma DerivedNameNotExcel(file: string, suffix: string)
    requires IsExcelName(file) && IsOutputSuffix(suffix)
    ensures !IsExcelName(DeriveName(file, suffix))
  {
    DerivedNameEndsWithSuffix(file, suffix);
    SuffixFacts(suffix);
    var d := DeriveName(file, suffix);
    EndsWithAt(d, suffix, |suffix| - 1);
    EndsWithAt(d, Xlsx, 4);
    EndsWithAt(d, Xls, 3);
    assert Xlsx[4] == 'x' && Xls[3] == 's';
  }

  /** A slash-free entry name gives slash-free derived names. */
  lemma DerivedNameHasNoSlash(file: string, suffix: string)
    requires '/' !in file && IsOutputSuffix(suffix)
    ensures '/' !in DeriveName(file, suffix)
  {
    SuffixFacts(suffix);
    ReplaceAllChars(file, Xlsx, suffix, '/');
    ReplaceAllChars(ReplaceAll(file, Xlsx, suffix), Xls, suffix, '/');
  }

  /** `book.xlsx` and `book.xls` in one folder are given the same parquet names. */
  lemma SiblingExtensionsCollide(stem: string, suffix: string)
    requires IsOutputSuffix(suffix)
    ensures DeriveName(stem + Xlsx, suffix) == DeriveName(stem + Xls, suffix)
  {
    FinalExtensionBecomesSuffix(stem, Xlsx, suffix);
    FinalExtensionBecomesSuffix(stem, Xls, suffix);
  }

  /** Replace-all also rewrites an inner extension: `v1.xls.xlsx` becomes `v1_raw.parquet_raw.parquet`. */
  lemma InnerExtensionRewritten(stem: string, inner: string, ext: string, suffix: string)
    requires inner == Xlsx || inner == Xls
    requires ext == Xlsx || ext == Xls
    requires IsOutputSuffix(suffix)
    requires forall i: nat :: !OccursAt(stem, Xls, i)
    ensures DeriveName(stem + inner + ext, suffix) == stem + suffix + suffix
  {
    FinalExtensionBecomesSuffix(stem + inner, ext, suffix);
    FinalExtensionBecomesSuffix(stem, inner, suffix);
    PlainStemKept(stem, suffix);
  }
}
