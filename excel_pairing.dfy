/**
 * What the disk holds for the two lists `extract_excel_files` returns, at
 * the end of the loop. Each entry writes its twins when it is processed,
 * but a later entry can overwrite them, because the twin names come from a
 * replace-all and not from the entry's identity.
 */
module ExcelPairing {
  import opened PyStrings
  import opened Tables
  import opened Naming
  import opened Environment
  import opened ExcelExtraction
  import Seqs

  /** No two spreadsheet entries of the listing share a raw twin path or a clean twin path. */
  ghost predicate DistinctTwins(folder: string, entries: seq<string>)
  {
    forall i, j :: 0 <= i < j < |entries| && IsExcelName(entries[i]) && IsExcelName(entries[j]) ==>
      && RawPath(folder, entries[i]) != RawPath(folder, entries[j])
      && CleanPath(folder, entries[i]) != CleanPath(folder, entries[j])
  }

  /** The raw twin of `f` holds its sheet and the clean twin that sheet's complete rows. */
  ghost predicate HoldsSheet(w: World, folder: string, disk: Disk, f: string)
  {
    && Join(folder, f) in w.sheets
    && RawPath(folder, f) in disk && disk[RawPath(folder, f)] == w.sheets[Join(folder, f)]
    && CleanPath(folder, f) in disk && disk[CleanPath(folder, f)] == Clean(w.sheets[Join(folder, f)])
  }

  /**
   * Position k of the returned lists names the raw twin and the clean twin of
   * the k-th successful entry, and on disk they hold that entry's sheet and
   * its complete rows.
   */
  ghost predicate TwinsHoldSheets(w: World, folder: string, st: ExcelState, ok: seq<string>)
  {
    && PairedTwins(folder, st.raw, st.clean, ok)
    && forall f :: f in ok ==> HoldsSheet(w, folder, st.disk, f)
  }

  /** The successful entries of a listing with one more entry. */
  lemma SuccessfulSnoc(w: World, folder: string, init: seq<string>, last: string)
    ensures Successful(w, folder, init + [last]) ==
      Successful(w, folder, init) + if Succeeds(w, folder, last) then [last] else []
  {
    var p := SucceedsIn(w, folder);
    Seqs.FilterAppend(init, [last], p);
    Seqs.FilterSingleton(last, p);
    assert p(last) == Succeeds(w, folder, last);
  }

  /** An entry's writes touch only its own two twin paths. */
  lemma ProcessEntryFrame(w: World, folder: string, file: string, disk: Disk, p: string)
    requires p != RawPath(folder, file) && p != CleanPath(folder, file)
    ensures var o := ProcessEntry(w, folder, file, disk);
      !o.Ignored? ==> (p in o.disk <==> p in disk) && (p in disk ==> o.disk[p] == disk[p])
  {
    ProcessEntryDisk(w, folder, file, disk);
  }

  /** Distinct raw and distinct clean twins of two spreadsheets are four distinct paths. */
  lemma TwinsApart(folder: string, f: string, g: string)
    requires IsExcelName(f) && IsExcelName(g)
    requires RawPath(folder, f) != RawPath(folder, g) && CleanPath(folder, f) != CleanPath(folder, g)
    ensures RawPath(folder, f) != RawPath(folder, g) && RawPath(folder, f) != CleanPath(folder, g)
    ensures CleanPath(folder, f) != RawPath(folder, g) && CleanPath(folder, f) != CleanPath(folder, g)
  {
    RawAndCleanPathsDiffer(folder, f);
    RawAndCleanPathsDiffer(folder, g);
    SuffixesExclusive(RawPath(folder, f));
    SuffixesExclusive(CleanPath(folder, f));
  }

  /** A processed entry writes exactly its two twins. */
  lemma ProcessedStep(w: World, folder: string, st: ExcelState, file: string)
    requires Succeeds(w, folder, file)
    ensures RawPath(folder, file) != CleanPath(folder, file)
    ensures var sheet := w.sheets[Join(folder, file)];
      Step(st, ProcessEntry(w, folder, file, st.disk)) ==
      ExcelState(st.raw + [RawPath(folder, file)], st.clean + [CleanPath(folder, file)],
                 st.disk[RawPath(folder, file) := sheet][CleanPath(folder, file) := Clean(sheet)])
  {
    ProcessEntryDisk(w, folder, file, st.disk);
  }

  /** Another entry whose twins are apart from those of `f` leaves what `f` wrote in place. */
  lemma HoldsSheetKept(w: World, folder: string, disk: Disk, f: string, last: string)
    requires HoldsSheet(w, folder, disk, f) && IsExcelName(f)
    requires IsExcelName(last) ==> RawPath(folder, f) != RawPath(folder, last) && CleanPath(folder, f) != CleanPath(folder, last)
    ensures var o := ProcessEntry(w, folder, last, disk);
      !o.Ignored? ==> HoldsSheet(w, folder, o.disk, f)
  {
    if IsExcelName(last) {
      TwinsApart(folder, f, last);
      ProcessEntryFrame(w, folder, last, disk, RawPath(folder, f));
      ProcessEntryFrame(w, folder, last, disk, CleanPath(folder, f));
    }
  }

  /**
   * One more entry keeps the property, provided its twins are apart from the
   * twins of every entry already returned.
   */
  lemma TwinsHoldStep(w: World, folder: string, before: ExcelState, okInit: seq<string>, last: string)
    requires TwinsHoldSheets(w, folder, before, okInit)
    requires forall f :: f in okInit ==>
      && IsExcelName(f)
      && (IsExcelName(last) ==> RawPath(folder, f) != RawPath(folder, last) && CleanPath(folder, f) != CleanPath(folder, last))
    ensures TwinsHoldSheets(w, folder, Step(before, ProcessEntry(w, folder, last, before.disk)),
                            okInit + if Succeeds(w, folder, last) then [last] else [])
  {
    var o := ProcessEntry(w, folder, last, before.disk);
    if !o.Ignored? {
      forall f | f in okInit
        ensures HoldsSheet(w, folder, o.disk, f)
      {
        HoldsSheetKept(w, folder, before.disk, f, last);
      }
      if o.Processed? {
        PairedTwinsExtend(folder, before.raw, before.clean, okInit, last);
        ProcessedStep(w, folder, before, last);
        assert HoldsSheet(w, folder, o.disk, last);
        assert forall f :: f in okInit + [last] ==> f in okInit || f == last;
      }
    }
  }

  /** In a listing with distinct twins, the last entry's twins are apart from those of every earlier successful entry. */
  lemma LastTwinsApart(w: World, folder: string, init: seq<string>, last: string)
    requires DistinctTwins(folder, init + [last])
    ensures forall f :: f in Successful(w, folder, init) ==>
      && IsExcelName(f)
      && (IsExcelName(last) ==> RawPath(folder, f) != RawPath(folder, last) && CleanPath(folder, f) != CleanPath(folder, last))
  {
    var entries := init + [last];
    forall f | f in Successful(w, folder, init)
      ensures IsExcelName(f)
      ensures IsExcelName(last) ==> RawPath(folder, f) != RawPath(folder, last) && CleanPath(folder, f) != CleanPath(folder, last)
    {
      assert SucceedsIn(w, folder)(f);
      var i :| 0 <= i < |init| && init[i] == f;
      assert entries[i] == f && entries[|init|] == last;
    }
  }

  /** A listing with distinct twins keeps them on dropping its last entry. */
  lemma DistinctTwinsInit(folder: string, entries: seq<string>)
    requires entries != [] && DistinctTwins(folder, entries)
    ensures DistinctTwins(folder, entries[..|entries| - 1])
  {
    var init := entries[..|entries| - 1];
    assert forall i :: 0 <= i < |init| ==> init[i] == entries[i];
  }

  /**
   * When the listing's spreadsheets have distinct twin paths, every returned
   * raw path holds its entry's sheet and the clean path at the same position
   * holds that sheet's complete rows.
   */
  lemma {:induction false} TwinsHoldTheirSheet(w: World, folder: string, entries: seq<string>, disk0: Disk)
    requires DistinctTwins(folder, entries)
    ensures TwinsHoldSheets(w, folder, ExcelRun(w, folder, entries, disk0), Successful(w, folder, entries))
    decreases |entries|
  {
    if entries != [] {
      var init, last := entries[..|entries| - 1], entries[|entries| - 1];
      assert entries == init + [last];
      DistinctTwinsInit(folder, entries);
      TwinsHoldTheirSheet(w, folder, init, disk0);
      LastTwinsApart(w, folder, init, last);
      var before := ExcelRun(w, folder, init, disk0);
      TwinsHoldStep(w, folder, before, Successful(w, folder, init), last);
      SuccessfulSnoc(w, folder, init, last);
      assert ExcelRun(w, folder, entries, disk0) == Step(before, ProcessEntry(w, folder, last, before.disk));
    }
  }

  /**
   * Position k of the returned lists, read back from disk: the clean twin
   * holds the complete rows of what the raw twin holds, and both come from
   * the k-th successful entry's sheet.
   */
  lemma TwinsPairedOnDisk(w: World, folder: string, entries: seq<string>, disk0: Disk, k: nat)
    requires DistinctTwins(folder, entries)
    requires k < |Successful(w, folder, entries)|
    ensures var st := ExcelRun(w, folder, entries, disk0);
      var f := Successful(w, folder, entries)[k];
      && k < |st.raw| && k < |st.clean|
      && st.raw[k] in st.disk && st.clean[k] in st.disk && Join(folder, f) in w.sheets
      && st.disk[st.raw[k]] == w.sheets[Join(folder, f)]
      && st.disk[st.clean[k]] == Clean(st.disk[st.raw[k]])
  {
    TwinsHoldTheirSheet(w, folder, entries, disk0);
    var ok := Successful(w, folder, entries);
    assert ok[k] in ok;
  }

  /**
   * As written: `s.xls.xls` and `s_raw.parquet.xls` get the same raw twin
   * but different clean twins. When both are processed, the raw twin holds
   * the second sheet, while the first position of the clean list still
   * holds the first sheet's complete rows.
   */
  lemma SharedRawTwinUnpaired(w: World, folder: string, s: string, disk0: Disk)
    requires 'x' !in s && '/' !in s
    requires Succeeds(w, folder, s + ".xls.xls") && Succeeds(w, folder, s + "_raw.parquet.xls")
    requires Clean(w.sheets[Join(folder, s + ".xls.xls")]) != Clean(w.sheets[Join(folder, s + "_raw.parquet.xls")])
    ensures var st := ExcelRun(w, folder, [s + ".xls.xls", s + "_raw.parquet.xls"], disk0);
      && |st.raw| == 2 && |st.clean| == 2
      && st.raw[0] == st.raw[1] && st.clean[0] != st.clean[1]
      && st.raw[0] in st.disk && st.clean[0] in st.disk
      && st.disk[st.clean[0]] != Clean(st.disk[st.raw[0]])
  {
    SharedRawTwinNames(s);
    JoinDistinct(folder, CleanName(s + ".xls.xls"), CleanName(s + "_raw.parquet.xls"));
    SharedRawTwinRun(w, folder, s + ".xls.xls", s + "_raw.parquet.xls", disk0);
  }

  /** The names behind the counterexample: equal raw names, clean names of different lengths. */
  lemma SharedRawTwinNames(s: string)
    requires 'x' !in s && '/' !in s
    ensures RawName(s + ".xls.xls") == RawName(s + "_raw.parquet.xls")
    ensures var x, y := CleanName(s + ".xls.xls"), CleanName(s + "_raw.parquet.xls");
      x != [] && y != [] && x[0] == y[0] && x[0] != '/' && |x| != |y|
  {
    var a, b := s + ".xls.xls", s + "_raw.parquet.xls";
    assert a == s + Xls + Xls;
    assert b == (s + RawSuffix) + Xls;
    assert Xls[1] == 'x' && 'x' !in RawSuffix;
    AbsentByChar(s, Xls, 1);
    AbsentByChar(s + RawSuffix, Xls, 1);
    InnerExtensionRewritten(s, Xls, Xls, RawSuffix);
    InnerExtensionRewritten(s, Xls, Xls, CleanSuffix);
    FinalExtensionBecomesSuffix(s + RawSuffix, Xls, RawSuffix);
    FinalExtensionBecomesSuffix(s + RawSuffix, Xls, CleanSuffix);
    PlainStemKept(s + RawSuffix, RawSuffix);
    PlainStemKept(s + RawSuffix, CleanSuffix);
    assert CleanName(a) == s + CleanSuffix + CleanSuffix;
    assert CleanName(b) == s + RawSuffix + CleanSuffix;
  }

  /** Two processed entries with the same raw twin and different clean twins leave the first clean twin unpaired. */
  lemma SharedRawTwinRun(w: World, folder: string, a: string, b: string, disk0: Disk)
    requires Succeeds(w, folder, a) && Succeeds(w, folder, b)
    requires RawName(a) == RawName(b) && CleanPath(folder, a) != CleanPath(folder, b)
    requires Clean(w.sheets[Join(folder, a)]) != Clean(w.sheets[Join(folder, b)])
    ensures var st := ExcelRun(w, folder, [a, b], disk0);
      && |st.raw| == 2 && |st.clean| == 2
      && st.raw[0] == st.raw[1] && st.clean[0] != st.clean[1]
      && st.raw[0] in st.disk && st.clean[0] in st.disk
      && st.disk[st.clean[0]] != Clean(st.disk[st.raw[0]])
  {
    var e := [a, b];
    assert e[..0] == [] && e[..2] == e;
    ExcelRunSnoc(w, folder, e, 0, disk0);
    ExcelRunSnoc(w, folder, e, 1, disk0);
    var first := ExcelRun(w, folder, e[..1], disk0);
    ProcessedStep(w, folder, ExcelState([], [], disk0), a);
    ProcessedStep(w, folder, first, b);
    RawAndCleanPathsDiffer(folder, a);
    RawAndCleanPathsDiffer(folder, b);
    SuffixesExclusive(CleanPath(folder, a));
  }

  /** Two different names that start with the same non-slash character join to different paths. */
  lemma JoinDistinct(folder: string, x: string, y: string)
    requires x != [] && y != [] && x[0] == y[0] && x[0] != '/' && |x| != |y|
    ensures Join(folder, x) != Join(folder, y)
  {
  }
}
