/** What a report run promises, stated over the specification functions of
    module Report: the shape of the progress signal, the completion message,
    which dates are recorded as missing, what lands in each cell of a filled
    template, and which output files are written. */
module ReportFacts {
  import opened Common
  import opened Text
  import opened Dates
  import opened Ordering
  import opened Sources
  import opened Sheets
  import opened Templates
  import opened Report

  // ---- progress -----------------------------------------------------------

  lemma MulCancel(x: int, y: int, n: int)
    requires 0 < n && x * n < y * n
    ensures x < y
  {
    assert (y - x) * n > 0;
  }

  lemma DivMonotone(a: int, b: int, n: int)
    requires 0 <= a <= b && 0 < n
    ensures a / n <= b / n
  {
    assert (a / n) * n <= a;
    assert b < (b / n + 1) * n;
    MulCancel(a / n, b / n + 1, n);
  }

  lemma PercentMonotone(j: nat, k: nat, n: nat)
    requires 0 < n && j <= k
    ensures Percent(j, n) <= Percent(k, n)
  {
    DivMonotone(j * 100, k * 100, n);
  }

  /** Progress after k of n templates lies in 0 .. 100 and is 100 after all. */
  lemma PercentRange(k: nat, n: nat)
    requires 0 < n && k <= n
    ensures 0 <= Percent(k, n) <= 100
    ensures k == n ==> Percent(k, n) == 100
  {
    DivMonotone(0, k * 100, n);
    DivMonotone(k * 100, n * 100, n);
    assert (n * 100) / n == 100;
  }

  /** The i + 1 values emitted after i of n templates are the percentages
      0, 1/n, .., i/n in that order. */
  lemma {:induction false} ProgressOfAt(n: nat, i: nat)
    requires 0 < n && i <= n
    ensures |ProgressOf([0], n, i)| == i + 1
    ensures forall k :: 0 <= k <= i ==> ProgressOf([0], n, i)[k] == Percent(k, n)
  {
    if i > 0 {
      ProgressOfAt(n, i - 1);
    }
  }

  /** The progress signal of a run over n templates: n + 1 values, starting
      at 0, never decreasing, within 0 .. 100, and ending at 100 unless
      there were no templates. */
  lemma ProgressShape(n: nat)
    ensures var p := ProgressOf([0], n, n);
      && |p| == n + 1
      && p[0] == 0
      && (forall k :: 0 <= k < |p| ==> 0 <= p[k] <= 100)
      && (forall a, b :: 0 <= a <= b < |p| ==> p[a] <= p[b])
      && (n > 0 ==> p[n] == 100)
  {
    var p := ProgressOf([0], n, n);
    if n > 0 {
      ProgressOfAt(n, n);
      forall k | 0 <= k < |p| ensures 0 <= p[k] <= 100 {
        PercentRange(k, n);
      }
      PercentRange(n, n);
      forall a, b | 0 <= a <= b < |p| ensures p[a] <= p[b] {
        PercentMonotone(a, b, n);
      }
    }
  }

  // ---- completion message -------------------------------------------------

  /** The plain success message is sent exactly when no date is missing. */
  lemma FinalMessageSuccess(missing: seq<string>)
    ensures FinalMessage(missing) == SuccessMessage <==> |missing| == 0
  {
    if |missing| > 0 {
      assert |FinalMessage(missing)| >= |MissingPrefix| > |SuccessMessage|;
    }
  }

  /** Every missing date is named in the completion message. */
  lemma FinalMessageNamesMissing(missing: seq<string>, date: string)
    requires date in missing
    ensures Contains(FinalMessage(missing), date)
  {
    var names := SortedSet(missing);
    assert date in names;
    JoinWithContains(", ", names, date);
    ContainsAfter(MissingPrefix, JoinWith(", ", names), date);
  }

  /** The completion message lists each missing date once, in sorted order,
      so it depends only on which dates are missing, not on the order in
      which the tasks recorded them or on how often. */
  lemma FinalMessageOrderFree(a: seq<string>, b: seq<string>)
    requires forall y :: y in a <==> y in b
    ensures FinalMessage(a) == FinalMessage(b)
  {
    SortedSetDependsOnlyOnElements(a, b);
    if |a| > 0 {
      assert a[0] in b;
    }
    if |b| > 0 {
      assert b[0] in a;
    }
  }

  /** The completion message's `sorted` order on `dd.mm.yyyy` strings is not
      date order: 02.01.2024 is the earlier day, yet its string sorts after
      that of 01.02.2024. */
  lemma FormatOrderIsNotChronological()
    ensures Valid(Date(2024, 1, 2)) && Valid(Date(2024, 2, 1))
    ensures Ordinal(Date(2024, 1, 2)) < Ordinal(Date(2024, 2, 1))
    ensures Below(Format(Date(2024, 2, 1)), Format(Date(2024, 1, 2)))
  {
  }

  // ---- missing dates ------------------------------------------------------

  /** The labels of the positions among the first j whose flag is unset,
      in position order. */
  function Unflagged(flags: seq<bool>, labels: seq<string>, j: nat): seq<string>
    requires j <= |flags| && j <= |labels|
  {
    if j == 0 then []
    else Unflagged(flags, labels, j - 1) + (if flags[j - 1] then [] else [labels[j - 1]])
  }

  lemma {:induction false} UnflaggedExact(flags: seq<bool>, labels: seq<string>, j: nat)
    requires j <= |flags| && j <= |labels|
    ensures |Unflagged(flags, labels, j)| <= j
    ensures forall s :: s in Unflagged(flags, labels, j) <==> exists k :: 0 <= k < j && !flags[k] && s == labels[k]
  {
    if j > 0 {
      UnflaggedExact(flags, labels, j - 1);
      var before := Unflagged(flags, labels, j - 1);
      var last := if flags[j - 1] then [] else [labels[j - 1]];
      assert Unflagged(flags, labels, j) == before + last;
      forall s | s in before + last
        ensures exists k :: 0 <= k < j && !flags[k] && s == labels[k]
      {
        if s !in before {
          assert !flags[j - 1] && s == labels[j - 1];
        }
      }
      forall s, k | 0 <= k < j && !flags[k] && s == labels[k]
        ensures s in before + last
      {
        if k < j - 1 {
          assert s in before;
        } else {
          assert s in last;
        }
      }
    }
  }

  lemma {:induction false} UnflaggedDistinct(flags: seq<bool>, labels: seq<string>, j: nat)
    requires j <= |flags| && j <= |labels|
    requires forall a, b :: 0 <= a < b < j ==> labels[a] != labels[b]
    ensures forall a, b :: 0 <= a < b < |Unflagged(flags, labels, j)| ==>
      Unflagged(flags, labels, j)[a] != Unflagged(flags, labels, j)[b]
  {
    if j > 0 {
      UnflaggedDistinct(flags, labels, j - 1);
      UnflaggedExact(flags, labels, j - 1);
      var before := Unflagged(flags, labels, j - 1);
      if !flags[j - 1] {
        forall a | 0 <= a < |before| ensures before[a] != labels[j - 1] {
          assert before[a] in before;
          var k :| 0 <= k < j - 1 && !flags[k] && before[a] == labels[k];
        }
      }
    }
  }

  /** Whether a source was found for each day of the window. */
  ghost function DayFound(job: Job, name: string): (f: seq<bool>)
    requires JobValid(job)
    ensures |f| == 7
    ensures forall k :: 0 <= k < 7 ==> f[k] == DaySource(job, name, k).Some?
  {
    seq(7, k requires 0 <= k < 7 => DaySource(job, name, k).Some?)
  }

  /** The formatted dates of the window's days. */
  ghost function DayLabels(job: Job): (l: seq<string>)
    requires JobValid(job)
    ensures |l| == 7
    ensures forall k :: 0 <= k < 7 ==> l[k] == Format(DayDate(job, k))
  {
    seq(7, k requires 0 <= k < 7 => Format(DayDate(job, k)))
  }

  lemma {:induction false} MissingDaysUnflagged(job: Job, name: string, j: nat)
    requires JobValid(job) && j <= 7
    ensures MissingDays(job, name, j) == Unflagged(DayFound(job, name), DayLabels(job), j)
  {
    if j > 0 {
      MissingDaysUnflagged(job, name, j - 1);
    }
  }

  /** WeekDistinct, restated over the labels of a job's window. */
  lemma DayLabelsDistinct(job: Job)
    requires JobValid(job)
    ensures forall a, b :: 0 <= a < b < 7 ==> DayLabels(job)[a] != DayLabels(job)[b]
  {
    var w := WeekDates(job.start);
    WeekDistinct(job.start);
    forall k | 0 <= k < 7 ensures DayDate(job, k) == w[k] {
    }
  }

  /** The dates a template records are exactly the formatted days of the
      window for which no source was found, each at most once. */
  lemma MissingDaysExact(job: Job, name: string)
    requires JobValid(job)
    ensures var m := MissingDays(job, name, WeekLength);
      && |m| <= 7
      && (forall s :: s in m <==> exists k :: 0 <= k < 7 && DaySource(job, name, k).None? && s == Format(DayDate(job, k)))
      && (forall a, b :: 0 <= a < b < |m| ==> m[a] != m[b])
  {
    var flags, labels := DayFound(job, name), DayLabels(job);
    MissingDaysUnflagged(job, name, WeekLength);
    UnflaggedExact(flags, labels, WeekLength);
    DayLabelsDistinct(job);
    UnflaggedDistinct(flags, labels, WeekLength);
  }

  // ---- filled template ----------------------------------------------------

  /** The sheet copied into day d's column: that of the day's source, when
      one was found and opens. */
  function DaySheet(job: Job, name: string, d: nat): Option<Cells>
    requires JobValid(job) && d < 7
  {
    match DaySource(job, name, d)
    case None => None
    case Some(path) =>
      match job.fs.Load(path)
      case Loaded(src) => Some(src)
      case Unreadable => None
  }

  /** The cells after copying each present sheet among the first j into its
      day column, in day order. */
  function Fill(cells: Cells, sheets: seq<Option<Cells>>, j: nat): Cells
    requires j <= |sheets|
  {
    if j == 0 then cells
    else
      var before := Fill(cells, sheets, j - 1);
      if sheets[j - 1].Some? then CopyBlock(before, sheets[j - 1].value, j - 1) else before
  }

  lemma {:induction false} FillAt(cells: Cells, sheets: seq<Option<Cells>>, j: nat, row: int, col: int)
    requires j <= |sheets|
    ensures At(Fill(cells, sheets, j), row, col) ==
      if 3 <= col < 3 + j && 5 <= row <= 29 && sheets[col - 3].Some?
      then At(sheets[col - 3].value, row - 2, 3)
      else At(cells, row, col)
  {
    if j > 0 {
      FillAt(cells, sheets, j - 1, row, col);
      if sheets[j - 1].Some? {
        CopyBlockAt(Fill(cells, sheets, j - 1), sheets[j - 1].value, j - 1, row, col);
      }
    }
  }

  ghost function DaySheets(job: Job, name: string): (s: seq<Option<Cells>>)
    requires JobValid(job)
    ensures |s| == 7
    ensures forall d :: 0 <= d < 7 ==> s[d] == DaySheet(job, name, d)
  {
    seq(7, d requires 0 <= d < 7 => DaySheet(job, name, d))
  }

  lemma {:induction false} FillDaysIsFill(job: Job, name: string, cells: Cells, j: nat)
    requires JobValid(job) && j <= 7
    ensures FillDays(job, name, cells, j) == Fill(cells, DaySheets(job, name), j)
  {
    if j > 0 {
      FillDaysIsFill(job, name, cells, j - 1);
    }
  }

  /** One cell of the filled template: rows 5 .. 29 of day d's column (column
      3 + d) hold rows 3 .. 27 of column 3 of that day's source sheet, when
      one was found and opens; every other cell is the template's own. */
  lemma FillDaysAt(job: Job, name: string, cells: Cells, row: int, col: int)
    requires JobValid(job)
    ensures At(FillDays(job, name, cells, WeekLength), row, col) ==
      if 3 <= col < 10 && 5 <= row <= 29 && DaySheet(job, name, col - 3).Some?
      then At(DaySheet(job, name, col - 3).value, row - 2, 3)
      else At(cells, row, col)
  {
    FillDaysIsFill(job, name, cells, WeekLength);
    FillAt(cells, DaySheets(job, name), WeekLength, row, col);
  }

  // ---- the run as a whole -------------------------------------------------

  /** One status per template, in listing order. */
  lemma {:induction false} StatusesOfAll(templates: seq<string>, i: nat)
    requires i <= |templates|
    ensures |StatusesOf([], templates, i)| == i
    ensures forall k :: 0 <= k < i ==> StatusesOf([], templates, i)[k] == StatusPrefix + templates[k]
  {
    if i > 0 {
      StatusesOfAll(templates, i - 1);
    }
  }

  /** The files written for the first i tasks: each task with an output
      writes it to its own path, a later write replacing an earlier one. */
  function Written(paths: seq<string>, outputs: seq<Option<Cells>>, i: nat): map<string, Cells>
    requires i <= |paths| && i <= |outputs|
  {
    if i == 0 then map[]
    else
      var before := Written(paths, outputs, i - 1);
      if outputs[i - 1].Some? then before[paths[i - 1] := outputs[i - 1].value] else before
  }

  lemma {:induction false} WrittenFiles(paths: seq<string>, outputs: seq<Option<Cells>>, i: nat)
    requires i <= |paths| && i <= |outputs|
    ensures forall p :: p in Written(paths, outputs, i) ==>
      exists k :: 0 <= k < i && p == paths[k] && outputs[k] == Some(Written(paths, outputs, i)[p])
    ensures forall k :: 0 <= k < i && outputs[k].Some? ==> paths[k] in Written(paths, outputs, i)
  {
    if i > 0 {
      WrittenFiles(paths, outputs, i - 1);
      var before := Written(paths, outputs, i - 1);
      var after := Written(paths, outputs, i);
      forall p | p in after
        ensures exists k :: 0 <= k < i && p == paths[k] && outputs[k] == Some(after[p])
      {
        if outputs[i - 1].Some? && p == paths[i - 1] {
          assert outputs[i - 1] == Some(after[p]);
        } else {
          var k :| 0 <= k < i - 1 && p == paths[k] && outputs[k] == Some(before[p]);
          assert after[p] == before[p];
        }
      }
    }
  }

  ghost function OutputPaths(job: Job, templates: seq<string>): (s: seq<string>)
    ensures |s| == |templates|
    ensures forall k :: 0 <= k < |templates| ==> s[k] == JoinPath(job.folder, templates[k])
  {
    seq(|templates|, k requires 0 <= k < |templates| => JoinPath(job.folder, templates[k]))
  }

  ghost function Outputs(job: Job, templates: seq<string>): (s: seq<Option<Cells>>)
    requires JobValid(job)
    ensures |s| == |templates|
    ensures forall k :: 0 <= k < |templates| ==> s[k] == RunTemplate(job, templates[k]).output
  {
    seq(|templates|, k requires 0 <= k < |templates| => RunTemplate(job, templates[k]).output)
  }

  lemma {:induction false} SavedOfIsWritten(job: Job, templates: seq<string>, i: nat)
    requires JobValid(job) && i <= |templates|
    ensures SavedOf(map[], job, templates, i) == Written(OutputPaths(job, templates), Outputs(job, templates), i)
  {
    if i > 0 {
      SavedOfIsWritten(job, templates, i - 1);
    }
  }

  /** Every file a run writes lies in the output folder under the name of a
      template whose task saved, and holds that task's filled sheet; every
      task that saved has its file. */
  lemma SavedOfFiles(job: Job, templates: seq<string>)
    requires JobValid(job)
    ensures var saved := SavedOf(map[], job, templates, |templates|);
      && (forall p :: p in saved ==>
            exists k :: 0 <= k < |templates| && p == JoinPath(job.folder, templates[k])
              && RunTemplate(job, templates[k]).output == Some(saved[p]))
      && (forall k :: 0 <= k < |templates| && RunTemplate(job, templates[k]).output.Some? ==>
            JoinPath(job.folder, templates[k]) in saved)
  {
    SavedOfIsWritten(job, templates, |templates|);
    WrittenFiles(OutputPaths(job, templates), Outputs(job, templates), |templates|);
  }

  /** The parts among the first i, concatenated in order. */
  function Appended(parts: seq<seq<string>>, i: nat): seq<string>
    requires i <= |parts|
  {
    if i == 0 then [] else Appended(parts, i - 1) + parts[i - 1]
  }

  lemma {:induction false} AppendedElements(parts: seq<seq<string>>, i: nat)
    requires i <= |parts|
    ensures forall s :: s in Appended(parts, i) <==> exists k :: 0 <= k < i && s in parts[k]
  {
    if i > 0 {
      AppendedElements(parts, i - 1);
      var before := Appended(parts, i - 1);
      var all := Appended(parts, i);
      assert all == before + parts[i - 1];
      forall s | s in all
        ensures exists k :: 0 <= k < i && s in parts[k]
      {
        if s !in before {
          assert s in parts[i - 1];
        }
      }
      forall s, k | 0 <= k < i && s in parts[k]
        ensures s in all
      {
        if k < i - 1 {
          assert s in before;
        }
      }
    }
  }

  lemma {:induction false} AppendedEmpty(parts: seq<seq<string>>, i: nat)
    requires i <= |parts|
    ensures Appended(parts, i) == [] <==> forall k :: 0 <= k < i ==> parts[k] == []
  {
    if i > 0 {
      AppendedEmpty(parts, i - 1);
      assert |Appended(parts, i)| == |Appended(parts, i - 1)| + |parts[i - 1]|;
    }
  }

  /** The dates each task recorded. */
  ghost function Recorded(job: Job, templates: seq<string>): (s: seq<seq<string>>)
    requires JobValid(job)
    ensures |s| == |templates|
    ensures forall k :: 0 <= k < |templates| ==> s[k] == RunTemplate(job, templates[k]).missing
  {
    seq(|templates|, k requires 0 <= k < |templates| => RunTemplate(job, templates[k]).missing)
  }

  lemma {:induction false} MissingOfIsAppended(job: Job, templates: seq<string>, i: nat)
    requires JobValid(job) && i <= |templates|
    ensures MissingOf(job, templates, i) == Appended(Recorded(job, templates), i)
  {
    if i > 0 {
      MissingOfIsAppended(job, templates, i - 1);
    }
  }

  /** The shared missing list of a run holds exactly the dates some task
      recorded, and is empty exactly when no task recorded one. */
  lemma MissingOfElements(job: Job, templates: seq<string>)
    requires JobValid(job)
    ensures var m := MissingOf(job, templates, |templates|);
      && (forall s :: s in m <==> exists k :: 0 <= k < |templates| && s in RunTemplate(job, templates[k]).missing)
      && (m == [] <==> forall k :: 0 <= k < |templates| ==> RunTemplate(job, templates[k]).missing == [])
  {
    MissingOfIsAppended(job, templates, |templates|);
    AppendedElements(Recorded(job, templates), |templates|);
    AppendedEmpty(Recorded(job, templates), |templates|);
  }

  /** A run over the listed templates ends with the plain success message
      exactly when no task recorded a missing date. */
  lemma RunSucceedsIffNothingMissing(job: Job, templates: seq<string>)
    requires JobValid(job)
    ensures TemplatesReport(job, templates).message == SuccessMessage <==>
      forall k :: 0 <= k < |templates| ==> RunTemplate(job, templates[k]).missing == []
  {
    FinalMessageSuccess(MissingOf(job, templates, |templates|));
    MissingOfElements(job, templates);
  }

  /** The completion message of a run that got past its setup never reads
      as an error. */
  lemma FinalMessageNotError(missing: seq<string>)
    ensures !StartsWith(FinalMessage(missing), ErrorPrefix)
  {
    var m := FinalMessage(missing);
    assert SuccessMessage[0] == MissingPrefix[0] == 'Г' && ErrorPrefix[0] == 'П';
    if |missing| > 0 {
      assert m[0] == MissingPrefix[0];
    }
    assert m[0] != ErrorPrefix[0];
  }

  lemma ErrorReportStartsWithPrefix(e: string)
    ensures StartsWith(ErrorPrefix + e, ErrorPrefix)
  {
    assert (ErrorPrefix + e)[..|ErrorPrefix|] == ErrorPrefix;
  }

  /** A run ends with an error message exactly when it stopped during setup
      (the date overflow, the output folder, the template listing), and then
      it emitted no progress and no status and wrote nothing. An overflowing
      window gives the overflow's text, and a template directory that cannot
      be listed always ends the run this way. */
  lemma RunSpecFatal(fs: FileSystem, templatePath: string, sourcePath: string, outputPath: string, start: Date)
    requires Valid(start)
    ensures var r := RunSpec(fs, templatePath, sourcePath, outputPath, start);
      && (StartsWith(r.message, ErrorPrefix) <==> r.progress == [])
      && (r.progress == [] ==> r.statuses == [] && r.saved == map[])
      && (AddDays(start, LastOffset).None? ==> r.message == ErrorPrefix + OverflowText)
      && (fs.ListDir(templatePath).Err? ==> r.progress == [])
  {
    match AddDays(start, LastOffset)
    case None =>
      ErrorReportStartsWithPrefix(OverflowText);
    case Some(end) =>
      AddDaysValid(start, LastOffset);
      var folder := JoinPath(outputPath, FolderName(start, end));
      match fs.MakeDirs(folder)
      case Some(e) =>
        ErrorReportStartsWithPrefix(e);
      case None =>
        match fs.ListDir(templatePath)
        case Err(e) =>
          ErrorReportStartsWithPrefix(e);
        case Ok(listing) =>
          var job, ts := Job(fs, templatePath, sourcePath, folder, start), TemplateFiles(listing);
          ProgressShape(|ts|);
          FinalMessageNotError(MissingOf(job, ts, |ts|));
  }

  /** A run that got past its setup processes the `.xlsx` names of the
      listing in order: one status per template, and a progress signal of
      one more value than there are templates, starting at 0, never
      decreasing, within 0 .. 100 and ending at 100 unless there were no
      templates. Whether its message is the plain success message is
      RunSucceedsIffNothingMissing. */
  lemma RunSpecOk(fs: FileSystem, templatePath: string, sourcePath: string, outputPath: string, start: Date)
    requires Valid(start)
    ensures var r := RunSpec(fs, templatePath, sourcePath, outputPath, start);
      r.progress != [] ==>
        && fs.ListDir(templatePath).Ok?
        && var ts := TemplateFiles(fs.ListDir(templatePath).value);
        && |r.statuses| == |ts|
        && (forall k :: 0 <= k < |ts| ==> r.statuses[k] == StatusPrefix + ts[k])
        && |r.progress| == |ts| + 1
        && r.progress[0] == 0
        && (forall k :: 0 <= k < |r.progress| ==> 0 <= r.progress[k] <= 100)
        && (forall a, b :: 0 <= a <= b < |r.progress| ==> r.progress[a] <= r.progress[b])
        && (|ts| > 0 ==> r.progress[|ts|] == 100)
  {
    match AddDays(start, LastOffset)
    case None =>
    case Some(end) =>
      AddDaysValid(start, LastOffset);
      var folder := JoinPath(outputPath, FolderName(start, end));
      match fs.MakeDirs(folder)
      case Some(e) =>
      case None =>
        match fs.ListDir(templatePath)
        case Err(e) =>
        case Ok(listing) =>
          var ts := TemplateFiles(listing);
          ProgressShape(|ts|);
          StatusesOfAll(ts, |ts|);
  }
}
