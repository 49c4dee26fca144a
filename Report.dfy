/** The report run: the week window and output folder, one task per
    template filling the template's day columns from the daily sources, the
    missing-date accounting, progress, and the completion message. */
module Report {
  import opened Common
  import opened Text
  import opened Dates
  import opened Ordering
  import opened Templates
  import opened Sources
  import opened Sheets

  /** The number of days in the window. */
  const WeekLength := 7

  const FolderLabel := "Тижневий звіт "
  const StatusPrefix := "Обробка "
  const SuccessMessage := "Генерація звіту завершена!"
  const MissingPrefix := "Генерація звіту завершена! Відсутні вихідні файли за дати: "
  const ErrorPrefix := "Помилка: "
  /** The text of the OverflowError raised by a date past 9999-12-31. */
  const OverflowText := "date value out of range"
  const PathsMissingMessage := "Будь ласка, вкажіть всі необхідні шляхи"

  /** The file system as the run sees it. */
  datatype FileSystem = FileSystem(
    dirErrors: map<string, string>,
    listings: map<string, Result<seq<string>>>,
    trees: map<string, seq<WalkEntry>>,
    workbooks: map<string, Cells>,
    unsaveable: set<string>)
  {
    /** `os.makedirs(path, exist_ok=True)`: None, or the error text. */
    function MakeDirs(path: string): Option<string> {
      if path in dirErrors then Some(dirErrors[path]) else None
    }

    /** `os.listdir(path)`; a path with no listing does not exist. */
    function ListDir(path: string): Result<seq<string>> {
      if path in listings then listings[path] else Err("[Errno 2] No such file or directory: '" + path + "'")
    }

    /** `os.walk(path)`: nothing for a path that does not exist. */
    function Walk(path: string): seq<WalkEntry> {
      if path in trees then trees[path] else []
    }

    /** `openpyxl.load_workbook(path)`. */
    function Load(path: string): Workbook {
      if path in workbooks then Loaded(workbooks[path]) else Unreadable
    }

    /** Whether `wb.save(path)` succeeds. */
    predicate Save(path: string) {
      path !in unsaveable
    }
  }

  /** A per-template task ends normally or with an exception that the run
      logs and otherwise ignores. */
  datatype TaskOutcome = Completed | Raised

  /** What one task leaves behind: the dates it appended to the shared
      missing list, the sheet it saved (if it got that far), and how it ended. */
  datatype TaskResult = TaskResult(missing: seq<string>, output: Option<Cells>, outcome: TaskOutcome)

  /** The fixed inputs of every task of one run. */
  datatype Job = Job(fs: FileSystem, templatePath: string, sourcePath: string, folder: string, start: Date)

  ghost predicate JobValid(job: Job) {
    Valid(job.start) && AddDays(job.start, LastOffset).Some?
  }

  /** The output folder's name for the window start .. end. */
  function FolderName(start: Date, end: Date): string
    requires Valid(start) && Valid(end)
  {
    FolderLabel + Format(start) + "-" + Format(end)
  }

  /** Where the label and the two dates sit in a folder name. */
  lemma FolderNameSlices(a: string, b: string)
    requires |a| == 10
    ensures var n, k := FolderLabel + a + "-" + b, |FolderLabel|;
      && |n| == k + 11 + |b|
      && n[..k] == FolderLabel && n[k + 10] == '-'
      && n[k..k + 10] == a && n[k + 11..] == b
  {
  }

  /** The folder name carries both ends of the window: each date can be read
      back from its place after the label, on either side of the dash. */
  lemma FolderNameEncodesWindow(start: Date)
    requires Valid(start) && AddDays(start, LastOffset).Some?
    ensures var end := AddDays(start, LastOffset).value;
      var n, k := FolderName(start, end), |FolderLabel|;
      Valid(end)
      && Contains(n, Format(start))
      && Contains(n, Format(end))
      && |n| == k + 21
      && n[..k] == FolderLabel && n[k + 10] == '-'
      && Parse(n[k..k + 10]) == Some(start)
      && Parse(n[k + 11..]) == Some(end)
  {
    AddDaysValid(start, LastOffset);
    var end := AddDays(start, LastOffset).value;
    var a, b := Format(start), Format(end);
    FolderNameSlices(a, b);
    ParseFormat(start);
    ParseFormat(end);
    assert Contains(a, a) && Contains(b, b);
    ContainsAfter(FolderLabel, a, a);
    ContainsBefore(FolderLabel + a, "-", a);
    ContainsBefore(FolderLabel + a + "-", b, a);
    ContainsAfter(FolderLabel + a + "-", b, b);
  }

  /** Day j of the window. */
  function DayDate(job: Job, j: nat): (d: Date)
    requires JobValid(job) && j < 7
    ensures Valid(d)
  {
    AddDaysPrefix(job.start, LastOffset, j);
    AddDaysValid(job.start, j);
    AddDays(job.start, j).value
  }

  /** The source found for template `name` on day j of the window. */
  function DaySource(job: Job, name: string, j: nat): Option<string>
    requires JobValid(job) && j < 7
  {
    FindSource(job.fs.Walk(job.sourcePath), name, DayDate(job, j))
  }

  /** The template sheet after days 0 .. j-1 have been handled: each found
      source is copied into its day column; a missing or unreadable source
      leaves the sheet as it was. */
  function FillDays(job: Job, name: string, cells: Cells, j: nat): Cells
    requires JobValid(job) && j <= 7
  {
    if j == 0 then cells
    else
      var before := FillDays(job, name, cells, j - 1);
      match DaySource(job, name, j - 1)
      case None => before
      case Some(path) =>
        match job.fs.Load(path)
        case Loaded(src) => CopyBlock(before, src, j - 1)
        case Unreadable => before
  }

  /** The dates among days 0 .. j-1 for which no source was found, in day order. */
  function MissingDays(job: Job, name: string, j: nat): seq<string>
    requires JobValid(job) && j <= 7
  {
    if j == 0 then []
    else
      var found := DaySource(job, name, j - 1);
      MissingDays(job, name, j - 1) + (if found.None? then [Format(DayDate(job, j - 1))] else [])
  }

  /** `process_template` as a whole: a template that cannot be opened raises
      before any date is recorded; otherwise all seven days are handled and
      the missing dates recorded before the save, which may still raise. */
  function RunTemplate(job: Job, name: string): TaskResult
    requires JobValid(job)
  {
    match job.fs.Load(JoinPath(job.templatePath, name))
    case Unreadable => TaskResult([], None, Raised)
    case Loaded(cells) =>
      var filled := FillDays(job, name, cells, WeekLength);
      var missing := MissingDays(job, name, WeekLength);
      if job.fs.Save(JoinPath(job.folder, name)) then TaskResult(missing, Some(filled), Completed)
      else TaskResult(missing, None, Raised)
  }

  /** The shared missing list after the first i templates. */
  function MissingOf(job: Job, templates: seq<string>, i: nat): seq<string>
    requires JobValid(job) && i <= |templates|
  {
    if i == 0 then [] else MissingOf(job, templates, i - 1) + RunTemplate(job, templates[i - 1]).missing
  }

  /** The output files after the first i templates, starting from `base`. */
  function SavedOf(base: map<string, Cells>, job: Job, templates: seq<string>, i: nat): map<string, Cells>
    requires JobValid(job) && i <= |templates|
  {
    if i == 0 then base
    else
      var t := RunTemplate(job, templates[i - 1]);
      if t.output.Some? then SavedOf(base, job, templates, i - 1)[JoinPath(job.folder, templates[i - 1]) := t.output.value]
      else SavedOf(base, job, templates, i - 1)
  }

  /** The status messages after the first i templates, starting from `base`. */
  function StatusesOf(base: seq<string>, templates: seq<string>, i: nat): seq<string>
    requires i <= |templates|
  {
    if i == 0 then base else StatusesOf(base, templates, i - 1) + [StatusPrefix + templates[i - 1]]
  }

  /** Progress after k of n templates, as a whole percentage. */
  function Percent(k: nat, n: nat): int
    requires n > 0
  {
    k * 100 / n
  }

  /** The progress values after the first i of n templates, starting from
      `base`: one value per template. */
  function ProgressOf(base: seq<int>, n: nat, i: nat): seq<int>
    requires i <= n
  {
    if i == 0 then base else ProgressOf(base, n, i - 1) + [Percent(i, n)]
  }

  /** The completion message for the collected missing dates. */
  function FinalMessage(missing: seq<string>): string {
    if |missing| == 0 then SuccessMessage
    else MissingPrefix + JoinWith(", ", SortedSet(missing))
  }

  /** Everything a run emits and writes. */
  datatype RunReport = RunReport(progress: seq<int>, statuses: seq<string>, saved: map<string, Cells>, message: string)

  /** `run()`: a date overflow, a folder that cannot be created or a template
      directory that cannot be listed ends the run with an error message and
      no other effect; otherwise every template is processed. */
  function RunSpec(fs: FileSystem, templatePath: string, sourcePath: string, outputPath: string, start: Date): RunReport
    requires Valid(start)
  {
    match AddDays(start, LastOffset)
    case None => RunReport([], [], map[], ErrorPrefix + OverflowText)
    case Some(end) =>
      AddDaysValid(start, LastOffset);
      var folder := JoinPath(outputPath, FolderName(start, end));
      match fs.MakeDirs(folder)
      case Some(e) => RunReport([], [], map[], ErrorPrefix + e)
      case None =>
        match fs.ListDir(templatePath)
        case Err(e) => RunReport([], [], map[], ErrorPrefix + e)
        case Ok(listing) =>
          TemplatesReport(Job(fs, templatePath, sourcePath, folder, start), TemplateFiles(listing))
  }

  /** What processing the listed templates emits and writes: a first
      progress value of 0 and one per template, one status per template,
      the saved outputs, and the completion message. */
  function TemplatesReport(job: Job, templates: seq<string>): RunReport
    requires JobValid(job)
  {
    var n := |templates|;
    RunReport(ProgressOf([0], n, n), StatusesOf([], templates, n), SavedOf(map[], job, templates, n),
              FinalMessage(MissingOf(job, templates, n)))
  }

  /** `generate_report`: the run starts only when all three paths are given. */
  datatype Launch = Refused(message: string) | Launched(report: RunReport)

  function GenerateReport(fs: FileSystem, templatePath: string, sourcePath: string, outputPath: string, start: Date): (r: Launch)
    requires Valid(start)
    ensures r.Refused? <==> templatePath == [] || sourcePath == [] || outputPath == []
    ensures r.Launched? ==> r.report == RunSpec(fs, templatePath, sourcePath, outputPath, start)
  {
    if templatePath != [] && sourcePath != [] && outputPath != [] then
      Launched(RunSpec(fs, templatePath, sourcePath, outputPath, start))
    else
      Refused(PathsMissingMessage)
  }

  /** Files written on top of `base` are the run's files laid over `base`. */
  lemma {:induction false} SavedOfBase(base: map<string, Cells>, job: Job, templates: seq<string>, i: nat)
    requires JobValid(job) && i <= |templates|
    ensures SavedOf(base, job, templates, i) == base + SavedOf(map[], job, templates, i)
  {
    if i == 0 {
      assert base + map[] == base;
    } else {
      SavedOfBase(base, job, templates, i - 1);
      var t := RunTemplate(job, templates[i - 1]);
      if t.output.Some? {
        MapUnionUpdate(base, SavedOf(map[], job, templates, i - 1), JoinPath(job.folder, templates[i - 1]), t.output.value);
      }
    }
  }

  /** Statuses emitted on top of `base` are appended after it. */
  lemma {:induction false} StatusesOfBase(base: seq<string>, templates: seq<string>, i: nat)
    requires i <= |templates|
    ensures StatusesOf(base, templates, i) == base + StatusesOf([], templates, i)
  {
    if i > 0 {
      StatusesOfBase(base, templates, i - 1);
    }
  }

  /** Progress emitted on top of `a + b` is appended after `a`. */
  lemma {:induction false} ProgressOfBase(a: seq<int>, b: seq<int>, n: nat, i: nat)
    requires i <= n
    ensures ProgressOf(a + b, n, i) == a + ProgressOf(b, n, i)
  {
    if i > 0 {
      ProgressOfBase(a, b, n, i - 1);
    }
  }

  /** The two ways a template run can go, by whether its workbook loads. */
  lemma RunTemplateCases(job: Job, name: string)
    requires JobValid(job)
    ensures job.fs.Load(JoinPath(job.templatePath, name)).Unreadable? ==>
      RunTemplate(job, name) == TaskResult([], None, Raised)
    ensures job.fs.Load(JoinPath(job.templatePath, name)).Loaded? ==>
      var ok := job.fs.Save(JoinPath(job.folder, name));
      var filled := FillDays(job, name, job.fs.Load(JoinPath(job.templatePath, name)).sheet, WeekLength);
      RunTemplate(job, name) ==
        TaskResult(MissingDays(job, name, WeekLength), if ok then Some(filled) else None, if ok then Completed else Raised)
  {
  }

  lemma MapUnionUpdate<K, V>(a: map<K, V>, b: map<K, V>, k: K, v: V)
    ensures (a + b)[k := v] == a + b[k := v]
  {
  }

  /** The report thread: its paths and start date, the values it has emitted
      on its progress, status and finished signals, and the output files it
      has written. */
  class ReportGenerationThread {
    const templatePath: string
    const sourcePath: string
    const outputPath: string
    const startDate: Date
    var progress: seq<int>
    var statuses: seq<string>
    var finished: seq<string>
    var saved: map<string, Cells>

    constructor (templatePath: string, sourcePath: string, outputPath: string, startDate: Date)
      ensures this.templatePath == templatePath && this.sourcePath == sourcePath
      ensures this.outputPath == outputPath && this.startDate == startDate
      ensures progress == [] && statuses == [] && finished == [] && saved == map[]
    {
      this.templatePath := templatePath;
      this.sourcePath := sourcePath;
      this.outputPath := outputPath;
      this.startDate := startDate;
      progress, statuses, finished, saved := [], [], [], map[];
    }

    /** `process_template(template_file, output_folder, missing_files)`:
        the shared list is passed in and returned extended. */
    method ProcessTemplate(fs: FileSystem, templateFile: string, outputFolder: string, missingFiles: seq<string>)
      returns (missingAfter: seq<string>, outcome: TaskOutcome)
      requires Valid(startDate) && AddDays(startDate, LastOffset).Some?
      modifies this`statuses, this`saved
      ensures var t := RunTemplate(Job(fs, templatePath, sourcePath, outputFolder, startDate), templateFile);
        && missingAfter == missingFiles + t.missing
        && outcome == t.outcome
        && saved == (if t.output.Some? then old(saved)[JoinPath(outputFolder, templateFile) := t.output.value] else old(saved))
      ensures statuses == old(statuses) + [StatusPrefix + templateFile]
    {
      ghost var job := Job(fs, templatePath, sourcePath, outputFolder, startDate);
      RunTemplateCases(job, templateFile);
      statuses := statuses + [StatusPrefix + templateFile];
      var templateFilePath := JoinPath(templatePath, templateFile);
      var outputFile := JoinPath(outputFolder, templateFile);
      var wb := fs.Load(templateFilePath);
      if wb.Unreadable? {
        missingAfter, outcome := missingFiles, Raised;
        return;
      }
      var ws := new Worksheet(wb.sheet);
      var dayMissing := FillWeek(fs, job, templateFile, ws);
      missingAfter := missingFiles + dayMissing;
      if fs.Save(outputFile) {
        saved := saved[outputFile := ws.cells];
        outcome := Completed;
      } else {
        outcome := Raised;
      }
    }

    /** The day loop of `process_template`: for each of the seven days, the
        source found for that day is copied into the day's column, and a
        day without a source is recorded by its formatted date. */
    method FillWeek(fs: FileSystem, ghost job: Job, templateFile: string, ws: Worksheet) returns (dayMissing: seq<string>)
      requires JobValid(job) && job.fs == fs && job.sourcePath == sourcePath && job.start == startDate
      modifies ws
      ensures ws.cells == FillDays(job, templateFile, old(ws.cells), WeekLength)
      ensures dayMissing == MissingDays(job, templateFile, WeekLength)
    {
      ghost var sheet := ws.cells;
      var dates := WeekDates(startDate);
      dayMissing := [];
      for j := 0 to WeekLength
        invariant ws.cells == FillDays(job, templateFile, sheet, j)
        invariant dayMissing == MissingDays(job, templateFile, j)
      {
        var sourceFile := FindSource(fs.Walk(sourcePath), templateFile, dates[j]);
        assert dates[j] == DayDate(job, j);
        if sourceFile.Some? {
          ws.CopyData(fs.Load(sourceFile.value), j);
        } else {
          dayMissing := dayMissing + [Format(dates[j])];
        }
      }
    }

    /** The part of `run()` after the templates are listed: progress starts at
        0, every template is processed, and the completion message names the
        missing dates, if any. */
    method ReportTemplates(fs: FileSystem, ghost job: Job, templateFiles: seq<string>, outputFolder: string)
      requires JobValid(job) && job == Job(fs, templatePath, sourcePath, outputFolder, startDate)
      modifies this
      ensures var r := TemplatesReport(job, templateFiles);
        && progress == old(progress) + r.progress
        && statuses == old(statuses) + r.statuses
        && saved == old(saved) + r.saved
        && finished == old(finished) + [r.message]
    {
      progress := progress + [0];
      var missingFiles := ProcessAll(fs, job, templateFiles, outputFolder);
      ProgressOfBase(old(progress), [0], |templateFiles|, |templateFiles|);
      StatusesOfBase(old(statuses), templateFiles, |templateFiles|);
      SavedOfBase(old(saved), job, templateFiles, |templateFiles|);
      if |missingFiles| > 0 {
        var missingDates := JoinWith(", ", SortedSet(missingFiles));
        finished := finished + [MissingPrefix + missingDates];
      } else {
        finished := finished + [SuccessMessage];
      }
    }

    /** The executor block of `run()`: every template is processed, one after
        another in listing order, sharing one missing list; an exception raised
        by a template is swallowed, and after each template the progress
        reached so far is emitted. */
    method ProcessAll(fs: FileSystem, ghost job: Job, templateFiles: seq<string>, outputFolder: string)
      returns (missingFiles: seq<string>)
      requires JobValid(job) && job == Job(fs, templatePath, sourcePath, outputFolder, startDate)
      modifies this`progress, this`statuses, this`saved
      ensures missingFiles == MissingOf(job, templateFiles, |templateFiles|)
      ensures saved == SavedOf(old(saved), job, templateFiles, |templateFiles|)
      ensures statuses == StatusesOf(old(statuses), templateFiles, |templateFiles|)
      ensures progress == ProgressOf(old(progress), |templateFiles|, |templateFiles|)
    {
      var totalFiles := |templateFiles|;
      missingFiles := [];
      for i := 0 to totalFiles
        invariant missingFiles == MissingOf(job, templateFiles, i)
        invariant saved == SavedOf(old(saved), job, templateFiles, i)
        invariant statuses == StatusesOf(old(statuses), templateFiles, i)
        invariant progress == ProgressOf(old(progress), totalFiles, i)
      {
        ghost var t := RunTemplate(job, templateFiles[i]);
        assert MissingOf(job, templateFiles, i + 1) == MissingOf(job, templateFiles, i) + t.missing;
        assert StatusesOf(old(statuses), templateFiles, i + 1) == StatusesOf(old(statuses), templateFiles, i) + [StatusPrefix + templateFiles[i]];
        var outcome;
        missingFiles, outcome := ProcessTemplate(fs, templateFiles[i], outputFolder, missingFiles);
        progress := progress + [Percent(i + 1, totalFiles)];
      }
    }

    /** `run()`, with the templates processed one after another in listing order. */
    method Run(fs: FileSystem)
      requires Valid(startDate)
      modifies this
      ensures var r := RunSpec(fs, templatePath, sourcePath, outputPath, startDate);
        && progress == old(progress) + r.progress
        && statuses == old(statuses) + r.statuses
        && saved == old(saved) + r.saved
        && finished == old(finished) + [r.message]
    {
      ghost var r := RunSpec(fs, templatePath, sourcePath, outputPath, startDate);
      var endDate := AddDays(startDate, LastOffset);
      if endDate.None? {
        assert r == RunReport([], [], map[], ErrorPrefix + OverflowText);
        finished := finished + [ErrorPrefix + OverflowText];
        return;
      }
      AddDaysValid(startDate, LastOffset);
      var outputFolder := JoinPath(outputPath, FolderName(startDate, endDate.value));
      var made := fs.MakeDirs(outputFolder);
      if made.Some? {
        assert r == RunReport([], [], map[], ErrorPrefix + made.value);
        finished := finished + [ErrorPrefix + made.value];
        return;
      }
      var listing := fs.ListDir(templatePath);
      if listing.Err? {
        assert r == RunReport([], [], map[], ErrorPrefix + listing.error);
        finished := finished + [ErrorPrefix + listing.error];
        return;
      }
      var templateFiles := TemplateFiles(listing.value);
      ghost var job := Job(fs, templatePath, sourcePath, outputFolder, startDate);
      assert r == TemplatesReport(job, templateFiles);
      ReportTemplates(fs, job, templateFiles, outputFolder);
    }
  }
}
