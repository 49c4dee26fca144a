# Weekly report generation — a verified model

This project models the report-generation core of the weekly solar report tool
(`WeeklyReportApp.py`). The user picks a week start date and three
directories. The tool then builds one weekly workbook per template:

- It computes the seven-day window start .. start + 6. It creates the folder
  `Тижневий звіт dd.mm.yyyy-dd.mm.yyyy` under the output directory.
- It lists the `.xlsx` templates of the template directory.
- For each template and each day of the window, it walks the source tree. It
  takes the first directory whose path contains the day's `dd.mm.yyyy` and
  that holds a file named like the template. It copies rows 3..27 of column 3
  of that file into rows 5..29 of the day's column (3 + day index) of the
  template.
- A day without a source is appended, formatted, to a list of missing dates
  shared by all tasks.
- It saves the filled template under the same name in the new folder.
- It emits a progress value after each template. It finishes with a success
  message, or with one that names each missing date once, in sorted order.
- An error in the date arithmetic, the folder creation or the listing ends the
  run with `Помилка: <error>`. An error inside one template's task is logged
  and skipped.

The modules follow the program's structure:

- `Dates` covers `datetime.date`: validity, `+ timedelta(days=n)` with the
  year-9999 overflow, the ordinal, and `strftime('%d.%m.%Y')` with its
  inverse parser.
- `Text` covers `endswith`, substring `in`, POSIX `os.path.join`, and
  `', '.join`.
- `Ordering` covers Python's code-point string order and `sorted(set(...))`.
- `Templates` is the `.xlsx` filter.
- `Sources` is `find_source_file` over an `os.walk` sequence.
- `Sheets` is a `Worksheet` class whose `CopyData` method is the `copy_data`
  loop, proved against the functional `CopyBlock`.
- `Report` holds the `ReportGenerationThread` class. Its `Run`,
  `ProcessTemplate` and the loops inside them are imperative methods. Each is
  proved against a specification function: `RunSpec`, `RunTemplate`,
  `FillDays`, `MissingDays`, `MissingOf`, `SavedOf`, `StatusesOf` and
  `ProgressOf`.
- `Report` also holds the `generate_report` guard.
- `ReportFacts` states what a run promises in terms of those specification
  functions.

The file system is a value (`Report.FileSystem`) with the following parts:

- the `makedirs` errors;
- the directory listings;
- the `os.walk` sequences;
- the workbooks that open;
- the paths where saving fails.

The Qt signals `progress`, `status` and `finished` are sequences of emitted
values, kept in the thread object's fields. The files written are a map from
path to sheet.

## Model

| member | source | states |
|---|---|---|
| Report.ReportGenerationThread.Run | WeeklyReportApp.py:28-65 | The emitted progress, statuses, finished message and written files are exactly `RunSpec`'s. A date past 9999-12-31, a `makedirs` error or a `listdir` error emits only `Помилка: <error>`. Otherwise the run emits progress 0 plus one value per template, one status per template and the saved sheets, then the completion message. |
| Report.ReportGenerationThread.ReportTemplates | WeeklyReportApp.py:39-62 | After the templates are listed, the method emits progress 0 first, then processes every template. It ends with the completion message built from the collected missing list. Everything is appended after what was emitted before. |
| Report.ReportGenerationThread.ProcessAll | WeeklyReportApp.py:44-55 | After the executor block, the shared missing list is each task's recorded dates concatenated in listing order. The written files are those of the tasks that reached a successful save. There is one status per task. There is one progress value `(i+1)*100/n` per task, whether or not the task raised. |
| Report.ReportGenerationThread.ProcessTemplate | WeeklyReportApp.py:67-88 | The status is emitted first. A template that does not open raises with no date recorded and no file written. Otherwise the seven days' missing dates are appended before the save. The filled sheet is written to `output_folder/template_file` only when the save succeeds; a failed save raises. |
| Report.ReportGenerationThread.FillWeek | WeeklyReportApp.py:77-84 | The day loop leaves the sheet equal to `FillDays`, each found source copied into its day column. It records exactly `MissingDays`, the formatted dates of the days without a source, in day order. |
| Report.GenerateReport | WeeklyReportApp.py:228-230 | The run is refused with the "please give all paths" message exactly when one of the three paths is empty. Otherwise the run is `RunSpec`. |
| Report.FolderNameEncodesWindow | WeeklyReportApp.py:32-34 | The window's end date is valid. The folder name is the label, the start date, a dash and the end date, and both dates parse back from their places. It contains both formatted dates and has a fixed length. |
| Report.FolderName | WeeklyReportApp.py:34 | The f-string of the report folder's name. What it promises is `FolderNameEncodesWindow`. |
| Report.RunSpec | WeeklyReportApp.py:28-65 | `run()` as a value: what it emits and writes. What it promises is `RunSpecFatal`, `RunSpecOk`, `RunSucceedsIffNothingMissing` and `Run`'s contract. |
| ReportFacts.RunSpecFatal | WeeklyReportApp.py:28-65 | A run's message is `Помилка: <error>` if and only if it emitted no progress. Such a run also emitted no status and wrote no file. A date past 9999-12-31 gives the overflow's text. A template directory that cannot be listed always ends the run this way. |
| ReportFacts.RunSpecOk | WeeklyReportApp.py:39-55 | A run that emitted progress listed its template directory. It emitted one status per `.xlsx` name, in listing order. Its progress has one value more than there are templates, starts at 0, never decreases, stays within 0..100, and ends at 100 when there was a template. |
| Report.RunTemplate | WeeklyReportApp.py:67-88 | One `process_template` task as a value. What it promises is `ProcessTemplate`'s contract, `MissingDaysExact`, `FillDaysAt` and `SavedOfFiles`. |
| Report.Percent | WeeklyReportApp.py:55 | The progress value after k of n templates. What it promises is `PercentRange` and `PercentMonotone`. |
| Report.FinalMessage | WeeklyReportApp.py:58-62 | The completion message. What it promises is `FinalMessageSuccess`, `FinalMessageNamesMissing`, `FinalMessageOrderFree` and `FinalMessageNotError`. |
| ReportFacts.FinalMessageNotError | WeeklyReportApp.py:58-65 | The completion message never starts with `Помилка: `, so a finished run is never reported as an error. |
| Report.DayDate | WeeklyReportApp.py:77 | Day j of a window whose last day exists is a valid date. |
| ReportFacts.ProgressShape | WeeklyReportApp.py:41-55 | Over n templates, the progress signal has n + 1 values. It starts at 0, never decreases, stays within 0..100, and ends at 100 when n > 0. |
| ReportFacts.ProgressOfAt | WeeklyReportApp.py:55 | The k-th progress value is `k*100/n`. |
| ReportFacts.PercentRange | WeeklyReportApp.py:55 | A progress value lies in 0..100 and is 100 after the last template. |
| ReportFacts.PercentMonotone | WeeklyReportApp.py:55 | Progress values do not decrease as more templates finish. |
| ReportFacts.FinalMessageSuccess | WeeklyReportApp.py:58-62 | The plain success message is emitted if and only if the missing list is empty. |
| ReportFacts.FinalMessageNamesMissing | WeeklyReportApp.py:58-60 | Every missing date occurs in the completion message. |
| ReportFacts.FinalMessageOrderFree | WeeklyReportApp.py:59 | The completion message depends only on the set of missing dates. It does not depend on the order in which concurrent tasks appended them, or on repeats. |
| ReportFacts.MissingOfElements | WeeklyReportApp.py:44-55 | The shared list holds exactly the dates some task recorded. It is empty if and only if no task recorded one. |
| ReportFacts.RunSucceedsIffNothingMissing | WeeklyReportApp.py:58-62 | A run over the listed templates ends with the plain success message if and only if every task recorded no missing date. |
| ReportFacts.MissingDaysExact | WeeklyReportApp.py:77-84 | A template records at most seven dates, each at most once. A date is recorded if and only if it is the formatted date of a window day with no source. |
| ReportFacts.FillDaysAt | WeeklyReportApp.py:77-84 | In the filled template, rows 5..29 of column 3 + d hold rows 3..27 of column 3 of day d's source sheet, when that day's source was found and opens. Every other cell keeps the template's value. |
| ReportFacts.StatusesOfAll | WeeklyReportApp.py:69 | The k-th status is `Обробка <k-th template>`, one per template, in listing order. |
| ReportFacts.SavedOfFiles | WeeklyReportApp.py:72-86 | Every written file is `output_folder/<template>` for a template whose task saved, and it holds that task's filled sheet. Every task that saved has its file. |
| Sheets.Worksheet.CopyData | WeeklyReportApp.py:101-117 | A source that opens has its block copied into the day column (`CopyBlock`). A source that does not open leaves the sheet unchanged and raises nothing. |
| Sheets.CopyBlock | WeeklyReportApp.py:109-112 | The `copy_data` loop as a value. What it promises is `CopyBlockAt` and `FootprintShape`. |
| Sheets.CopyBlockAt | WeeklyReportApp.py:109-112 | Cell by cell, the copy puts source (row, 3) into destination (row + 2, day + 3) for rows 3..27. It leaves every other cell unchanged and adds only those 25 keys. |
| Sheets.FootprintShape | WeeklyReportApp.py:109-110 | The copy writes exactly 25 cells, all in rows 5..29 of column day + 3. |
| Sheets.CopyBlocksCommute | WeeklyReportApp.py:77-81 | Copies for different days touch disjoint cells and can be done in either order. |
| Sources.FirstMatch | WeeklyReportApp.py:93-96 | The result is the first walk entry, in walk order, whose path contains the date and whose files include the name. The result is None if and only if no entry matches. |
| Sources.FindSource | WeeklyReportApp.py:90-99 | A found path ends with the template name. Which path is found, and when none is, is `FindSourceSpec`. |
| Sources.FindSourceSpec | WeeklyReportApp.py:90-99 | The search returns `join(root, name)` for the first matching directory. It returns None if and only if no directory's path contains the date while holding the name. |
| Sources.DateAbsentNoMatch | WeeklyReportApp.py:94 | A date that occurs in no directory path finds nothing. |
| Sources.NameAbsentNoMatch | WeeklyReportApp.py:94 | A name that no directory holds finds nothing. |
| Sources.FindSourceAppend | WeeklyReportApp.py:93-96 | The walk is searched in order: the earlier part wins whenever it has a match. |
| Templates.TemplateFiles | WeeklyReportApp.py:39 | The result keeps exactly the listed names that end in `.xlsx` and is no longer than the listing. |
| Templates.TemplateFilesAppend | WeeklyReportApp.py:39 | The filter keeps listing order: filtering a concatenation concatenates the filtered parts. |
| Templates.TemplateFilesSnoc | WeeklyReportApp.py:39 | One more listed name is appended to the templates exactly when it ends in `.xlsx`, after all earlier ones. |
| Templates.TemplateFilesKeepsAll | WeeklyReportApp.py:39 | A listing of `.xlsx` names only is kept unchanged. |
| Dates.NextDay | WeeklyReportApp.py:32 | The next day exists unless the date is 9999-12-31, and it is valid. |
| Dates.NextDayOrdinal | WeeklyReportApp.py:32 | The next day's ordinal is one more. |
| Dates.OrdinalRange | WeeklyReportApp.py:32 | Ordinals of valid dates lie in 1..3652059, the top one being 9999-12-31's. |
| Dates.AddDays | WeeklyReportApp.py:32 | `date + timedelta(days=n)` as n single-day steps, None past 9999-12-31. What it promises is `AddDaysOrdinal` and `AddDaysValid`. |
| Dates.AddDaysOrdinal | WeeklyReportApp.py:32 | `date + n days` exists if and only if the ordinal plus n does not pass 9999-12-31. The result is then valid and has ordinal plus n. |
| Dates.AddDaysValid | WeeklyReportApp.py:32 | Adding days to a valid date gives a valid date when it exists. |
| Dates.WeekDates | WeeklyReportApp.py:77 | The seven window dates are start + k days, each valid. |
| Dates.WeekOrdinals | WeeklyReportApp.py:77 | The k-th window date has ordinal start + k. The first is the start and the last is the end date. |
| Dates.WeekDistinct | WeeklyReportApp.py:77 | The seven window dates are distinct, and so are their formatted forms. |
| Dates.DaysInMonth | WeeklyReportApp.py:32 | A month has 28..31 days, with 29 exactly in February of a Gregorian leap year. |
| Dates.Format | WeeklyReportApp.py:84 | `%d.%m.%Y` is ten characters: digits with dots at positions 2 and 5. |
| Dates.ParseFormat | WeeklyReportApp.py:84 | Parsing the `%d.%m.%Y` form gives back the date. |
| Dates.FormatInjective | WeeklyReportApp.py:84 | Different dates have different formatted forms. |
| ReportFacts.FormatOrderIsNotChronological | WeeklyReportApp.py:59 | The completion message's `sorted` order on `dd.mm.yyyy` strings is not date order: 02.01.2024 is the earlier day (smaller ordinal) yet its string sorts after that of 01.02.2024. |
| Text.Contains | WeeklyReportApp.py:94 | The substring test `stamp in root`. What it promises is `ContainsIff`. |
| Text.ContainsIff | WeeklyReportApp.py:94 | The substring test `stamp in root` holds if and only if the stamp occurs at some position of the path. |
| Text.JoinPath | WeeklyReportApp.py:34 | POSIX `os.path.join`. What it promises is `JoinPathShape`. |
| Text.JoinPathShape | WeeklyReportApp.py:34 | POSIX `os.path.join`: the result always ends with the second part. For a relative second part it starts with the first part and is at most one character (the separator) longer than the two together. An absolute second part replaces the first. |
| Text.JoinPathInjective | WeeklyReportApp.py:72 | Distinct relative template names give distinct output files in the same folder. |
| Text.JoinWith | WeeklyReportApp.py:59 | `', '.join(items)`. What it promises is `JoinWithContains`. |
| Text.JoinWithContains | WeeklyReportApp.py:59 | Every joined item occurs in `', '.join(items)`. |
| Ordering.SortedSet | WeeklyReportApp.py:59 | `sorted(set(xs))` is strictly increasing and has exactly the elements of xs. |
| Ordering.SortedUnique | WeeklyReportApp.py:59 | Two strictly sorted sequences with the same elements are equal. |
| Ordering.SortedSetDependsOnlyOnElements | WeeklyReportApp.py:59 | `sorted(set(xs))` depends only on which elements xs holds. |
| Ordering.Below | WeeklyReportApp.py:59 | Python's `<` on strings. What it promises is `BelowIrreflexive`, `BelowTransitive` and `BelowTotal`: a strict total order. |
| Ordering.BelowIrreflexive | WeeklyReportApp.py:59 | No string is below itself. |
| Ordering.BelowTotal | WeeklyReportApp.py:59 | Python's string order is total and asymmetric. |
| Ordering.BelowTransitive | WeeklyReportApp.py:59 | Python's string order is transitive. |

## Left out

- The Qt window, dialogs, timer, settings and the time estimate are not modelled. The signals are modelled as sequences of emitted values.
- Logging is not modelled, because it has no effect on the report.
- Concurrency: the tasks run one after another in listing order. `FinalMessageOrderFree` shows that the completion message does not depend on the order in which tasks append dates. The interleaving of the status signals and of the appends themselves is not modelled.
- The file system is a value fixed for the whole run. A file written during the run is not seen by later walks or loads. Each walk is given as the sequence `os.walk` yields. `os.walk` ignores a directory it cannot read, so the sequence may be a pruned tree, and a top directory it cannot read gives an empty walk. The `except` in `find_source_file` is not modelled, because nothing in the modelled search raises.
- The error text of `os.listdir` on a missing path is modelled as the POSIX `FileNotFoundError` text. Other `listdir` and `makedirs` error texts come from the file-system value.
- An exception raised by openpyxl while copying a source, after the source has opened, is not modelled. In that case the source applies a partial copy. The model copies the whole block or nothing.
- `wb.close()` and the release of resources are not modelled.
- Report.Percent: the source computes `int((i + 1) / total_files * 100)` in floating point. The model uses the exact integer `(i + 1) * 100 / n`. The float value can be one lower, e.g. 28 instead of 29 for 29 of 100 templates.
- Dates.Format: always zero-pads the year to four digits. What the source's `%Y` gives for years below 1000 depends on the platform and the Python version: glibc gives the year unpadded, while macOS and newer Python versions pad it.
- Text.JoinPath: models POSIX `os.path.join` only, not the Windows rules for drive letters and backslashes.
- Sources.FindSource: the source tests the truthiness of the path it finds. A found path is never empty, because it ends with the template name, so the model tests for a found path instead.
- Cell values are opaque: no formulas, types or styles. `data_only=True` reading is taken as given.
