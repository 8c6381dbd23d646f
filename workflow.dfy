/**
 * process_results (src/main.py): validate the row bounds, load the input
 * column, write the headers, start the browser, find the form, ask for the
 * captcha, then visit the input rows in ascending order, submitting each
 * non-empty USN and copying the result page into the output sheet, and
 * finally save the sheet.
 *
 * Everything outside the program is part of the Environment: whether the
 * input workbook loads, whether the browser starts, the portal page, the
 * captcha the user types (None: the dialog was cancelled), what a submit
 * shows, and whether saving succeeds. The GUI messages are not modelled.
 */
module Workflow {
  import opened Wrappers
  import opened Config
  import opened IntText
  import opened Records
  import opened ExcelIO
  import opened Scraper

  /** The two row bounds as typed into the form. */
  datatype Inputs = Inputs(startRow: string, endRow: string)

  datatype Environment = Environment(
    inputColumn: Option<InputColumn>,
    driverStarts: bool,
    portal: Page,
    captcha: Option<string>,
    respond: (string, string) -> Option<Page>,
    saveSucceeds: bool)

  /** How a run ends: an early return, an uncaught exception, or the saved sheet and the two counters. */
  datatype Outcome =
    | RowsNotNumbers
    | InputNotLoaded
    | DriverSetupFailed
    | LayoutChanged
    | CaptchaCancelled
    | ReadFailed(row: int)
    | SaveFailed
    | Completed(processed: nat, errors: nat, saved: Grid)

  /** The state the row loop carries: the counters, the output sheet and the text in the two form boxes. */
  datatype Tally = Tally(success: nat, errors: nat, sheet: Grid, usnBox: string, captchaBox: string)

  /** `if not usn`: a missing cell and an empty string are both skipped. */
  predicate IsEmptyCell(v: Option<string>) {
    v.None? || v.value == ""
  }

  /** `if not page_usn or not name`: the page must show a non-empty USN and a non-empty name. */
  predicate IdentityShown(page: Page) {
    StudentInfo(page).Some? && StudentInfo(page).value.0 != "" && StudentInfo(page).value.1 != ""
  }

  /**
   * The writes for a result page on data row `row`: None when the USN or
   * the name is missing or empty, otherwise the student cells followed by
   * the subject blocks (incomplete when a mark does not parse).
   */
  function ResultRow(g: Grid, row: int, page: Page): Option<Written> {
    if !IdentityShown(page) then None
    else
      var info := StudentInfo(page).value;
      Some(WriteSubjects(WithStudent(g, row, info.0, info.1), row, CompleteSlots(page, 1), SubjectsStartColumn))
  }

  /**
   * One non-empty input row. The USN and the captcha are typed after what
   * the boxes hold; the captcha box is never cleared, the USN box is
   * cleared on every path. A row counts as a success only when every
   * write finished; otherwise as exactly one error.
   */
  function RowStep(t: Tally, row: int, usn: string, captcha: string,
                   respond: (string, string) -> Option<Page>): Tally
  {
    var captchaText := t.captchaBox + captcha;
    var resp := respond(t.usnBox + usn, captchaText);
    if resp.None? then Tally(t.success, t.errors + 1, t.sheet, "", captchaText)
    else
      var w := ResultRow(t.sheet, row, resp.value);
      if w.Some? && w.value.complete then Tally(t.success + 1, t.errors, w.value.grid, "", captchaText)
      else Tally(t.success, t.errors + 1, if w.Some? then w.value.grid else t.sheet, "", captchaText)
  }

  datatype RowsEnd = Done(tally: Tally) | Crashed(row: int)

  /** The loop over rows lo..hi; a row number below 1 makes read_usn raise, which nothing catches. */
  function RunRows(column: InputColumn, lo: int, hi: int, captcha: string,
                   respond: (string, string) -> Option<Page>, t: Tally): RowsEnd
    decreases hi + 1 - lo
  {
    if lo > hi then Done(t)
    else match ReadUsn(column, lo)
      case Failure(_) => Crashed(lo)
      case Success(v) =>
        if IsEmptyCell(v) then RunRows(column, lo + 1, hi, captcha, respond, t)
        else RunRows(column, lo + 1, hi, captcha, respond, RowStep(t, lo, v.value, captcha, respond))
  }

  predicate FormFound(portal: Page) {
    UsnInput in portal && CaptchaInput in portal && SubmitButton in portal
  }

  /** The whole of process_results as a function of its inputs and its environment. */
  function Run(inputs: Inputs, env: Environment): Outcome {
    var start := ParseInt(inputs.startRow);
    var end := ParseInt(inputs.endRow);
    if start.None? || end.None? then RowsNotNumbers
    else if env.inputColumn.None? then InputNotLoaded
    else if !env.driverStarts then DriverSetupFailed
    else if !FormFound(env.portal) then LayoutChanged
    else if IsEmptyCell(env.captcha) then CaptchaCancelled
    else
      var t0 := Tally(0, 0, WithHeaders(map[]), env.portal[UsnInput], env.portal[CaptchaInput]);
      match RunRows(env.inputColumn.value, start.value, end.value, env.captcha.value, env.respond, t0)
      case Crashed(r) => ReadFailed(r)
      case Done(t) =>
        if env.saveSucceeds then Completed(t.success, t.errors, t.sheet) else SaveFailed
  }

  // ---------------------------------------------------------------- the imperative loop

  /** At the top of each row: the form is located and only the main window is open, and shown. */
  predicate AtMainPage(s: ResultScraper)
    reads s
  {
    s.sessionOpen && s.located && s.windows == [s.mainWindow] && s.current == s.mainWindow &&
    s.mainWindow < s.nextHandle
  }

  /** The body of the row loop for a row whose cell holds `usn` (not empty). */
  method HandleRow(scraper: ResultScraper, sheet: OutputSheet, row: int, usn: string, captcha: string,
                   respond: (string, string) -> Option<Page>, success: nat, errors: nat)
    returns (success': nat, errors': nat)
    requires AtMainPage(scraper)
    modifies scraper, sheet
    ensures Tally(success', errors', sheet.cells, scraper.usnBox, scraper.captchaBox)
         == RowStep(Tally(success, errors, old(sheet.cells), old(scraper.usnBox), old(scraper.captchaBox)),
                    row, usn, captcha, respond)
    ensures AtMainPage(scraper) && scraper.mainWindow == old(scraper.mainWindow)
    ensures scraper.resultsOpened - scraper.resultsClosed == old(scraper.resultsOpened - scraper.resultsClosed)
  {
    scraper.EnterUsnAndCaptcha(usn, captcha);
    var ok := scraper.SubmitAndSwitchToResult(respond);
    if !ok {
      return success, errors + 1;
    }
    var main, result := scraper.mainWindow, scraper.current;
    assert scraper.windows == [main] + [result];
    SubmitThenCloseRestoresMain(main, result);
    var info := scraper.ScrapeStudentInfo();
    if info.None? || info.value.0 == "" || info.value.1 == "" {
      scraper.CloseResultAndReturnToMain();
      return success, errors + 1;
    }
    var subjects := scraper.ScrapeSubjects();
    WriteStudentInfo(sheet, row, info.value.0, info.value.1);
    var complete := WriteSubjectData(sheet, row, subjects);
    if complete {
      success', errors' := success + 1, errors;
    } else {
      success', errors' := success, errors + 1;
    }
    scraper.CloseResultAndReturnToMain();
  }

  /**
   * process_results. `browserOpen` tells whether the browser is left
   * running; the ghost counts are the result windows opened and closed.
   */
  method ProcessResults(inputs: Inputs, env: Environment)
    returns (outcome: Outcome, browserOpen: bool, ghost windowsOpened: nat, ghost windowsClosed: nat)
    ensures outcome == Run(inputs, env)
    ensures browserOpen <==> outcome.LayoutChanged? || outcome.ReadFailed? || outcome.SaveFailed?
    ensures windowsOpened == windowsClosed
  {
    var start := ParseInt(inputs.startRow);
    var end := ParseInt(inputs.endRow);
    if start.None? || end.None? {
      return RowsNotNumbers, false, 0, 0;
    }
    if env.inputColumn.None? {
      return InputNotLoaded, false, 0, 0;
    }
    var column := env.inputColumn.value;
    var sheet := new OutputSheet();
    WriteHeaders(sheet);

    var scraper := new ResultScraper();
    var started := scraper.SetupDriver(env.driverStarts, env.portal);
    if !started {
      return DriverSetupFailed, scraper.sessionOpen, 0, 0;
    }
    var found := scraper.LocatePageElements();
    if !found {
      return LayoutChanged, scraper.sessionOpen, 0, 0;
    }
    if IsEmptyCell(env.captcha) {
      scraper.Cleanup();
      return CaptchaCancelled, scraper.sessionOpen, 0, 0;
    }
    var captcha := env.captcha.value;

    var success, errors := 0, 0;
    var row := start.value;
    ghost var t0 := Tally(0, 0, sheet.cells, scraper.usnBox, scraper.captchaBox);
    assert t0 == Tally(0, 0, WithHeaders(map[]), env.portal[UsnInput], env.portal[CaptchaInput]);
    while row <= end.value
      invariant AtMainPage(scraper) && scraper.resultsOpened == scraper.resultsClosed
      invariant RunRows(column, row, end.value, captcha, env.respond,
                        Tally(success, errors, sheet.cells, scraper.usnBox, scraper.captchaBox))
             == RunRows(column, start.value, end.value, captcha, env.respond, t0)
      decreases end.value - row
    {
      var usn := ReadUsn(column, row);
      if usn.Failure? {
        return ReadFailed(row), scraper.sessionOpen, scraper.resultsOpened, scraper.resultsClosed;
      }
      if !IsEmptyCell(usn.value) {
        success, errors := HandleRow(scraper, sheet, row, usn.value.value, captcha, env.respond, success, errors);
      }
      row := row + 1;
    }

    if !env.saveSucceeds {
      return SaveFailed, scraper.sessionOpen, scraper.resultsOpened, scraper.resultsClosed;
    }
    outcome := Completed(success, errors, sheet.cells);
    scraper.Cleanup();
    return outcome, scraper.sessionOpen, scraper.resultsOpened, scraper.resultsClosed;
  }

  // ---------------------------------------------------------------- properties

  /** Rows in lo..hi whose identifier cell holds a non-empty string. */
  function NonEmptyRows(column: InputColumn, lo: int, hi: int): nat
    decreases hi + 1 - lo
  {
    if lo > hi then 0
    else (if lo in column && column[lo] != "" then 1 else 0) + NonEmptyRows(column, lo + 1, hi)
  }

  /** `s` typed n times. */
  function Repeat(s: string, n: nat): string {
    if n == 0 then "" else s + Repeat(s, n - 1)
  }

  /** The loop raises exactly when it has rows to visit and the first is below 1, and it raises there. */
  lemma {:induction false} RunRowsCrash(column: InputColumn, lo: int, hi: int, captcha: string,
                                        respond: (string, string) -> Option<Page>, t: Tally)
    ensures RunRows(column, lo, hi, captcha, respond, t).Crashed? <==> lo < 1 && lo <= hi
    ensures RunRows(column, lo, hi, captcha, respond, t).Crashed? ==>
              RunRows(column, lo, hi, captcha, respond, t).row == lo
    decreases hi + 1 - lo
  {
    if 1 <= lo <= hi {
      var v := ReadUsn(column, lo).value;
      if IsEmptyCell(v) {
        RunRowsCrash(column, lo + 1, hi, captcha, respond, t);
      } else {
        RunRowsCrash(column, lo + 1, hi, captcha, respond, RowStep(t, lo, v.value, captcha, respond));
      }
    }
  }

  /**
   * Every non-empty row is counted exactly once, as a success or as an
   * error, and the captcha is typed once more into the never-cleared
   * captcha box for each of them.
   */
  lemma {:induction false} RunRowsCounts(column: InputColumn, lo: int, hi: int, captcha: string,
                                         respond: (string, string) -> Option<Page>, t: Tally)
    ensures RunRows(column, lo, hi, captcha, respond, t).Done? ==>
              var t' := RunRows(column, lo, hi, captcha, respond, t).tally;
              t'.success + t'.errors == t.success + t.errors + NonEmptyRows(column, lo, hi) &&
              t'.captchaBox == t.captchaBox + Repeat(captcha, NonEmptyRows(column, lo, hi))
    decreases hi + 1 - lo
  {
    if 1 <= lo <= hi {
      var v := ReadUsn(column, lo).value;
      if IsEmptyCell(v) {
        RunRowsCounts(column, lo + 1, hi, captcha, respond, t);
      } else {
        var t1 := RowStep(t, lo, v.value, captcha, respond);
        RunRowsCounts(column, lo + 1, hi, captcha, respond, t1);
        var n := NonEmptyRows(column, lo + 1, hi);
        assert (t.captchaBox + captcha) + Repeat(captcha, n) == t.captchaBox + Repeat(captcha, n + 1);
      }
    }
  }

  /** Cells a row at source row `row` may write: its data row, and the two header rows from the first subject column on. */
  predicate Touchable(row: int, r: int, c: int) {
    (r == row + 1 && (c == UsnColumn || c == NameColumn || c >= SubjectsStartColumn)) ||
    ((r == HeaderRow || r == SubHeaderRow) && c >= SubjectsStartColumn)
  }

  /** Cells no row in lo..hi may write: the gap columns, the start of the header rows, and rows outside lo + 1..hi + 1. */
  predicate Untouched(lo: int, hi: int, r: int, c: int) {
    c == 1 || c == 3 || c < 0 ||
    ((r == HeaderRow || r == SubHeaderRow) && c < SubjectsStartColumn) ||
    (r != HeaderRow && r != SubHeaderRow && !(lo + 1 <= r <= hi + 1))
  }

  /** A row writes only output row row + 1 and, from column 4 on, the two header rows. */
  lemma RowStepFrame(t: Tally, row: int, usn: string, captcha: string, respond: (string, string) -> Option<Page>)
    ensures forall r, c :: !Touchable(row, r, c) ==>
              Lookup(RowStep(t, row, usn, captcha, respond).sheet, r, c) == Lookup(t.sheet, r, c)
  {
    var resp := respond(t.usnBox + usn, t.captchaBox + captcha);
    if resp.Some? && StudentInfo(resp.value).Some? {
      var info := StudentInfo(resp.value).value;
      if info.0 != "" && info.1 != "" {
        WriteSubjectsFrame(WithStudent(t.sheet, row, info.0, info.1), row, CompleteSlots(resp.value, 1), SubjectsStartColumn);
      }
    }
  }

  /** Source row r writes only output row r + 1 (and subject headers); columns 1 and 3 and the start of the header rows are never written. */
  lemma {:induction false} RunRowsFrame(column: InputColumn, lo: int, hi: int, captcha: string,
                                        respond: (string, string) -> Option<Page>, t: Tally)
    ensures RunRows(column, lo, hi, captcha, respond, t).Done? ==>
              forall r, c :: Untouched(lo, hi, r, c) ==>
                Lookup(RunRows(column, lo, hi, captcha, respond, t).tally.sheet, r, c) == Lookup(t.sheet, r, c)
    decreases hi + 1 - lo
  {
    if 1 <= lo <= hi {
      var v := ReadUsn(column, lo).value;
      var t1 := if IsEmptyCell(v) then t else RowStep(t, lo, v.value, captcha, respond);
      assert RunRows(column, lo, hi, captcha, respond, t) == RunRows(column, lo + 1, hi, captcha, respond, t1);
      if !IsEmptyCell(v) {
        RowStepFrame(t, lo, v.value, captcha, respond);
      }
      RunRowsFrame(column, lo + 1, hi, captcha, respond, t1);
      forall r, c | Untouched(lo, hi, r, c)
        ensures Lookup(t1.sheet, r, c) == Lookup(t.sheet, r, c) && Untouched(lo + 1, hi, r, c)
      {
        assert !Touchable(lo, r, c);
      }
    }
  }

  /** The input cell of row s is missing or empty, so `if not usn` skips it. */
  predicate EmptyRow(column: InputColumn, s: int) {
    s !in column || column[s] == ""
  }

  /** A source row whose input cell is empty leaves its output row, one below, as it was. */
  lemma {:induction false} RunRowsSkipsEmpty(column: InputColumn, lo: int, hi: int, captcha: string,
                                             respond: (string, string) -> Option<Page>, t: Tally)
    ensures RunRows(column, lo, hi, captcha, respond, t).Done? ==>
              forall r, c :: lo + 1 <= r <= hi + 1 && EmptyRow(column, r - 1) ==>
                Lookup(RunRows(column, lo, hi, captcha, respond, t).tally.sheet, r, c) == Lookup(t.sheet, r, c)
    decreases hi + 1 - lo
  {
    if 1 <= lo <= hi {
      var v := ReadUsn(column, lo).value;
      var t1 := if IsEmptyCell(v) then t else RowStep(t, lo, v.value, captcha, respond);
      assert RunRows(column, lo, hi, captcha, respond, t) == RunRows(column, lo + 1, hi, captcha, respond, t1);
      if !IsEmptyCell(v) {
        RowStepFrame(t, lo, v.value, captcha, respond);
      }
      RunRowsSkipsEmpty(column, lo + 1, hi, captcha, respond, t1);
      RunRowsFrame(column, lo + 1, hi, captcha, respond, t1);
      var out := RunRows(column, lo, hi, captcha, respond, t);
      if out.Done? {
        forall r, c | lo + 1 <= r <= hi + 1 && EmptyRow(column, r - 1)
          ensures Lookup(out.tally.sheet, r, c) == Lookup(t.sheet, r, c)
        {
          if r == lo + 1 {
            assert Untouched(lo + 1, hi, r, c);
          } else {
            assert !Touchable(lo, r, c);
          }
        }
      }
    }
  }

  /** The page a submit showed yields a full row: identity present and every mark of every subject parses. */
  predicate RowSucceeds(resp: Option<Page>) {
    resp.Some? && IdentityShown(resp.value) &&
    forall i :: 0 <= i < |CompleteSlots(resp.value, 1)| ==> MarksParse(CompleteSlots(resp.value, 1)[i])
  }

  /**
   * A non-empty row is a success iff the result window opened, the page
   * shows a non-empty USN and name, and every scraped mark parses; it is
   * one error otherwise. A row whose submit opens no window, or whose
   * page lacks the USN or the name, writes nothing to the sheet. Either
   * way the USN box ends empty and the captcha box has the captcha
   * appended.
   */
  lemma RowStepOutcome(t: Tally, row: int, usn: string, captcha: string, respond: (string, string) -> Option<Page>)
    ensures var t' := RowStep(t, row, usn, captcha, respond);
            var resp := respond(t.usnBox + usn, t.captchaBox + captcha);
            (RowSucceeds(resp) ==> t'.success == t.success + 1 && t'.errors == t.errors) &&
            (!RowSucceeds(resp) ==> t'.success == t.success && t'.errors == t.errors + 1) &&
            (!(resp.Some? && IdentityShown(resp.value)) ==> t'.sheet == t.sheet) &&
            t'.usnBox == "" && t'.captchaBox == t.captchaBox + captcha
  {
    var resp := respond(t.usnBox + usn, t.captchaBox + captcha);
    if resp.Some? && StudentInfo(resp.value).Some? {
      var info := StudentInfo(resp.value).value;
      if info.0 != "" && info.1 != "" {
        var subjects := CompleteSlots(resp.value, 1);
        WriteSubjectsFrame(WithStudent(t.sheet, row, info.0, info.1), row, subjects, SubjectsStartColumn);
        ParsedPrefixIsLongest(subjects);
        if RowSucceeds(resp) {
          assert ParsedPrefix(subjects) == |subjects|;
        }
      }
    }
  }

  /**
   * What a row whose page shows a USN and a name leaves in the sheet,
   * success or not: the USN and the name on output row row + 1, the marks
   * of every subject before the first unparsable one, and, below the
   * header rows, the headers of every block touched. Nothing is rolled
   * back when a mark fails to parse.
   */
  lemma RowStepWrites(t: Tally, row: int, usn: string, captcha: string, respond: (string, string) -> Option<Page>)
    requires var resp := respond(t.usnBox + usn, t.captchaBox + captcha);
             resp.Some? && IdentityShown(resp.value)
    ensures var page := respond(t.usnBox + usn, t.captchaBox + captcha).value;
            var info := StudentInfo(page).value;
            var subjects := CompleteSlots(page, 1);
            var g := RowStep(t, row, usn, captcha, respond).sheet;
            Lookup(g, row + 1, UsnColumn) == Some(TextCell(info.0)) &&
            Lookup(g, row + 1, NameColumn) == Some(TextCell(info.1)) &&
            (forall i :: 0 <= i < ParsedPrefix(subjects) ==>
               MarksAt(g, row, SubjectsStartColumn + BlockWidth * i, subjects[i])) &&
            (row >= 1 ==> forall i :: 0 <= i < TouchedBlocks(subjects) ==>
               HeadersAt(g, SubjectsStartColumn + BlockWidth * i, subjects[i]))
  {
    var page := respond(t.usnBox + usn, t.captchaBox + captcha).value;
    var info := StudentInfo(page).value;
    var g1 := WithStudent(t.sheet, row, info.0, info.1);
    var subjects := CompleteSlots(page, 1);
    WriteSubjectsFrame(g1, row, subjects, SubjectsStartColumn);
    WriteSubjectsMarks(g1, row, subjects, SubjectsStartColumn);
    if row >= 1 {
      WriteSubjectsHeaders(g1, row, subjects, SubjectsStartColumn);
    }
  }

  /**
   * A run that reaches the end: each non-empty row of start..end was
   * counted once; the header cells USN and NAME, written once before the
   * loop, are still there; columns 1 and 3 are empty; and below the
   * header rows only output rows start + 1..end + 1 hold anything.
   */
  lemma CompletedRun(inputs: Inputs, env: Environment)
    requires Run(inputs, env).Completed?
    ensures var start := ParseInt(inputs.startRow).value;
            var end := ParseInt(inputs.endRow).value;
            var out := Run(inputs, env);
            out.processed + out.errors == NonEmptyRows(env.inputColumn.value, start, end) &&
            Lookup(out.saved, HeaderRow, UsnColumn) == Some(TextCell("USN")) &&
            Lookup(out.saved, HeaderRow, NameColumn) == Some(TextCell("NAME")) &&
            (forall r :: Lookup(out.saved, r, 1) == None && Lookup(out.saved, r, 3) == None) &&
            (forall c :: 0 <= c < SubjectsStartColumn ==> Lookup(out.saved, SubHeaderRow, c) == None) &&
            (forall r, c :: r > SubHeaderRow && !(start + 1 <= r <= end + 1) ==> Lookup(out.saved, r, c) == None) &&
            (forall r, c :: start + 1 <= r <= end + 1 && EmptyRow(env.inputColumn.value, r - 1) ==> Lookup(out.saved, r, c) == None)
  {
    var start := ParseInt(inputs.startRow).value;
    var end := ParseInt(inputs.endRow).value;
    var t0 := Tally(0, 0, WithHeaders(map[]), env.portal[UsnInput], env.portal[CaptchaInput]);
    var column := env.inputColumn.value;
    var captcha := env.captcha.value;
    RunRowsCounts(column, start, end, captcha, env.respond, t0);
    RunRowsFrame(column, start, end, captcha, env.respond, t0);
    RunRowsSkipsEmpty(column, start, end, captcha, env.respond, t0);
    forall r, c | Untouched(start, end, r, c)
      ensures Lookup(Run(inputs, env).saved, r, c) == Lookup(WithHeaders(map[]), r, c)
    {
    }
  }

  /** With the first row below 1, the run stops with read_usn's exception on that row, before anything is saved. */
  lemma ReadFailedAtStart(inputs: Inputs, env: Environment)
    requires Run(inputs, env) !in {RowsNotNumbers, InputNotLoaded, DriverSetupFailed, LayoutChanged, CaptchaCancelled}
    ensures Run(inputs, env).ReadFailed? <==>
              ParseInt(inputs.startRow).value < 1 && ParseInt(inputs.startRow).value <= ParseInt(inputs.endRow).value
    ensures Run(inputs, env).ReadFailed? ==> Run(inputs, env).row == ParseInt(inputs.startRow).value
  {
    var t0 := Tally(0, 0, WithHeaders(map[]), env.portal[UsnInput], env.portal[CaptchaInput]);
    RunRowsCrash(env.inputColumn.value, ParseInt(inputs.startRow).value, ParseInt(inputs.endRow).value,
                 env.captcha.value, env.respond, t0);
  }

  /** With no rows to visit the saved sheet holds just the two headers. */
  lemma NoRowsOnlyHeaders(inputs: Inputs, env: Environment)
    requires Run(inputs, env).Completed?
    requires ParseInt(inputs.startRow).value > ParseInt(inputs.endRow).value
    ensures Run(inputs, env) == Completed(0, 0, WithHeaders(map[]))
  {
  }
}
