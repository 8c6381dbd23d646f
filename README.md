# VTU result automation: a Dafny model of the row loop, the scraper and the sheet writer

The system types student USNs and a captcha into a university result portal. It opens each result
in a second browser window, scrapes the subject marks from that window, and copies them into an
output spreadsheet. This project models three parts of it and proves properties about them.

- **The output-sheet writers** (`src/excel_io.py`), in `excel_io.dfy`.
  - The sheet is a map from (row, column) to a cell, and a write replaces the cell.
  - Headers go in row 0: USN in column 0 and NAME in column 2.
  - A student goes on output row `row + 1`.
  - Each subject takes a four-column block from column 4. Its name is on row 0, and IA, SEE,
    TOTAL and RES are on row 1.
  - The data cells hold the three marks as integers, followed by the result text in an orange cell.
  - A mark that is not an integer stops the writer part-way, and nothing is rolled back.
  - `int()` on page text is modelled in `int_text.dfy`.
- **The scraper** (`src/scraper.py`), in `scraper.dfy`.
  - A page is a partial map from locator to text.
  - The `ResultScraper` class holds the window list, the current window, the main window and the
    text in the USN and captcha boxes.
  - Subject slots 1..14 are read from page divs 2..15, taking sub-divs 1, 3, 4, 5 and 6 of each.
    Reading stops at the first slot with a missing field.
  - Submitting may open a second window. Closing it returns to the main window and clears the USN
    box.
- **`process_results`** (`src/main.py`), in `workflow.dfy`.
  - The method `ProcessResults` runs the early checks and the row loop on an `OutputSheet` and a
    `ResultScraper`.
  - It is proved equal to the function `Run`. `Run` is defined through `RunRows` and `RowStep`,
    and the lemmas are stated about those functions.
  - Everything outside the program is a parameter of the `Environment`:
    - the input column;
    - whether the browser starts;
    - the portal page;
    - the captcha the user types;
    - what a submit opens (`respond`);
    - whether saving succeeds.

Two behaviours of the code are kept as written:

- `send_keys` types after whatever an input box already holds, and the captcha box is never
  cleared. So the captcha box holds the captcha once more for every non-empty row (`RunRowsCounts`).
- A row whose marks do not parse keeps the cells already written: its USN and name, the earlier
  subjects, and the header cells of the failing subject (`RowStepWrites`). One might expect a row to be
  written in full or not at all; the code does not do that, and the model follows the code.

## Model

| member | source | states |
|---|---|---|
| IntText.ParseShowRoundTrip | src/excel_io.py:114-116 | an integer rendered in decimal text is read back by `int()` as the same integer |
| IntText.ParseIntRejects | src/main.py:33-38 | text with a character that is neither a digit nor a leading sign is refused (ValueError) |
| IntText.ParseIntRejectsEmpty | src/main.py:33-38 | the empty text, and a sign with no digits, are refused |
| ExcelIO.ReadUsn | src/excel_io.py:47-48 | a row below 1 raises; otherwise the identifier cell's text, or None when the cell is empty |
| ExcelIO.OutputSheet.constructor | src/excel_io.py:58-59 | a new output sheet has no cells |
| ExcelIO.OutputSheet.Write | src/excel_io.py:59 | a write replaces the one cell (overwriting is allowed) and leaves every other cell as it was |
| ExcelIO.WithHeaders | src/excel_io.py:75-76 | "USN" is at (0,0) and "NAME" at (0,2), and no other cell changes |
| ExcelIO.WithStudent | src/excel_io.py:89-90 | the USN is at (row+1, 0) and the name at (row+1, 2), and no other cell changes |
| ExcelIO.WriteHeaders | src/excel_io.py:68-76 | the sheet afterwards is the old sheet with the two header cells |
| ExcelIO.WriteStudentInfo | src/excel_io.py:79-90 | the sheet afterwards is the old sheet with the two student cells |
| ExcelIO.WriteSubjectData | src/excel_io.py:93-119 | the loop's final sheet and completion flag are those of the block-by-block writes; it stops at the first mark that does not parse |
| ExcelIO.ParsedPrefixIsLongest | src/excel_io.py:105-116 | the subjects written in full are exactly the longest prefix whose three marks all parse |
| ExcelIO.WriteBlockLayout | src/excel_io.py:106-117 | one block completes iff its marks parse; then its data cells hold the marks and the orange result; below row 1 its headers are written; it touches only its own four columns on rows 0, 1 and row+1 |
| ExcelIO.WriteSubjectsFrame | src/excel_io.py:103-119 | the writer completes iff every subject's marks parse, and changes nothing outside the blocks it touched (columns 4+4i..4+4i+3 on rows 0, 1 and row+1) |
| ExcelIO.WriteSubjectsMarks | src/excel_io.py:114-117 | subject i of the parsed prefix has int(ia), int(see), int(total) and the orange result at columns 4+4i..4+4i+3 of the data row |
| ExcelIO.WriteSubjectsHeaders | src/excel_io.py:107-111 | for a data row below row 1, every touched block, including a failing one, keeps its name on row 0 and IA/SEE/TOTAL/RES on row 1: nothing is rolled back |
| ExcelIO.SubjectDataOnRowZeroHidesSubHeaders | src/excel_io.py:114 | with row index 0 the data row is output row 1, so each block's IA sub-header is overwritten by the mark |
| Scraper.CompleteSlots | src/scraper.py:144 | at most 14 slots are probed, so there are at most 14 records |
| Scraper.CompleteSlotsIsLongestPrefix | src/scraper.py:144-177 | at most MAX_SUBJECTS records; record i is slot i+1 read field by field; below the cap, the slot after the last record is incomplete |
| Scraper.ExactlyNSubjects | src/scraper.py:144-175 | if slots 1..n are complete and slot n+1 is not (or n is the cap), exactly n records are returned |
| Scraper.CompleteSlotsReadsOnlySlotFields | src/scraper.py:147-164 | the records depend only on sub-divs 1, 3, 4, 5 and 6 of page divs 2..15 |
| Scraper.SubDivTwoIgnored | src/scraper.py:150-164 | changing or removing sub-div 2 of any row changes no record |
| Scraper.RemoveHandle | src/scraper.py:181 | closing a window removes exactly that handle from the window list |
| Scraper.ResultScraper.constructor | src/scraper.py:36-53 | no browser, no windows and no located elements |
| Scraper.ResultScraper.SetupDriver | src/scraper.py:55-67 | on success one window shows the portal and becomes the main and current window; a failed start changes nothing |
| Scraper.ResultScraper.LocatePageElements | src/scraper.py:69-83 | true iff the USN box, the captcha box and the submit button are all on the page; the boxes found before a missing element stay recorded, and a box not reached keeps its text |
| Scraper.ResultScraper.EnterUsnAndCaptcha | src/scraper.py:85-96 | the USN and the captcha are appended to what each box holds, and nothing else changes |
| Scraper.ResultScraper.SubmitAndSwitchToResult | src/scraper.py:98-118 | true iff more than one window is open after the click, and then it switches to window [1]; otherwise the USN box is cleared |
| Scraper.ResultScraper.ScrapeStudentInfo | src/scraper.py:120-133 | (usn, name) iff both elements exist, otherwise None |
| Scraper.ResultScraper.ScrapeSubjects | src/scraper.py:135-177 | the loop with break returns exactly the complete-slot prefix of the current page |
| Scraper.ResultScraper.CloseResultAndReturnToMain | src/scraper.py:179-184 | the current window is closed, the main window becomes current and the USN box is empty |
| Scraper.ResultScraper.Cleanup | src/scraper.py:186-189 | the browser session is closed if one was open, and the window list emptied; the main window, current window and the box texts keep their values |
| Scraper.SubmitThenCloseRestoresMain | src/scraper.py:181-182 | from the main window alone, opening a result window and closing it leaves the main window alone |
| Workflow.HandleRow | src/main.py:86-117 | one non-empty row's submit, scrape, write and close produces the RowStep state; the browser is back on the main window, and every opened result window was closed |
| Workflow.ProcessResults | src/main.py:19-123 | the outcome is Run's; the browser is left running only after a layout failure, a read failure or a save failure; as many result windows were closed as were opened |
| Workflow.RunRowsCrash | src/main.py:80-81 | the loop raises iff it has rows to visit and the first is below 1, and then it raises on that row |
| Workflow.RunRowsCounts | src/main.py:80-114 | every non-empty row is counted exactly once as a success or an error; the captcha box holds the captcha once more per non-empty row |
| Workflow.RunRowsSkipsEmpty | src/main.py:81-84 | a source row whose input cell is missing or empty leaves its output row r+1 unchanged |
| Workflow.RowStepFrame | src/main.py:106-109 | source row r writes only output row r+1 and, from column 4 on, the two header rows |
| Workflow.RunRowsFrame | src/main.py:80-117 | after the loop, no cell in columns 1 or 3, in columns 0-3 of the header rows, or on a row outside start+1..end+1 has changed |
| Workflow.RowStepOutcome | src/main.py:86-114 | a row is a success iff the window opened, the USN and name are non-empty and every mark parses; otherwise it is one error; a row whose submit opens no window, or whose page lacks the USN or the name, leaves the sheet unchanged; the USN box ends empty |
| Workflow.RowStepWrites | src/main.py:106-114 | a row whose page shows a USN and a name leaves them on row r+1, with the marks of every parsed subject and the headers of every touched block, even when the row counts as an error |
| Workflow.CompletedRun | src/main.py:47-120 | the saved sheet has processed + errors = number of non-empty rows, USN and NAME headers, empty columns 1 and 3, nothing below row 1 outside rows start+1..end+1, and nothing on the output row of a source row whose cell is empty |
| Workflow.ReadFailedAtStart | src/main.py:80-81 | once past the early checks, the run ends with read_usn's exception iff start < 1 and start <= end, and then it ends on the start row |
| Workflow.NoRowsOnlyHeaders | src/main.py:50 | with start > end, the saved sheet holds only the two headers, and both counters are 0 |

## Left out

- The Tkinter GUI (`src/gui.py`) and every message shown to the user. The captcha dialog is the
  `captcha` field of the environment.
- Selenium itself: XPath strings, ActionChains Ctrl-click, `maximize_window`, and the browser's own
  window ordering. A page is an abstract locator map. What a click opens is the `respond` oracle,
  and a new window is appended to the window list.
- All `time.sleep` pacing.
- Workbook file I/O (`load_input_workbook`, `create_output_workbook`'s second sheet, `save_workbook`).
  Loading and saving are booleans of the environment. The driver path, the portal URL and the save
  path do not appear.
- The xlwt limits on rows, columns and cell text length.
- Input cells that are not strings (numbers, dates). The input column maps rows to text.
- Selenium exceptions other than a missing element (stale elements, a closed browser, time-outs),
  and exceptions thrown by `close_result_and_return_to_main`.
- IntText.ParseInt: accepts only an optional sign followed by ASCII digits. Python's `int()` also
  accepts surrounding whitespace, underscores between digits and non-ASCII digits; those texts
  are refused here.
- Scraper.ResultScraper.SetupDriver: an exception thrown after the browser has launched (for
  example by `driver.get`) is treated like a failed launch, so no browser is left open on that path.
