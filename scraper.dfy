/**
 * The browser side of the workflow (src/scraper.py), over an abstract
 * browser: a page is a partial map from locator to the text the element
 * shows, and the driver holds a list of window handles, the window it is
 * switched to and the page shown in each window. What a click on the
 * submit button does is an oracle `respond`: given the text in the USN and
 * captcha boxes, either no new window opens, or one opens showing a page.
 */
module Scraper {
  import opened Wrappers
  import opened Config
  import opened Records

  /** The elements the scraper looks up; SubjectField(d, f) is sub-div f of page div d of the marks table. */
  datatype Locator =
    | UsnInput
    | CaptchaInput
    | SubmitButton
    | StudentUsn
    | StudentName
    | SubjectField(div: int, field: int)

  type Page = map<Locator, string>

  type Handle = nat

  function Find(p: Page, loc: Locator): Option<string> {
    if loc in p then Some(p[loc]) else None
  }

  // ---------------------------------------------------------------- subject slots

  /** Subject slot k lives in page div k + 1. */
  function SlotDiv(k: int): int { k + 1 }

  /** The five sub-divs read for a subject: name, IA, SEE, total and result (sub-div 2 is skipped). */
  predicate IsSlotField(f: int) {
    f == SubjectNameIndex || f == SubjectIaIndex || f == SubjectSeeIndex ||
    f == SubjectTotalIndex || f == SubjectResultIndex
  }

  /** All five sub-divs of slot k exist. */
  predicate SlotComplete(p: Page, k: int) {
    SubjectField(SlotDiv(k), SubjectNameIndex) in p &&
    SubjectField(SlotDiv(k), SubjectIaIndex) in p &&
    SubjectField(SlotDiv(k), SubjectSeeIndex) in p &&
    SubjectField(SlotDiv(k), SubjectTotalIndex) in p &&
    SubjectField(SlotDiv(k), SubjectResultIndex) in p
  }

  function SlotRecord(p: Page, k: int): Subject
    requires SlotComplete(p, k)
  {
    Subject(p[SubjectField(SlotDiv(k), SubjectNameIndex)],
            p[SubjectField(SlotDiv(k), SubjectIaIndex)],
            p[SubjectField(SlotDiv(k), SubjectSeeIndex)],
            p[SubjectField(SlotDiv(k), SubjectTotalIndex)],
            p[SubjectField(SlotDiv(k), SubjectResultIndex)])
  }

  /** The records of slots k, k + 1, ... up to MaxSubjects, stopping before the first incomplete slot. */
  function CompleteSlots(p: Page, k: int): (r: seq<Subject>)
    ensures |r| <= if k <= MaxSubjects then MaxSubjects + 1 - k else 0
    decreases MaxSubjects + 1 - k
  {
    if k > MaxSubjects || !SlotComplete(p, k) then []
    else [SlotRecord(p, k)] + CompleteSlots(p, k + 1)
  }

  /** The student's USN and name as the result page shows them; None if either is missing. */
  function StudentInfo(p: Page): Option<(string, string)> {
    if StudentUsn in p && StudentName in p then Some((p[StudentUsn], p[StudentName])) else None
  }

  lemma {:induction false} CompleteSlotsAt(p: Page, k: int, i: nat)
    requires i < |CompleteSlots(p, k)|
    ensures SlotComplete(p, k + i) && CompleteSlots(p, k)[i] == SlotRecord(p, k + i)
    decreases i
  {
    if i > 0 {
      CompleteSlotsAt(p, k + 1, i - 1);
    }
  }

  lemma {:induction false} CompleteSlotsStop(p: Page, k: int)
    ensures k + |CompleteSlots(p, k)| <= MaxSubjects ==> !SlotComplete(p, k + |CompleteSlots(p, k)|)
    decreases MaxSubjects + 1 - k
  {
    if k <= MaxSubjects && SlotComplete(p, k) {
      CompleteSlotsStop(p, k + 1);
    }
  }

  /**
   * What scrape_subjects returns: at most MaxSubjects records, the i-th
   * being slot i + 1 read field by field, and, unless the cap was reached,
   * the slot after the last record is incomplete.
   */
  lemma CompleteSlotsIsLongestPrefix(p: Page)
    ensures |CompleteSlots(p, 1)| <= MaxSubjects
    ensures forall i :: 0 <= i < |CompleteSlots(p, 1)| ==>
              SlotComplete(p, i + 1) && CompleteSlots(p, 1)[i] == SlotRecord(p, i + 1)
    ensures |CompleteSlots(p, 1)| < MaxSubjects ==> !SlotComplete(p, |CompleteSlots(p, 1)| + 1)
  {
    forall i | 0 <= i < |CompleteSlots(p, 1)|
      ensures SlotComplete(p, i + 1) && CompleteSlots(p, 1)[i] == SlotRecord(p, i + 1)
    {
      CompleteSlotsAt(p, 1, i);
    }
    CompleteSlotsStop(p, 1);
  }

  lemma {:induction false} CompleteSlotsCount(p: Page, k: int, n: nat)
    requires k + n <= MaxSubjects + 1
    requires forall j :: k <= j < k + n ==> SlotComplete(p, j)
    requires k + n <= MaxSubjects ==> !SlotComplete(p, k + n)
    ensures |CompleteSlots(p, k)| == n
    decreases n
  {
    if n > 0 {
      assert SlotComplete(p, k);
      CompleteSlotsCount(p, k + 1, n - 1);
    }
  }

  /**
   * Conversely, a page whose slots 1..n are complete and whose slot n + 1
   * is not (or n is the cap) yields exactly n records.
   */
  lemma ExactlyNSubjects(p: Page, n: nat)
    requires n <= MaxSubjects
    requires forall j :: 1 <= j <= n ==> SlotComplete(p, j)
    requires n < MaxSubjects ==> !SlotComplete(p, n + 1)
    ensures |CompleteSlots(p, 1)| == n
  {
    CompleteSlotsCount(p, 1, n);
  }

  /** Two pages that agree on sub-divs 1, 3, 4, 5, 6 of page divs 2..MaxSubjects + 1. */
  ghost predicate SameSlotFields(p: Page, q: Page) {
    forall d, f :: SlotDiv(1) <= d <= SlotDiv(MaxSubjects) && IsSlotField(f) ==>
      Find(p, SubjectField(d, f)) == Find(q, SubjectField(d, f))
  }

  lemma {:induction false} CompleteSlotsFrom(p: Page, q: Page, k: int)
    requires 1 <= k && SameSlotFields(p, q)
    ensures CompleteSlots(p, k) == CompleteSlots(q, k)
    decreases MaxSubjects + 1 - k
  {
    if k <= MaxSubjects {
      assert Find(p, SubjectField(SlotDiv(k), SubjectNameIndex)) == Find(q, SubjectField(SlotDiv(k), SubjectNameIndex));
      assert Find(p, SubjectField(SlotDiv(k), SubjectIaIndex)) == Find(q, SubjectField(SlotDiv(k), SubjectIaIndex));
      assert Find(p, SubjectField(SlotDiv(k), SubjectSeeIndex)) == Find(q, SubjectField(SlotDiv(k), SubjectSeeIndex));
      assert Find(p, SubjectField(SlotDiv(k), SubjectTotalIndex)) == Find(q, SubjectField(SlotDiv(k), SubjectTotalIndex));
      assert Find(p, SubjectField(SlotDiv(k), SubjectResultIndex)) == Find(q, SubjectField(SlotDiv(k), SubjectResultIndex));
      CompleteSlotsFrom(p, q, k + 1);
    }
  }

  /** The subjects depend only on the five read sub-divs of page divs 2..15. */
  lemma CompleteSlotsReadsOnlySlotFields(p: Page, q: Page)
    requires SameSlotFields(p, q)
    ensures CompleteSlots(p, 1) == CompleteSlots(q, 1)
  {
    CompleteSlotsFrom(p, q, 1);
  }

  /** In particular sub-div 2 of a subject row is never read. */
  lemma SubDivTwoIgnored(p: Page, d: int, text: string)
    ensures CompleteSlots(p[SubjectField(d, 2) := text], 1) == CompleteSlots(p, 1)
    ensures CompleteSlots(p - {SubjectField(d, 2)}, 1) == CompleteSlots(p, 1)
  {
    CompleteSlotsReadsOnlySlotFields(p[SubjectField(d, 2) := text], p);
    CompleteSlotsReadsOnlySlotFields(p - {SubjectField(d, 2)}, p);
  }

  // ---------------------------------------------------------------- windows

  /** The handles of `ws` other than `h`, in order (driver.close() of window h). */
  function RemoveHandle(ws: seq<Handle>, h: Handle): (r: seq<Handle>)
    ensures forall x :: x in r <==> x in ws && x != h
    ensures |r| <= |ws|
  {
    if ws == [] then []
    else if ws[0] == h then RemoveHandle(ws[1..], h)
    else [ws[0]] + RemoveHandle(ws[1..], h)
  }

  class ResultScraper {
    /** A browser session was started and not yet quit. */
    var sessionOpen: bool
    /** driver.window_handles, oldest first. */
    var windows: seq<Handle>
    /** The page each open window shows. */
    var pages: map<Handle, Page>
    /** The window the driver is switched to. */
    var current: Handle
    var mainWindow: Handle
    /** The handle the next window to open receives. */
    var nextHandle: Handle
    /** The three form elements were all found. */
    var located: bool
    /** The text in the USN box and in the captcha box. */
    var usnBox: string
    var captchaBox: string
    /** Result windows opened by a submit, and closed again. */
    ghost var resultsOpened: nat
    ghost var resultsClosed: nat

    constructor ()
      ensures !sessionOpen && !located && windows == [] && pages == map[]
      ensures nextHandle == 0 && resultsOpened == 0 && resultsClosed == 0
    {
      sessionOpen := false;
      windows := [];
      pages := map[];
      current := 0;
      mainWindow := 0;
      nextHandle := 0;
      located := false;
      usnBox := "";
      captchaBox := "";
      resultsOpened := 0;
      resultsClosed := 0;
    }

    /** The page of the window the driver is switched to (nothing if that window is gone). */
    function CurrentPage(): Page
      reads this
    {
      if current in pages then pages[current] else map[]
    }

    /**
     * setup_driver: starting the browser may fail (an exception in the
     * source); otherwise one window shows the portal and is recorded as
     * the main window.
     */
    method SetupDriver(launches: bool, portal: Page) returns (ok: bool)
      modifies this
      ensures ok == launches
      ensures !ok ==> unchanged(this)
      ensures ok ==> sessionOpen && windows == [old(nextHandle)] && pages == map[old(nextHandle) := portal]
      ensures ok ==> current == mainWindow == old(nextHandle) && nextHandle == old(nextHandle) + 1
      ensures ok ==> located == old(located) && usnBox == old(usnBox) && captchaBox == old(captchaBox)
      ensures ok ==> resultsOpened == old(resultsOpened) && resultsClosed == old(resultsClosed)
    {
      if !launches {
        return false;
      }
      var h := nextHandle;
      nextHandle := nextHandle + 1;
      sessionOpen := true;
      windows := [h];
      pages := map[h := portal];
      current := h;
      mainWindow := windows[0];
      return true;
    }

    /**
     * locate_page_elements: the USN box, the captcha box and the submit
     * button are looked up in that order on the current page; the boxes
     * found before a missing element stay recorded.
     */
    method LocatePageElements() returns (found: bool)
      modifies this
      ensures found <==> UsnInput in old(CurrentPage()) && CaptchaInput in old(CurrentPage()) &&
                         SubmitButton in old(CurrentPage())
      ensures found ==> located && usnBox == old(CurrentPage())[UsnInput] &&
                        captchaBox == old(CurrentPage())[CaptchaInput]
      ensures !found ==> located == old(located)
      ensures UsnInput in old(CurrentPage()) ==> usnBox == old(CurrentPage())[UsnInput]
      ensures UsnInput !in old(CurrentPage()) ==> usnBox == old(usnBox)
      ensures UsnInput in old(CurrentPage()) && CaptchaInput in old(CurrentPage()) ==>
                captchaBox == old(CurrentPage())[CaptchaInput]
      ensures !(UsnInput in old(CurrentPage()) && CaptchaInput in old(CurrentPage())) ==>
                captchaBox == old(captchaBox)
      ensures sessionOpen == old(sessionOpen) && windows == old(windows) && pages == old(pages)
      ensures current == old(current) && mainWindow == old(mainWindow) && nextHandle == old(nextHandle)
      ensures resultsOpened == old(resultsOpened) && resultsClosed == old(resultsClosed)
    {
      var page := CurrentPage();
      if UsnInput !in page { return false; }
      usnBox := page[UsnInput];
      if CaptchaInput !in page { return false; }
      captchaBox := page[CaptchaInput];
      if SubmitButton !in page { return false; }
      located := true;
      return true;
    }

    /** enter_usn_and_captcha: send_keys types after whatever each box already holds. */
    method EnterUsnAndCaptcha(usn: string, captcha: string)
      requires located
      modifies this
      ensures usnBox == old(usnBox) + usn && captchaBox == old(captchaBox) + captcha
      ensures sessionOpen == old(sessionOpen) && windows == old(windows) && pages == old(pages)
      ensures current == old(current) && mainWindow == old(mainWindow) && nextHandle == old(nextHandle)
      ensures located && resultsOpened == old(resultsOpened) && resultsClosed == old(resultsClosed)
    {
      usnBox := usnBox + usn;
      captchaBox := captchaBox + captcha;
    }

    /**
     * submit_and_switch_to_result: the click may open a new window. The
     * method succeeds iff more than one window is open, and then switches
     * to the second; otherwise it clears the USN box.
     */
    method SubmitAndSwitchToResult(respond: (string, string) -> Option<Page>) returns (ok: bool)
      requires located
      modifies this
      ensures var resp := respond(old(usnBox), old(captchaBox));
              windows == (if resp.Some? then old(windows) + [old(nextHandle)] else old(windows)) &&
              pages == (if resp.Some? then old(pages)[old(nextHandle) := resp.value] else old(pages)) &&
              nextHandle == (if resp.Some? then old(nextHandle) + 1 else old(nextHandle)) &&
              resultsOpened == (if resp.Some? then old(resultsOpened) + 1 else old(resultsOpened))
      ensures ok <==> |windows| > 1
      ensures ok ==> current == windows[1] && usnBox == old(usnBox)
      ensures !ok ==> current == old(current) && usnBox == ""
      ensures captchaBox == old(captchaBox) && sessionOpen == old(sessionOpen) && mainWindow == old(mainWindow)
      ensures located && resultsClosed == old(resultsClosed)
    {
      var resp := respond(usnBox, captchaBox);
      if resp.Some? {
        windows := windows + [nextHandle];
        pages := pages[nextHandle := resp.value];
        nextHandle := nextHandle + 1;
        resultsOpened := resultsOpened + 1;
      }
      if |windows| > 1 {
        current := windows[1];
        return true;
      } else {
        usnBox := "";
        return false;
      }
    }

    /** scrape_student_info: the USN and the name, or None when either element is missing. */
    method ScrapeStudentInfo() returns (info: Option<(string, string)>)
      ensures info.Some? <==> StudentUsn in CurrentPage() && StudentName in CurrentPage()
      ensures info.Some? ==> info.value == (CurrentPage()[StudentUsn], CurrentPage()[StudentName])
      ensures info == StudentInfo(CurrentPage())
    {
      var page := CurrentPage();
      if StudentUsn !in page { return None; }
      var usn := page[StudentUsn];
      if StudentName !in page { return None; }
      var name := page[StudentName];
      return Some((usn, name));
    }

    /**
     * scrape_subjects: slots 1..MaxSubjects in order, each read field by
     * field; the first missing field ends the scan and the records
     * gathered so far are returned.
     */
    method ScrapeSubjects() returns (subjects: seq<Subject>)
      ensures subjects == CompleteSlots(CurrentPage(), 1)
    {
      var page := CurrentPage();
      subjects := [];
      var k := 1;
      while k <= MaxSubjects
        invariant 1 <= k <= MaxSubjects + 1
        invariant subjects + CompleteSlots(page, k) == CompleteSlots(page, 1)
      {
        var base := SlotDiv(k);
        if SubjectField(base, SubjectNameIndex) !in page { break; }
        var name := page[SubjectField(base, SubjectNameIndex)];
        if SubjectField(base, SubjectIaIndex) !in page { break; }
        var ia := page[SubjectField(base, SubjectIaIndex)];
        if SubjectField(base, SubjectSeeIndex) !in page { break; }
        var see := page[SubjectField(base, SubjectSeeIndex)];
        if SubjectField(base, SubjectTotalIndex) !in page { break; }
        var total := page[SubjectField(base, SubjectTotalIndex)];
        if SubjectField(base, SubjectResultIndex) !in page { break; }
        var res := page[SubjectField(base, SubjectResultIndex)];
        subjects := subjects + [Subject(name, ia, see, total, res)];
        k := k + 1;
      }
    }

    /**
     * close_result_and_return_to_main: the current window is closed, the
     * driver switches back to the main window and the USN box is cleared.
     */
    method CloseResultAndReturnToMain()
      requires current != mainWindow && mainWindow in windows
      modifies this
      ensures windows == RemoveHandle(old(windows), old(current)) && pages == old(pages) - {old(current)}
      ensures current == mainWindow && usnBox == ""
      ensures mainWindow == old(mainWindow) && nextHandle == old(nextHandle) && captchaBox == old(captchaBox)
      ensures sessionOpen == old(sessionOpen) && located == old(located)
      ensures resultsClosed == old(resultsClosed) + 1 && resultsOpened == old(resultsOpened)
    {
      windows := RemoveHandle(windows, current);
      pages := pages - {current};
      current := mainWindow;
      usnBox := "";
      resultsClosed := resultsClosed + 1;
    }

    /** cleanup: quits the browser if one was started. */
    method Cleanup()
      modifies this
      ensures !sessionOpen
      ensures old(sessionOpen) ==> windows == [] && pages == map[]
      ensures !old(sessionOpen) ==> unchanged(this)
      ensures resultsOpened == old(resultsOpened) && resultsClosed == old(resultsClosed)
      ensures mainWindow == old(mainWindow) && current == old(current) && nextHandle == old(nextHandle)
      ensures located == old(located) && usnBox == old(usnBox) && captchaBox == old(captchaBox)
    {
      if sessionOpen {
        sessionOpen := false;
        windows := [];
        pages := map[];
      }
    }
  }

  /**
   * The window cycle of one submitted row: from the main window alone,
   * a submit that opens a result window followed by the close returns to
   * the main window alone with the USN box empty.
   */
  lemma SubmitThenCloseRestoresMain(main: Handle, r: Handle)
    requires r != main
    ensures RemoveHandle([main] + [r], r) == [main]
  {
    assert ([main] + [r])[1..] == [r];
    assert [r][1..] == [];
  }
}
