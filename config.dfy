/**
 * The constants of src/config.py that the modelled logic depends on.
 * The XPath strings themselves are not kept: a locator is a value of
 * Scraper.Locator, and only the positions inside the repeating
 * subject pattern matter to the logic.
 */
module Config {

  /** Output sheet layout. */
  const HeaderRow: int := 0
  const SubHeaderRow: int := 1
  const UsnColumn: int := 0
  const NameColumn: int := 2
  const SubjectsStartColumn: int := 4

  /** Sub-div positions of one subject row on the result page (sub-div 2 is not read). */
  const SubjectNameIndex: int := 1
  const SubjectIaIndex: int := 3
  const SubjectSeeIndex: int := 4
  const SubjectTotalIndex: int := 5
  const SubjectResultIndex: int := 6

  /** Upper bound on the number of subject slots probed on one result page. */
  const MaxSubjects: int := 14
}
