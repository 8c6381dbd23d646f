/** The record passed from the scraper to the spreadsheet writer. */
module Records {
  import opened Wrappers
  import opened IntText

  /**
   * One subject as read from a result page: every field is raw page text;
   * the three marks become integers only when they are written out.
   */
  datatype Subject = Subject(name: string, ia: string, see: string, total: string, res: string)

  /** The three marks of a subject all parse as integers, so writing it raises nothing. */
  predicate MarksParse(s: Subject) {
    ParseInt(s.ia).Some? && ParseInt(s.see).Some? && ParseInt(s.total).Some?
  }
}
