/** The CSV export of the pgvector service: a header line and one line per
    listing, joined by line feeds, followed by a `job.export` event. */
module VectorExport {
  import opened Wrappers
  import opened Text
  import opened Types
  import opened Csv
  import opened Events

  /** The values of a listing's record, in column order: id, title,
      company, location, the skills joined by ", ", the two salaries and
      the creation time as `iso` writes it. */
  function Values(job: JobListing, iso: int -> string): seq<string> {
    [job.id, job.title, job.company, job.location, Join(job.skills, ", "),
     SalaryText(job.salaryMin), SalaryText(job.salaryMax), iso(job.createdAt)]
  }

  /** The line of one listing: title, company, location and skills are
      escaped; the id, the salaries and the creation time are written as
      they are. */
  function Line(job: JobListing, iso: int -> string): string {
    Join([job.id, EscapeCsv(job.title), EscapeCsv(job.company), EscapeCsv(job.location),
          EscapeCsv(Join(job.skills, ", ")), SalaryText(job.salaryMin), SalaryText(job.salaryMax),
          iso(job.createdAt)], ",")
  }

  function Lines(listings: seq<JobListing>, iso: int -> string): (r: seq<string>)
    ensures |r| == |listings|
    ensures forall i :: 0 <= i < |r| ==> r[i] == Line(listings[i], iso)
  {
    seq(|listings|, i requires 0 <= i < |listings| => Line(listings[i], iso))
  }

  /** The text `exportToCSV` builds from the listings. */
  function Render(listings: seq<JobListing>, iso: int -> string): string {
    Join([Join(Header, ",")] + Lines(listings, iso), "\n")
  }

  /** The records the export stands for: the header, then the values of
      each listing, in listing order. */
  function Records(listings: seq<JobListing>, iso: int -> string): (r: seq<seq<string>>)
    ensures |r| == |listings| + 1 && r[0] == Header
    ensures forall i :: 0 <= i < |listings| ==> r[i + 1] == Values(listings[i], iso)
  {
    [Header] + seq(|listings|, i requires 0 <= i < |listings| => Values(listings[i], iso))
  }

  /** When a listing's id and creation time need no quoting, its line is
      the record of its values. */
  lemma LineIsRecord(job: JobListing, iso: int -> string)
    requires !NeedsQuoting(job.id) && !NeedsQuoting(iso(job.createdAt))
    ensures Line(job, iso) == RecordText(Values(job, iso))
  {
    var vals := Values(job, iso);
    var written := [job.id, EscapeCsv(job.title), EscapeCsv(job.company), EscapeCsv(job.location),
                    EscapeCsv(Join(job.skills, ", ")), SalaryText(job.salaryMin), SalaryText(job.salaryMax),
                    iso(job.createdAt)];
    forall k | 0 <= k < 8
      ensures EscapeAll(vals)[k] == written[k]
    {
      if k == 0 || k == 5 || k == 6 || k == 7 {
        assert !NeedsQuoting(vals[k]);
      }
    }
    assert EscapeAll(vals) == written;
  }

  /** Reading the export back gives the header and then, for each listing
      in order, its eight values: one record per listing. This needs every
      id and creation time to be free of commas, double quotes and line
      feeds, because those two columns are not escaped. */
  lemma RenderReadsBack(listings: seq<JobListing>, iso: int -> string)
    requires forall job :: job in listings ==> !NeedsQuoting(job.id) && !NeedsQuoting(iso(job.createdAt))
    ensures ParseDocument(Render(listings, iso)) == Some(Records(listings, iso))
  {
    var records := Records(listings, iso);
    LinesAreRecords(listings, iso);
    RecordsWidth(listings, iso);
    DocumentRoundTrip(records);
  }

  /** Every record of an export has the eight columns of the header. */
  lemma RecordsWidth(listings: seq<JobListing>, iso: int -> string)
    ensures forall i :: 0 <= i < |Records(listings, iso)| ==> |Records(listings, iso)[i]| == |Header|
  {
  }

  lemma LinesAreRecords(listings: seq<JobListing>, iso: int -> string)
    requires forall job :: job in listings ==> !NeedsQuoting(job.id) && !NeedsQuoting(iso(job.createdAt))
    ensures [Join(Header, ",")] + Lines(listings, iso) == RecordTexts(Records(listings, iso))
  {
    var records := Records(listings, iso);
    var lines := Lines(listings, iso);
    forall i | 0 <= i < |lines|
      ensures lines[i] == RecordText(records[i + 1])
    {
      assert listings[i] in listings;
      LineIsRecord(listings[i], iso);
    }
    HeaderThenRecords(Join(Header, ","), lines, records);
  }

  /** The message of the `TypeError` a listing whose `createdAt` is text
      raises: text has no `toISOString`. */
  const DateNotConvertible: string := "job.createdAt.toISOString is not a function"

  /** `exportToCSV`: with the export flag off it fails before producing
      anything and sends no event. `datesAsText` says the result was read
      back from the cache, where `JSON.parse` leaves every `createdAt` a
      string: the first listing's conversion then throws, before the
      event is sent; a result with no listings converts nothing. Otherwise
      it returns the rendered text after sending a `job.export` event that
      counts the listings. */
  method ExportToCsv(enabled: bool, result: SearchResult, datesAsText: bool, iso: int -> string, bus: EventBus)
    returns (r: Result<string, string>)
    modifies bus`delivered
    ensures r == if !enabled then Failure(DisabledMessage)
                 else if datesAsText && |result.jobListings| > 0 then Failure(DateNotConvertible)
                 else Success(Render(result.jobListings, iso))
    ensures bus.delivered
            == if r.Success? && bus.available
               then old(bus.delivered) + [Event("job.export", ExportPerformed("csv", |result.jobListings|))]
               else old(bus.delivered)
  {
    if !enabled {
      return Failure(DisabledMessage);
    }
    if datesAsText && |result.jobListings| > 0 {
      return Failure(DateNotConvertible);
    }
    var csvContent := Render(result.jobListings, iso);
    bus.SendEvent(Event("job.export", ExportPerformed("csv", |result.jobListings|)));
    return Success(csvContent);
  }
}
