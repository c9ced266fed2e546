/** The CSV export of the recency service. It has the layout of the
    pgvector export but tolerates listings with missing fields: a missing
    id, title, company or location is written as the empty string, and so
    are skills that are not a list. */
module RecencyExport {
  import opened Wrappers
  import opened Text
  import opened Types
  import opened Csv
  import opened Events
  import VectorExport

  /** A listing as this export receives it: any text field may be missing,
      and `skills` is `None` when it is not a list. */
  datatype LooseListing = LooseListing(
    id: Option<string>,
    title: Option<string>,
    company: Option<string>,
    location: Option<string>,
    skills: Option<seq<string>>,
    salaryMin: Option<int>,
    salaryMax: Option<int>,
    createdAt: int)

  /** A complete listing seen as one this export receives. */
  function Loose(job: JobListing): LooseListing {
    LooseListing(Some(job.id), Some(job.title), Some(job.company), Some(job.location), Some(job.skills),
                 job.salaryMin, job.salaryMax, job.createdAt)
  }

  function LooseAll(listings: seq<JobListing>): (r: seq<LooseListing>)
    ensures |r| == |listings|
    ensures forall i :: 0 <= i < |r| ==> r[i] == Loose(listings[i])
  {
    seq(|listings|, i requires 0 <= i < |listings| => Loose(listings[i]))
  }

  /** The skills column before escaping: the skills joined by ", ", or
      nothing when they are not a list. */
  function SkillsText(skills: Option<seq<string>>): string {
    if skills.Some? then Join(skills.value, ", ") else ""
  }

  /** The values of a listing's record, in column order, with the empty
      string for every missing field. */
  function Values(job: LooseListing, iso: int -> string): seq<string> {
    [job.id.GetOr(""), job.title.GetOr(""), job.company.GetOr(""), job.location.GetOr(""),
     SkillsText(job.skills), SalaryText(job.salaryMin), SalaryText(job.salaryMax), iso(job.createdAt)]
  }

  /** The line of one listing: title, company, location and skills are
      escaped; the id, the salaries and the creation time are written as
      they are. */
  function Line(job: LooseListing, iso: int -> string): string {
    Join([job.id.GetOr(""), EscapeCsv(job.title.GetOr("")), EscapeCsv(job.company.GetOr("")),
          EscapeCsv(job.location.GetOr("")), EscapeCsv(SkillsText(job.skills)),
          SalaryText(job.salaryMin), SalaryText(job.salaryMax), iso(job.createdAt)], ",")
  }

  function Lines(listings: seq<LooseListing>, iso: int -> string): (r: seq<string>)
    ensures |r| == |listings|
    ensures forall i :: 0 <= i < |r| ==> r[i] == Line(listings[i], iso)
  {
    seq(|listings|, i requires 0 <= i < |listings| => Line(listings[i], iso))
  }

  /** The text `exportToCSV` builds from the listings. */
  function Render(listings: seq<LooseListing>, iso: int -> string): string {
    Join([Join(Header, ",")] + Lines(listings, iso), "\n")
  }

  /** The records the export stands for: the header, then the values of
      each listing, in listing order. */
  function Records(listings: seq<LooseListing>, iso: int -> string): (r: seq<seq<string>>)
    ensures |r| == |listings| + 1 && r[0] == Header
    ensures forall i :: 0 <= i < |listings| ==> r[i + 1] == Values(listings[i], iso)
  {
    [Header] + seq(|listings|, i requires 0 <= i < |listings| => Values(listings[i], iso))
  }

  /** When a listing's id and creation time need no quoting, its line is
      the record of its values. */
  lemma LineIsRecord(job: LooseListing, iso: int -> string)
    requires !NeedsQuoting(job.id.GetOr("")) && !NeedsQuoting(iso(job.createdAt))
    ensures Line(job, iso) == RecordText(Values(job, iso))
  {
    var vals := Values(job, iso);
    var written := [job.id.GetOr(""), EscapeCsv(job.title.GetOr("")), EscapeCsv(job.company.GetOr("")),
                    EscapeCsv(job.location.GetOr("")), EscapeCsv(SkillsText(job.skills)),
                    SalaryText(job.salaryMin), SalaryText(job.salaryMax), iso(job.createdAt)];
    forall k | 0 <= k < 8
      ensures EscapeAll(vals)[k] == written[k]
    {
      if k == 0 || k == 5 || k == 6 || k == 7 {
        assert !NeedsQuoting(vals[k]);
      }
    }
    assert EscapeAll(vals) == written;
  }

  /** Reading the export back gives the header and then, for each listing
      in order, its eight values, a missing field as the empty string: one
      record per listing. This needs every id and creation time to be free
      of commas, double quotes and line feeds, because those two columns
      are not escaped. */
  lemma RenderReadsBack(listings: seq<LooseListing>, iso: int -> string)
    requires forall job :: job in listings ==> !NeedsQuoting(job.id.GetOr("")) && !NeedsQuoting(iso(job.createdAt))
    ensures ParseDocument(Render(listings, iso)) == Some(Records(listings, iso))
  {
    var records := Records(listings, iso);
    LinesAreRecords(listings, iso);
    RecordsWidth(listings, iso);
    DocumentRoundTrip(records);
  }

  /** Every record of an export has the eight columns of the header. */
  lemma RecordsWidth(listings: seq<LooseListing>, iso: int -> string)
    ensures forall i :: 0 <= i < |Records(listings, iso)| ==> |Records(listings, iso)[i]| == |Header|
  {
  }

  lemma LinesAreRecords(listings: seq<LooseListing>, iso: int -> string)
    requires forall job :: job in listings ==> !NeedsQuoting(job.id.GetOr("")) && !NeedsQuoting(iso(job.createdAt))
    ensures [Join(Header, ",")] + Lines(listings, iso) == RecordTexts(Records(listings, iso))
  {
    var records := Records(listings, iso);
    var lines := Lines(listings, iso);
    forall i | 0 <= i < |lines|
      ensures lines[i] == RecordText(records[i + 1])
    {
      assert listings[i] in listings;
      LineIsRecord(listings[i], iso);
    }
    HeaderThenRecords(Join(Header, ","), lines, records);
  }

  /** On complete listings the two exports write the same text. */
  lemma AgreesWithVectorExport(listings: seq<JobListing>, iso: int -> string)
    ensures Render(LooseAll(listings), iso) == VectorExport.Render(listings, iso)
  {
    assert Lines(LooseAll(listings), iso) == VectorExport.Lines(listings, iso);
  }

  /** `exportToCSV`: with the export flag off it fails before producing
      anything and sends no event; otherwise it returns the rendered text
      after sending a `job.export` event that counts the listings. */
  method ExportToCsv(enabled: bool, listings: seq<LooseListing>, iso: int -> string, bus: EventBus)
    returns (r: Result<string, string>)
    modifies bus`delivered
    ensures r == if enabled then Success(Render(listings, iso)) else Failure(DisabledMessage)
    ensures bus.delivered
            == if enabled && bus.available
               then old(bus.delivered) + [Event("job.export", ExportPerformed("csv", |listings|))]
               else old(bus.delivered)
  {
    if !enabled {
      return Failure(DisabledMessage);
    }
    var csvContent := Render(listings, iso);
    bus.SendEvent(Event("job.export", ExportPerformed("csv", |listings|)));
    return Success(csvContent);
  }
}
