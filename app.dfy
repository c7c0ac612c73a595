/** The one route of `app.py`: a GET lists the stored rows; a POST with a valid URL scrapes it in
    general mode, inserts or updates its row, logs the attempt, and then lists the rows. */
module App {
  import opened Wrappers
  import opened Html
  import opened Scraper
  import opened Store
  import opened JsonData

  /** The request as the handler reads it: the method and, for a POST, the `url` form field
      (`None` when the form lacks it). */
  datatype Request = Get | Post(url: Option<string>)

  /** A `flash(message, category)` call. */
  datatype Flash = Flash(message: string, category: string)

  /** `render_template('index.html', data=...)`: the flashed messages and the listed rows. */
  datatype Rendered = Rendered(flashes: seq<Flash>, data: seq<Decoded>)

  /** What the `try` block of a POST ends in: an insert, an update, or an exception. */
  datatype Outcome = Inserted(record: Record) | Updated(record: Record) | Failed(error: Error)
  {
    /** The status `log_scrape_attempt` records. */
    function Status(): (s: string)
      ensures s in {"inserted", "updated", "error"}
    {
      match this
      case Inserted(_) => "inserted"
      case Updated(_) => "updated"
      case Failed(_) => "error"
    }

    /** The `error_message` it records: `str(e)` on an exception, else nothing. */
    function ErrorMessage(): (m: Option<string>)
      ensures m.Some? <==> this.Failed?
    {
      match this
      case Failed(e) => Some(e.Message())
      case _ => None
    }
  }

  /** What the upsert step does with the record of a scraped `url`: update the stored row, insert
      a new one, or raise because the stored row does not decode. */
  function UpsertOutcome(rows: seq<Row>, url: string, record: Record): (o: Outcome)
    requires forall k :: 0 <= k < |rows| ==> HasAllColumns(rows[k])
    ensures o.Inserted? <==> Lookup(rows, url).None?
    ensures o.Updated? <==> Lookup(rows, url).Some? && DeserializeRow(Lookup(rows, url).value).Success?
    ensures !o.Failed? ==> o.record == record
  {
    match Lookup(rows, url)
    case None => Inserted(record)
    case Some(row) =>
      match DeserializeRow(row)
      case Failure(e) => Failed(e)
      case Success(_) => Updated(record)
  }

  /** The scraping step of the handler: `WebScraper(url).extract_all_data()` in the default
      general mode. With `urljoin` taken as total, only a crash while fetching raises; the record
      always carries the URL as a string. */
  function ScrapeRecord(web: Web, url: string): (r: Result<Record, Error>)
    ensures r.Failure? <==> web.fetch(url).Crashed?
    ensures r.Success? ==> r.value == GeneralOf(web, url, GetSoup(web, url).value).Record()
    ensures r.Success? ==> "url" in r.value && r.value["url"] == JStr(url)
  {
    match GetSoup(web, url)
    case Failure(e) => Failure(e)
    case Success(soup) =>
      GeneralRecordKeys(GeneralOf(web, url, soup));
      Success(GeneralOf(web, url, soup).Record())
  }

  /** What a POST of a valid `url` does to a store holding `rows`. With `urljoin` taken as total,
      the general scrape never raises once the page is fetched, and an insert of its record never
      raises either (the record has the URL as a string, and the URL is absent), so the only
      exceptions are a crash while fetching and a stored row that does not decode. */
  function PostOutcome(rows: seq<Row>, web: Web, url: string): (o: Outcome)
    requires forall k :: 0 <= k < |rows| ==> HasAllColumns(rows[k])
    ensures o.Failed? ==> GetSoup(web, url).Failure? || Lookup(rows, url).Some?
    ensures o.Updated? ==> Lookup(rows, url).Some?
    ensures o.Inserted? <==> GetSoup(web, url).Success? && Lookup(rows, url).None?
  {
    match ScrapeRecord(web, url)
    case Failure(e) => Failed(e)
    case Success(record) => UpsertOutcome(rows, url, record)
  }

  /** The message flashed for an outcome. */
  function PostFlash(url: string, o: Outcome): (f: Flash)
    ensures f.category == (if o.Failed? then "danger" else "success")
  {
    match o
    case Inserted(_) => Flash("Data inserted for " + url, "success")
    case Updated(_) => Flash("Data updated for " + url, "success")
    case Failed(e) => Flash("Error scraping " + url + ": " + e.Message(), "danger")
  }

  /** The scraping step of the handler, run: the scraper is built in general mode and extracts. */
  method ScrapeGeneral(web: Web, url: string, now: nat) returns (r: Result<Record, Error>)
    ensures r == ScrapeRecord(web, url)
  {
    var scraping := WebScraper.Open(url, "general", web);
    match scraping {
      case Failure(e) => r := Failure(e);
      case Success(scraper) =>
        var all := scraper.ExtractAllData(now);
        match all {
          case Failure(e) => r := Failure(e);
          case Success(extracted) => r := Success(extracted.Record());
        }
    }
  }

  /** The upsert step of the handler: look the URL up, then update its row or insert the record. The
      record carries the URL as a string, so the insert cannot raise. */
  method Upsert(db: Database, url: string, record: Record, writeTime: nat) returns (o: Outcome)
    requires db.Valid()
    requires "url" in record && record["url"] == JStr(url)
    modifies db
    ensures db.Valid()
    ensures o == UpsertOutcome(old(db.rows), url, record)
    ensures db.history == old(db.history) && db.nextAttemptId == old(db.nextAttemptId)
    ensures o.Inserted? ==> db.rows == old(db.rows) + [Row(old(db.nextRowId), url, Cells(record), writeTime, writeTime)]
    ensures o.Updated? ==> db.rows == UpdateWhere(old(db.rows), url, Cells(record), writeTime)
    ensures o.Failed? ==> db.rows == old(db.rows)
  {
    var found := db.FetchData(url);
    match found {
      case Failure(e) => o := Failed(e);
      case Success(None) =>
        var inserted := db.InsertData(record, writeTime);
        match inserted {
          case Failure(e) => o := Failed(e);
          case Success(_) => o := Inserted(record);
        }
      case Success(Some(_)) =>
        db.UpdateData(url, record, writeTime);
        o := Updated(record);
    }
  }

  /** The `try`/`except` block of a POST with a valid URL, on any store that keeps its invariant:
      one history entry for the attempt, and the row of `url` inserted, updated or left alone. */
  method HandlePost(db: Database, web: Web, url: string, scrapeTime: nat, writeTime: nat, logTime: nat)
    returns (flash: Flash)
    requires db.Valid()
    modifies db
    ensures db.Valid()
    ensures var o := PostOutcome(old(db.rows), web, url);
            && flash == PostFlash(url, o)
            && db.history == old(db.history) + [Attempt(old(db.nextAttemptId), url, logTime, o.Status(), o.ErrorMessage())]
            && (o.Inserted? ==> db.rows == old(db.rows) + [Row(old(db.nextRowId), url, Cells(o.record), writeTime, writeTime)])
            && (o.Updated? ==> db.rows == UpdateWhere(old(db.rows), url, Cells(o.record), writeTime))
            && (o.Failed? ==> db.rows == old(db.rows))
  {
    var outcome: Outcome;
    var scraped := ScrapeGeneral(web, url, scrapeTime);
    match scraped {
      case Failure(e) => outcome := Failed(e);
      case Success(record) => outcome := Upsert(db, url, record, writeTime);
    }
    db.LogScrapeAttempt(url, outcome.Status(), outcome.ErrorMessage(), logTime);
    flash := PostFlash(url, outcome);
  }

  /** `index()`: opens a fresh store (the tables are recreated empty), handles the request, and
      lists the rows; listing raises what `fetch_all_data` raises. The store is returned so that its
      final state can be stated. */
  method Index(web: Web, isUrl: string -> bool, request: Request, scrapeTime: nat, writeTime: nat, logTime: nat)
    returns (page: Result<Rendered, Error>, db: Database)
    ensures fresh(db) && db.Valid()
    ensures request.Get? ==> db.rows == [] && db.history == [] && page == Success(Rendered([], []))
    ensures request.Post? && (request.url.None? || !isUrl(request.url.value)) ==>
              db.rows == [] && db.history == [] && page == Success(Rendered([Flash("Please enter a valid URL", "danger")], []))
    ensures request.Post? && request.url.Some? && isUrl(request.url.value) ==>
              var url := request.url.value;
              var o := PostOutcome([], web, url);
              && db.history == [Attempt(1, url, logTime, o.Status(), o.ErrorMessage())]
              && o.Status() != "updated"
              && (o.Inserted? ==> db.rows == [Row(1, url, Cells(o.record), writeTime, writeTime)])
              && (o.Failed? ==> db.rows == [])
              && page == (match db.Listing()
                          case Success(rows) => Success(Rendered([PostFlash(url, o)], rows))
                          case Failure(e) => Failure(e))
  {
    db := new Database();
    var flashes: seq<Flash> := [];
    match request {
      case Get =>
      case Post(field) =>
        if field.None? || !isUrl(field.value) {
          flashes := [Flash("Please enter a valid URL", "danger")];
        } else {
          var flash := HandlePost(db, web, field.value, scrapeTime, writeTime, logTime);
          flashes := [flash];
        }
    }
    var data := db.FetchAllData();
    match data {
      case Failure(e) => page := Failure(e);
      case Success(rows) => page := Success(Rendered(flashes, rows));
    }
  }

  /** On a fresh store a POST never reports an update, and after a page that could not be fetched
      (a `RequestException`) the empty general record is inserted. */
  lemma FreshStorePost(web: Web, url: string)
    ensures PostOutcome([], web, url).Status() != "updated"
    ensures web.fetch(url).RequestFailed? ==> PostOutcome([], web, url) == Inserted(GeneralOf(web, url, None).Record())
    ensures web.fetch(url).Crashed? ==> PostOutcome([], web, url) == Failed(FetchCrash(web.fetch(url).message))
  {
  }

  /** A POST of a URL already stored updates its row rather than inserting a second one, unless the
      stored row does not decode. */
  lemma StoredUrlIsUpdated(rows: seq<Row>, web: Web, url: string)
    requires forall k :: 0 <= k < |rows| ==> HasAllColumns(rows[k])
    requires Lookup(rows, url).Some? && GetSoup(web, url).Success?
    ensures PostOutcome(rows, web, url).Updated? <==> DeserializeRow(Lookup(rows, url).value).Success?
    ensures PostOutcome(rows, web, url).Failed? <==> DeserializeRow(Lookup(rows, url).value).Failure?
  {
  }
}
