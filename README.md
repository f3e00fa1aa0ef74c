# Job-listing fetcher: a Dafny model

The program asks a careers search API for pages of job listings. It turns each
raw job object into a flat record of nine strings and collects the records.
At the end it writes them out as one JSON array. This project models the two
parts of `src/main.rs` that are logic rather than plumbing:

- **the record normaliser**: one raw JSON job to one `JobPosting`. It is total:
  a missing key, a value of the wrong kind or a job that is not an object gives
  an empty field, never a failure;
- **the fetch loop**: the `page` / `has_more` / `all_jobs` state machine, with its
  `break`, its `continue` and its fatal `?` exits.

Modules:

- `Wrappers` (`wrappers.dfy`): `Option` and `Result`.
- `Json` (`json.dfy`): a JSON `Value` with one constructor per value kind of
  RFC 8259 section 3. It has serde_json's accessors: `Get` (`value.get(key)`),
  `Index` (`value[key]`, which gives `Null` for a missing key or a non-object),
  `AsStr` and `AsArray`. An object is a sequence of (key, value) members. When
  a key repeats, the lookup takes the last member, as serde_json's map does
  when it parses.
- `Postings` (`postings.dfy`): the `JobPosting` record, the constants (company
  `"Google"`, the url prefix, the `", "` separator), `Join` (Rust's `join`),
  `Normalize`, `NormalizeAll`, and the lemmas stating each field's
  defaulting rule.
- `Crawler` (`crawler.dfy`): the outside world and the loop. `server(n)` is the
  `Reply` to a request for page `n`: a transport error, or a status with a body
  that could not be read, did not parse, or parsed to a `Value`. `Step` is one
  pass through the loop body and `Run` is the loop to its end. `Scrape` is the
  loop written as a `while` with `break` and `continue`, and it is proved equal
  to `Crawl`, which is `Run` from page 1. An `Ok(records)` result is what
  the writer is handed; an `Err` means the program returns before the file is
  created.

Two behaviours of the loop that the model keeps exactly:

- A parse error is fatal: `serde_json::from_str(&body)?` (src/main.rs:73)
  returns from `main` before the file is created, so the model gives
  `Err(Parse)`, like a transport or body-read error.
- A missing or non-array `jobs` still reaches the sleep and `page += 1`
  (lines 108-115). An empty array `continue`s past both (lines 77-80).
  `PageOutcome` states both.

## Model

| member | source | states |
|---|---|---|
| `Json.Lookup` | src/main.rs:84 | the member found for a key is the last member with that key; nothing is found exactly when no member has that key |
| `Json.Get` | src/main.rs:76 | `get(key)` finds something exactly when the value is an object with that key, and then it is that key's member |
| `Json.Index` | src/main.rs:84-85 | `value[key]` is the key's member, or `Null` when the value is not an object or lacks the key |
| `Json.AsStr` | src/main.rs:84 | `as_str` gives text exactly for a string value, and that text is the string's |
| `Json.AsArray` | src/main.rs:86-87 | `as_array` gives items exactly for an array value, and those items are the array's |
| `Postings.Normalize` | src/main.rs:83-104 | defined on every JSON value; company is always "Google"; the url names the record's own id (stripping the prefix gives the id back) |
| `Postings.UrlRoundTrip` | src/main.rs:99-102 | a url is the prefix followed by an id exactly when stripping the prefix gives that id |
| `Postings.TextField` | src/main.rs:84-85 | `v[key].as_str().unwrap_or("")` is the member's string when the key holds a string, and "" otherwise |
| `Postings.NestedTextField` | src/main.rs:95-97 | `v[outer][inner].as_str().unwrap_or("")` is the inner string when both levels exist and the inner value is a string, and "" otherwise |
| `Postings.ScalarFields` | src/main.rs:84-103 | id, title and date_posted copy the job's string under id, title and posted_date, else ""; the url is the prefix plus that id, so the bare prefix when there is no id string |
| `Postings.ContentFields` | src/main.rs:95-97 | description, qualifications and responsibilities are the nested "content" string, else "" (a missing or non-object outer member included) |
| `Postings.LocationField` | src/main.rs:86-94 | location is the ", "-join of the texts of the locations items; it is "" when locations is missing or not an array |
| `Postings.TextOr` | src/main.rs:84 | `as_str().unwrap_or("")` is a string value's text, and "" for a value of any other kind |
| `Postings.Texts` | src/main.rs:89-91 | one entry per locations item, in order: the item's string, or "" for an item that is not a string |
| `Postings.JoinLength` | src/main.rs:92 | characterises `Join` (Rust's `.join(", ")`): a join is as long as all its parts plus one separator between each two neighbours, and "" for no parts |
| `Postings.JoinAt` | src/main.rs:92 | characterises `Join`: part k sits at its offset and is followed by exactly the separator, up to where part k+1 begins; with JoinLength this fixes every character |
| `Postings.JoinSnoc` | src/main.rs:92 | joining one more part appends a separator and that part |
| `Postings.MapSeq` | src/main.rs:82-107 | mapping gives one result per element, the result at each position computed from the element at that position |
| `Postings.NormalizeAll` | src/main.rs:82-107 | one record per job of the array, in order, the record at each position normalised from the job at that position |
| `Postings.OnlyLocations` | src/main.rs:86-94 | a job holding only `locations` gets the join of their texts as its location |
| `Postings.LocationExample` | src/main.rs:86-94 | ["Mountain View, CA", "New York, NY"] gives "Mountain View, CA, New York, NY" |
| `Postings.SparseJobExample` | src/main.rs:83-104 | a job with only id "12345" and a title gets empty fields apart from id, title, company and url ".../jobs/results/12345" |
| `Crawler.IsSuccess` | src/main.rs:63 | `is_success()` holds exactly for statuses in the 2xx class |
| `Crawler.JobsArray` | src/main.rs:76 | `get("jobs").and_then(as_array)` gives items exactly when the response has a `jobs` member that is an array, and then they are that array's items |
| `Crawler.Run` | src/main.rs:43-116 | the loop run to its end; when it ends without error, either the guard `has_more && page < 2` fails or the page reached was answered with a failed status (the `break`) |
| `Crawler.Crawl` | src/main.rs:43-120 | what reaches the writer: the run fails, so `main` returns before the file is created, exactly when the reply to page 1 is a transport error or a successful status with an unreadable or unparsable body |
| `Crawler.Step` | src/main.rs:49-115 | a loop pass that continues either advances the page or clears has_more, and never drops or changes a gathered record; a `break` leaves the state as it was |
| `Crawler.AppendNormalized` | src/main.rs:82-107 | the records become the old records followed by one normalised record per job, in order |
| `Crawler.Scrape` | src/main.rs:43-119 | the loop as written returns exactly the result of the loop's specification `Crawl` |
| `Crawler.RunKeepsRecords` | src/main.rs:43-116 | the records held when the loop starts are a prefix of those it ends with |
| `Crawler.RunPageBound` | src/main.rs:44-47 | the page counter never decreases and never passes the limit it started below |
| `Crawler.RunAsksOnlyBelowLimit` | src/main.rs:47-61 | only pages below the limit are requested: servers that agree on them give the same run |
| `Crawler.OnlyFirstPage` | src/main.rs:44-47 | at most one page is fetched: the outcome depends on the reply for page 1 alone |
| `Crawler.FatalErrorsAbort` | src/main.rs:57-73 | a transport, body-read or parse error ends the run with that error, before the writer |
| `Crawler.FailedStatusKeepsRecords` | src/main.rs:63-66 | a non-success status ends the run successfully with the records gathered so far |
| `Crawler.PageOutcome` | src/main.rs:76-115 | a non-empty jobs array appends its records and moves to the next page; an empty one ends the run with the page unchanged; a missing one ends it with the page advanced |
| `Crawler.FirstPage` | src/main.rs:43-116 | when page 1 parses, the writer gets that page's jobs normalised in order, or nothing when jobs is empty or absent |

## Left out

- The HTTP client, its User-Agent header and the query string (src/main.rs:22-41, 51-61). They are network plumbing, replaced by the `server` parameter. A failure to build the client (line 32) happens before the loop and is not modelled.
- The one-second `tokio::time::sleep` and the async runtime. They have no effect on the records gathered.
- Parsing the body with `serde_json::from_str`. It is modelled only by its outcome: `Unparsable` or `Parsed(value)`.
- Writing the file with `File::create` and `to_writer_pretty` (lines 119-120), and their errors. `Ok(records)` stands for what is handed to the writer.
- All console output (`println!`, `eprintln!`). It is diagnostic only.
- JSON numbers carry only their literal text. The program only asks whether a value is a string, an array or an object, so numbers matter only as another kind.
- `Json.Value` objects may hold a key twice, which a parsed object never does. The lookup takes the last occurrence, which is the one a parsed object would keep.
- Identical replies give identical output by construction, because `Crawl` is a function of `server`. No separate lemma states it.
- `page` is a Rust integer of fixed width. It never exceeds 2 here, so the model uses unbounded `int`.
