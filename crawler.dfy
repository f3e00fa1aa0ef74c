/**
 The fetch loop: request page after page, stop on an empty or absent `jobs`
 array or on a failed request, normalise and collect every job returned.
 The network is a parameter: `server(n)` is what a request for page `n`
 yields. What the loop returns in `Ok` is what the writer would store.
 */
module Crawler {
  import opened Wrappers
  import opened Json
  import opened Postings

  /** What reading the body of a successful response yields. */
  datatype Body =
    | ReadError            // reading the body failed
    | Unparsable           // the body is not valid JSON
    | Parsed(value: Value) // the body parsed to this value

  /** What one request yields. */
  datatype Reply =
    | TransportError                 // the request could not be sent or answered
    | Response(status: int, body: Body)

  /** The errors that abort the run before anything is written. */
  datatype Fatal = Transport | BodyRead | Parse

  /** An HTTP status in the success class 200-299: its hundreds digit is 2. */
  predicate IsSuccess(status: int)
    ensures IsSuccess(status) <==> status / 100 == 2
  {
    200 <= status < 300
  }

  /** Pages below this are fetched: the loop guard is `page < 2`, so only page 1. */
  const PageLimit: int := 2

  /** The loop's variables: the next page, whether more pages may follow, and
      the records gathered so far. */
  datatype Loop = Loop(page: int, hasMore: bool, jobs: seq<JobPosting>)

  /** The state before the first request. */
  const Start: Loop := Loop(1, true, [])

  /** The loop guard. */
  predicate Running(s: Loop) {
    s.hasMore && s.page < PageLimit
  }

  /** How one pass through the loop body ends. */
  datatype Pass =
    | Next(next: Loop)   // the body ran to its end or to `continue`
    | Break(last: Loop)  // `break`: leave the loop whatever the guard says
    | Abort(error: Fatal)

  /** `response.get("jobs").and_then(|v| v.as_array())`: the items of the
      response's `jobs` member when that member is an array, nothing otherwise. */
  function JobsArray(response: Value): (r: Option<seq<Value>>)
    ensures r.Some? <==> HasArray(response, "jobs")
    ensures r.Some? ==> Binding(response, "jobs", Arr(r.value))
  {
    match Get(response, "jobs")
    case Some(v) => AsArray(v)
    case None => None
  }

  /**
   One pass through the loop body, given the reply to the request for `s.page`.
   Every pass that goes on either advances the page or clears `hasMore`, and
   never drops or changes a record already gathered.
   */
  function Step(s: Loop, reply: Reply): (r: Pass)
    ensures r.Next? ==> s.jobs <= r.next.jobs
    ensures r.Next? ==> r.next.page == s.page + 1 || (r.next.page == s.page && !r.next.hasMore)
    ensures r.Break? ==> r.last == s
  {
    match reply
    case TransportError => Abort(Transport)
    case Response(status, body) =>
      if !IsSuccess(status) then Break(s)
      else match body
        case ReadError => Abort(BodyRead)
        case Unparsable => Abort(Parse)
        case Parsed(response) =>
          match JobsArray(response)
          case Some(jobs) =>
            if |jobs| == 0 then Next(s.(hasMore := false))
            else Next(Loop(s.page + 1, s.hasMore, s.jobs + NormalizeAll(jobs)))
          case None => Next(Loop(s.page + 1, false, s.jobs))
  }

  /** The loop run from state `s` to its end: the final state, or the fatal error.
      A run that ends without error stops either because the guard fails or
      because the page it had reached was answered with a failed status. */
  function Run(server: int -> Reply, s: Loop): (r: Result<Loop, Fatal>)
    ensures r.Ok? ==>
      (!Running(r.value) || (server(r.value.page).Response? && !IsSuccess(server(r.value.page).status)))
    decreases PageLimit - s.page, if s.hasMore then 1 else 0
  {
    if !Running(s) then Ok(s)
    else
      match Step(s, server(s.page))
      case Next(t) => Run(server, t)
      case Break(t) => Ok(t)
      case Abort(e) => Err(e)
  }

  /** A reply that makes `main` return an error: a transport error, or a
      successful status whose body cannot be read or parsed. */
  predicate IsFatal(reply: Reply) {
    reply.TransportError? ||
    (IsSuccess(reply.status) && (reply.body.ReadError? || reply.body.Unparsable?))
  }

  /** The whole fetch: the records handed to the writer, or the fatal error.
      It fails exactly when the reply to page 1 is fatal. */
  function Crawl(server: int -> Reply): (r: Result<seq<JobPosting>, Fatal>)
    ensures r.Err? <==> IsFatal(server(1))
  {
    match Run(server, Start)
    case Ok(last) => Ok(last.jobs)
    case Err(e) => Err(e)
  }

  /** Appends one normalised record per job to `all`, in order. */
  method AppendNormalized(all: seq<JobPosting>, jobs: seq<Value>) returns (r: seq<JobPosting>)
    ensures r == all + NormalizeAll(jobs)
  {
    r := all;
    for i := 0 to |jobs|
      invariant r == all + NormalizeAll(jobs[..i])
    {
      assert jobs[..i + 1][..i] == jobs[..i];
      r := r + [Normalize(jobs[i])];
    }
    assert jobs[..|jobs|] == jobs;
  }

  /** The fetch loop itself. */
  method Scrape(server: int -> Reply) returns (r: Result<seq<JobPosting>, Fatal>)
    ensures r == Crawl(server)
  {
    var allJobs: seq<JobPosting> := [];
    var page := 1;
    var hasMore := true;
    while hasMore && page < PageLimit
      invariant Run(server, Loop(page, hasMore, allJobs)) == Run(server, Start)
      decreases PageLimit - page, if hasMore then 1 else 0
    {
      var reply := server(page);
      if reply.TransportError? {
        return Err(Transport);
      }
      if !IsSuccess(reply.status) {
        break;
      }
      match reply.body {
        case ReadError =>
          return Err(BodyRead);
        case Unparsable =>
          return Err(Parse);
        case Parsed(response) =>
          match JobsArray(response) {
            case Some(jobs) =>
              if |jobs| == 0 {
                hasMore := false;
                continue;
              }
              allJobs := AppendNormalized(allJobs, jobs);
            case None =>
              hasMore := false;
          }
      }
      page := page + 1;
    }
    r := Ok(allJobs);
  }

  // ---------------------------------------------------------------------------
  // Properties of the loop

  /** The loop only appends: the records held when it starts are a prefix of
      the records it ends with, unchanged and in order. */
  lemma {:induction false} RunKeepsRecords(server: int -> Reply, s: Loop)
    ensures Run(server, s).Ok? ==> s.jobs <= Run(server, s).value.jobs
    decreases PageLimit - s.page, if s.hasMore then 1 else 0
  {
    if Running(s) {
      var step := Step(s, server(s.page));
      if step.Next? {
        RunKeepsRecords(server, step.next);
      }
    }
  }

  /** The page counter only grows, and never past the limit it started below. */
  lemma {:induction false} RunPageBound(server: int -> Reply, s: Loop)
    ensures Run(server, s).Ok? ==> s.page <= Run(server, s).value.page
    ensures Run(server, s).Ok? && s.page <= PageLimit ==> Run(server, s).value.page <= PageLimit
    decreases PageLimit - s.page, if s.hasMore then 1 else 0
  {
    if Running(s) {
      var step := Step(s, server(s.page));
      if step.Next? {
        RunPageBound(server, step.next);
      }
    }
  }

  /** Only pages from `s.page` up to below the limit are requested: two servers
      that agree on those pages give the same run. */
  lemma {:induction false} RunAsksOnlyBelowLimit(server1: int -> Reply, server2: int -> Reply, s: Loop)
    requires forall p :: s.page <= p < PageLimit ==> server1(p) == server2(p)
    ensures Run(server1, s) == Run(server2, s)
    decreases PageLimit - s.page, if s.hasMore then 1 else 0
  {
    if Running(s) {
      var step := Step(s, server1(s.page));
      if step.Next? {
        RunAsksOnlyBelowLimit(server1, server2, step.next);
      }
    }
  }

  /** At most one page is fetched: the whole fetch depends on the reply for page 1 alone. */
  lemma OnlyFirstPage(server1: int -> Reply, server2: int -> Reply)
    requires server1(1) == server2(1)
    ensures Crawl(server1) == Crawl(server2)
  { }

  /** A transport error on any page, or an unreadable or unparsable body on a
      page answered with a success status, ends the run with that error, so
      nothing reaches the writer. */
  lemma FatalErrorsAbort(server: int -> Reply, s: Loop)
    requires Running(s)
    ensures server(s.page) == TransportError ==> Run(server, s) == Err(Transport)
    ensures server(s.page).Response? && IsSuccess(server(s.page).status) ==>
      (server(s.page).body == ReadError ==> Run(server, s) == Err(BodyRead)) &&
      (server(s.page).body == Unparsable ==> Run(server, s) == Err(Parse))
  { }

  /** A failed status ends the run successfully with the records gathered so far,
      which still reach the writer. */
  lemma FailedStatusKeepsRecords(server: int -> Reply, s: Loop)
    requires Running(s)
    requires server(s.page).Response? && !IsSuccess(server(s.page).status)
    ensures Run(server, s) == Ok(s)
  { }

  /**
   What a successfully parsed page leads to. A non-empty `jobs` array: its jobs,
   normalised in order, are appended and the loop goes on from the next page.
   An empty array: the run ends with no records added and the page unchanged
   (the body is left by `continue`). No `jobs` array at all: the run ends with
   no records added and the page advanced.
   */
  lemma PageOutcome(server: int -> Reply, s: Loop, response: Value)
    requires Running(s)
    requires server(s.page).Response? && IsSuccess(server(s.page).status)
    requires server(s.page).body == Parsed(response)
    ensures forall jobs :: JobsArray(response) == Some(jobs) && |jobs| > 0 ==>
      Run(server, s) == Run(server, Loop(s.page + 1, true, s.jobs + NormalizeAll(jobs)))
    ensures JobsArray(response) == Some([]) ==> Run(server, s) == Ok(Loop(s.page, false, s.jobs))
    ensures JobsArray(response) == None ==> Run(server, s) == Ok(Loop(s.page + 1, false, s.jobs))
  { }

  /**
   The whole fetch when page 1 parses: the jobs of its `jobs` array, normalised
   in order, or no records when the array is empty or absent. With a non-empty
   array the page reaches the limit and the loop ends there.
   */
  lemma FirstPage(server: int -> Reply, response: Value)
    requires server(1).Response? && IsSuccess(server(1).status) && server(1).body == Parsed(response)
    ensures forall jobs :: JobsArray(response) == Some(jobs) && |jobs| > 0 ==>
      Run(server, Start) == Ok(Loop(PageLimit, true, NormalizeAll(jobs)))
    ensures Crawl(server) == Ok(match JobsArray(response) case Some(jobs) => NormalizeAll(jobs) case None => [])
  {
    PageOutcome(server, Start, response);
    match JobsArray(response)
    case Some(jobs) =>
      if |jobs| > 0 {
        assert [] + NormalizeAll(jobs) == NormalizeAll(jobs);
      } else {
        assert jobs == [];
      }
    case None =>
  }
}
