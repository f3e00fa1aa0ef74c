/**
 The flat job record and the normaliser that builds one from a raw job object
 of the search API. The normaliser is total: every missing key, every value of
 the wrong kind and every job that is not an object degrades to an empty field.
 */
module Postings {
  import opened Wrappers
  import opened Json

  /** The output record: nine string fields, none ever absent. The last one is
      serialised under the name `date_posted`. */
  datatype JobPosting = JobPosting(
    id: string,
    title: string,
    location: string,
    description: string,
    qualifications: string,
    responsibilities: string,
    company: string,
    url: string,
    datePosted: string)

  /** The one data source, named in every record. */
  const Company: string := "Google"

  /** A record's url is this prefix followed by its id. */
  const UrlPrefix: string := "https://careers.google.com/jobs/results/"

  /** Placed between the entries of `locations`. */
  const LocationSeparator: string := ", "

  /** `as_str().unwrap_or("")`: the text of a string value, `""` for any other kind. */
  function TextOr(v: Value): (r: string)
    ensures v.Str? ==> r == v.text
    ensures !v.Str? ==> r == ""
  {
    AsStr(v).GetOr("")
  }

  /** The text of each item, `""` for an item that is not a string. */
  function Texts(items: seq<Value>): (r: seq<string>)
    ensures |r| == |items|
    ensures forall i :: 0 <= i < |items| && items[i].Str? ==> r[i] == items[i].text
    ensures forall i :: 0 <= i < |items| && !items[i].Str? ==> r[i] == ""
  {
    seq(|items|, i requires 0 <= i < |items| => TextOr(items[i]))
  }

  // ---------------------------------------------------------------------------
  // Joining strings with a separator

  /** Rust's `join`: the parts in order with `sep` between neighbours; `""` for no parts. */
  function Join(parts: seq<string>, sep: string): string {
    if |parts| == 0 then ""
    else if |parts| == 1 then parts[0]
    else parts[0] + sep + Join(parts[1..], sep)
  }

  /** Total length of the parts. */
  function Width(parts: seq<string>): nat {
    if |parts| == 0 then 0 else |parts[0]| + Width(parts[1..])
  }

  /** Where part `k` begins in `Join(parts, sep)`: after each of the `k` earlier
      parts and the separator behind it. */
  function Offset(parts: seq<string>, sep: string, k: nat): nat
    requires k <= |parts|
  {
    if k == 0 then 0 else |parts[0]| + |sep| + Offset(parts[1..], sep, k - 1)
  }

  /** The length of a join: every part plus one separator between each two neighbours. */
  lemma {:induction false} JoinLength(parts: seq<string>, sep: string)
    ensures |parts| == 0 ==> |Join(parts, sep)| == 0
    ensures |parts| > 0 ==> |Join(parts, sep)| == Width(parts) + (|parts| - 1) * |sep|
  {
    if |parts| > 1 {
      JoinLength(parts[1..], sep);
    }
  }

  /** A slice inside the left operand of a concatenation. */
  lemma SliceOfLeft(a: string, b: string, x: nat, y: nat)
    requires x <= y <= |a|
    ensures (a + b)[x..y] == a[x..y]
  { }

  /** A slice inside the right operand of a concatenation. */
  lemma SliceOfRight(a: string, b: string, x: nat, y: nat)
    requires x <= y <= |b|
    ensures (a + b)[|a| + x..|a| + y] == b[x..y]
  { }

  /**
   Where each part and each separator sits in a join: part `k` occupies the
   characters from `Offset(parts, sep, k)` on, and unless it is the last part
   it is followed by exactly `sep`, which ends where part `k + 1` begins.
   Together with JoinLength this pins down every character of the result.
   */
  lemma {:induction false} JoinAt(parts: seq<string>, sep: string, k: nat)
    requires k < |parts|
    ensures |Join(parts, sep)| >= Offset(parts, sep, k) + |parts[k]|
    ensures Join(parts, sep)[Offset(parts, sep, k)..Offset(parts, sep, k) + |parts[k]|] == parts[k]
    ensures k + 1 < |parts| ==>
      Offset(parts, sep, k + 1) == Offset(parts, sep, k) + |parts[k]| + |sep| &&
      |Join(parts, sep)| >= Offset(parts, sep, k + 1) &&
      Join(parts, sep)[Offset(parts, sep, k) + |parts[k]|..Offset(parts, sep, k + 1)] == sep
  {
    if |parts| == 1 {
      assert Join(parts, sep)[0..|parts[0]|] == parts[0];
    } else {
      var head := parts[0] + sep;
      var rest := Join(parts[1..], sep);
      assert Join(parts, sep) == head + rest;
      if k == 0 {
        SliceOfLeft(head, rest, 0, |parts[0]|);
        SliceOfLeft(head, rest, |parts[0]|, |head|);
        assert head[0..|parts[0]|] == parts[0];
        assert head[|parts[0]|..|head|] == sep;
      } else {
        JoinAt(parts[1..], sep, k - 1);
        var o := Offset(parts[1..], sep, k - 1);
        SliceOfRight(head, rest, o, o + |parts[k]|);
        if k + 1 < |parts| {
          SliceOfRight(head, rest, o + |parts[k]|, Offset(parts[1..], sep, k));
        }
      }
    }
  }

  /** Joining one more part: the old join, a separator, the new part. */
  lemma {:induction false} JoinSnoc(parts: seq<string>, p: string, sep: string)
    requires |parts| > 0
    ensures Join(parts + [p], sep) == Join(parts, sep) + sep + p
  {
    if |parts| > 1 {
      assert (parts + [p])[1..] == parts[1..] + [p];
      JoinSnoc(parts[1..], p, sep);
    } else {
      assert (parts + [p])[1..] == [p];
    }
  }

  // ---------------------------------------------------------------------------
  // The url and its inverse

  /** The id a record url names, or nothing when `u` is not a record url. */
  function IdOfUrl(u: string): Option<string> {
    if |UrlPrefix| <= |u| && u[..|UrlPrefix|] == UrlPrefix then Some(u[|UrlPrefix|..]) else None
  }

  /** A record url and its id determine each other. */
  lemma UrlRoundTrip(id: string, u: string)
    ensures IdOfUrl(UrlPrefix + id) == Some(id)
    ensures IdOfUrl(u) == Some(id) ==> u == UrlPrefix + id
  { }

  // ---------------------------------------------------------------------------
  // The normaliser

  /**
   One raw job object to one record. Total: it is defined on every JSON value.
   The company is the fixed data source, and the url is derived from the
   record's own id, so a record's url always names that record.
   */
  function Normalize(job: Value): (r: JobPosting)
    ensures r.company == Company
    ensures IdOfUrl(r.url) == Some(r.id)
  {
    var id := TextOr(Index(job, "id"));
    UrlRoundTrip(id, UrlPrefix + id);
    JobPosting(
      id := id,
      title := TextOr(Index(job, "title")),
      location := match AsArray(Index(job, "locations"))
                  case Some(items) => Join(Texts(items), LocationSeparator)
                  case None => "",
      description := TextOr(Index(Index(job, "description"), "content")),
      qualifications := TextOr(Index(Index(job, "qualifications"), "content")),
      responsibilities := TextOr(Index(Index(job, "responsibilities"), "content")),
      company := Company,
      url := UrlPrefix + id,
      datePosted := TextOr(Index(job, "posted_date")))
  }

  /** `f` applied to each element, in order, built one element at a time from the back. */
  function MapSeq<A, B>(f: A -> B, xs: seq<A>): (r: seq<B>)
    ensures |r| == |xs|
    ensures forall i :: 0 <= i < |xs| ==> r[i] == f(xs[i])
  {
    if |xs| == 0 then []
    else
      var front := xs[..|xs| - 1];
      assert forall i :: 0 <= i < |front| ==> front[i] == xs[i];
      MapSeq(f, front) + [f(xs[|xs| - 1])]
  }

  /** Every job of an array, normalised, in order: one record per job, the
      record at each position built from the job at that position. */
  function NormalizeAll(jobs: seq<Value>): (r: seq<JobPosting>)
    ensures |r| == |jobs|
    ensures forall i :: 0 <= i < |jobs| ==> r[i] == Normalize(jobs[i])
  {
    MapSeq(Normalize, jobs)
  }

  /** A one-level string field: the member's text if it is a string, `""` otherwise. */
  lemma TextField(job: Value, key: string)
    ensures forall s :: Binding(job, key, Str(s)) ==> TextOr(Index(job, key)) == s
    ensures !HasText(job, key) ==> TextOr(Index(job, key)) == ""
  { }

  /** A two-level string field: the inner member's text when both levels exist and
      the inner member is a string, `""` otherwise. */
  lemma NestedTextField(job: Value, outer: string, inner: string)
    ensures forall o, s :: Binding(job, outer, o) && Binding(o, inner, Str(s)) ==>
      TextOr(Index(Index(job, outer), inner)) == s
    ensures !HasNestedText(job, outer, inner) ==> TextOr(Index(Index(job, outer), inner)) == ""
  { }

  /**
   `id`, `title` and `date_posted` are the job's strings under `id`, `title` and
   `posted_date`, and `""` where that member is missing or not a string, or the
   job is not an object. The url is the prefix followed by that same id, so a
   job without an id string gets the bare prefix with its trailing slash.
   */
  lemma ScalarFields(job: Value)
    ensures forall s :: Binding(job, "id", Str(s)) ==>
      Normalize(job).id == s && Normalize(job).url == UrlPrefix + s
    ensures !HasText(job, "id") ==> Normalize(job).id == "" && Normalize(job).url == UrlPrefix
    ensures forall s :: Binding(job, "title", Str(s)) ==> Normalize(job).title == s
    ensures !HasText(job, "title") ==> Normalize(job).title == ""
    ensures forall s :: Binding(job, "posted_date", Str(s)) ==> Normalize(job).datePosted == s
    ensures !HasText(job, "posted_date") ==> Normalize(job).datePosted == ""
  {
    TextField(job, "id");
    TextField(job, "title");
    TextField(job, "posted_date");
  }

  /**
   `description`, `qualifications` and `responsibilities` are the string under
   `content` inside the member of that name, and `""` when either level is
   missing, the outer member is not an object or the inner one not a string.
   */
  lemma ContentFields(job: Value)
    ensures forall o, s :: Binding(job, "description", o) && Binding(o, "content", Str(s)) ==>
      Normalize(job).description == s
    ensures !HasNestedText(job, "description", "content") ==> Normalize(job).description == ""
    ensures forall o, s :: Binding(job, "qualifications", o) && Binding(o, "content", Str(s)) ==>
      Normalize(job).qualifications == s
    ensures !HasNestedText(job, "qualifications", "content") ==> Normalize(job).qualifications == ""
    ensures forall o, s :: Binding(job, "responsibilities", o) && Binding(o, "content", Str(s)) ==>
      Normalize(job).responsibilities == s
    ensures !HasNestedText(job, "responsibilities", "content") ==> Normalize(job).responsibilities == ""
  {
    NestedTextField(job, "description", "content");
    NestedTextField(job, "qualifications", "content");
    NestedTextField(job, "responsibilities", "content");
  }

  /**
   `location` is the join, with `", "`, of the texts of the `locations` items, an
   item that is not a string counting as `""`; it is `""` when `locations` is
   missing or not an array.
   */
  lemma LocationField(job: Value)
    ensures forall items :: Binding(job, "locations", Arr(items)) ==>
      Normalize(job).location == Join(Texts(items), ", ")
    ensures !HasArray(job, "locations") ==> Normalize(job).location == ""
  {
    var v := Index(job, "locations");
    forall items | Binding(job, "locations", Arr(items))
      ensures Normalize(job).location == Join(Texts(items), ", ")
    {
      BindingUnique(job, "locations", Arr(items), v);
    }
  }

  // ---------------------------------------------------------------------------
  // Worked examples

  /** The location of a job whose only member is `locations`. */
  lemma OnlyLocations(items: seq<Value>)
    ensures Normalize(Obj([("locations", Arr(items))])).location == Join(Texts(items), ", ")
  { }

  /** Two locations are joined with a comma and a space. */
  lemma LocationExample()
    ensures Normalize(Obj([("locations", Arr([Str("Mountain View, CA"), Str("New York, NY")]))])).location
      == "Mountain View, CA, New York, NY"
  {
    var items := [Str("Mountain View, CA"), Str("New York, NY")];
    OnlyLocations(items);
    var parts := Texts(items);
    assert parts == ["Mountain View, CA", "New York, NY"];
    assert parts[1..] == ["New York, NY"];
    assert Join(parts, ", ") == "Mountain View, CA" + ", " + "New York, NY";
  }

  /** A job holding only an id and a title: every other field but company and url is empty. */
  lemma SparseJobExample()
    ensures Normalize(Obj([("id", Str("12345")), ("title", Str("Engineer"))])) ==
      JobPosting("12345", "Engineer", "", "", "", "", "Google",
                 "https://careers.google.com/jobs/results/12345", "")
  {
    var job := Obj([("id", Str("12345")), ("title", Str("Engineer"))]);
    assert Index(job, "id") == Str("12345");
    assert Index(job, "title") == Str("Engineer");
    assert Index(job, "locations") == Null;
    assert Index(job, "description") == Null;
    assert Index(job, "qualifications") == Null;
    assert Index(job, "responsibilities") == Null;
    assert Index(job, "posted_date") == Null;
  }
}
