/** The seeker's dashboard (`JobSeekerDashboard`): the three views of jobs (all open jobs
    with the location and category filters sent to the server, the matching jobs filtered
    locally, and the seeker's applications joined with the open jobs), and the filter
    options offered from what was listed. */
module SeekerDashboard {
  import opened Common
  import opened Records
  import Text

  const Origin := "http://localhost:8000"
  const AllValues := "all"
  const Unavailable := "Job no longer available"

  // ---------------------------------------------------------------- encodeURIComponent

  /** The characters `encodeURIComponent` leaves as they are. */
  predicate Unreserved(c: char)
  {
    ('A' <= c <= 'Z') || ('a' <= c <= 'z') || ('0' <= c <= '9') ||
    c == '-' || c == '_' || c == '.' || c == '!' || c == '~' || c == '*' || c == '\'' || c == '(' || c == ')'
  }

  predicate IsHexDigit(c: char)
  {
    ('0' <= c <= '9') || ('A' <= c <= 'F')
  }

  function HexDigit(d: nat): (c: char)
    requires d < 16
    ensures IsHexDigit(c)
  {
    if d < 10 then ('0' as int + d) as char else ('A' as int + d - 10) as char
  }

  predicate IsByte(b: int) { 0 <= b < 256 }

  /** The UTF-8 encoding of a code point (section 3.9 of the Unicode Standard). */
  function Utf8(n: nat): (r: seq<int>)
    requires n < 0x11_0000
    ensures 1 <= |r| <= 4 && forall i :: 0 <= i < |r| ==> IsByte(r[i])
    ensures |r| == 1 <==> n < 0x80
  {
    if n < 0x80 then [n]
    else if n < 0x800 then [0xC0 + n / 0x40, 0x80 + n % 0x40]
    else if n < 0x1_0000 then [0xE0 + n / 0x1000, 0x80 + (n / 0x40) % 0x40, 0x80 + n % 0x40]
    else [0xF0 + n / 0x4_0000, 0x80 + (n / 0x1000) % 0x40, 0x80 + (n / 0x40) % 0x40, 0x80 + n % 0x40]
  }

  /** Each byte as `%` followed by two upper-case hex digits. */
  function PercentBytes(bs: seq<int>): (r: string)
    requires forall i :: 0 <= i < |bs| ==> IsByte(bs[i])
    ensures |r| == 3 * |bs|
    ensures forall i :: 0 <= i < |r| ==> r[i] == '%' || IsHexDigit(r[i])
    decreases |bs|
  {
    if |bs| == 0 then ""
    else
      var b := bs[0];
      assert IsByte(b);
      ['%', HexDigit(b / 16), HexDigit(b % 16)] + PercentBytes(bs[1..])
  }

  function EncodeChar(c: char): (r: string)
    ensures forall i :: 0 <= i < |r| ==> Unreserved(r[i]) || r[i] == '%' || IsHexDigit(r[i])
    ensures Unreserved(c) ==> r == [c]
  {
    if Unreserved(c) then [c] else PercentBytes(Utf8(c as int))
  }

  /** `encodeURIComponent`: unreserved characters are kept and every other character becomes
      the percent-escapes of its UTF-8 bytes, so the result never holds a character that
      separates query parameters, and a string of unreserved characters is unchanged. */
  function EncodeComponent(s: string): (r: string)
    ensures forall i :: 0 <= i < |r| ==> Unreserved(r[i]) || r[i] == '%' || IsHexDigit(r[i])
    ensures '&' !in r && '=' !in r && '#' !in r
    ensures (forall i :: 0 <= i < |s| ==> Unreserved(s[i])) ==> r == s
    decreases |s|
  {
    if |s| == 0 then ""
    else
      var r := EncodeChar(s[0]) + EncodeComponent(s[1..]);
      assert forall i :: 0 <= i < |r| ==> Unreserved(r[i]) || r[i] == '%' || IsHexDigit(r[i]);
      assert (forall i :: 0 <= i < |s| ==> Unreserved(s[i])) ==> r == [s[0]] + s[1..];
      r
  }

  // ---------------------------------------------------------------- the available view

  const JobsQuery := Origin + "/jobs?"
  const StatusOpen := "status=open"
  const LocationKey := "location="
  const CategoryKey := "category="
  const Separator := "&"

  /** The query parameters of the available view: `status=open`, then each filter that is
      not "all", encoded. */
  function AvailableParams(location: string, category: string): (r: seq<string>)
    ensures |r| == 1 + (if location != AllValues then 1 else 0) + (if category != AllValues then 1 else 0)
    ensures r[0] == StatusOpen
    ensures location != AllValues ==> r[1] == LocationKey + EncodeComponent(location)
    ensures category != AllValues ==> r[|r| - 1] == CategoryKey + EncodeComponent(category)
    ensures forall i :: 0 <= i < |r| ==> '&' !in r[i]
  {
    KeysHoldNoSeparator();
    NoSeparatorInParam(LocationKey, EncodeComponent(location));
    NoSeparatorInParam(CategoryKey, EncodeComponent(category));
    var loc := if location != AllValues then [LocationKey + EncodeComponent(location)] else [];
    var cat := if category != AllValues then [CategoryKey + EncodeComponent(category)] else [];
    ConcatHoldsNoSeparator(StatusOpen, loc, cat);
    [StatusOpen] + loc + cat
  }

  lemma ConcatHoldsNoSeparator(first: string, loc: seq<string>, cat: seq<string>)
    requires '&' !in first
    requires forall i :: 0 <= i < |loc| ==> '&' !in loc[i]
    requires forall i :: 0 <= i < |cat| ==> '&' !in cat[i]
    ensures forall i :: 0 <= i < |[first] + loc + cat| ==> '&' !in ([first] + loc + cat)[i]
  {
    var r := [first] + loc + cat;
    forall i | 0 <= i < |r| ensures '&' !in r[i] {
      if i == 0 {
      } else if i <= |loc| {
        assert r[i] == loc[i - 1];
      } else {
        assert r[i] == cat[i - 1 - |loc|];
      }
    }
  }

  lemma KeysHoldNoSeparator()
    ensures '&' !in StatusOpen && '&' !in LocationKey && '&' !in CategoryKey
  {
  }

  lemma NoSeparatorInParam(key: string, value: string)
    requires '&' !in key && '&' !in value
    ensures '&' !in key + value
  {
  }

  /** The address of the available view, built as the page builds it: the base query, then
      `&location=…` and `&category=…` appended for the filters that are set. */
  method AvailableJobsUrl(location: string, category: string) returns (url: string)
    ensures url == JobsQuery + Text.Join(AvailableParams(location, category), Separator)
  {
    url := JobsQuery + StatusOpen;
    var locationPart := "";
    var categoryPart := "";
    if location != AllValues {
      locationPart := Separator + LocationKey + EncodeComponent(location);
      url := url + locationPart;
    }
    if category != AllValues {
      categoryPart := Separator + CategoryKey + EncodeComponent(category);
      url := url + categoryPart;
    }
    QueryOfParts(location, category, locationPart, categoryPart);
  }

  /** The pieces the page appends are the joined parameters, each preceded by `&`. */
  lemma QueryOfParts(location: string, category: string, locationPart: string, categoryPart: string)
    requires locationPart == if location != AllValues then Separator + LocationKey + EncodeComponent(location) else ""
    requires categoryPart == if category != AllValues then Separator + CategoryKey + EncodeComponent(category) else ""
    ensures JobsQuery + StatusOpen + locationPart + categoryPart ==
            JobsQuery + Text.Join(AvailableParams(location, category), Separator)
  {
    AppendedParams(JobsQuery, StatusOpen, LocationKey, CategoryKey, EncodeComponent(location), EncodeComponent(category),
                   Separator, location != AllValues, category != AllValues, locationPart, categoryPart,
                   AvailableParams(location, category));
  }

  lemma AppendedParams(prefix: string, s: string, lk: string, ck: string, lv: string, cv: string, sep: string,
                       hasL: bool, hasC: bool, lp: string, cp: string, params: seq<string>)
    requires params == [s] + (if hasL then [lk + lv] else []) + (if hasC then [ck + cv] else [])
    requires lp == if hasL then sep + lk + lv else []
    requires cp == if hasC then sep + ck + cv else []
    ensures prefix + s + lp + cp == prefix + Text.Join(params, sep)
  {
    var l, c := lk + lv, ck + cv;
    assert hasL ==> lp == sep + l;
    assert hasC ==> cp == sep + c;
    JoinedParams(s, l, c, hasL, hasC, sep, lp, cp);
  }

  /** Joining one, two or three parameters puts the separator before each one after the first. */
  lemma JoinedParams(s: string, l: string, c: string, hasL: bool, hasC: bool, sep: string, lp: string, cp: string)
    requires lp == if hasL then sep + l else []
    requires cp == if hasC then sep + c else []
    ensures Text.Join([s] + (if hasL then [l] else []) + (if hasC then [c] else []), sep) == s + lp + cp
  {
    if hasL && hasC {
      assert [s] + [l] + [c] == [s, l, c];
      assert [s, l, c][1..] == [l, c];
      assert [l, c][1..] == [c];
      assert Text.Join([l, c], sep) == l + sep + c;
      assert Text.Join([s, l, c], sep) == s + sep + (l + sep + c);
    } else if hasL {
      assert [s] + [l] + [] == [s, l];
      assert [s, l][1..] == [l];
      assert Text.Join([s, l], sep) == s + sep + l;
    } else if hasC {
      assert [s] + [] + [c] == [s, c];
      assert [s, c][1..] == [c];
      assert Text.Join([s, c], sep) == s + sep + c;
    } else {
      assert [s] + [] + [] == [s];
    }
  }

  /** The server receives exactly the parameters of the view: splitting the query of the
      address at `&` gives back `status=open` and the filters that are set, because the
      encoded values hold no `&`. */
  lemma AvailableUrlParameters(location: string, category: string)
    ensures Text.Split(Text.Join(AvailableParams(location, category), Separator), '&') == AvailableParams(location, category)
  {
    assert Separator == ['&'];
    Text.JoinThenSplit(AvailableParams(location, category), '&');
  }

  // ---------------------------------------------------------------- the matching view

  function AtLocation(location: string): Job -> bool { (j: Job) => j.location == location }

  function InCategory(category: string): Job -> bool { (j: Job) => j.category == category }

  /** A job passes the location filter when the filter is "all" or names its location. */
  function LocationPasses(location: string): Job -> bool
  {
    (j: Job) => location == AllValues || j.location == location
  }

  function CategoryPasses(category: string): Job -> bool
  {
    (j: Job) => category == AllValues || j.category == category
  }

  /** The matching view narrows the server's matching jobs by location, then by category,
      skipping a filter set to "all"; the result is the jobs passing both filters, in the
      server's order. */
  method MatchingView(jobs: seq<Job>, location: string, category: string) returns (r: seq<Job>)
    ensures r == Filter(jobs, Both(LocationPasses(location), CategoryPasses(category)))
    ensures forall j :: j in r <==> j in jobs && (location != AllValues ==> j.location == location) &&
                                    (category != AllValues ==> j.category == category)
  {
    r := jobs;
    if location != AllValues {
      r := Filter(r, AtLocation(location));
      FilterExt(jobs, AtLocation(location), LocationPasses(location));
    } else {
      FilterAll(jobs, LocationPasses(location));
    }
    assert r == Filter(jobs, LocationPasses(location));
    var before := r;
    if category != AllValues {
      r := Filter(r, InCategory(category));
      FilterExt(before, InCategory(category), CategoryPasses(category));
    } else {
      FilterAll(before, CategoryPasses(category));
    }
    FilterFilter(jobs, LocationPasses(location), CategoryPasses(category));
  }

  // ---------------------------------------------------------------- the applications view

  /** An entry of the listing: a job as the server sent it, or the placeholder standing in
      for a job that is no longer open, with the status of the seeker's application in the
      applications view. */
  datatype Listing =
    | Listed(job: Job, applicationStatus: Option<string>)
    | Placeholder(jobId: Id, applicationStatus: Option<string>)
  {
    function Id(): Id { if Listed? then job.id else jobId }
    function Title(): string { if Listed? then job.title else Unavailable }
    function Status(): string { if Listed? then job.status else "unknown" }
    function Location(): string { if Listed? then job.location else "" }
    function Category(): string { if Listed? then job.category else "" }
  }

  function Plain(jobs: seq<Job>): (r: seq<Listing>)
    ensures |r| == |jobs| && forall i :: 0 <= i < |jobs| ==> r[i] == Listed(jobs[i], None)
  {
    seq(|jobs|, i requires 0 <= i < |jobs| => Listed(jobs[i], None))
  }

  /** One entry per application, in order: the first open job with the application's job id,
      or the placeholder when no open job has it, tagged with the application's status. */
  function JoinApplications(apps: seq<Application>, open: seq<Job>): (r: seq<Listing>)
    ensures |r| == |apps|
    ensures forall i :: 0 <= i < |apps| ==>
      r[i].Id() == apps[i].jobId && r[i].applicationStatus == Some(apps[i].status)
    ensures forall i :: 0 <= i < |apps| ==>
      (r[i].Placeholder? <==> forall k :: 0 <= k < |open| ==> open[k].id != apps[i].jobId)
    ensures forall i :: 0 <= i < |apps| && r[i].Listed? ==>
      exists k :: 0 <= k < |open| && open[k] == r[i].job && forall m :: 0 <= m < k ==> open[m].id != apps[i].jobId
  {
    seq(|apps|, i requires 0 <= i < |apps| =>
      match Find(open, (j: Job) => j.id == apps[i].jobId)
      case Some(job) => Listed(job, Some(apps[i].status))
      case None => Placeholder(apps[i].jobId, Some(apps[i].status)))
  }

  // ---------------------------------------------------------------- filter options

  function NonEmpty(s: string): bool { s != "" }

  /** `["all", ...new Set(values.filter(Boolean))]`: "all" first, then each non-empty value
      once, in order of first appearance. */
  function FilterOptions(values: seq<string>): (r: seq<string>)
    ensures |r| >= 1 && r[0] == AllValues
    ensures forall x :: x in r[1..] <==> x in values && x != ""
    ensures NoDuplicates(r[1..])
    ensures forall i, j :: 1 <= i < j < |r| ==> OccursBefore(values, r[i], r[j])
  {
    DistinctFilterInOrder(values, NonEmpty);
    [AllValues] + Distinct(Filter(values, NonEmpty))
  }

  /** A listed value that is literally "all" is offered twice. */
  lemma AllOfferedTwice(values: seq<string>)
    requires AllValues in values
    ensures !NoDuplicates(FilterOptions(values))
  {
    var r := FilterOptions(values);
    assert AllValues in r[1..];
    var k :| 0 <= k < |r[1..]| && r[1..][k] == AllValues;
    assert r[0] == r[k + 1];
  }

  function Locations(entries: seq<Listing>): (r: seq<string>)
    ensures |r| == |entries| && forall i :: 0 <= i < |entries| ==> r[i] == entries[i].Location()
  {
    seq(|entries|, i requires 0 <= i < |entries| => entries[i].Location())
  }

  function Categories(entries: seq<Listing>): (r: seq<string>)
    ensures |r| == |entries| && forall i :: 0 <= i < |entries| ==> r[i] == entries[i].Category()
  {
    seq(|entries|, i requires 0 <= i < |entries| => entries[i].Category())
  }

  /** Placeholders never add a location or a category to the options. */
  lemma PlaceholdersAddNoOption(apps: seq<Application>, open: seq<Job>, x: string)
    requires x in FilterOptions(Locations(JoinApplications(apps, open)))[1..]
    ensures exists i :: 0 <= i < |open| && open[i].location == x
  {
    var entries := JoinApplications(apps, open);
    var i :| 0 <= i < |entries| && Locations(entries)[i] == x;
    assert entries[i].Listed?;
    var k :| 0 <= k < |open| && open[k] == entries[i].job;
  }

  // ---------------------------------------------------------------- the page state

  /** The page's state: the listed entries, the seeker's applications and the options of
      the two filters. */
  class SeekerDashboardState {
    var entries: seq<Listing>
    var applications: seq<Application>
    var locations: seq<string>
    var categories: seq<string>

    constructor ()
      ensures entries == [] && applications == [] && locations == [AllValues] && categories == [AllValues]
    {
      entries := [];
      applications := [];
      locations := [AllValues];
      categories := [AllValues];
    }

    /** Replaces the entries and recomputes both option lists from them. */
    method Show(data: seq<Listing>)
      modifies this
      ensures entries == data && applications == old(applications)
      ensures locations == FilterOptions(Locations(data)) && categories == FilterOptions(Categories(data))
    {
      entries := data;
      locations := FilterOptions(Locations(data));
      categories := FilterOptions(Categories(data));
    }

    /** `fetchData` for one view: `jobsReply` answers the view's job request (the open jobs in
        the applications view) and `appsReply` the applications request. A failed request
        empties the entries and keeps the options. */
    method FetchData(view: string, location: string, category: string,
                     jobsReply: Http<seq<Job>>, appsReply: Http<seq<Application>>)
      returns (url: string)
      modifies this
      ensures view == "available" ==> url == JobsQuery + Text.Join(AvailableParams(location, category), Separator)
      ensures view == "available" && jobsReply.Reply? ==> entries == Plain(jobsReply.body)
      ensures view == "matching" ==> url == Origin + "/jobs/matching"
      ensures view == "matching" && jobsReply.Reply? ==>
        entries == Plain(Filter(jobsReply.body, Both(LocationPasses(location), CategoryPasses(category))))
      ensures view != "available" && view != "matching" ==> url == Origin + "/applications/seeker"
      ensures view != "available" && view != "matching" && appsReply.Reply? ==>
        applications == appsReply.body &&
        (jobsReply.Reply? ==> entries == JoinApplications(appsReply.body, jobsReply.body))
      ensures (view == "available" || view == "matching" || appsReply.HttpError?) ==> applications == old(applications)
      ensures jobsReply.HttpError? || (view != "available" && view != "matching" && appsReply.HttpError?) ==>
        entries == [] && locations == old(locations) && categories == old(categories)
      ensures !(jobsReply.HttpError? || (view != "available" && view != "matching" && appsReply.HttpError?)) ==>
        locations == FilterOptions(Locations(entries)) && categories == FilterOptions(Categories(entries))
    {
      var data: Option<seq<Listing>> := None;
      if view == "available" {
        url := AvailableJobsUrl(location, category);
        if jobsReply.Reply? {
          data := Some(Plain(jobsReply.body));
        }
      } else if view == "matching" {
        url := Origin + "/jobs/matching";
        if jobsReply.Reply? {
          var matching := MatchingView(jobsReply.body, location, category);
          data := Some(Plain(matching));
        }
      } else {
        url := Origin + "/applications/seeker";
        if appsReply.Reply? {
          applications := appsReply.body;
          if jobsReply.Reply? {
            data := Some(JoinApplications(appsReply.body, jobsReply.body));
          }
        }
      }
      if data.Some? {
        Show(data.value);
      } else {
        entries := [];
      }
    }
  }
}
