/** The client's job cache (`JobContext`): the lists of jobs and applications and
    the applications grouped by job, the merges and groupings that fill them from
    server replies, and the local replay of apply, select and complete. */
module JobContext {
  import opened Common
  import opened Records
  import ServerRules

  /** What an operation throws: its own refusal, or the request's error passed on. */
  datatype Thrown = Refused(message: string) | Rethrown(status: Option<int>)

  /** How an `async` operation settles. */
  datatype Completion<T> = Returns(value: T) | Throws(error: Thrown)

  // ---------------------------------------------------------------- merge by id

  function JobKey(j: Job): Id { j.id }
  function ApplicationKey(a: Application): Id { a.id }

  /** The position of the first entry with key `k`, or -1. */
  function KeyIndex<T>(s: seq<T>, k: Id, key: T -> Id): (i: int)
    ensures -1 <= i < |s|
    ensures 0 <= i ==> key(s[i]) == k && forall j :: 0 <= j < i ==> key(s[j]) != k
    ensures i < 0 ==> forall j :: 0 <= j < |s| ==> key(s[j]) != k
    decreases |s|
  {
    if |s| == 0 then -1
    else if key(s[0]) == k then 0
    else
      var j := KeyIndex(s[1..], k, key);
      if j < 0 then -1 else j + 1
  }

  /** `m.set(key(x), x)` on a JavaScript `Map`, listed in insertion order: the entry with the
      same key is replaced where it stands, otherwise `x` is appended. */
  function Upsert<T>(s: seq<T>, x: T, key: T -> Id): (r: seq<T>)
    ensures Keys(r, key) == if key(x) in Keys(s, key) then Keys(s, key) else Keys(s, key) + [key(x)]
    ensures x in r
    ensures forall i :: 0 <= i < |s| && key(s[i]) != key(x) ==> r[i] == s[i]
  {
    var i := KeyIndex(s, key(x), key);
    if i < 0 then
      assert key(x) !in Keys(s, key);
      s + [x]
    else
      assert Keys(s, key)[i] == key(x);
      s[i := x]
  }

  /** `xs.forEach((x) => m.set(key(x), x))`. */
  function UpsertAll<T>(s: seq<T>, xs: seq<T>, key: T -> Id): seq<T>
    decreases |xs|
  {
    if |xs| == 0 then s else Upsert(UpsertAll(s, xs[..|xs| - 1], key), xs[|xs| - 1], key)
  }

  /** `Array.from(new Map([...prev, ...fetched].map((x) => [key(x), x])).values())`. */
  function Merged<T>(prev: seq<T>, fetched: seq<T>, key: T -> Id): seq<T>
  {
    UpsertAll(UpsertAll([], prev, key), fetched, key)
  }

  /** The keys already present keep their places; keys not seen before are appended. */
  lemma {:induction false} UpsertAllKeys<T>(s: seq<T>, xs: seq<T>, key: T -> Id)
    ensures |s| <= |UpsertAll(s, xs, key)|
    ensures Keys(UpsertAll(s, xs, key), key)[..|s|] == Keys(s, key)
    ensures forall k :: k in Keys(UpsertAll(s, xs, key), key) <==> k in Keys(s, key) || k in Keys(xs, key)
    ensures NoDuplicates(Keys(s, key)) ==> NoDuplicates(Keys(UpsertAll(s, xs, key), key))
    decreases |xs|
  {
    if |xs| > 0 {
      var init := xs[..|xs| - 1];
      UpsertAllKeys(s, init, key);
      var t := UpsertAll(s, init, key);
      var x := xs[|xs| - 1];
      assert Keys(xs, key) == Keys(init, key) + [key(x)];
      if key(x) !in Keys(t, key) {
        assert Keys(t, key) + [key(x)] == Keys(UpsertAll(s, xs, key), key);
        assert (Keys(t, key) + [key(x)])[..|s|] == Keys(t, key)[..|s|];
      }
    }
  }

  /** An entry whose key is never fetched stays as it is. */
  lemma {:induction false} UpsertAllKeepsOthers<T>(s: seq<T>, xs: seq<T>, key: T -> Id, i: int)
    requires 0 <= i < |s| && key(s[i]) !in Keys(xs, key)
    ensures i < |UpsertAll(s, xs, key)| && UpsertAll(s, xs, key)[i] == s[i]
    decreases |xs|
  {
    if |xs| > 0 {
      var init := xs[..|xs| - 1];
      assert Keys(xs, key) == Keys(init, key) + [key(xs[|xs| - 1])];
      UpsertAllKeepsOthers(s, init, key, i);
      UpsertAllKeys(s, init, key);
    }
  }

  /** The last fetched entry with a given key is in the result. */
  lemma {:induction false} UpsertAllTakesFetched<T>(s: seq<T>, xs: seq<T>, key: T -> Id, j: int)
    requires 0 <= j < |xs|
    requires forall l :: j < l < |xs| ==> key(xs[l]) != key(xs[j])
    ensures xs[j] in UpsertAll(s, xs, key)
    decreases |xs|
  {
    var init := xs[..|xs| - 1];
    var x := xs[|xs| - 1];
    if j < |xs| - 1 {
      UpsertAllTakesFetched(s, init, key, j);
      var t := UpsertAll(s, init, key);
      var p :| 0 <= p < |t| && t[p] == xs[j];
      assert Upsert(t, x, key)[p] == xs[j];
    }
  }

  /** Replaying a list whose keys are distinct gives the list back. */
  lemma {:induction false} UpsertAllFromEmpty<T>(prev: seq<T>, key: T -> Id)
    requires NoDuplicates(Keys(prev, key))
    ensures UpsertAll([], prev, key) == prev
    decreases |prev|
  {
    if |prev| > 0 {
      var init := prev[..|prev| - 1];
      assert Keys(init, key) == Keys(prev, key)[..|prev| - 1];
      UpsertAllFromEmpty(init, key);
      assert key(prev[|prev| - 1]) !in Keys(init, key);
      assert init + [prev[|prev| - 1]] == prev;
    }
  }

  /** Merging fetched items into a list with distinct keys: keys stay distinct, the existing
      items keep their places, an existing item whose key is not fetched is unchanged, the last
      fetched item of each key is present, and the items after the existing ones are the
      fetched items with new keys. */
  lemma MergedSpec<T>(prev: seq<T>, fetched: seq<T>, key: T -> Id)
    requires NoDuplicates(Keys(prev, key))
    ensures NoDuplicates(Keys(Merged(prev, fetched, key), key))
    ensures |prev| <= |Merged(prev, fetched, key)|
    ensures forall i :: 0 <= i < |prev| ==> key(Merged(prev, fetched, key)[i]) == key(prev[i])
    ensures forall i :: 0 <= i < |prev| && key(prev[i]) !in Keys(fetched, key) ==> Merged(prev, fetched, key)[i] == prev[i]
    ensures forall j :: 0 <= j < |fetched| && (forall l :: j < l < |fetched| ==> key(fetched[l]) != key(fetched[j])) ==>
      fetched[j] in Merged(prev, fetched, key)
    ensures forall i :: |prev| <= i < |Merged(prev, fetched, key)| ==>
      key(Merged(prev, fetched, key)[i]) in Keys(fetched, key) && key(Merged(prev, fetched, key)[i]) !in Keys(prev, key)
  {
    var r := Merged(prev, fetched, key);
    UpsertAllFromEmpty(prev, key);
    UpsertAllKeys(prev, fetched, key);
    forall i | 0 <= i < |prev| && key(prev[i]) !in Keys(fetched, key)
      ensures r[i] == prev[i]
    {
      UpsertAllKeepsOthers(prev, fetched, key, i);
    }
    forall j | 0 <= j < |fetched| && (forall l :: j < l < |fetched| ==> key(fetched[l]) != key(fetched[j]))
      ensures fetched[j] in r
    {
      UpsertAllTakesFetched(prev, fetched, key, j);
    }
    forall i | |prev| <= i < |r|
      ensures key(r[i]) in Keys(fetched, key) && key(r[i]) !in Keys(prev, key)
    {
      assert Keys(r, key)[i] == key(r[i]);
      assert key(r[i]) !in Keys(r, key)[..|prev|];
    }
  }

  /** The merge of `getProviderJobs`, `getMatchingJobs` and `getJobApplications`: the existing
      items go into a `Map` by id, then every fetched item is set. */
  method MergeById<T>(prev: seq<T>, fetched: seq<T>, key: T -> Id) returns (r: seq<T>)
    ensures r == Merged(prev, fetched, key)
  {
    r := [];
    var i := 0;
    while i < |prev|
      invariant 0 <= i <= |prev|
      invariant r == UpsertAll([], prev[..i], key)
    {
      assert prev[..i + 1][..i] == prev[..i];
      r := Upsert(r, prev[i], key);
      i := i + 1;
    }
    assert prev[..i] == prev;
    var j := 0;
    while j < |fetched|
      invariant 0 <= j <= |fetched|
      invariant r == UpsertAll(UpsertAll([], prev, key), fetched[..j], key)
    {
      assert fetched[..j + 1][..j] == fetched[..j];
      r := Upsert(r, fetched[j], key);
      j := j + 1;
    }
    assert fetched[..j] == fetched;
  }

  // ---------------------------------------------------------------- grouping by job

  function OnJob(job: Id): Application -> bool
  {
    (a: Application) => a.jobId == job
  }

  function JobIdsOf(apps: seq<Application>): (r: seq<Id>)
    ensures |r| == |apps| && forall i :: 0 <= i < |apps| ==> r[i] == apps[i].jobId
  {
    seq(|apps|, i requires 0 <= i < |apps| => apps[i].jobId)
  }

  lemma NoApplicationsForJob(apps: seq<Application>, job: Id)
    requires job !in JobIdsOf(apps)
    ensures Filter(apps, OnJob(job)) == []
  {
    forall i | 0 <= i < |apps|
      ensures !OnJob(job)(apps[i])
    {
      assert JobIdsOf(apps)[i] == apps[i].jobId;
    }
    FilterNone(apps, OnJob(job));
  }

  /** The grouping loop of `getSeekerApplications`: one bucket per job id that occurs, holding
      exactly the applications for that job in their original order. */
  method GroupByJob(apps: seq<Application>) returns (buckets: map<Id, seq<Application>>)
    ensures forall k :: k in buckets <==> k in JobIdsOf(apps)
    ensures forall k :: k in buckets ==> buckets[k] == Filter(apps, OnJob(k))
  {
    buckets := map[];
    var i := 0;
    while i < |apps|
      invariant 0 <= i <= |apps|
      invariant forall k :: k in buckets <==> k in JobIdsOf(apps[..i])
      invariant forall k :: k in buckets ==> buckets[k] == Filter(apps[..i], OnJob(k))
    {
      var app := apps[i];
      assert apps[..i + 1] == apps[..i] + [app];
      assert JobIdsOf(apps[..i + 1]) == JobIdsOf(apps[..i]) + [app.jobId];
      forall k
        ensures Filter(apps[..i + 1], OnJob(k)) == Filter(apps[..i], OnJob(k)) + (if app.jobId == k then [app] else [])
      {
        FilterAppend(apps[..i], [app], OnJob(k));
      }
      if app.jobId !in buckets {
        NoApplicationsForJob(apps[..i], app.jobId);
        buckets := buckets[app.jobId := []];
      }
      buckets := buckets[app.jobId := buckets[app.jobId] + [app]];
      i := i + 1;
    }
    assert apps[..i] == apps;
  }

  /** The total size of the buckets for the job ids `ks`. */
  function BucketTotal(apps: seq<Application>, ks: seq<Id>): nat
    decreases |ks|
  {
    if |ks| == 0 then 0 else BucketTotal(apps, ks[..|ks| - 1]) + |Filter(apps, OnJob(ks[|ks| - 1]))|
  }

  lemma {:induction false} BucketTotalAppend(p: seq<Application>, x: Application, ks: seq<Id>)
    requires NoDuplicates(ks)
    ensures BucketTotal(p + [x], ks) == BucketTotal(p, ks) + (if x.jobId in ks then 1 else 0)
    decreases |ks|
  {
    if |ks| > 0 {
      var init := ks[..|ks| - 1];
      var k := ks[|ks| - 1];
      assert ks == init + [k];
      assert NoDuplicates(init);
      BucketTotalAppend(p, x, init);
      FilterAppend(p, [x], OnJob(k));
      SingletonFilterSize(x, k);
      assert x.jobId in ks <==> x.jobId in init || x.jobId == k;
      assert x.jobId == k ==> x.jobId !in init;
    }
  }

  lemma SingletonFilterSize(x: Application, k: Id)
    ensures |Filter([x], OnJob(k))| == if x.jobId == k then 1 else 0
  {
    assert [x][1..] == [];
  }

  /** Every application lands in exactly one bucket, so the bucket sizes add up to the
      number of applications. */
  lemma {:induction false} BucketSizesSum(apps: seq<Application>)
    ensures BucketTotal(apps, Distinct(JobIdsOf(apps))) == |apps|
    decreases |apps|
  {
    if |apps| > 0 {
      var p := apps[..|apps| - 1];
      var x := apps[|apps| - 1];
      assert apps == p + [x];
      assert JobIdsOf(apps)[..|apps| - 1] == JobIdsOf(p);
      BucketSizesSum(p);
      var d := Distinct(JobIdsOf(p));
      BucketTotalAppend(p, x, d);
      if x.jobId !in d {
        assert Distinct(JobIdsOf(apps)) == d + [x.jobId];
        assert (d + [x.jobId])[..|d|] == d;
        NoApplicationsForJob(p, x.jobId);
        FilterAppend(p, [x], OnJob(x.jobId));
      }
    }
  }

  // ---------------------------------------------------------------- local replays

  /** The `applications` update of `selectApplicant`: the chosen application becomes selected,
      the other applications for the same job rejected, the rest unchanged. */
  function LocalCascade(apps: seq<Application>, chosen: Id, job: Id): (r: seq<Application>)
    ensures |r| == |apps|
    ensures forall i :: 0 <= i < |apps| ==> r[i] == apps[i].(status := r[i].status)
    ensures forall i :: 0 <= i < |apps| && apps[i].id == chosen ==> r[i].status == Selected
    ensures forall i :: 0 <= i < |apps| && apps[i].id != chosen && apps[i].jobId == job ==> r[i].status == Rejected
    ensures forall i :: 0 <= i < |apps| && apps[i].id != chosen && apps[i].jobId != job ==> r[i] == apps[i]
  {
    seq(|apps|, i requires 0 <= i < |apps| =>
      if apps[i].id == chosen then apps[i].(status := Selected)
      else if apps[i].jobId == job then apps[i].(status := Rejected)
      else apps[i])
  }

  /** With distinct ids, the local cascade leaves exactly one selected application for the job:
      the chosen one. */
  lemma LocalCascadeSelectsOne(apps: seq<Application>, chosen: Id, job: Id)
    requires NoDuplicates(Keys(apps, ApplicationKey))
    requires exists i :: 0 <= i < |apps| && apps[i].id == chosen && apps[i].jobId == job
    ensures exists i :: 0 <= i < |apps| && LocalCascade(apps, chosen, job)[i].id == chosen &&
                        LocalCascade(apps, chosen, job)[i].jobId == job && LocalCascade(apps, chosen, job)[i].status == Selected
    ensures forall i, j ::
      (0 <= i < |apps| && 0 <= j < |apps| &&
       LocalCascade(apps, chosen, job)[i].jobId == job && LocalCascade(apps, chosen, job)[i].status == Selected &&
       LocalCascade(apps, chosen, job)[j].jobId == job && LocalCascade(apps, chosen, job)[j].status == Selected) ==> i == j
  {
    var r := LocalCascade(apps, chosen, job);
    forall i, j | 0 <= i < |apps| && 0 <= j < |apps| && r[i].jobId == job && r[i].status == Selected &&
      r[j].jobId == job && r[j].status == Selected
      ensures i == j
    {
      assert apps[i].id == chosen && apps[j].id == chosen;
      assert Keys(apps, ApplicationKey)[i] == Keys(apps, ApplicationKey)[j];
    }
  }

  /** The local cascade agrees with the server's: on a list of server records it yields the
      records the server's cascade stores. */
  lemma LocalCascadeMirrorsServer(server: map<Id, Application>, local: seq<Application>, chosen: Id)
    requires chosen in server
    requires forall k :: k in server ==> server[k].id == k
    requires forall i :: 0 <= i < |local| ==> local[i].id in server && local[i] == server[local[i].id]
    ensures forall i :: 0 <= i < |local| ==>
      LocalCascade(local, chosen, server[chosen].jobId)[i] == ServerRules.Cascade(server, chosen)[local[i].id]
  {
  }

  /** The `applicationsByJob[jobId]` update of `selectApplicant`: every application in the
      bucket is rejected except the chosen one, which is selected. */
  function RewriteBucket(bucket: seq<Application>, chosen: Id): (r: seq<Application>)
    ensures |r| == |bucket|
    ensures forall i :: 0 <= i < |bucket| ==> r[i] == bucket[i].(status := r[i].status)
    ensures forall i :: 0 <= i < |bucket| ==> (r[i].status == Selected <==> bucket[i].id == chosen)
    ensures forall i :: 0 <= i < |bucket| ==> (r[i].status == Rejected <==> bucket[i].id != chosen)
  {
    seq(|bucket|, i requires 0 <= i < |bucket| =>
      if bucket[i].id == chosen then bucket[i].(status := Selected) else bucket[i].(status := Rejected))
  }

  /** For a bucket of the chosen application's job, the rewrite agrees with the server's cascade. */
  lemma RewriteBucketMirrorsServer(server: map<Id, Application>, bucket: seq<Application>, chosen: Id)
    requires chosen in server
    requires forall k :: k in server ==> server[k].id == k
    requires forall i :: 0 <= i < |bucket| ==>
      bucket[i].id in server && bucket[i] == server[bucket[i].id] && bucket[i].jobId == server[chosen].jobId
    ensures forall i :: 0 <= i < |bucket| ==> RewriteBucket(bucket, chosen)[i] == ServerRules.Cascade(server, chosen)[bucket[i].id]
  {
  }

  /** The `jobs` update of `applyForJob`: one more applicant on the job with that id only. */
  function BumpApplicants(jobs: seq<Job>, job: Id): (r: seq<Job>)
    ensures |r| == |jobs|
    ensures forall i :: 0 <= i < |jobs| && jobs[i].id == job ==> r[i] == jobs[i].(applicants := jobs[i].applicants + 1)
    ensures forall i :: 0 <= i < |jobs| && jobs[i].id != job ==> r[i] == jobs[i]
  {
    seq(|jobs|, i requires 0 <= i < |jobs| =>
      if jobs[i].id == job then jobs[i].(applicants := jobs[i].applicants + 1) else jobs[i])
  }

  /** The `jobs` update of `selectApplicant`: the job with that id is assigned to the seeker. */
  function AssignLocally(jobs: seq<Job>, job: Id, seeker: Id): (r: seq<Job>)
    ensures |r| == |jobs|
    ensures forall i :: 0 <= i < |jobs| && jobs[i].id == job ==>
      r[i] == jobs[i].(status := Assigned, assignedTo := Some(seeker))
    ensures forall i :: 0 <= i < |jobs| && jobs[i].id != job ==> r[i] == jobs[i]
  {
    seq(|jobs|, i requires 0 <= i < |jobs| =>
      if jobs[i].id == job then jobs[i].(status := Assigned, assignedTo := Some(seeker)) else jobs[i])
  }

  /** The `jobs` update of `completeJob`: the job with that id is completed. */
  function CompleteLocally(jobs: seq<Job>, job: Id): (r: seq<Job>)
    ensures |r| == |jobs|
    ensures forall i :: 0 <= i < |jobs| && jobs[i].id == job ==> r[i] == jobs[i].(status := Completed)
    ensures forall i :: 0 <= i < |jobs| && jobs[i].id != job ==> r[i] == jobs[i]
  {
    seq(|jobs|, i requires 0 <= i < |jobs| => if jobs[i].id == job then jobs[i].(status := Completed) else jobs[i])
  }

  // ---------------------------------------------------------------- the available-jobs query

  /** The filters `getAvailableJobs` receives; a missing field is `None`. */
  datatype JobFilters = JobFilters(status: Option<string>, location: Option<string>, category: Option<string>)

  /** JavaScript truthiness of an optional string. */
  predicate Truthy(s: Option<string>)
  {
    s.Some? && s.value != ""
  }

  /** Whether a location or category filter is sent: present, non-empty and not "all". */
  predicate Narrows(s: Option<string>)
  {
    Truthy(s) && s.value != "all"
  }

  /** The `URLSearchParams` of `getAvailableJobs`, as (name, value) pairs in order. */
  function AvailableJobsQuery(f: JobFilters): (q: seq<(string, string)>)
    ensures |q| <= 3
    ensures forall p :: p in q ==> (p.0 == "status" && Truthy(f.status) && p.1 == f.status.value) ||
                                   (p.0 == "location" && Narrows(f.location) && p.1 == f.location.value) ||
                                   (p.0 == "category" && Narrows(f.category) && p.1 == f.category.value)
    ensures Truthy(f.status) <==> f.status.Some? && ("status", f.status.value) in q
    ensures Narrows(f.location) <==> f.location.Some? && ("location", f.location.value) in q
    ensures Narrows(f.category) <==> f.category.Some? && ("category", f.category.value) in q
  {
    (if Truthy(f.status) then [("status", f.status.value)] else []) +
    (if Narrows(f.location) then [("location", f.location.value)] else []) +
    (if Narrows(f.category) then [("category", f.category.value)] else [])
  }

  /** The value of the first parameter named `name`, as the server reads it. */
  function Param(q: seq<(string, string)>, name: string): Option<string>
    decreases |q|
  {
    if |q| == 0 then None else if q[0].0 == name then Some(q[0].1) else Param(q[1..], name)
  }

  lemma {:induction false} ParamAppend(p: seq<(string, string)>, q: seq<(string, string)>, name: string)
    ensures Param(p + q, name) == if Param(p, name).Some? then Param(p, name) else Param(q, name)
    decreases |p|
  {
    if |p| > 0 {
      assert (p + q)[1..] == p[1..] + q;
      ParamAppend(p[1..], q, name);
    } else {
      assert p + q == q;
    }
  }

  /** What the server does with the query: a job is listed exactly when it has the requested
      status and, unless "all" is chosen, the requested location and category. */
  lemma AvailableJobsQueryFilters(f: JobFilters, j: Job)
    ensures var q := AvailableJobsQuery(f);
      ServerRules.MatchesQuery(j, Param(q, "status"), Param(q, "location"), Param(q, "category")) <==>
        (Truthy(f.status) ==> j.status == f.status.value) &&
        (Narrows(f.location) ==> j.location == f.location.value) &&
        (Narrows(f.category) ==> j.category == f.category.value)
  {
    var a := if Truthy(f.status) then [("status", f.status.value)] else [];
    var b := if Narrows(f.location) then [("location", f.location.value)] else [];
    var c := if Narrows(f.category) then [("category", f.category.value)] else [];
    var q := AvailableJobsQuery(f);
    assert q == (a + b) + c;
    ParamAppend(a + b, c, "status");
    ParamAppend(a, b, "status");
    ParamAppend(a + b, c, "location");
    ParamAppend(a, b, "location");
    ParamAppend(a + b, c, "category");
    ParamAppend(a, b, "category");
    assert Param(q, "status") == if Truthy(f.status) then Some(f.status.value) else None;
    assert Param(q, "location") == if Narrows(f.location) then Some(f.location.value) else None;
    assert Param(q, "category") == if Narrows(f.category) then Some(f.category.value) else None;
  }

  // ---------------------------------------------------------------- the context state

  class JobCache {
    var currentUser: Option<User>
    var jobs: seq<Job>
    var applications: seq<Application>
    var applicationsByJob: map<Id, seq<Application>>

    constructor (user: Option<User>)
      ensures currentUser == user && jobs == [] && applications == [] && applicationsByJob == map[]
    {
      currentUser := user;
      jobs := [];
      applications := [];
      applicationsByJob := map[];
    }

    predicate IsProvider()
      reads this
    {
      currentUser.Some? && currentUser.value.userType == Provider
    }

    predicate IsSeeker()
      reads this
    {
      currentUser.Some? && currentUser.value.userType == Seeker
    }

    /** The effect run when the signed-in user changes: with nobody signed in every list is
        emptied; otherwise the lists stay until the fetches that follow replace them. */
    method UserChanged(user: Option<User>)
      modifies this
      ensures currentUser == user
      ensures user.None? ==> jobs == [] && applications == [] && applicationsByJob == map[]
      ensures user.Some? ==> jobs == old(jobs) && applications == old(applications) &&
                             applicationsByJob == old(applicationsByJob)
    {
      currentUser := user;
      if user.None? {
        jobs := [];
        applications := [];
        applicationsByJob := map[];
      }
    }

    /** `fetchJobs`: a reply replaces `jobs`; a failed request keeps the previous list (an
        empty list stays empty). */
    method FetchJobs(reply: Http<seq<Job>>) returns (r: seq<Job>)
      modifies this
      ensures currentUser == old(currentUser) && applications == old(applications) &&
              applicationsByJob == old(applicationsByJob)
      ensures reply.HttpError? ==> r == [] && jobs == old(jobs)
      ensures reply.Reply? ==> r == reply.body && jobs == reply.body
    {
      match reply {
        case Reply(data) =>
          jobs := data;
          r := data;
        case HttpError(_) =>
          if |jobs| == 0 {
            jobs := [];
          }
          r := [];
      }
    }

    /** `getProviderJobs`: for a provider, merges the provider's jobs into `jobs`. */
    method GetProviderJobs(reply: Http<seq<Job>>) returns (r: seq<Job>)
      modifies this
      ensures currentUser == old(currentUser) && applications == old(applications) &&
              applicationsByJob == old(applicationsByJob)
      ensures !IsProvider() || reply.HttpError? ==> r == [] && jobs == old(jobs)
      ensures IsProvider() && reply.Reply? ==> r == reply.body && jobs == Merged(old(jobs), reply.body, JobKey)
    {
      if !IsProvider() {
        return [];
      }
      match reply {
        case Reply(data) =>
          jobs := MergeById(jobs, data, JobKey);
          r := data;
        case HttpError(_) =>
          r := [];
      }
    }

    /** `getMatchingJobs`: for a seeker, merges the matching jobs into `jobs`. */
    method GetMatchingJobs(reply: Http<seq<Job>>) returns (r: seq<Job>)
      modifies this
      ensures currentUser == old(currentUser) && applications == old(applications) &&
              applicationsByJob == old(applicationsByJob)
      ensures !IsSeeker() || reply.HttpError? ==> r == [] && jobs == old(jobs)
      ensures IsSeeker() && reply.Reply? ==> r == reply.body && jobs == Merged(old(jobs), reply.body, JobKey)
    {
      if !IsSeeker() {
        return [];
      }
      match reply {
        case Reply(data) =>
          jobs := MergeById(jobs, data, JobKey);
          r := data;
        case HttpError(_) =>
          r := [];
      }
    }

    /** `getAvailableJobs`: builds the query from the filters, then replaces `jobs` with the reply. */
    method GetAvailableJobs(filters: JobFilters, reply: Http<seq<Job>>) returns (query: seq<(string, string)>, r: seq<Job>)
      modifies this
      ensures query == AvailableJobsQuery(filters)
      ensures currentUser == old(currentUser) && applications == old(applications) &&
              applicationsByJob == old(applicationsByJob)
      ensures reply.HttpError? ==> r == [] && jobs == old(jobs)
      ensures reply.Reply? ==> r == reply.body && jobs == reply.body
    {
      query := AvailableJobsQuery(filters);
      match reply {
        case Reply(data) =>
          jobs := data;
          r := data;
        case HttpError(_) =>
          r := [];
      }
    }

    /** `getJobApplications`: a cached bucket is returned to anyone; otherwise a provider fetches
        and merges, a seeker filters their own applications, and anybody else gets []. */
    method GetJobApplications(job: Id, reply: Http<seq<Application>>) returns (r: seq<Application>)
      modifies this
      ensures currentUser == old(currentUser) && jobs == old(jobs)
      ensures job in old(applicationsByJob) ==>
        r == old(applicationsByJob)[job] && applications == old(applications) && applicationsByJob == old(applicationsByJob)
      ensures job !in old(applicationsByJob) && IsProvider() && reply.Reply? ==>
        r == reply.body && applications == Merged(old(applications), reply.body, ApplicationKey) &&
        applicationsByJob == old(applicationsByJob)[job := reply.body]
      ensures job !in old(applicationsByJob) && IsProvider() && reply.HttpError? ==>
        r == [] && applications == old(applications) && applicationsByJob == old(applicationsByJob)
      ensures job !in old(applicationsByJob) && IsSeeker() ==>
        r == Filter(old(applications), OnJob(job)) && applications == old(applications) &&
        applicationsByJob == old(applicationsByJob)[job := r]
      ensures job !in old(applicationsByJob) && !IsProvider() && !IsSeeker() ==>
        r == [] && applications == old(applications) && applicationsByJob == old(applicationsByJob)
    {
      if job in applicationsByJob {
        return applicationsByJob[job];
      }
      if IsProvider() {
        match reply {
          case Reply(data) =>
            applications := MergeById(applications, data, ApplicationKey);
            applicationsByJob := applicationsByJob[job := data];
            r := data;
          case HttpError(_) =>
            r := [];
        }
      } else if IsSeeker() {
        r := Filter(applications, OnJob(job));
        applicationsByJob := applicationsByJob[job := r];
      } else {
        r := [];
      }
    }

    /** `getSeekerApplications`: for a seeker, replaces `applications` with the reply and
        regroups it by job. */
    method GetSeekerApplications(reply: Http<seq<Application>>) returns (r: seq<Application>)
      modifies this
      ensures currentUser == old(currentUser) && jobs == old(jobs)
      ensures !IsSeeker() || reply.HttpError? ==>
        r == [] && applications == old(applications) && applicationsByJob == old(applicationsByJob)
      ensures IsSeeker() && reply.Reply? ==>
        r == reply.body && applications == reply.body &&
        (forall k :: k in applicationsByJob <==> k in JobIdsOf(reply.body)) &&
        (forall k :: k in applicationsByJob ==> applicationsByJob[k] == Filter(reply.body, OnJob(k)))
    {
      if !IsSeeker() {
        return [];
      }
      match reply {
        case Reply(data) =>
          applications := data;
          applicationsByJob := GroupByJob(data);
          r := data;
        case HttpError(_) =>
          r := [];
      }
    }

    /** `postJob`: refused to anyone but a provider; the created job is appended. */
    method PostJob(reply: Http<Job>) returns (r: Completion<Job>)
      modifies this
      ensures currentUser == old(currentUser) && applications == old(applications) &&
              applicationsByJob == old(applicationsByJob)
      ensures !IsProvider() ==> r == Throws(Refused("Only job providers can post jobs")) && jobs == old(jobs)
      ensures IsProvider() && reply.Reply? ==> r == Returns(reply.body) && jobs == old(jobs) + [reply.body]
      ensures IsProvider() && reply.HttpError? ==> r == Throws(Rethrown(reply.status)) && jobs == old(jobs)
    {
      if !IsProvider() {
        return Throws(Refused("Only job providers can post jobs"));
      }
      match reply {
        case Reply(job) =>
          jobs := jobs + [job];
          r := Returns(job);
        case HttpError(status) =>
          r := Throws(Rethrown(status));
      }
    }

    /** `applyForJob`: refused to anyone but a seeker; on success the application is appended
        to `applications` and to the job's bucket and the job gains an applicant; a 400 reply
        (already applied, or job not open) returns false, any other error is thrown on. */
    method ApplyForJob(job: Id, reply: Http<Application>) returns (r: Completion<bool>)
      modifies this
      ensures currentUser == old(currentUser)
      ensures !IsSeeker() ==> r == Throws(Refused("Only job seekers can apply for jobs"))
      ensures !IsSeeker() || reply.HttpError? ==>
        jobs == old(jobs) && applications == old(applications) && applicationsByJob == old(applicationsByJob)
      ensures IsSeeker() && reply.HttpError? ==>
        r == if reply.status == Some(400) then Returns(false) else Throws(Rethrown(reply.status))
      ensures IsSeeker() && reply.Reply? ==>
        r == Returns(true) &&
        applications == old(applications) + [reply.body] &&
        applicationsByJob == old(applicationsByJob)[job :=
          (if job in old(applicationsByJob) then old(applicationsByJob)[job] else []) + [reply.body]] &&
        jobs == BumpApplicants(old(jobs), job)
    {
      if !IsSeeker() {
        return Throws(Refused("Only job seekers can apply for jobs"));
      }
      match reply {
        case Reply(application) =>
          applications := applications + [application];
          var bucket := if job in applicationsByJob then applicationsByJob[job] else [];
          applicationsByJob := applicationsByJob[job := bucket + [application]];
          jobs := BumpApplicants(jobs, job);
          r := Returns(true);
        case HttpError(status) =>
          if status == Some(400) {
            r := Returns(false);
          } else {
            r := Throws(Rethrown(status));
          }
      }
    }

    /** `selectApplicant`: refused to anyone but a provider; on success replays the cascade on
        `applications`, rewrites the job's bucket only if one is cached, and assigns the job. */
    method SelectApplicant(chosen: Id, reply: Http<Application>) returns (r: Completion<bool>)
      modifies this
      ensures currentUser == old(currentUser)
      ensures !IsProvider() ==> r == Throws(Refused("Only job providers can select applicants"))
      ensures IsProvider() && reply.HttpError? ==> r == Throws(Rethrown(reply.status))
      ensures !IsProvider() || reply.HttpError? ==>
        jobs == old(jobs) && applications == old(applications) && applicationsByJob == old(applicationsByJob)
      ensures IsProvider() && reply.Reply? ==>
        var job := reply.body.jobId;
        r == Returns(true) &&
        applications == LocalCascade(old(applications), chosen, job) &&
        applicationsByJob == (if job in old(applicationsByJob)
                              then old(applicationsByJob)[job := RewriteBucket(old(applicationsByJob)[job], chosen)]
                              else old(applicationsByJob)) &&
        jobs == AssignLocally(old(jobs), job, reply.body.seekerId)
    {
      if !IsProvider() {
        return Throws(Refused("Only job providers can select applicants"));
      }
      match reply {
        case Reply(updated) =>
          var job := updated.jobId;
          applications := LocalCascade(applications, chosen, job);
          if job in applicationsByJob {
            applicationsByJob := applicationsByJob[job := RewriteBucket(applicationsByJob[job], chosen)];
          }
          jobs := AssignLocally(jobs, job, updated.seekerId);
          r := Returns(true);
        case HttpError(status) =>
          r := Throws(Rethrown(status));
      }
    }

    /** `completeJob`: refused when nobody is signed in; on success the job is completed locally. */
    method CompleteJob(job: Id, reply: Http<Job>) returns (r: Completion<bool>)
      modifies this
      ensures currentUser == old(currentUser) && applications == old(applications) &&
              applicationsByJob == old(applicationsByJob)
      ensures currentUser.None? ==> r == Throws(Refused("You must be logged in to complete a job")) && jobs == old(jobs)
      ensures currentUser.Some? && reply.HttpError? ==> r == Throws(Rethrown(reply.status)) && jobs == old(jobs)
      ensures currentUser.Some? && reply.Reply? ==> r == Returns(true) && jobs == CompleteLocally(old(jobs), job)
    {
      if currentUser.None? {
        return Throws(Refused("You must be logged in to complete a job"));
      }
      match reply {
        case Reply(_) =>
          jobs := CompleteLocally(jobs, job);
          r := Returns(true);
        case HttpError(status) =>
          r := Throws(Rethrown(status));
      }
    }
  }
}
