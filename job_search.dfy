/**
 * `getJobs` (backend/controllers/jobController.js): the query object the
 * handler builds from the query string, what the database decides with it,
 * and the newest-first page of results it answers with.
 */
module JobSearch {
  import opened Wrappers
  import opened Text
  import opened Seqs
  import opened JobModel
  import opened Api

  /**
   * The query string. A text parameter that is absent or empty is `""` (both
   * are falsy); a numeric one is `None` when absent or empty and `Some(n)`
   * when it is the number `n` (so `minSalary=0` is present: the string "0" is
   * truthy).
   */
  datatype SearchQuery = SearchQuery(
    keyword: string,
    location: string,
    jobType: string,
    category: string,
    experienceLevel: string,
    minSalary: Option<int>,
    maxSalary: Option<int>,
    page: Option<int>,
    limit: Option<int>)

  /** Document paths holding text. */
  datatype TextPath =
    | TitlePath | DescriptionPath | CompanyPath | LocationPath
    | StatusPath | JobTypePath | CategoryPath | ExperienceLevelPath

  /** Document paths holding numbers. */
  datatype NumberPath = SalaryMinPath | SalaryMaxPath

  /** The conditions a query object is made of. */
  datatype Condition =
    | Equals(path: TextPath, value: string)
    | Pattern(path: TextPath, pattern: string)    // { $regex: pattern, $options: 'i' }
    | AnyOf(alternatives: seq<Condition>)         // $or
    | AtLeast(numberPath: NumberPath, bound: int) // $gte
    | AtMost(numberPath: NumberPath, bound: int)  // $lte

  /** The text a job holds at a path; enumerations are stored by name. */
  function TextAt(j: Job, p: TextPath): string {
    match p
    case TitlePath => j.title
    case DescriptionPath => j.description
    case CompanyPath => j.company
    case LocationPath => j.location
    case StatusPath => JobStatusName(j.status)
    case JobTypePath => JobTypeName(j.jobType)
    case CategoryPath => CategoryName(j.category)
    case ExperienceLevelPath => ExperienceLevelName(j.experienceLevel)
  }

  /** The number a job holds at a path, `None` when its salary object lacks that bound. */
  function NumberAt(j: Job, p: NumberPath): Option<int> {
    match p
    case SalaryMinPath => j.salary.min
    case SalaryMaxPath => j.salary.max
  }

  /** Whether the job satisfies one condition. */
  predicate Holds(j: Job, c: Condition)
    decreases c
  {
    match c
    case Equals(p, v) => TextAt(j, p) == v
    case Pattern(p, pat) => ContainsIgnoringCase(TextAt(j, p), pat)
    case AnyOf(cs) => exists i :: 0 <= i < |cs| && Holds(j, cs[i])
    case AtLeast(p, n) => NumberAt(j, p).Some? && NumberAt(j, p).value >= n
    case AtMost(p, n) => NumberAt(j, p).Some? && NumberAt(j, p).value <= n
  }

  /** A query object admits a job when every one of its conditions holds. */
  predicate HoldsAll(j: Job, cs: seq<Condition>) {
    forall i :: 0 <= i < |cs| ==> Holds(j, cs[i])
  }

  /**
   * The query object of `getJobs`, condition by condition in the order the
   * handler adds them: always `status: 'active'`, then each filter whose
   * parameter is truthy.
   */
  function BuildQuery(q: SearchQuery): seq<Condition> {
    [Equals(StatusPath, "active")]
    + KeywordConditions(q) + LocationConditions(q) + EnumConditions(q) + SalaryConditions(q)
  }

  /** `$or` over title, description and company when a keyword is given. */
  function KeywordConditions(q: SearchQuery): seq<Condition> {
    if q.keyword != "" then
      [AnyOf([Pattern(TitlePath, q.keyword), Pattern(DescriptionPath, q.keyword), Pattern(CompanyPath, q.keyword)])]
    else []
  }

  function LocationConditions(q: SearchQuery): seq<Condition> {
    if q.location != "" then [Pattern(LocationPath, q.location)] else []
  }

  /** Exact matches on the enumeration paths whose parameter is given. */
  function EnumConditions(q: SearchQuery): seq<Condition> {
    (if q.jobType != "" then [Equals(JobTypePath, q.jobType)] else [])
    + (if q.category != "" then [Equals(CategoryPath, q.category)] else [])
    + (if q.experienceLevel != "" then [Equals(ExperienceLevelPath, q.experienceLevel)] else [])
  }

  /** The dotted-path salary bounds. */
  function SalaryConditions(q: SearchQuery): seq<Condition> {
    (if q.minSalary.Some? then [AtLeast(SalaryMinPath, q.minSalary.value)] else [])
    + (if q.maxSalary.Some? then [AtMost(SalaryMaxPath, q.maxSalary.value)] else [])
  }

  /**
   * What a search is meant to select, filter by filter: active jobs only; the
   * keyword in the title, the description or the company; the location
   * contained in the job's location, both up to case; exact enumeration
   * names; `minSalary` bounding only `salary.min` and `maxSalary` only
   * `salary.max`, a missing bound matching neither. An absent filter
   * imposes nothing.
   */
  predicate Admitted(j: Job, q: SearchQuery) {
    && j.status == Active
    && (q.keyword != "" ==>
          || ContainsIgnoringCase(j.title, q.keyword)
          || ContainsIgnoringCase(j.description, q.keyword)
          || ContainsIgnoringCase(j.company, q.keyword))
    && (q.location != "" ==> ContainsIgnoringCase(j.location, q.location))
    && (q.jobType != "" ==> JobTypeName(j.jobType) == q.jobType)
    && (q.category != "" ==> CategoryName(j.category) == q.category)
    && (q.experienceLevel != "" ==> ExperienceLevelName(j.experienceLevel) == q.experienceLevel)
    && (q.minSalary.Some? ==> j.salary.min.Some? && j.salary.min.value >= q.minSalary.value)
    && (q.maxSalary.Some? ==> j.salary.max.Some? && j.salary.max.value <= q.maxSalary.value)
  }

  /** Only the status named "active" is `Active`. */
  lemma ActiveByName(st: JobStatus)
    ensures JobStatusName(st) == "active" <==> st == Active
  {
    match st
    case Active =>
    case Closed => assert JobStatusName(st)[0] != 'a';
    case Draft => assert JobStatusName(st)[0] != 'a';
  }

  /** A query object split in two admits what both halves admit. */
  lemma HoldsAllConcat(j: Job, a: seq<Condition>, b: seq<Condition>)
    ensures HoldsAll(j, a + b) <==> HoldsAll(j, a) && HoldsAll(j, b)
  {
    if HoldsAll(j, a) && HoldsAll(j, b) {
      forall i | 0 <= i < |a + b| ensures Holds(j, (a + b)[i]) {
        if i >= |a| {
          assert (a + b)[i] == b[i - |a|];
        }
      }
    }
    if HoldsAll(j, a + b) {
      forall i | 0 <= i < |a| ensures Holds(j, a[i]) {
        assert (a + b)[i] == a[i];
      }
      forall i | 0 <= i < |b| ensures Holds(j, b[i]) {
        assert (a + b)[|a| + i] == b[i];
      }
    }
  }

  /** A query object of one condition admits what the condition admits. */
  lemma HoldsAllSingle(j: Job, c: Condition)
    ensures HoldsAll(j, [c]) <==> Holds(j, c)
  {
    assert [c][0] == c;
  }

  /** The `$or` of the three keyword patterns holds exactly when one of the three fields contains the keyword. */
  lemma KeywordAlternatives(j: Job, kw: string)
    ensures Holds(j, AnyOf([Pattern(TitlePath, kw), Pattern(DescriptionPath, kw), Pattern(CompanyPath, kw)]))
            <==> || ContainsIgnoringCase(j.title, kw)
                 || ContainsIgnoringCase(j.description, kw)
                 || ContainsIgnoringCase(j.company, kw)
  {
    var cs := [Pattern(TitlePath, kw), Pattern(DescriptionPath, kw), Pattern(CompanyPath, kw)];
    assert Holds(j, cs[0]) == ContainsIgnoringCase(j.title, kw);
    assert Holds(j, cs[1]) == ContainsIgnoringCase(j.description, kw);
    assert Holds(j, cs[2]) == ContainsIgnoringCase(j.company, kw);
  }

  lemma KeywordMeaning(j: Job, q: SearchQuery)
    ensures HoldsAll(j, KeywordConditions(q)) <==>
            (q.keyword != "" ==>
               || ContainsIgnoringCase(j.title, q.keyword)
               || ContainsIgnoringCase(j.description, q.keyword)
               || ContainsIgnoringCase(j.company, q.keyword))
  {
    if q.keyword != "" {
      KeywordAlternatives(j, q.keyword);
      HoldsAllSingle(j, KeywordConditions(q)[0]);
    }
  }

  lemma LocationMeaning(j: Job, q: SearchQuery)
    ensures HoldsAll(j, LocationConditions(q)) <==> (q.location != "" ==> ContainsIgnoringCase(j.location, q.location))
  {
    if q.location != "" {
      HoldsAllSingle(j, LocationConditions(q)[0]);
    }
  }

  lemma EnumMeaning(j: Job, q: SearchQuery)
    ensures HoldsAll(j, EnumConditions(q)) <==>
            && (q.jobType != "" ==> JobTypeName(j.jobType) == q.jobType)
            && (q.category != "" ==> CategoryName(j.category) == q.category)
            && (q.experienceLevel != "" ==> ExperienceLevelName(j.experienceLevel) == q.experienceLevel)
  {
    var a := if q.jobType != "" then [Equals(JobTypePath, q.jobType)] else [];
    var b := if q.category != "" then [Equals(CategoryPath, q.category)] else [];
    var c := if q.experienceLevel != "" then [Equals(ExperienceLevelPath, q.experienceLevel)] else [];
    HoldsAllConcat(j, a + b, c);
    HoldsAllConcat(j, a, b);
    if a != [] { HoldsAllSingle(j, a[0]); }
    if b != [] { HoldsAllSingle(j, b[0]); }
    if c != [] { HoldsAllSingle(j, c[0]); }
  }

  lemma SalaryMeaning(j: Job, q: SearchQuery)
    ensures HoldsAll(j, SalaryConditions(q)) <==>
            && (q.minSalary.Some? ==> j.salary.min.Some? && j.salary.min.value >= q.minSalary.value)
            && (q.maxSalary.Some? ==> j.salary.max.Some? && j.salary.max.value <= q.maxSalary.value)
  {
    var a := if q.minSalary.Some? then [AtLeast(SalaryMinPath, q.minSalary.value)] else [];
    var b := if q.maxSalary.Some? then [AtMost(SalaryMaxPath, q.maxSalary.value)] else [];
    HoldsAllConcat(j, a, b);
    if a != [] { HoldsAllSingle(j, a[0]); }
    if b != [] { HoldsAllSingle(j, b[0]); }
  }

  /** The query object admits a job exactly when the job meets every filter of the search. */
  lemma QueryMeaning(j: Job, q: SearchQuery)
    ensures HoldsAll(j, BuildQuery(q)) <==> Admitted(j, q)
  {
    var s0 := [Equals(StatusPath, "active")];
    var s1 := KeywordConditions(q);
    var s2 := LocationConditions(q);
    var s3 := EnumConditions(q);
    var s4 := SalaryConditions(q);
    HoldsAllConcat(j, s0 + s1 + s2 + s3, s4);
    HoldsAllConcat(j, s0 + s1 + s2, s3);
    HoldsAllConcat(j, s0 + s1, s2);
    HoldsAllConcat(j, s0, s1);
    ActiveByName(j.status);
    HoldsAllSingle(j, s0[0]);
    KeywordMeaning(j, q);
    LocationMeaning(j, q);
    EnumMeaning(j, q);
    SalaryMeaning(j, q);
  }

  /**
   * Without `maxSalary`, the upper bound of a job's salary plays no part in
   * the search; without `minSalary`, the lower bound plays none: the two
   * parameters never combine into a range-overlap test. A job whose salary
   * object lacks a bound never matches a filter on that bound.
   */
  lemma SalaryBoundsIndependent(j: Job, q: SearchQuery, other: Option<int>)
    ensures q.maxSalary.None? ==> (Admitted(j, q) <==> Admitted(j.(salary := Salary(j.salary.min, other)), q))
    ensures q.minSalary.None? ==> (Admitted(j, q) <==> Admitted(j.(salary := Salary(other, j.salary.max)), q))
    ensures q.minSalary.Some? && j.salary.min.Some? && j.salary.min.value < q.minSalary.value ==> !Admitted(j, q)
    ensures q.minSalary.Some? && j.salary.min.None? ==> !Admitted(j, q)
    ensures q.maxSalary.Some? && j.salary.max.None? ==> !Admitted(j, q)
  {
  }

  /** `Number(req.query.page) || 1`: absent, empty, non-numeric and zero all give 1; negatives pass. */
  function PageNumber(q: SearchQuery): (p: int)
    ensures p != 0
    ensures p == 1 || q.page == Some(p)
    ensures q.page.Some? && q.page.value != 0 ==> p == q.page.value
  {
    if q.page.None? || q.page.value == 0 then 1 else q.page.value
  }

  /** `Number(req.query.limit) || 10`. */
  function LimitNumber(q: SearchQuery): (n: int)
    ensures n != 0
    ensures n == 10 || q.limit == Some(n)
    ensures q.limit.Some? && q.limit.value != 0 ==> n == q.limit.value
  {
    if q.limit.None? || q.limit.value == 0 then 10 else q.limit.value
  }

  /** `(page - 1) * limit`. */
  function Skip(q: SearchQuery): int {
    (PageNumber(q) - 1) * LimitNumber(q)
  }

  function Abs(n: int): nat {
    if n < 0 then -n else n
  }

  function CreatedAt(j: Job): int {
    j.createdAt
  }

  /**
   * `find(queryObject).sort('-createdAt')` before skip and limit: every job of
   * the table the search admits, each as often as it occurs, newest first.
   */
  function SearchOrder(table: seq<Job>, q: SearchQuery): (r: seq<Job>)
    ensures SortedDesc(r, CreatedAt)
  {
    SortDesc(Filter(table, j => HoldsAll(j, BuildQuery(q))), CreatedAt)
  }

  /**
   * The sorted matches hold every job of the table the search admits, each
   * as often as it occurs in the table, and nothing else.
   */
  lemma SearchOrderMatches(table: seq<Job>, q: SearchQuery)
    ensures forall j :: multiset(SearchOrder(table, q))[j] == if Admitted(j, q) then multiset(table)[j] else 0
    ensures forall j :: j in SearchOrder(table, q) <==> j in table && Admitted(j, q)
  {
    var cs := BuildQuery(q);
    var f := Filter(table, j => HoldsAll(j, cs));
    var r := SearchOrder(table, q);
    assert forall j :: HoldsAll(j, cs) <==> Admitted(j, q) by {
      forall j ensures HoldsAll(j, cs) <==> Admitted(j, q) {
        QueryMeaning(j, q);
      }
    }
    assert forall j :: j in r <==> j in f by {
      forall j ensures j in r <==> j in f {
        assert multiset(r)[j] == multiset(f)[j];
      }
    }
  }

  /** The response body of `getJobs`. */
  datatype SearchResult = SearchResult(jobs: seq<Job>, page: int, pages: int, total: nat)

  /**
   * `getJobs`: the database refuses a negative skip (the handler answers 500);
   * otherwise one page of the newest-first matches (a negative limit is
   * taken as its absolute value), the page number as computed, the number of
   * pages `Math.ceil(total / limit)` and the count of all matches.
   */
  function GetJobs(table: seq<Job>, q: SearchQuery): (r: Result<SearchResult, ApiError>)
    ensures r.Err? <==> Skip(q) < 0
    ensures r.Err? ==> r.error == QueryFailed
    ensures r.Ok? ==> r.value.page == PageNumber(q)
    ensures r.Ok? ==> r.value.total == |SearchOrder(table, q)|
    ensures r.Ok? ==> r.value.jobs == Window(SearchOrder(table, q), Skip(q), Abs(LimitNumber(q)))
    ensures r.Ok? ==> r.value.pages == CeilDiv(r.value.total, LimitNumber(q))
  {
    var skip := Skip(q);
    if skip < 0 then Err(QueryFailed)
    else
      var order := SearchOrder(table, q);
      Ok(SearchResult(Window(order, skip, Abs(LimitNumber(q))), PageNumber(q), CeilDiv(|order|, LimitNumber(q)), |order|))
  }

  /**
   * A page holds at most `|limit|` jobs, each from the table and admitted by
   * every filter of the search; in particular each is active, whatever the
   * other filters.
   */
  lemma SearchReturnsAdmitted(table: seq<Job>, q: SearchQuery)
    ensures var r := GetJobs(table, q);
            r.Ok? ==> && |r.value.jobs| <= Abs(LimitNumber(q))
                      && forall j :: j in r.value.jobs ==> j in table && Admitted(j, q) && j.status == Active
  {
    var r := GetJobs(table, q);
    if r.Ok? {
      var order := SearchOrder(table, q);
      SearchOrderMatches(table, q);
      forall j | j in r.value.jobs ensures j in order {
        var i :| 0 <= i < |r.value.jobs| && r.value.jobs[i] == j;
        assert j == order[Skip(q) + i];
      }
    }
  }

  /** Page `p` of the same search (the query with only `page` changed). */
  function AtPage(q: SearchQuery, p: int): SearchQuery {
    q.(page := Some(p))
  }

  /** Changing only the page leaves the query object, and so the sorted matches, as they were. */
  lemma SearchOrderIgnoresPage(table: seq<Job>, q: SearchQuery, p: int)
    ensures SearchOrder(table, AtPage(q, p)) == SearchOrder(table, q)
  {
    assert BuildQuery(AtPage(q, p)) == BuildQuery(q);
  }

  /** On page `p >= 1` with a positive limit, the skip is `(p - 1) * limit`, which is not negative. */
  lemma SkipAtPage(q: SearchQuery, p: int)
    requires LimitNumber(q) > 0 && p >= 1
    ensures PageNumber(AtPage(q, p)) == p && LimitNumber(AtPage(q, p)) == LimitNumber(q)
    ensures Skip(AtPage(q, p)) == (p - 1) * LimitNumber(q) >= 0
  {
    MulMonotone(0, p - 1, LimitNumber(q));
  }

  /** With a positive limit, page `p >= 1` of a search is `Page(order, p, limit)` of its sorted matches. */
  lemma GetJobsPage(table: seq<Job>, q: SearchQuery, p: int)
    requires LimitNumber(q) > 0 && p >= 1
    ensures var r := GetJobs(table, AtPage(q, p));
            && r.Ok?
            && r.value.jobs == Page(SearchOrder(table, q), p, LimitNumber(q))
            && r.value.pages == CeilDiv(|SearchOrder(table, q)|, LimitNumber(q))
  {
    SkipAtPage(q, p);
    SearchOrderIgnoresPage(table, q, p);
  }

  /**
   * No two of the sorted matches were created at the same time. Only then is
   * the newest-first order the same for every request: the database breaks
   * ties in no fixed way, so two requests for different pages may order
   * equal timestamps differently.
   */
  predicate DistinctTimes(s: seq<Job>) {
    forall i, k :: 0 <= i < k < |s| ==> s[i].createdAt != s[k].createdAt
  }

  /**
   * With a positive limit and no two matches created at the same time, the
   * match at position `i` is on page `p = i / limit + 1`, and that page is at
   * most `pages`: the pages together cover the sorted matches.
   */
  lemma MatchOnItsPage(table: seq<Job>, q: SearchQuery, i: nat, p: int)
    requires DistinctTimes(SearchOrder(table, q))
    requires LimitNumber(q) > 0 && i < |SearchOrder(table, q)|
    requires p == i / LimitNumber(q) + 1
    ensures var r := GetJobs(table, AtPage(q, p));
            && r.Ok? && 1 <= p <= r.value.pages
            && SearchOrder(table, q)[i] in r.value.jobs
  {
    PageHolding(SearchOrder(table, q), LimitNumber(q), i);
    GetJobsPage(table, q, p);
  }

  /** With a positive limit, pages after the last one are empty and those up to it are not. */
  lemma PagesEndAtLast(table: seq<Job>, q: SearchQuery, p: int)
    requires LimitNumber(q) > 0 && p >= 1
    ensures var r := GetJobs(table, AtPage(q, p));
            r.Ok? && (r.value.jobs == [] <==> p > r.value.pages)
  {
    PageEmptyBeyondLast(SearchOrder(table, q), LimitNumber(q), p);
    GetJobsPage(table, q, p);
  }

  /** A table listing no job twice gives sorted matches listing no job twice. */
  lemma SearchOrderDistinct(table: seq<Job>, q: SearchQuery)
    requires Distinct(table)
    ensures Distinct(SearchOrder(table, q))
  {
    var cs := BuildQuery(q);
    var f := Filter(table, j => HoldsAll(j, cs));
    FilterDistinct(table, j => HoldsAll(j, cs));
    var order := SearchOrder(table, q);
    assert multiset(order) == multiset(f) by {
      forall j ensures multiset(order)[j] == multiset(f)[j] {
        QueryMeaning(j, q);
      }
    }
    PermutationDistinct(f, order);
  }

  /**
   * With a positive limit and no two matches created at the same time, two
   * different pages share no job (no job can then be listed twice either).
   */
  lemma PagesShareNothing(table: seq<Job>, q: SearchQuery, p: int, p': int)
    requires DistinctTimes(SearchOrder(table, q)) && LimitNumber(q) > 0
    requires 1 <= p && 1 <= p' && p != p'
    ensures GetJobs(table, AtPage(q, p)).Ok? && GetJobs(table, AtPage(q, p')).Ok?
    ensures forall j :: j in GetJobs(table, AtPage(q, p)).value.jobs ==> j !in GetJobs(table, AtPage(q, p')).value.jobs
  {
    var order := SearchOrder(table, q);
    assert Distinct(order) by {
      forall i, k | 0 <= i < k < |order| ensures order[i] != order[k] {
        assert order[i].createdAt != order[k].createdAt;
      }
    }
    GetJobsPage(table, q, p);
    GetJobsPage(table, q, p');
    PagesDisjoint(SearchOrder(table, q), LimitNumber(q), p, p');
  }

  /** A negative page with a positive limit makes the skip negative, so the search fails with 500. */
  lemma NegativePageFails(q: SearchQuery, table: seq<Job>)
    requires q.page.Some? && q.page.value < 0 && LimitNumber(q) > 0
    ensures GetJobs(table, q) == Err(QueryFailed) && StatusCode(QueryFailed) == 500
  {
    assert PageNumber(q) == q.page.value;
    MulMonotone(q.page.value - 1, -1, LimitNumber(q));
    assert Skip(q) < 0;
  }

  /**
   * A negative limit on the first page is accepted: the page holds up to its
   * absolute value of jobs, and `pages` is not positive.
   */
  lemma NegativeLimitFirstPage(table: seq<Job>, q: SearchQuery)
    requires q.page.None? && q.limit.Some? && q.limit.value < 0
    ensures GetJobs(table, q).Ok?
    ensures |GetJobs(table, q).value.jobs| == Min(-q.limit.value, |SearchOrder(table, q)|)
    ensures GetJobs(table, q).value.pages <= 0
  {
    assert PageNumber(q) == 1 && Skip(q) == 0;
    assert Abs(LimitNumber(q)) == -q.limit.value;
  }
}
