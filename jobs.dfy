/**
 * The job records of the job board and the pure rules the board applies to
 * them: which fields are shown for a job, which jobs the search criteria keep,
 * and what one translation cycle does to the translations cache.
 */
module Jobs {
  import opened Wrappers
  import opened Text
  import opened Seqs

  /** A job posting; `originalLanguage` is the language it was written in. */
  datatype Job = Job(
    id: int,
    title: string,
    location: string,
    description: string,
    contact: string,
    originalLanguage: string)

  /** The translated fields of one job, as the translation service returns them. */
  datatype Translation = Translation(title: string, location: string, description: string)

  /** The translations cache. It is keyed by job id alone: the language an entry was fetched for is not recorded. */
  type Cache = map<int, Translation>

  /** The translation service: a translation of the job into the language, or a failure (a rejected call). */
  type Translator = (Job, string) -> Option<Translation>

  /** The three postings the board starts with. */
  const InitialJobs: seq<Job> := [
    Job(1, "Harvest Helper", "Punjab, India",
        "Need 5 experienced workers for wheat harvesting season. Accommodation provided.",
        "agri-jobs@example.com", "English"),
    Job(2, "सिंचाई विशेषज्ञ", "महाराष्ट्र, भारत",
        "एक बड़े अंगूर के बाग के लिए ड्रिप सिंचाई प्रणालियों का प्रबंधन करने के लिए एक विशेषज्ञ की तलाश है।",
        "vineyard-careers@example.com", "Hindi"),
    Job(3, "Farm Equipment Operator", "Haryana, India",
        "Experienced operator needed for tractors and combine harvesters. Seasonal position.",
        "+91-9876543210", "English")
  ]

  function IdsOf(jobs: seq<Job>): set<int> {
    set j | j in jobs :: j.id
  }

  /** No two postings share an id. */
  predicate UniqueIds(jobs: seq<Job>) {
    forall i, j :: 0 <= i < j < |jobs| ==> jobs[i].id != jobs[j].id
  }

  // ---------------------------------------------------------------------------
  // Display selection
  // ---------------------------------------------------------------------------

  /** What is displayed for a job: the job itself, or a cached translation in its place. */
  datatype DisplayRecord = Native(job: Job) | Projected(translation: Translation) {
    function Title(): string {
      if Native? then job.title else translation.title
    }
    function Location(): string {
      if Native? then job.location else translation.location
    }
    function Description(): string {
      if Native? then job.description else translation.description
    }
  }

  /** The record shown for `job` while the board is viewed in `viewLanguage`. */
  function DisplayData(job: Job, viewLanguage: string, cache: Cache): DisplayRecord {
    if job.originalLanguage == viewLanguage then Native(job)
    else if job.id in cache then Projected(cache[job.id])
    else Native(job)
  }

  /** A job viewed in its own language is shown as itself, whatever the cache holds. */
  lemma NativeIgnoresCache(job: Job, viewLanguage: string, cache: Cache)
    requires job.originalLanguage == viewLanguage
    ensures DisplayData(job, viewLanguage, cache) == Native(job)
  {
  }

  /**
   * A job viewed in another language is shown as its cache entry when there is
   * one and as itself otherwise; only the entry under its own id matters.
   */
  lemma ForeignUsesOwnEntry(job: Job, viewLanguage: string, cache: Cache, other: Cache)
    requires job.originalLanguage != viewLanguage
    requires job.id in cache <==> job.id in other
    requires job.id in cache ==> cache[job.id] == other[job.id]
    ensures DisplayData(job, viewLanguage, cache) ==
            (if job.id in cache then Projected(cache[job.id]) else Native(job))
    ensures DisplayData(job, viewLanguage, cache) == DisplayData(job, viewLanguage, other)
  {
  }

  /**
   * Because the cache is keyed by id alone, a job shows the same entry in every
   * language other than its own, whichever language the entry was fetched for.
   */
  lemma EntryShownInEveryForeignLanguage(job: Job, lang1: string, lang2: string, cache: Cache)
    requires job.originalLanguage != lang1 && job.originalLanguage != lang2
    ensures DisplayData(job, lang1, cache) == DisplayData(job, lang2, cache)
  {
  }

  // ---------------------------------------------------------------------------
  // Filter
  // ---------------------------------------------------------------------------

  /** The search criteria in force; they change only when a search is run or cleared. */
  datatype Filters = Filters(title: string, location: string)

  const NoFilters := Filters("", "")

  /** An empty criterion keeps everything; otherwise a case-insensitive `includes`. */
  predicate FieldMatches(field: string, criterion: string) {
    if criterion != "" then Contains(ToLower(field), ToLower(criterion)) else true
  }

  /** Both criteria hold of the displayed title and location. */
  predicate MatchesFilters(shown: DisplayRecord, filters: Filters) {
    FieldMatches(shown.Title(), filters.title) && FieldMatches(shown.Location(), filters.location)
  }

  /** The jobs listed on the board: those whose displayed record matches the criteria. */
  function JobsToDisplay(jobs: seq<Job>, filters: Filters, viewLanguage: string, cache: Cache): seq<Job> {
    Filter(jobs, job => MatchesFilters(DisplayData(job, viewLanguage, cache), filters))
  }

  /** A criterion matches exactly when its lowercased text occurs in the lowercased field. */
  lemma FieldMatchesIff(field: string, criterion: string)
    ensures FieldMatches(field, criterion) <==> exists i :: OccursAt(ToLower(field), ToLower(criterion), i)
  {
    ContainsIff(ToLower(field), ToLower(criterion));
    if criterion == "" {
      assert ToLower(criterion) == "";
      ContainsEmpty(ToLower(field));
    }
  }

  /**
   * The listed jobs are the jobs, in board order, whose displayed record
   * matches the criteria: each listed job matches, each matching job is
   * listed as often as it is on the board, and no other job is listed.
   */
  lemma JobsToDisplaySelects(jobs: seq<Job>, filters: Filters, viewLanguage: string, cache: Cache)
    ensures var shown := JobsToDisplay(jobs, filters, viewLanguage, cache);
      && IsSubsequence(shown, jobs)
      && (forall i :: 0 <= i < |shown| ==> MatchesFilters(DisplayData(shown[i], viewLanguage, cache), filters))
      && (forall job :: multiset(shown)[job] ==
            if MatchesFilters(DisplayData(job, viewLanguage, cache), filters) then multiset(jobs)[job] else 0)
  {
    var keep := job => MatchesFilters(DisplayData(job, viewLanguage, cache), filters);
    FilterIsSubsequence(jobs, keep);
    forall job ensures multiset(Filter(jobs, keep))[job] == if keep(job) then multiset(jobs)[job] else 0 {
      FilterCount(jobs, keep, job);
    }
  }

  /** With both criteria blank, as after Clear, every job is listed. */
  lemma NoFiltersShowsAll(jobs: seq<Job>, viewLanguage: string, cache: Cache)
    ensures JobsToDisplay(jobs, NoFilters, viewLanguage, cache) == jobs
  {
    FilterKeepsAll(jobs, job => MatchesFilters(DisplayData(job, viewLanguage, cache), NoFilters));
  }

  // ---------------------------------------------------------------------------
  // Translation cycle
  // ---------------------------------------------------------------------------

  /** The cycle empties the cache and translates nothing: the view is English and so is every job. */
  predicate ClearsCache(jobs: seq<Job>, viewLanguage: string) {
    viewLanguage == "English" && forall i :: 0 <= i < |jobs| ==> jobs[i].originalLanguage == "English"
  }

  /** The jobs sent for translation: every job not written in the view language, in board order. */
  function JobsToTranslate(jobs: seq<Job>, viewLanguage: string): seq<Job> {
    Filter(jobs, (job: Job) => job.originalLanguage != viewLanguage)
  }

  /**
   * The requests are exactly the jobs in another language, in board order and
   * each as often as it is on the board, whatever the cache already holds;
   * there are none exactly when every job is written in the view language.
   */
  lemma JobsToTranslateSelects(jobs: seq<Job>, viewLanguage: string)
    ensures var requests := JobsToTranslate(jobs, viewLanguage);
      && IsSubsequence(requests, jobs)
      && (forall i :: 0 <= i < |requests| ==> requests[i] in jobs && requests[i].originalLanguage != viewLanguage)
      && (forall i :: 0 <= i < |jobs| && jobs[i].originalLanguage != viewLanguage ==> jobs[i] in requests)
      && (requests == [] <==> forall i :: 0 <= i < |jobs| ==> jobs[i].originalLanguage == viewLanguage)
      && (forall job :: multiset(requests)[job] ==
            if job.originalLanguage != viewLanguage then multiset(jobs)[job] else 0)
  {
    var keep := (job: Job) => job.originalLanguage != viewLanguage;
    FilterIsSubsequence(jobs, keep);
    forall job ensures multiset(Filter(jobs, keep))[job] == if keep(job) then multiset(jobs)[job] else 0 {
      FilterCount(jobs, keep, job);
    }
    if forall i :: 0 <= i < |jobs| ==> jobs[i].originalLanguage == viewLanguage {
      FilterKeepsNone(jobs, keep);
    }
  }

  /** A cycle that clears the cache would have had nothing to translate. */
  lemma ClearingCycleHasNoRequests(jobs: seq<Job>, viewLanguage: string)
    requires ClearsCache(jobs, viewLanguage)
    ensures JobsToTranslate(jobs, viewLanguage) == []
  {
    FilterKeepsNone(jobs, (job: Job) => job.originalLanguage != viewLanguage);
  }

  /** A board that holds a job not written in English never takes the clearing branch. */
  lemma ForeignJobPreventsClearing(jobs: seq<Job>, k: nat, viewLanguage: string)
    requires k < |jobs| && jobs[k].originalLanguage != "English"
    ensures !ClearsCache(jobs, viewLanguage)
  {
  }

  /**
   * `Promise.all` over one translation call per request: every result, in
   * request order, when every call succeeds, and a failure when any call fails.
   */
  function FetchAll(requests: seq<Job>, viewLanguage: string, translate: Translator): (r: Option<seq<Translation>>)
    ensures r.Some? <==> forall i :: 0 <= i < |requests| ==> translate(requests[i], viewLanguage).Some?
    ensures r.Some? ==> |r.value| == |requests|
    ensures r.Some? ==> forall i :: 0 <= i < |requests| ==> r.value[i] == translate(requests[i], viewLanguage).value
    decreases |requests|
  {
    if requests == [] then Some([])
    else
      match translate(requests[0], viewLanguage)
      case None => None
      case Some(first) =>
        match FetchAll(requests[1..], viewLanguage, translate)
        case None => None
        case Some(rest) => Some([first] + rest)
  }

  /** The cache built by assigning `results[i]` to the id of `requests[i]`, for i from first to last. */
  function ZipById(requests: seq<Job>, results: seq<Translation>): Cache
    requires |requests| == |results|
    decreases |requests|
  {
    if requests == [] then map[]
    else
      var n := |requests| - 1;
      ZipById(requests[..n], results[..n])[requests[n].id := results[n]]
  }

  /** The zipped cache has an entry for exactly the requested ids. */
  lemma {:induction false} ZipByIdKeys(requests: seq<Job>, results: seq<Translation>)
    requires |requests| == |results|
    ensures ZipById(requests, results).Keys == IdsOf(requests)
    decreases |requests|
  {
    if requests != [] {
      var n := |requests| - 1;
      ZipByIdKeys(requests[..n], results[..n]);
      assert requests == requests[..n] + [requests[n]];
      assert IdsOf(requests) == IdsOf(requests[..n]) + {requests[n].id};
    }
  }

  /** The entry for a requested id is the result of the last request with that id. */
  lemma {:induction false} ZipByIdAt(requests: seq<Job>, results: seq<Translation>, i: nat)
    requires |requests| == |results| && i < |requests|
    requires forall j :: i < j < |requests| ==> requests[j].id != requests[i].id
    ensures requests[i].id in ZipById(requests, results)
    ensures ZipById(requests, results)[requests[i].id] == results[i]
    decreases |requests|
  {
    var n := |requests| - 1;
    if i < n {
      ZipByIdAt(requests[..n], results[..n], i);
    }
  }

  /** `{ ...prev, ...newer }`: the entries of `newer` win, the other entries of `prev` stay. */
  function Merge(prev: Cache, newer: Cache): (r: Cache)
    ensures r.Keys == prev.Keys + newer.Keys
    ensures forall k :: k in newer ==> r[k] == newer[k]
    ensures forall k :: k in prev && k !in newer ==> r[k] == prev[k]
  {
    prev + newer
  }

  /** The cache after one translation cycle for `jobs` viewed in `viewLanguage`. */
  function CycleCache(jobs: seq<Job>, viewLanguage: string, cache: Cache, translate: Translator): Cache {
    if ClearsCache(jobs, viewLanguage) then map[]
    else
      var requests := JobsToTranslate(jobs, viewLanguage);
      match FetchAll(requests, viewLanguage, translate)
      case None => cache
      case Some(results) => Merge(cache, ZipById(requests, results))
  }

  /** Some job not in the view language fails to translate: the cycle leaves the cache as it was. */
  lemma CycleFailureKeepsCache(jobs: seq<Job>, viewLanguage: string, cache: Cache, translate: Translator, k: nat)
    requires k < |jobs| && jobs[k].originalLanguage != viewLanguage
    requires translate(jobs[k], viewLanguage).None?
    ensures CycleCache(jobs, viewLanguage, cache, translate) == cache
  {
    var requests := JobsToTranslate(jobs, viewLanguage);
    assert jobs[k] in requests;
    var i :| 0 <= i < |requests| && requests[i] == jobs[k];
    assert FetchAll(requests, viewLanguage, translate).None?;
  }

  /**
   * Every job not in the view language translates: the new cache is the old one
   * with each requested id mapped to the translation of the last request with
   * that id; every other entry is unchanged.
   */
  lemma CycleSuccessEntries(jobs: seq<Job>, viewLanguage: string, cache: Cache, translate: Translator)
    requires !ClearsCache(jobs, viewLanguage)
    requires forall job | job in jobs && job.originalLanguage != viewLanguage :: translate(job, viewLanguage).Some?
    ensures var requests := JobsToTranslate(jobs, viewLanguage);
            var next := CycleCache(jobs, viewLanguage, cache, translate);
      && next.Keys == cache.Keys + IdsOf(requests)
      && (forall id :: id in cache && id !in IdsOf(requests) ==> next[id] == cache[id])
      && (forall i :: 0 <= i < |requests| && (forall j :: i < j < |requests| ==> requests[j].id != requests[i].id) ==>
            next[requests[i].id] == translate(requests[i], viewLanguage).value)
  {
    var requests := JobsToTranslate(jobs, viewLanguage);
    forall i | 0 <= i < |requests| ensures translate(requests[i], viewLanguage).Some? {
      assert requests[i] in jobs && requests[i].originalLanguage != viewLanguage;
    }
    var fetched := FetchAll(requests, viewLanguage, translate);
    var results := fetched.value;
    var zipped := ZipById(requests, results);
    var next := CycleCache(jobs, viewLanguage, cache, translate);
    assert next == Merge(cache, zipped);
    ZipByIdKeys(requests, results);
    assert next.Keys == cache.Keys + IdsOf(requests);
    forall i | 0 <= i < |requests| && (forall j :: i < j < |requests| ==> requests[j].id != requests[i].id)
      ensures next[requests[i].id] == translate(requests[i], viewLanguage).value
    {
      ZipByIdAt(requests, results, i);
      assert next[requests[i].id] == zipped[requests[i].id] == results[i];
    }
  }

  /** Filtering postings with distinct ids leaves postings with distinct ids. */
  lemma {:induction false} FilterKeepsUniqueIds(jobs: seq<Job>, keep: Job -> bool)
    requires UniqueIds(jobs)
    ensures UniqueIds(Filter(jobs, keep))
    decreases |jobs|
  {
    if jobs != [] {
      var tail := jobs[1..];
      var rest := Filter(tail, keep);
      assert UniqueIds(tail) by {
        forall i, j | 0 <= i < j < |tail| ensures tail[i].id != tail[j].id {
          assert tail[i] == jobs[i + 1] && tail[j] == jobs[j + 1];
        }
      }
      FilterKeepsUniqueIds(tail, keep);
      if keep(jobs[0]) {
        forall k | 0 <= k < |rest| ensures rest[k].id != jobs[0].id {
          assert rest[k] in tail;
          var m :| 0 <= m < |tail| && tail[m] == rest[k];
          assert jobs[m + 1] == rest[k];
        }
        UniqueIdsCons(jobs[0], rest);
      }
    }
  }

  lemma UniqueIdsCons(first: Job, rest: seq<Job>)
    requires UniqueIds(rest)
    requires forall k :: 0 <= k < |rest| ==> rest[k].id != first.id
    ensures UniqueIds([first] + rest)
  {
    var r := [first] + rest;
    forall i, j | 0 <= i < j < |r| ensures r[i].id != r[j].id {
      assert r[j] == rest[j - 1];
      if i > 0 {
        assert r[i] == rest[i - 1];
      }
    }
  }

  /**
   * After a cycle in which every translation succeeds (or which clears the
   * cache), a board with distinct ids shows each job in its own language as
   * itself and every other job as its translation into the view language.
   */
  lemma DisplayAfterSuccessfulCycle(jobs: seq<Job>, viewLanguage: string, cache: Cache, translate: Translator)
    requires UniqueIds(jobs)
    requires forall job | job in jobs && job.originalLanguage != viewLanguage :: translate(job, viewLanguage).Some?
    ensures forall k :: 0 <= k < |jobs| ==>
      DisplayData(jobs[k], viewLanguage, CycleCache(jobs, viewLanguage, cache, translate)) ==
      (if jobs[k].originalLanguage == viewLanguage then Native(jobs[k])
       else Projected(translate(jobs[k], viewLanguage).value))
  {
    if !ClearsCache(jobs, viewLanguage) {
      var requests := JobsToTranslate(jobs, viewLanguage);
      var next := CycleCache(jobs, viewLanguage, cache, translate);
      CycleSuccessEntries(jobs, viewLanguage, cache, translate);
      FilterKeepsUniqueIds(jobs, (job: Job) => job.originalLanguage != viewLanguage);
      forall k | 0 <= k < |jobs| && jobs[k].originalLanguage != viewLanguage
        ensures DisplayData(jobs[k], viewLanguage, next) == Projected(translate(jobs[k], viewLanguage).value)
      {
        assert jobs[k] in requests;
        var i :| 0 <= i < |requests| && requests[i] == jobs[k];
        assert jobs[k].id in IdsOf(requests);
      }
    }
  }

  /** Running the same cycle twice leaves the cache as running it once. */
  lemma CycleIdempotent(jobs: seq<Job>, viewLanguage: string, cache: Cache, translate: Translator)
    ensures var once := CycleCache(jobs, viewLanguage, cache, translate);
            CycleCache(jobs, viewLanguage, once, translate) == once
  {
    var requests := JobsToTranslate(jobs, viewLanguage);
    if !ClearsCache(jobs, viewLanguage) {
      match FetchAll(requests, viewLanguage, translate)
      case None =>
      case Some(results) =>
        var z := ZipById(requests, results);
        assert Merge(Merge(cache, z), z) == Merge(cache, z);
    }
  }

  // ---------------------------------------------------------------------------
  // Scenarios
  // ---------------------------------------------------------------------------

  /**
   * One English job viewed in Hindi is requested once and then shown as its
   * Hindi translation; switching back to English clears the cache and shows
   * the job itself.
   */
  lemma SwitchToHindiAndBack(j1: Job, hindi: Translation)
    requires j1.originalLanguage == "English"
    ensures var translate: Translator := (j, lang) => if lang == "Hindi" then Some(hindi) else None;
            var inHindi := CycleCache([j1], "Hindi", map[], translate);
      && JobsToTranslate([j1], "Hindi") == [j1]
      && DisplayData(j1, "Hindi", inHindi) == Projected(hindi)
      && CycleCache([j1], "English", inHindi, translate) == map[]
      && DisplayData(j1, "English", map[]) == Native(j1)
  {
    var translate: Translator := (j, lang) => if lang == "Hindi" then Some(hindi) else None;
    assert JobsToTranslate([j1], "Hindi") == [j1];
    DisplayAfterSuccessfulCycle([j1], "Hindi", map[], translate);
  }

  /**
   * A translation fetched for one language stays on screen after the view
   * switches to another language whose translation fails.
   */
  lemma StaleTranslationStaysVisible(j1: Job, hindi: Translation)
    requires j1.originalLanguage == "English"
    ensures var translate: Translator := (j, lang) => if lang == "Hindi" then Some(hindi) else None;
            var inHindi := CycleCache([j1], "Hindi", map[], translate);
            var inTamil := CycleCache([j1], "Tamil", inHindi, translate);
            DisplayData(j1, "Tamil", inTamil) == Projected(hindi)
  {
    var translate: Translator := (j, lang) => if lang == "Hindi" then Some(hindi) else None;
    SwitchToHindiAndBack(j1, hindi);
    var inHindi := CycleCache([j1], "Hindi", map[], translate);
    CycleFailureKeepsCache([j1], "Tamil", inHindi, translate, 0);
  }

  /** The initial board viewed in Hindi requests the two English postings, and viewed in English the Hindi one. */
  lemma InitialRequests()
    ensures JobsToTranslate(InitialJobs, "Hindi") == [InitialJobs[0], InitialJobs[2]]
    ensures JobsToTranslate(InitialJobs, "English") == [InitialJobs[1]]
    ensures forall lang :: !ClearsCache(InitialJobs, lang)
  {
    assert InitialJobs[1].originalLanguage == "Hindi";
  }
}
