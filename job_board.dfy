/**
 * The job board component: the list of postings, the posting form, the
 * translations cache with its loading flag, and the search criteria, as one
 * object whose methods are the component's event handlers.
 */
module JobBoard {
  import opened Wrappers
  import opened Seqs
  import opened Jobs

  /** Whether the board shows the list of postings or the posting form. */
  datatype BoardView = List | PostForm

  const AllFieldsRequired := "All fields are required."

  /** None of the four text fields of the posting form is the empty string. */
  predicate PostingComplete(title: string, location: string, description: string, contact: string) {
    title != "" && location != "" && description != "" && contact != ""
  }

  /** The board's postings always end with the three initial ones, which are never removed. */
  ghost predicate KeepsInitialJobs(jobs: seq<Job>) {
    |InitialJobs| <= |jobs| && jobs[|jobs| - |InitialJobs|..] == InitialJobs
  }

  /** The initial postings include a Hindi one, so the clearing branch of a cycle can never be taken. */
  lemma InitialJobsPreventClearing(jobs: seq<Job>, viewLanguage: string)
    requires KeepsInitialJobs(jobs)
    ensures !ClearsCache(jobs, viewLanguage)
  {
    var k := |jobs| - |InitialJobs| + 1;
    assert jobs[k] == InitialJobs[1];
    ForeignJobPreventsClearing(jobs, k, viewLanguage);
  }

  /** The initial postings have distinct ids and trivially end with themselves. */
  lemma InitialJobsInvariant()
    ensures UniqueIds(InitialJobs) && KeepsInitialJobs(InitialJobs)
  {
    assert InitialJobs[|InitialJobs| - |InitialJobs|..] == InitialJobs;
  }

  /** Putting a posting with a fresh id in front keeps ids distinct and keeps the initial postings at the end. */
  lemma PrependKeepsInvariant(newJob: Job, jobs: seq<Job>)
    requires UniqueIds(jobs) && KeepsInitialJobs(jobs)
    requires newJob.id !in IdsOf(jobs)
    ensures UniqueIds([newJob] + jobs) && KeepsInitialJobs([newJob] + jobs)
  {
    forall k | 0 <= k < |jobs| ensures jobs[k].id != newJob.id {
      assert jobs[k] in jobs;
    }
    UniqueIdsCons(newJob, jobs);
    assert ([newJob] + jobs)[|jobs| + 1 - |InitialJobs|..] == jobs[|jobs| - |InitialJobs|..];
  }

  /** The loop that assigns each translation to its job's id, in request order. */
  method BuildNewCache(requests: seq<Job>, results: seq<Translation>) returns (newCache: Cache)
    requires |requests| == |results|
    ensures newCache == ZipById(requests, results)
  {
    newCache := map[];
    for i := 0 to |requests|
      invariant newCache == ZipById(requests[..i], results[..i])
    {
      assert requests[..i + 1][..i] == requests[..i];
      assert results[..i + 1][..i] == results[..i];
      newCache := newCache[requests[i].id := results[i]];
    }
    assert requests[..|requests|] == requests;
    assert results[..|results|] == results;
  }

  class Board {
    var jobs: seq<Job>
    var view: BoardView

    // the posting form
    var title: string
    var location: string
    var description: string
    var contact: string
    var originalLanguage: string
    var error: string

    // translation state
    var cache: Cache
    var viewLanguage: string
    var isTranslating: bool

    // filter state: the typed text and the criteria in force
    var searchTitle: string
    var searchLocation: string
    var appliedFilters: Filters

    /** Ids are distinct, the initial postings are kept, and no cycle is in progress between events. */
    ghost predicate Valid()
      reads this
    {
      && UniqueIds(jobs)
      && KeepsInitialJobs(jobs)
      && !isTranslating
    }

    /**
     * The initial state. The translation effect also runs once on mount; that
     * cycle is `TranslateAllJobs`, which the caller runs right after.
     */
    constructor ()
      ensures Valid()
      ensures jobs == InitialJobs && view == List
      ensures title == "" && location == "" && description == "" && contact == ""
      ensures originalLanguage == "English" && error == ""
      ensures cache == map[] && viewLanguage == "English" && !isTranslating
      ensures searchTitle == "" && searchLocation == "" && appliedFilters == NoFilters
    {
      jobs := InitialJobs;
      view := List;
      title, location, description, contact := "", "", "", "";
      originalLanguage, error := "English", "";
      cache, viewLanguage, isTranslating := map[], "English", false;
      searchTitle, searchLocation, appliedFilters := "", "", NoFilters;
      new;
      InitialJobsInvariant();
    }

    /** The postings listed on the board under the criteria in force. */
    function Listed(): seq<Job>
      reads this
    {
      JobsToDisplay(jobs, appliedFilters, viewLanguage, cache)
    }

    /**
     * The "View in" selector. Selecting a different language re-runs the
     * translation effect; selecting the current one changes no state, so the
     * effect does not run.
     */
    method SelectViewLanguage(language: string, translate: Translator)
      requires Valid()
      modifies this`viewLanguage, this`cache, this`isTranslating
      ensures Valid()
      ensures viewLanguage == language
      ensures cache == if language == old(viewLanguage) then old(cache)
                       else CycleCache(jobs, language, old(cache), translate)
    {
      if language != viewLanguage {
        viewLanguage := language;
        var _, _ := TranslateAllJobs(translate);
      }
    }

    /** The "Post a Job" / "View Jobs" button. */
    method ToggleView()
      modifies this`view
      ensures view == if old(view) == List then PostForm else List
    {
      view := if view == List then PostForm else List;
    }

    /** Typing into the posting form. */
    method EditPosting(newTitle: string, newLocation: string, newDescription: string, newContact: string, newLanguage: string)
      modifies this`title, this`location, this`description, this`contact, this`originalLanguage
      ensures title == newTitle && location == newLocation && description == newDescription
      ensures contact == newContact && originalLanguage == newLanguage
    {
      title, location, description, contact := newTitle, newLocation, newDescription, newContact;
      originalLanguage := newLanguage;
    }

    /**
     * The submit handler. `freshId` is the clock reading the posting is stamped
     * with; it is taken to differ from every id on the board. An incomplete
     * form only sets the error; otherwise the posting goes in front and the
     * form is reset, and it reports whether it posted.
     */
    method Post(freshId: int) returns (posted: bool)
      requires Valid()
      requires freshId !in IdsOf(jobs)
      modifies this`jobs, this`title, this`location, this`description, this`contact, this`error, this`view
      ensures Valid()
      ensures posted == PostingComplete(old(title), old(location), old(description), old(contact))
      ensures !posted ==>
        && error == AllFieldsRequired
        && jobs == old(jobs) && view == old(view)
        && title == old(title) && location == old(location)
        && description == old(description) && contact == old(contact)
      ensures posted ==>
        && jobs == [Job(freshId, old(title), old(location), old(description), old(contact), originalLanguage)] + old(jobs)
        && title == "" && location == "" && description == "" && contact == ""
        && error == "" && view == List
    {
      if !PostingComplete(title, location, description, contact) {
        error := AllFieldsRequired;
        return false;
      }
      var newJob := Job(freshId, title, location, description, contact, originalLanguage);
      PrependKeepsInvariant(newJob, jobs);
      jobs := [newJob] + jobs;
      title, location, description, contact := "", "", "", "";
      error := "";
      view := List;
      posted := true;
    }

    /**
     * Submitting the posting form: the submit handler, then the translation
     * cycle that the changed job list triggers.
     */
    method Submit(freshId: int, translate: Translator)
      requires Valid()
      requires freshId !in IdsOf(jobs)
      modifies this`jobs, this`title, this`location, this`description, this`contact, this`error, this`view
      modifies this`cache, this`isTranslating
      ensures Valid()
      ensures !PostingComplete(old(title), old(location), old(description), old(contact)) ==>
        && error == AllFieldsRequired
        && jobs == old(jobs) && view == old(view)
        && title == old(title) && location == old(location)
        && description == old(description) && contact == old(contact)
        && cache == old(cache)
      ensures PostingComplete(old(title), old(location), old(description), old(contact)) ==>
        && jobs == [Job(freshId, old(title), old(location), old(description), old(contact), originalLanguage)] + old(jobs)
        && title == "" && location == "" && description == "" && contact == ""
        && error == "" && view == List
        && cache == CycleCache(jobs, viewLanguage, old(cache), translate)
    {
      var posted := Post(freshId);
      if posted {
        var _, _ := TranslateAllJobs(translate);
      }
    }

    /** Typing into the two search boxes. */
    method EditSearch(newTitle: string, newLocation: string)
      modifies this`searchTitle, this`searchLocation
      ensures searchTitle == newTitle && searchLocation == newLocation
    {
      searchTitle, searchLocation := newTitle, newLocation;
    }

    /** The Search button: the typed text becomes the criteria in force. */
    method Search()
      modifies this`appliedFilters
      ensures appliedFilters == Filters(searchTitle, searchLocation)
    {
      appliedFilters := Filters(searchTitle, searchLocation);
    }

    /** The Clear button: both boxes and both criteria are emptied, and every posting is listed. */
    method ClearSearch()
      modifies this`searchTitle, this`searchLocation, this`appliedFilters
      ensures searchTitle == "" && searchLocation == "" && appliedFilters == NoFilters
      ensures Listed() == jobs
    {
      searchTitle, searchLocation := "", "";
      appliedFilters := NoFilters;
      NoFiltersShowsAll(jobs, viewLanguage, cache);
    }

    /**
     * One translation cycle, run after the view language or the postings
     * change. It returns the jobs it sent for translation and whether it raised
     * the loading flag; the flag is down again when it returns.
     */
    method TranslateAllJobs(translate: Translator) returns (requests: seq<Job>, raisedLoading: bool)
      requires Valid()
      modifies this`cache, this`isTranslating
      ensures Valid()
      ensures cache == CycleCache(jobs, viewLanguage, old(cache), translate)
      ensures raisedLoading == !ClearsCache(jobs, viewLanguage)
      ensures requests == if raisedLoading then JobsToTranslate(jobs, viewLanguage) else []
    {
      if ClearsCache(jobs, viewLanguage) {
        cache := map[];
        return [], false;
      }
      isTranslating := true;
      raisedLoading := true;
      requests := JobsToTranslate(jobs, viewLanguage);
      var outcome := FetchAll(requests, viewLanguage, translate);
      match outcome {
        case Some(results) =>
          var newCache := BuildNewCache(requests, results);
          cache := cache + newCache;
        case None =>
      }
      isTranslating := false;
    }
  }
}
