/**
 * The weather and farming advisor: the icon chosen for a day's conditions,
 * the names of the next seven days, and the search handler's state updates
 * around the forecast request.
 */
module Weather {
  import opened Wrappers
  import opened Text

  /** One forecast day; the two temperatures are only displayed and are left out. */
  datatype WeatherDay = WeatherDay(day: string, conditions: string, advice: string)

  // ---------------------------------------------------------------------------
  // Icon
  // ---------------------------------------------------------------------------

  datatype IconKind = RainIcon | CloudIcon | SunIcon

  /** `word` occurs somewhere in the lowercased conditions. */
  ghost predicate Mentions(conditions: string, word: string) {
    exists i :: OccursAt(ToLower(conditions), word, i)
  }

  /**
   * The icon for a day's conditions, tested in priority order: rain or
   * shower, then cloud, then sun or clear, and otherwise the cloud icon.
   */
  function WeatherIcon(conditions: string): (k: IconKind)
    ensures k == RainIcon <==> Mentions(conditions, "rain") || Mentions(conditions, "shower")
    ensures k == SunIcon <==>
      && !Mentions(conditions, "rain") && !Mentions(conditions, "shower")
      && !Mentions(conditions, "cloud")
      && (Mentions(conditions, "sun") || Mentions(conditions, "clear"))
    ensures k == CloudIcon <==>
      && !Mentions(conditions, "rain") && !Mentions(conditions, "shower")
      && (Mentions(conditions, "cloud") || (!Mentions(conditions, "sun") && !Mentions(conditions, "clear")))
  {
    var cond := ToLower(conditions);
    ContainsIff(cond, "rain");
    ContainsIff(cond, "shower");
    ContainsIff(cond, "cloud");
    ContainsIff(cond, "sun");
    ContainsIff(cond, "clear");
    if Contains(cond, "rain") || Contains(cond, "shower") then RainIcon
    else if Contains(cond, "cloud") then CloudIcon
    else if Contains(cond, "sun") || Contains(cond, "clear") then SunIcon
    else CloudIcon
  }

  /** The icon does not depend on letter case. */
  lemma WeatherIconIgnoresCase(conditions: string)
    ensures WeatherIcon(ToLower(conditions)) == WeatherIcon(conditions)
  {
    ToLowerIdempotent(conditions);
  }

  /** Conditions that mention both rain and cloud get the rain icon. */
  lemma RainOverCloud()
    ensures WeatherIcon("Cloudy with Rain") == RainIcon
  {
    var cond := ToLower("Cloudy with Rain");
    assert cond[12] == 'r' && cond[13] == 'a' && cond[14] == 'i' && cond[15] == 'n';
    assert cond[12..16] == "rain";
    assert OccursAt(cond, "rain", 12);
  }

  // ---------------------------------------------------------------------------
  // Day names
  // ---------------------------------------------------------------------------

  const DayNames: seq<string> := ["Sunday", "Monday", "Tuesday", "Wednesday", "Thursday", "Friday", "Saturday"]

  /** The position of a day name in `DayNames`. */
  function DayIndex(name: string): nat {
    if name == "Sunday" then 0
    else if name == "Monday" then 1
    else if name == "Tuesday" then 2
    else if name == "Wednesday" then 3
    else if name == "Thursday" then 4
    else if name == "Friday" then 5
    else 6
  }

  /** Seven consecutive days never repeat a weekday. */
  lemma RotationDistinct(today: nat, i: nat, j: nat)
    requires today < 7 && i < j < 7
    ensures DayNames[(today + i) % 7] != DayNames[(today + j) % 7]
  {
    forall k | 0 <= k < 7 ensures DayIndex(DayNames[k]) == k {
    }
  }

  /** The names of today and the six days after it; `today` is the current weekday, Sunday being 0. */
  method Next7Days(today: nat) returns (names: seq<string>)
    requires today < 7
    ensures |names| == 7
    ensures forall i :: 0 <= i < 7 ==> names[i] == DayNames[(today + i) % 7]
    ensures forall i, j :: 0 <= i < j < 7 ==> names[i] != names[j]
  {
    names := [];
    for i := 0 to 7
      invariant |names| == i
      invariant forall k :: 0 <= k < i ==> names[k] == DayNames[(today + k) % 7]
    {
      names := names + [DayNames[(today + i) % 7]];
    }
    forall i, j | 0 <= i < j < 7 ensures names[i] != names[j] {
      RotationDistinct(today, i, j);
    }
  }

  /** The heading of forecast entry `index`: the computed day name if there is one, else the entry's own. */
  function DayLabel(dayNames: seq<string>, entry: WeatherDay, index: nat): string {
    if index < |dayNames| && dayNames[index] != "" then dayNames[index] else entry.day
  }

  /** With the seven computed names, the first seven entries are headed by them and later ones by their own day. */
  lemma DayLabelFromNames(dayNames: seq<string>, entry: WeatherDay, index: nat)
    requires |dayNames| == 7 && forall k :: 0 <= k < 7 ==> dayNames[k] in DayNames
    ensures DayLabel(dayNames, entry, index) == if index < 7 then dayNames[index] else entry.day
  {
    if index < 7 {
      assert dayNames[index] in DayNames;
      var m :| 0 <= m < 7 && DayNames[m] == dayNames[index];
      assert |DayNames[m]| > 0;
    }
  }

  // ---------------------------------------------------------------------------
  // The search handler
  // ---------------------------------------------------------------------------

  /** The arguments of the forecast request. */
  datatype SearchRequest = SearchRequest(location: string, language: string)

  /** What the request threw: an `Error` with its message, or anything else. */
  datatype FetchFailure = ErrorThrown(message: string) | OtherThrown

  /** How the forecast request ended. */
  datatype WeatherOutcome = Forecast(days: seq<WeatherDay>) | Failed(failure: FetchFailure)

  const EnterLocation := "Please enter a location."
  const UnknownError := "An unknown error occurred."

  function FailureMessage(failure: FetchFailure): string {
    match failure
    case ErrorThrown(message) => message
    case OtherThrown => UnknownError
  }

  class Advisor {
    var location: string
    var language: string
    var forecast: seq<WeatherDay>
    var isLoading: bool
    var error: string
    var searchedLocation: string

    constructor ()
      ensures location == "" && language == "English" && forecast == []
      ensures !isLoading && error == "" && searchedLocation == ""
    {
      location, language, forecast := "", "English", [];
      isLoading, error, searchedLocation := false, "", "";
    }

    /** Typing into the location box. */
    method EditLocation(newLocation: string)
      modifies this`location
      ensures location == newLocation
    {
      location := newLocation;
    }

    /** The language selector. */
    method SelectLanguage(newLanguage: string)
      modifies this`language
      ensures language == newLanguage
    {
      language := newLanguage;
    }

    /**
     * The search handler up to the request: a blank location only sets the
     * error; otherwise loading starts, the error and the forecast are cleared
     * and the location is recorded, and the request to send is returned.
     */
    method BeginSearch() returns (request: Option<SearchRequest>)
      modifies this`isLoading, this`error, this`forecast, this`searchedLocation
      ensures IsBlank(old(location)) ==>
        && request == None && error == EnterLocation
        && isLoading == old(isLoading) && forecast == old(forecast) && searchedLocation == old(searchedLocation)
      ensures !IsBlank(old(location)) ==>
        && request == Some(SearchRequest(location, language))
        && isLoading && error == "" && forecast == [] && searchedLocation == location
    {
      if IsBlank(location) {
        error := EnterLocation;
        request := None;
      } else {
        isLoading := true;
        error := "";
        forecast := [];
        searchedLocation := location;
        request := Some(SearchRequest(location, language));
      }
    }

    /** The search handler after the request: the forecast or the failure's message, and loading ends. */
    method FinishSearch(outcome: WeatherOutcome)
      modifies this`isLoading, this`error, this`forecast
      ensures !isLoading
      ensures outcome.Forecast? ==> forecast == outcome.days && error == old(error)
      ensures outcome.Failed? ==> error == FailureMessage(outcome.failure) && forecast == old(forecast)
    {
      match outcome {
        case Forecast(days) => forecast := days;
        case Failed(failure) => error := FailureMessage(failure);
      }
      isLoading := false;
    }

    /** The whole search handler, with the request's outcome given. */
    method HandleSearch(outcome: WeatherOutcome) returns (request: Option<SearchRequest>)
      modifies this`isLoading, this`error, this`forecast, this`searchedLocation
      ensures IsBlank(old(location)) ==>
        && request == None && error == EnterLocation
        && isLoading == old(isLoading) && forecast == old(forecast) && searchedLocation == old(searchedLocation)
      ensures !IsBlank(old(location)) ==>
        && request == Some(SearchRequest(location, language))
        && !isLoading && searchedLocation == location
        && forecast == (if outcome.Forecast? then outcome.days else [])
        && error == (if outcome.Failed? then FailureMessage(outcome.failure) else "")
    {
      request := BeginSearch();
      if request.Some? {
        FinishSearch(outcome);
      }
    }
  }
}
