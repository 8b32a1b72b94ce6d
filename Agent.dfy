/**
 * The request cycle of the tourism page (src/App.js): the submit guard on
 * the Enter key and the button, and `processTourismRequest`, which analyzes
 * the input, looks up the coordinates of the place, then the weather and the
 * places around it as the intent asks, and leaves either a response or an
 * error behind.
 *
 * The three lookups are network calls; here each one's outcome is an input:
 * the value it resolved to, or the message of the error it threw. A request
 * is split into its start (the state set before the first `await`) and its
 * completion (everything after it).
 */
module Agent {
  import opened JsText
  import opened Intent
  import opened Places

  /** What `getCoordinates` returns for a place it found. */
  datatype Coordinates = Coordinates(lat: real, lon: real, displayName: string)

  /** The `current` block of the forecast answer; an absent or null probability is `None`. */
  datatype Reading = Reading(temperature: real, precipitation: Option<real>)

  /** What `getWeather` returns. */
  datatype Weather = Weather(temperature: real, rainChance: real)

  /** How an awaited call ended: with a value, or by throwing an error with a message. */
  datatype Outcome<T> = Returned(value: T) | Threw(message: string)

  /** The response the page shows. */
  datatype TourResult = TourResult(place: string, displayName: string, weather: Option<Weather>, places: Option<seq<PlaceInfo>>)

  /** A lookup the request makes. */
  datatype Lookup = Geocode(place: string) | WeatherAt(lat: real, lon: real) | PlacesNear(lat: real, lon: real)

  /** Where a completed request leaves the page. */
  datatype Settlement = Settlement(error: Option<string>, response: Option<TourResult>, lookups: seq<Lookup>)

  /** `precipitation_probability || 0`. */
  function WeatherOf(r: Reading): Weather {
    Weather(r.temperature, if r.precipitation.Some? then r.precipitation.value else 0.0)
  }

  function NotFoundMessage(place: string): string {
    "I don't know if \"" + place + "\" exists. Please try another location."
  }

  function ErrorMessage(message: string): string {
    "Error: " + message
  }

  /**
   * The error text tells its cause: a place that was not found never reads
   * like a thrown error, and each message names its place or error.
   */
  lemma MessagesTellCausesApart(place: string, a: string, b: string)
    ensures NotFoundMessage(place) != ErrorMessage(a)
    ensures ErrorMessage(a) == ErrorMessage(b) ==> a == b
    ensures NotFoundMessage(a) == NotFoundMessage(b) ==> a == b
  {
    assert NotFoundMessage(place)[0] == 'I' && ErrorMessage(a)[0] == 'E';
    assert ErrorMessage(a)[7..] == a && ErrorMessage(b)[7..] == b;
    assert NotFoundMessage(a)[17..17 + |a|] == a && NotFoundMessage(b)[17..17 + |b|] == b;
  }

  /**
   * What a request with the given intent leaves behind, given how each
   * lookup ends. A lookup the intent does not ask for is never made, so its
   * outcome plays no part.
   */
  function Settle(intent: Intent, geocode: Outcome<Option<Coordinates>>,
                  weather: Outcome<Reading>, places: Outcome<seq<Element>>): (r: Settlement)
    ensures r.error.Some? <==> r.response.None?
    ensures |r.lookups| >= 1 && r.lookups[0] == Geocode(intent.place)
    ensures geocode == Returned(None) ==>
              r.error == Some(NotFoundMessage(intent.place)) && r.lookups == [r.lookups[0]]
    ensures geocode.Threw? ==> r.error == Some(ErrorMessage(geocode.message)) && |r.lookups| == 1
    ensures r.response.Some? <==>
              geocode.Returned? && geocode.value.Some? &&
              (intent.needsWeather ==> weather.Returned?) &&
              (intent.needsPlaces ==> places.Returned?)
    ensures r.response.Some? ==>
              r.response.value.place == intent.place &&
              r.response.value.displayName == geocode.value.value.displayName &&
              (r.response.value.weather.Some? <==> intent.needsWeather) &&
              (r.response.value.places.Some? <==> intent.needsPlaces)
    ensures r.response.Some? && intent.needsWeather ==> r.response.value.weather == Some(WeatherOf(weather.value))
    ensures r.response.Some? && intent.needsPlaces ==> r.response.value.places == Some(TopPlaces(places.value))
    ensures geocode.Returned? && geocode.value.Some? && intent.needsWeather && weather.Threw? ==>
              r.error == Some(ErrorMessage(weather.message))
    ensures geocode.Returned? && geocode.value.Some? && (intent.needsWeather ==> weather.Returned?) &&
            intent.needsPlaces && places.Threw? ==>
              r.error == Some(ErrorMessage(places.message))
    ensures geocode.Returned? && geocode.value.Some? ==>
              var c := geocode.value.value;
              r.lookups == [Geocode(intent.place)] +
                           (if intent.needsWeather then [WeatherAt(c.lat, c.lon)] else []) +
                           (if intent.needsPlaces && !(intent.needsWeather && weather.Threw?)
                            then [PlacesNear(c.lat, c.lon)] else [])
  {
    var asked := [Geocode(intent.place)];
    match geocode
    case Threw(m) => Settlement(Some(ErrorMessage(m)), None, asked)
    case Returned(None) => Settlement(Some(NotFoundMessage(intent.place)), None, asked)
    case Returned(Some(c)) =>
      var w := if intent.needsWeather then [WeatherAt(c.lat, c.lon)] else [];
      if intent.needsWeather && weather.Threw? then
        Settlement(Some(ErrorMessage(weather.message)), None, asked + w)
      else
        var p := if intent.needsPlaces then [PlacesNear(c.lat, c.lon)] else [];
        if intent.needsPlaces && places.Threw? then
          Settlement(Some(ErrorMessage(places.message)), None, asked + w + p)
        else
          var ws := if intent.needsWeather then Some(WeatherOf(weather.value)) else None;
          var ps := if intent.needsPlaces then Some(TopPlaces(places.value)) else None;
          Settlement(None, Some(TourResult(intent.place, c.displayName, ws, ps)), asked + w + p)
  }

  /**
   * A lookup is made exactly when it is needed: the weather lookup when the
   * place was found and the intent asks for the weather, the places lookup
   * when the place was found, the intent asks for places and the weather
   * lookup, if made, did not throw. The weather lookup comes second and the
   * places lookup last.
   */
  lemma LookupsFollowIntent(intent: Intent, geocode: Outcome<Option<Coordinates>>,
                            weather: Outcome<Reading>, places: Outcome<seq<Element>>)
    ensures var r := Settle(intent, geocode, weather, places);
            |r.lookups| <= 3 &&
            (|r.lookups| > 1 ==> geocode.Returned? && geocode.value.Some?) &&
            (forall k :: 0 <= k < |r.lookups| && r.lookups[k].WeatherAt? ==> k == 1 && intent.needsWeather) &&
            (forall k :: 0 <= k < |r.lookups| && r.lookups[k].PlacesNear? ==> k == |r.lookups| - 1 && intent.needsPlaces)
    ensures var r := Settle(intent, geocode, weather, places);
            var found := geocode.Returned? && geocode.value.Some?;
            ((exists k :: 0 <= k < |r.lookups| && r.lookups[k].WeatherAt?) <==> found && intent.needsWeather) &&
            ((exists k :: 0 <= k < |r.lookups| && r.lookups[k].PlacesNear?) <==>
               found && intent.needsPlaces && !(intent.needsWeather && weather.Threw?))
  {
    var r := Settle(intent, geocode, weather, places);
    if geocode.Returned? && geocode.value.Some? {
      if intent.needsWeather {
        assert r.lookups[1].WeatherAt?;
      }
      if intent.needsPlaces && !(intent.needsWeather && weather.Threw?) {
        assert r.lookups[|r.lookups| - 1].PlacesNear?;
      }
    }
  }

  /** The page: the text field, the flags that drive the view, and the request in flight. */
  class TourismAgent {
    var input: string
    var loading: bool
    var error: Option<string>
    var response: Option<TourResult>
    /** The input of the request in flight. */
    var pending: Option<string>
    /** The lookups the last completed request made, in order. */
    var lookups: seq<Lookup>

    /**
     * A request is in flight exactly while the page shows that it is
     * loading, and while it is, there is neither an error nor a response.
     */
    predicate Valid()
      reads this
    {
      (loading <==> pending.Some?) && (loading ==> error.None? && response.None?)
    }

    constructor()
      ensures Valid()
      ensures input == [] && !loading && error.None? && response.None? && lookups == []
    {
      input := [];
      loading := false;
      error := None;
      response := None;
      pending := None;
      lookups := [];
    }

    /** `onChange`: the text field's new value. */
    method SetInput(value: string)
      requires Valid()
      modifies this
      ensures Valid()
      ensures input == value
      ensures loading == old(loading) && error == old(error) && response == old(response)
      ensures pending == old(pending) && lookups == old(lookups)
    {
      input := value;
    }

    /** The condition both ways of submitting check: nothing in flight and a non-blank input. */
    predicate CanSubmit()
      reads this
    {
      !loading && Trim(input) != []
    }

    /** The state `processTourismRequest` sets before its first `await`. */
    method Start(userInput: string)
      modifies this
      ensures Valid()
      ensures loading && error.None? && response.None? && pending == Some(userInput)
      ensures input == old(input) && lookups == old(lookups)
    {
      loading := true;
      error := None;
      response := None;
      pending := Some(userInput);
    }

    /** `onKeyDown`: Enter submits the input when the guard holds; any other key does nothing. */
    method PressKey(key: string) returns (issued: bool)
      requires Valid()
      modifies this
      ensures Valid()
      ensures issued <==> key == "Enter" && old(CanSubmit())
      ensures issued ==> loading && error.None? && response.None? && pending == Some(input)
      ensures !issued ==> unchanged(this)
      ensures input == old(input) && lookups == old(lookups)
    {
      issued := false;
      if key == "Enter" && !loading && Trim(input) != [] {
        Start(input);
        issued := true;
      }
    }

    /**
     * The button: it is disabled while loading or while the input is blank,
     * and its click handler checks the input once more.
     */
    method Click() returns (issued: bool)
      requires Valid()
      modifies this
      ensures Valid()
      ensures issued <==> old(CanSubmit())
      ensures issued ==> loading && error.None? && response.None? && pending == Some(input)
      ensures !issued ==> unchanged(this)
      ensures input == old(input) && lookups == old(lookups)
    {
      issued := false;
      var disabled := loading || Trim(input) == [];
      if !disabled && Trim(input) != [] {
        Start(input);
        issued := true;
      }
    }

    /**
     * The rest of `processTourismRequest`, once the lookups have ended as
     * given: the intent of the input, then the lookups and the final state.
     */
    method Complete(geocode: Outcome<Option<Coordinates>>, weather: Outcome<Reading>, places: Outcome<seq<Element>>)
      requires Valid() && loading
      modifies this
      ensures Valid() && !loading
      ensures var s := Settle(Analyze(old(pending.value)), geocode, weather, places);
              error == s.error && response == s.response && lookups == s.lookups
      ensures input == old(input)
    {
      var intent := AnalyzeIntent(pending.value);
      Resolve(intent, geocode, weather, places);
    }

    /**
     * The `try` block after the intent is known, step by step, the `catch`
     * that turns a thrown error into the error message, and the `finally`
     * that clears the loading flag.
     */
    method Resolve(intent: Intent, geocode: Outcome<Option<Coordinates>>, weather: Outcome<Reading>,
                   places: Outcome<seq<Element>>)
      requires Valid() && loading
      modifies this
      ensures Valid() && !loading
      ensures var s := Settle(intent, geocode, weather, places);
              error == s.error && response == s.response && lookups == s.lookups
      ensures input == old(input)
    {
      lookups := [Geocode(intent.place)];
      var thrown: Option<string> := None;
      match geocode {
        case Threw(m) =>
          thrown := Some(m);
        case Returned(None) =>
          error := Some(NotFoundMessage(intent.place));
          loading := false;
        case Returned(Some(coords)) =>
          var result := TourResult(intent.place, coords.displayName, None, None);
          if intent.needsWeather {
            lookups := lookups + [WeatherAt(coords.lat, coords.lon)];
            match weather {
              case Threw(m) => thrown := Some(m);
              case Returned(reading) => result := result.(weather := Some(WeatherOf(reading)));
            }
          }
          if thrown.None? && intent.needsPlaces {
            lookups := lookups + [PlacesNear(coords.lat, coords.lon)];
            match places {
              case Threw(m) => thrown := Some(m);
              case Returned(elements) => result := result.(places := Some(TopPlaces(elements)));
            }
          }
          if thrown.None? {
            response := Some(result);
          }
      }
      if thrown.Some? {
        error := Some(ErrorMessage(thrown.value));
      }
      loading := false;
      pending := None;
    }
  }
}
