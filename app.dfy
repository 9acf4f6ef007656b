/** The `WeatherApp` component's state and its three handlers
    (src/WeatherApp.jsx:6-41). The state is the three slots `weatherCards`,
    `error` and `bgClass`; the transitions are first given as functions on an
    `AppState` value, and the class `WeatherApp` then runs them step by step
    on its fields, as the component does. The network is abstracted: a
    `provider` maps the city that would be put into the request URL to what
    `fetch`, `response.ok` and `response.json()` came to. Submissions are
    sequential: each fetch completes before the next event. */
module App {
  import opened Text
  import opened Cards

  datatype Option<T> = None | Some(value: T)

  /** What one request for a city came to. */
  datatype FetchOutcome =
    | Success(doc: WeatherRecord)  // `response.ok`, and `response.json()` gave `doc`
    | NotOk                        // the provider answered with a non-success status
    | Thrown(message: string)      // `fetch` or `json()` rejected with this `err.message`

  /** The message thrown for a non-success status (src/WeatherApp.jsx:27). */
  const CityNotFound: string := "City not found"

  /** The `err.message` of the TypeError that `data.weather[0].main` raises
      when the document's `weather` array is empty (V8's wording). */
  const NoConditionMessage: string := "Cannot read properties of undefined (reading 'main')"

  /** The background class before any search (src/WeatherApp.jsx:9). */
  const InitialBackground: string := "clear"

  /** The three state slots; `error == None` stands for `null`. */
  datatype AppState = AppState(cards: seq<WeatherRecord>, error: Option<string>, bgClass: string)

  const Initial: AppState := AppState([], None, InitialBackground)

  /** The state updates of `fetchWeatherByCity` once its request has
      completed (src/WeatherApp.jsx:25-35). The card is appended before the
      background is computed, so an empty `weather` array leaves the card in
      the list and stores the TypeError's message. */
  function Fetched(s: AppState, outcome: FetchOutcome): (r: AppState)
    ensures |s.cards| <= |r.cards| <= |s.cards| + 1
    ensures r.cards[..|s.cards|] == s.cards
  {
    match outcome
    case Success(doc) =>
      if |doc.weather| == 0 then
        s.(cards := Appended(s.cards, doc), error := Some(NoConditionMessage))
      else
        AppState(Appended(s.cards, doc), None, ToLower(doc.weather[0].main))
    case NotOk => s.(error := Some(CityNotFound))
    case Thrown(message) => s.(error := Some(message))
  }

  /** `handleSubmit` (src/WeatherApp.jsx:11-19): trim, give up on an empty
      city, otherwise fetch the trimmed city. */
  function Submitted(s: AppState, raw: string, provider: string -> FetchOutcome): (r: AppState)
    ensures |s.cards| <= |r.cards| <= |s.cards| + 1
    ensures r.cards[..|s.cards|] == s.cards
  {
    var city := Trim(raw);
    if city == [] then s else Fetched(s, provider(city))
  }

  /** `handleRemove` (src/WeatherApp.jsx:39-41). */
  function Removed(s: AppState, id: int): (r: AppState)
    ensures |r.cards| <= |s.cards|
    ensures r.error == s.error && r.bgClass == s.bgClass
  {
    s.(cards := RemoveById(s.cards, id))
  }

  /** The error slot a completed fetch leaves behind. */
  function ErrorAfter(outcome: FetchOutcome): Option<string> {
    match outcome
    case Success(doc) => if |doc.weather| == 0 then Some(NoConditionMessage) else None
    case NotOk => Some(CityNotFound)
    case Thrown(message) => Some(message)
  }

  /** A successful fetch appends exactly the fetched document at the end,
      keeps all earlier cards in order, sets the background to the lower-cased
      primary condition and clears the error. */
  lemma FetchSuccess(s: AppState, doc: WeatherRecord)
    requires |doc.weather| > 0
    ensures |Fetched(s, Success(doc)).cards| == |s.cards| + 1
    ensures Fetched(s, Success(doc)).cards[|s.cards|] == doc
    ensures Fetched(s, Success(doc)).cards[..|s.cards|] == s.cards
    ensures Fetched(s, Success(doc)).bgClass == ToLower(doc.weather[0].main)
    ensures HasNoUpper(Fetched(s, Success(doc)).bgClass)
    ensures Fetched(s, Success(doc)).error == None
  {
  }

  /** A failed fetch stores its message and changes nothing else; a
      non-success status always yields "City not found". */
  lemma FetchFailure(s: AppState, outcome: FetchOutcome)
    requires !outcome.Success?
    ensures Fetched(s, outcome).cards == s.cards
    ensures Fetched(s, outcome).bgClass == s.bgClass
    ensures Fetched(s, outcome).error == Some(if outcome.NotOk? then CityNotFound else outcome.message)
  {
  }

  /** A document without conditions is still appended, but the error is set
      and the background stays: the only path where a card is added and the
      error is not cleared. */
  lemma FetchWithoutCondition(s: AppState, doc: WeatherRecord)
    requires |doc.weather| == 0
    ensures Fetched(s, Success(doc)).cards == s.cards + [doc]
    ensures Fetched(s, Success(doc)).bgClass == s.bgClass
    ensures Fetched(s, Success(doc)).error == Some(NoConditionMessage)
  {
  }

  /** Whatever a fetch comes to, the error slot afterwards depends only on
      that outcome, and the list grows by one card exactly on success. */
  lemma FetchOverwritesError(s: AppState, outcome: FetchOutcome)
    ensures Fetched(s, outcome).error == ErrorAfter(outcome)
    ensures |Fetched(s, outcome).cards| == |s.cards| + (if outcome.Success? then 1 else 0)
  {
  }

  /** Input that trims to nothing issues no fetch and changes no slot;
      any other input is fetched. */
  lemma SubmitBlankIsNoop(s: AppState, raw: string, provider: string -> FetchOutcome)
    ensures AllWhitespace(raw) ==> Submitted(s, raw, provider) == s
    ensures !AllWhitespace(raw) ==>
              Trim(raw) != [] && Submitted(s, raw, provider) == Fetched(s, provider(Trim(raw)))
  {
    TrimEmptyIffBlank(raw);
  }

  /** The fetch sees the trimmed city: whitespace around the input does not
      change the outcome of a submission. */
  lemma SubmitIgnoresPadding(s: AppState, pre: string, raw: string, post: string,
                             provider: string -> FetchOutcome)
    requires AllWhitespace(pre) && AllWhitespace(post)
    ensures Submitted(s, pre + raw + post, provider) == Submitted(s, raw, provider)
  {
    TrimIgnoresPadding(pre, raw, post);
  }

  /** Submitting the already trimmed city is the same submission. */
  lemma SubmitTrimmed(s: AppState, raw: string, provider: string -> FetchOutcome)
    ensures Submitted(s, Trim(raw), provider) == Submitted(s, raw, provider)
  {
    TrimIdempotent(raw);
  }

  /** After a removal no card has the id, every other card stays in its
      relative order, and the error and background are untouched. */
  lemma RemoveEffect(s: AppState, id: int)
    ensures forall k :: 0 <= k < |Removed(s, id).cards| ==> Removed(s, id).cards[k].id != id
    ensures |Removed(s, id).cards| == |KeptIndices(s.cards, id)|
    ensures forall k :: 0 <= k < |KeptIndices(s.cards, id)| ==>
              Removed(s, id).cards[k] == s.cards[KeptIndices(s.cards, id)[k]]
    ensures Removed(s, id).error == s.error && Removed(s, id).bgClass == s.bgClass
  {
    RemoveKeepsOthersInOrder(s.cards, id);
  }

  /** Removing twice is removing once; removing an absent id is a no-op. */
  lemma RemoveTwice(s: AppState, id: int)
    ensures Removed(Removed(s, id), id) == Removed(s, id)
    ensures (forall k :: 0 <= k < |s.cards| ==> s.cards[k].id != id) ==> Removed(s, id) == s
  {
    RemoveIdempotent(s.cards, id);
    if forall k :: 0 <= k < |s.cards| ==> s.cards[k].id != id {
      RemoveAbsentIsNoop(s.cards, id);
    }
  }

  /** A user action, processed to completion before the next one. `outcome`
      is what the provider answers for the trimmed city. */
  datatype Event = Submit(raw: string, outcome: FetchOutcome) | Remove(id: int)

  /** One action: a submission followed by its fetch, or a removal. Either
      keeps the background free of capitals. */
  function Step(s: AppState, e: Event): (r: AppState)
    ensures HasNoUpper(s.bgClass) ==> HasNoUpper(r.bgClass)
  {
    match e
    case Submit(raw, outcome) => Submitted(s, raw, _ => outcome)
    case Remove(id) => Removed(s, id)
  }

  /** The state after a sequence of actions; each action adds at most one card. */
  function Run(s: AppState, events: seq<Event>): (r: AppState)
    ensures |r.cards| <= |s.cards| + |events|
    decreases |events|
  {
    if events == [] then s else Run(Step(s, events[0]), events[1..])
  }

  /** The fetch an event issues, if any. */
  function FetchOf(e: Event): Option<FetchOutcome> {
    match e
    case Submit(raw, outcome) => if Trim(raw) == [] then None else Some(outcome)
    case Remove(_) => None
  }

  /** The last fetch issued by a sequence of actions. */
  function LastFetch(events: seq<Event>): Option<FetchOutcome>
    decreases |events|
  {
    if events == [] then None
    else
      var later := LastFetch(events[1..]);
      if later.Some? then later else FetchOf(events[0])
  }

  /** The background an event sets, if any: only a fetch whose document
      has a condition changes it. */
  function BgOf(e: Event): Option<string> {
    match e
    case Submit(raw, outcome) =>
      if Trim(raw) != [] && outcome.Success? && |outcome.doc.weather| > 0
      then Some(ToLower(outcome.doc.weather[0].main)) else None
    case Remove(_) => None
  }

  /** The background set by the last event of a sequence that sets one. */
  function LastBg(events: seq<Event>): Option<string>
    decreases |events|
  {
    if events == [] then None
    else
      var later := LastBg(events[1..]);
      if later.Some? then later else BgOf(events[0])
  }

  /** The background is the lower-cased primary condition of the most recent
      fetch that had one; failures, condition-less documents, blank searches
      and removals leave it as it was. */
  lemma {:induction false} RunBackgroundFollowsLastSuccess(s: AppState, events: seq<Event>)
    ensures Run(s, events).bgClass ==
              (match LastBg(events)
               case None => s.bgClass
               case Some(b) => b)
    decreases |events|
  {
    if events != [] {
      RunBackgroundFollowsLastSuccess(Step(s, events[0]), events[1..]);
    }
  }

  /** The background class is always free of capitals: it starts as
      "clear" and is only ever replaced by a lower-cased keyword. */
  lemma {:induction false} RunKeepsBackgroundLower(s: AppState, events: seq<Event>)
    requires HasNoUpper(s.bgClass)
    ensures HasNoUpper(Run(s, events).bgClass)
    decreases |events|
  {
    if events != [] {
      RunKeepsBackgroundLower(Step(s, events[0]), events[1..]);
    }
  }

  /** The most recent fetch decides the error slot: it replaces any earlier
      error, a success with a condition clears it, a condition-less success or
      a failure stores its message, and actions without a fetch leave it alone. */
  lemma {:induction false} RunErrorFollowsLastFetch(s: AppState, events: seq<Event>)
    ensures Run(s, events).error ==
              (match LastFetch(events)
               case None => s.error
               case Some(outcome) => ErrorAfter(outcome))
    decreases |events|
  {
    if events != [] {
      var s' := Step(s, events[0]);
      RunErrorFollowsLastFetch(s', events[1..]);
      match events[0]
      case Submit(raw, outcome) =>
        if Trim(raw) != [] {
          FetchOverwritesError(s, outcome);
        }
      case Remove(_) =>
    }
  }

  /** One action adds at most the document its own fetch returned. */
  lemma StepCardsWereFetched(s: AppState, e: Event, c: WeatherRecord)
    requires c in Step(s, e).cards
    ensures c in s.cards || FetchOf(e) == Some(Success(c))
  {
    match e
    case Submit(raw, outcome) =>
    case Remove(id) =>
      var r := RemoveById(s.cards, id);
      var i :| 0 <= i < |r| && r[i] == c;
      RemoveKeepsOthersInOrder(s.cards, id);
      assert c == s.cards[KeptIndices(s.cards, id)[i]];
  }

  /** Every card on screen is the initial list's or a document some
      submission actually fetched. */
  lemma {:induction false} RunCardsWereFetched(s: AppState, events: seq<Event>, c: WeatherRecord)
    requires c in Run(s, events).cards
    ensures c in s.cards || exists k :: 0 <= k < |events| && FetchOf(events[k]) == Some(Success(c))
    decreases |events|
  {
    if events != [] {
      var s' := Step(s, events[0]);
      var rest := events[1..];
      assert Run(s, events) == Run(s', rest);
      RunCardsWereFetched(s', rest, c);
      if c in s'.cards {
        StepCardsWereFetched(s, events[0], c);
      } else {
        var k :| 0 <= k < |rest| && FetchOf(rest[k]) == Some(Success(c));
        assert events[k + 1] == rest[k];
      }
    }
  }

  /** The component: three state slots that the handlers overwrite in place. */
  class WeatherApp {
    var weatherCards: seq<WeatherRecord>
    var error: Option<string>
    var bgClass: string

    function State(): AppState
      reads this
    {
      AppState(weatherCards, error, bgClass)
    }

    ghost predicate Valid()
      reads this
    {
      HasNoUpper(bgClass)
    }

    /** `useState([])`, `useState(null)`, `useState("clear")`. */
    constructor ()
      ensures Valid()
      ensures weatherCards == [] && error == None && bgClass == "clear"
      ensures State() == Initial
    {
      weatherCards := [];
      error := None;
      bgClass := InitialBackground;
    }

    /** Returns the city that was fetched, or None when no fetch was issued. */
    method HandleSubmit(raw: string, provider: string -> FetchOutcome) returns (requested: Option<string>)
      requires Valid()
      modifies this
      ensures Valid()
      ensures requested == if AllWhitespace(raw) then None else Some(Trim(raw))
      ensures requested == None ==> State() == old(State())
      ensures State() == Submitted(old(State()), raw, provider)
    {
      TrimEmptyIffBlank(raw);
      var city := Trim(raw);
      if city == [] {
        return None;
      }
      FetchWeatherByCity(city, provider);
      requested := Some(city);
    }

    method FetchWeatherByCity(city: string, provider: string -> FetchOutcome)
      requires Valid()
      modifies this
      ensures Valid()
      ensures State() == Fetched(old(State()), provider(city))
    {
      var outcome := provider(city);
      match outcome {
        case Success(data) =>
          weatherCards := Appended(weatherCards, data);
          if |data.weather| == 0 {
            error := Some(NoConditionMessage);
          } else {
            bgClass := ToLower(data.weather[0].main);
            error := None;
          }
        case NotOk =>
          error := Some(CityNotFound);
        case Thrown(message) =>
          error := Some(message);
      }
    }

    method HandleRemove(id: int)
      requires Valid()
      modifies this
      ensures Valid()
      ensures State() == Removed(old(State()), id)
      ensures error == old(error) && bgClass == old(bgClass)
    {
      weatherCards := RemoveById(weatherCards, id);
    }
  }
}
