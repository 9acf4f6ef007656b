# React weather app: the card-list state machine

This project models, in Dafny, the state logic of the `WeatherApp` component
of a small React weather viewer. The component keeps three pieces of state:

- `weatherCards`: the list of fetched weather documents, one card each;
- `error`: the last error message, or `null`;
- `bgClass`: a background style hint, initially `"clear"`.

Three handlers change that state:

- `handleSubmit` trims the typed city name and fetches it unless it is empty;
- `fetchWeatherByCity` handles the result: on success it appends the document,
  sets the background from the first weather condition and clears the error;
  on failure it stores the error message;
- `handleRemove` filters out every card with a given provider id.

Layout:

- `text.dfy` (module `Text`): `String.prototype.trim`, with ECMAScript's exact
  set of whitespace and line-terminator characters, and `toLowerCase` for
  ASCII letters.
- `cards.dfy` (module `Cards`): the weather document, the append at line 30
  and the filter at line 40, with lemmas that describe the filter completely.
- `app.dfy` (module `App`): the state written as a value (`AppState`), the
  transitions as functions (`Fetched`, `Submitted`, `Removed`, and `Run` over
  a sequence of user actions), lemmas about them, and the class `WeatherApp`.
  The class has the three state slots as fields. Its methods update those
  fields step by step, and each method's postcondition ties the new state to
  the matching transition function.
- `scenarios.dfy` (module `Scenarios`): the London, Atlantis and
  same-city-twice examples.

The network is a parameter. A `provider: string -> FetchOutcome` stands for
`fetch`, `response.ok` and `response.json()` together, applied to the city
that would go into the request URL. A `FetchOutcome` is one of three things:

- `Success(doc)`: the response was OK and parsed to `doc`;
- `NotOk`: the provider answered with a non-success status;
- `Thrown(message)`: the request or the JSON decoding rejected with an error
  whose `message` is given.

`HandleSubmit` returns the city it fetched (`None` when there was no fetch).
This makes "the trimmed city, not the raw input, is fetched" part of its
contract.

One path deserves a note. A successful response is not the same as a
successful update. Line 30 queues the append before line 31 reads
`data.weather[0].main`. So a document whose `weather` array is empty is still
appended. The `TypeError` raised at line 31 then lands in the `catch`, which
stores its message, and `bgClass` keeps its old value. `Fetched` models this
path as written instead of forbidding it (`App.FetchWithoutCondition`). It
uses V8's wording of that message as a constant, `App.NoConditionMessage`.
The provider's identifiers are reused as card keys without de-duplication,
so two searches of one city give two cards that share an id.

## Model

| member | source | states |
|---|---|---|
| Text.IsWhitespace | src/WeatherApp.jsx:13 | The characters `trim` strips, as `AsciiWhitespace` pins down on ASCII: exactly TAB, LF, VT, FF, CR and space there; beyond ASCII NBSP, ZWNBSP, the other Unicode space separators, LS and PS |
| Text.AsciiWhitespace | src/WeatherApp.jsx:13 | Below U+0080 a character is stripped by `trim` if and only if it is one of TAB, LF, VT, FF, CR and space |
| Text.TrimStart | src/WeatherApp.jsx:13 | The result is a suffix of the input that does not begin with whitespace, and every dropped character is ECMAScript whitespace |
| Text.TrimEnd | src/WeatherApp.jsx:13 | The result is a prefix of the input that does not end with whitespace, and every dropped character is whitespace |
| Text.Trim | src/WeatherApp.jsx:13 | `trim` gives a string no longer than its input that neither begins nor ends with whitespace; `TrimIsInfix` identifies it as the exact infix with whitespace around it |
| Text.TrimIsInfix | src/WeatherApp.jsx:13 | `trim` yields exactly the infix `s[lo..hi]` whose surroundings are all whitespace and whose first and last characters are not (an independent definition) |
| Text.TrimInfixExists | src/WeatherApp.jsx:13 | For every input there are cut points whose outside is whitespace and whose ends are not, and `trim` is exactly the infix between them |
| Text.TrimEmptyIffBlank | src/WeatherApp.jsx:13-15 | The trimmed city is empty if and only if every character of the raw input is whitespace |
| Text.TrimIdempotent | src/WeatherApp.jsx:13 | Trimming an already trimmed string changes nothing |
| Text.TrimIgnoresPadding | src/WeatherApp.jsx:13 | Adding whitespace before and after the input does not change its trim |
| Text.ToLower | src/WeatherApp.jsx:31 | Lower-casing keeps the length and leaves no ASCII capital letter |
| Text.ToLowerAt | src/WeatherApp.jsx:31 | Each character maps to its small letter if it is A-Z and is kept otherwise |
| Text.ToLowerOfLower | src/WeatherApp.jsx:31 | A string without capitals is its own lower-case form |
| Text.ToLowerIdempotent | src/WeatherApp.jsx:31 | Lower-casing twice equals lower-casing once |
| Cards.Appended | src/WeatherApp.jsx:30 | `[...prev, data]` has one more element, `data` is last, and the earlier cards are the old list in order |
| Cards.RemoveById | src/WeatherApp.jsx:40 | The filtered list is no longer than the old one, and no remaining card has the removed id |
| Cards.KeptIndices | src/WeatherApp.jsx:40 | The positions of the cards whose id differs, strictly increasing, and each such position occurs |
| Cards.RemoveKeepsOthersInOrder | src/WeatherApp.jsx:40 | The filtered list is exactly the cards with a different id, each once and in their original relative order |
| Cards.RemoveAbsentIsNoop | src/WeatherApp.jsx:40 | Removing an id that no card has leaves the list unchanged |
| Cards.RemoveIdempotent | src/WeatherApp.jsx:40 | Removing the same id a second time changes nothing |
| Cards.RemoveConcat | src/WeatherApp.jsx:40 | The filter distributes over concatenation of card lists |
| Cards.RemoveCommutes | src/WeatherApp.jsx:40 | Two removals with different ids give the same list in either order |
| App.Fetched | src/WeatherApp.jsx:25-35 | A completed fetch keeps every earlier card in place and adds at most one; its partner lemmas `FetchSuccess`, `FetchFailure`, `FetchWithoutCondition` and `FetchOverwritesError` describe each outcome |
| App.Submitted | src/WeatherApp.jsx:11-19 | A submission keeps every earlier card in place and adds at most one; `SubmitBlankIsNoop`, `SubmitIgnoresPadding` and `SubmitTrimmed` give its guard and its use of the trimmed city |
| App.Removed | src/WeatherApp.jsx:39-41 | A removal never lengthens the list and leaves `error` and `bgClass` untouched; `RemoveEffect` says which cards remain |
| App.FetchSuccess | src/WeatherApp.jsx:30-32 | On success with a condition, the list grows by exactly one, the document is last, earlier cards keep their order, `bgClass` is the lower-cased `weather[0].main` (free of capitals) and `error` is null |
| App.FetchFailure | src/WeatherApp.jsx:27-34 | On a non-OK status the error is "City not found". On a thrown error it is that error's message. In both cases cards and background are unchanged |
| App.FetchWithoutCondition | src/WeatherApp.jsx:30-34 | A success document with an empty `weather` array is appended. The error becomes the TypeError's message and the background is unchanged |
| App.FetchOverwritesError | src/WeatherApp.jsx:25-35 | Every completed fetch overwrites `error` with a value that depends only on its outcome. The list grows by one exactly when the response was OK and its body parsed (`Success`) |
| App.SubmitBlankIsNoop | src/WeatherApp.jsx:13-17 | Blank input leaves every slot unchanged. Other input trims to a non-empty city and runs the fetch on the provider's answer for that trimmed city |
| App.SubmitIgnoresPadding | src/WeatherApp.jsx:13-17 | Whitespace around the input does not change what a submission does |
| App.SubmitTrimmed | src/WeatherApp.jsx:13-17 | Submitting the trimmed city is the same submission as submitting the raw input |
| App.RemoveEffect | src/WeatherApp.jsx:39-41 | After a removal no card has the id, the remaining cards are exactly the others in their original order, and `error` and `bgClass` are untouched |
| App.RemoveTwice | src/WeatherApp.jsx:39-41 | Removal is idempotent, and removing an absent id leaves the state unchanged |
| App.Step | src/WeatherApp.jsx:11-41 | One user action, a submission with its fetch or a removal, keeps a background free of capitals free of them |
| App.Run | src/WeatherApp.jsx:11-41 | A sequence of actions adds at most one card per action |
| App.StepCardsWereFetched | src/WeatherApp.jsx:11-41 | One user action adds no card other than the document its own fetch returned |
| App.RunKeepsBackgroundLower | src/WeatherApp.jsx:9-41 | After any sequence of actions the background class has no capital letter, given that it started without one |
| App.RunErrorFollowsLastFetch | src/WeatherApp.jsx:8-41 | After any sequence of actions, `error` is determined by the most recent fetch: a success with a condition clears it; a condition-less success or a failure stores its message. With no fetch it keeps its initial value |
| App.RunBackgroundFollowsLastSuccess | src/WeatherApp.jsx:9-41 | After any sequence of actions, `bgClass` is the lower-cased `weather[0].main` of the most recent non-blank search whose fetch succeeded with a condition; failures, condition-less documents, blank searches and removals leave it alone, so with no such search it keeps its initial value |
| App.RunCardsWereFetched | src/WeatherApp.jsx:7-41 | Every card after a sequence of actions was in the initial list or is a document some non-blank submission fetched |
| App.WeatherApp.constructor | src/WeatherApp.jsx:7-9 | Initial state: no cards, `error` null, `bgClass` "clear" |
| App.WeatherApp.HandleSubmit | src/WeatherApp.jsx:11-19 | Returns the city it fetched: the trimmed input, or none for blank input. Blank input leaves the state unchanged. The new state is the submission transition of the old one |
| App.WeatherApp.FetchWeatherByCity | src/WeatherApp.jsx:22-36 | The fields afterwards equal the fetch transition applied to the provider's answer for `city`. The background stays free of capitals |
| App.WeatherApp.HandleRemove | src/WeatherApp.jsx:39-41 | The card field becomes the filtered list. `error` and `bgClass` keep their old values |
| Scenarios.LondonIsFound | src/WeatherApp.jsx:11-32 | Searching "London" from the initial state gives one card, background "clouds" and no error |
| Scenarios.AtlantisIsNotFound | src/WeatherApp.jsx:11-34 | Searching "Atlantis" answered with a non-OK status gives the error "City not found" and no card |
| Scenarios.SearchTwice | src/WeatherApp.jsx:11-30 | Through the component, two searches that trim to the same city give two cards holding the provider's document for it |
| Scenarios.SearchTwiceThenRemove | src/WeatherApp.jsx:11-41 | The component is driven through its methods. Two searches of one city give two cards with the same id. A blank search after them fetches nothing and leaves both cards. One removal of that id then deletes both cards |

## Left out

- The request itself: URL building, the API key read from the environment, `fetch`, `response.ok` and `response.json()` (src/WeatherApp.jsx:4, 23-28). These are I/O and an external service. The `provider` parameter and `FetchOutcome` stand in for them.
- Overlapping submissions (src/WeatherApp.jsx:11-36). Each handler is `async`, so two searches can be in flight at once and land in either order. This is concurrency. The model processes each submission to completion before the next action.
- `event.preventDefault()` and `event.target.reset()` (src/WeatherApp.jsx:12, 18). These are DOM form plumbing. The fetch step never rejects, so the reset always follows a non-blank submission.
- All rendering (src/WeatherApp.jsx:43-96): the card layout, `toFixed(1)` on the temperature (floating point), `toLocaleString()` on the timestamp (locale), the icon URL. The error banner's `error &&` test is also rendering. A card with an empty `weather` array (see `App.FetchWithoutCondition`) would make the render at line 78 throw; that too is outside the model.
- Text.ToLower: lower-cases only the ASCII letters A-Z. JavaScript's `toLowerCase` follows the full Unicode case mapping, which is not modelled. The provider's condition keywords are ASCII words.
- The document's shape beyond the `weather` array's length. The model types `weather[0].main` as a string, so the other ways line 31 can throw (a missing `weather` field, a `main` that is not a string) are not modelled. Temperatures, wind speed and humidity are carried as `real` and never computed with.
- `App.NoConditionMessage` is the wording of V8's `TypeError` message. Other JavaScript engines word it differently. The only property proved about it is that it is stored verbatim.
- `src/main.jsx`. It only mounts the component and imports stylesheets.
