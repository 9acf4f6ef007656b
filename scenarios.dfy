/** Worked searches against the model: one city found, one unknown city, and
    the same city searched twice and then removed. */
module Scenarios {
  import opened Text
  import opened Cards
  import opened App

  const London: WeatherRecord :=
    WeatherRecord(1, "London", "GB", [Condition("Clouds", "overcast clouds", "04d")], 15.2, 70.0, 4.1, 1700000000)

  /** A word that neither starts nor ends with whitespace is its own trim. */
  lemma TrimOfWord(w: string)
    requires w != [] && !IsWhitespace(w[0]) && !IsWhitespace(w[|w| - 1])
    ensures Trim(w) == w
  {
    assert w[..0] == [] && w[|w|..] == [] && w[0..|w|] == w;
    TrimIsInfix(w, 0, |w|);
  }

  lemma CloudsLowered()
    ensures ToLower("Clouds") == "clouds"
  {
  }

  /** "London" found: one card, background "clouds", no error. */
  lemma LondonIsFound()
    ensures Submitted(Initial, "London", _ => Success(London)) == AppState([London], None, "clouds")
  {
    TrimOfWord("London");
    CloudsLowered();
  }

  /** "Atlantis" answered with 404: the error is "City not found" and the
      list stays empty. */
  lemma AtlantisIsNotFound()
    ensures Submitted(Initial, "Atlantis", _ => NotOk) == AppState([], Some("City not found"), "clear")
  {
    TrimOfWord("Atlantis");
  }

  /** A non-blank search whose provider answers with `doc` appends `doc`. */
  lemma SearchAppends(s: AppState, raw: string, provider: string -> FetchOutcome, doc: WeatherRecord)
    requires Trim(raw) != [] && provider(Trim(raw)) == Success(doc)
    ensures Submitted(s, raw, provider).cards == s.cards + [doc]
  {
  }

  /** Two cards with one id are both removed by that id. */
  lemma RemoveBothCopies(doc: WeatherRecord)
    ensures RemoveById([doc, doc], doc.id) == []
  {
    assert [doc, doc][..1] == [doc];
    assert [doc][..0] == [];
  }

  /** Through the component: two searches that trim to the same city give
      two cards with the same document. */
  method SearchTwice(city: string, padded: string, doc: WeatherRecord, provider: string -> FetchOutcome)
    returns (app: WeatherApp)
    requires Trim(city) == city == Trim(padded) != [] && provider(city) == Success(doc)
    ensures fresh(app) && app.Valid()
    ensures app.weatherCards == [doc, doc]
  {
    app := new WeatherApp();
    SearchAppends(app.State(), padded, provider, doc);
    var _ := app.HandleSubmit(padded, provider);
    assert app.weatherCards == [doc];
    SearchAppends(app.State(), city, provider, doc);
    var _ := app.HandleSubmit(city, provider);
    assert app.weatherCards == [doc] + [doc];
  }

  /** Through the component: a city searched twice (once with whitespace
      around it) gives two cards with the same id, a blank search after them
      fetches nothing and leaves both cards, and one removal of that id
      deletes both cards. */
  method SearchTwiceThenRemove(city: string, pad: string, doc: WeatherRecord)
    returns (afterSearches: seq<WeatherRecord>, fetchedBlank: bool, afterRemove: seq<WeatherRecord>)
    requires Trim(city) == city != [] && AllWhitespace(pad)
    ensures afterSearches == [doc, doc]
    ensures !fetchedBlank
    ensures afterRemove == []
  {
    var provider := (c: string) => if c == city then Success(doc) else NotOk;
    TrimIgnoresPadding(pad, city, pad);
    var app := SearchTwice(city, pad + city + pad, doc, provider);
    var blank := app.HandleSubmit(pad, provider);
    afterSearches := app.weatherCards;
    fetchedBlank := blank.Some?;
    RemoveBothCopies(doc);
    app.HandleRemove(doc.id);
    afterRemove := app.weatherCards;
  }
}
