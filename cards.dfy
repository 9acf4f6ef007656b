/** The card list kept by the component (`weatherCards`, src/WeatherApp.jsx:7)
    and the two pure list computations performed on it: appending a fetched
    document (line 30) and filtering out a card identifier (line 40). */
module Cards {

  /** One entry of the provider's `weather` array. */
  datatype Condition = Condition(main: string, description: string, icon: string)

  /** The fields of the provider's current-weather document that the component
      reads. `id` is the provider's city identifier, reused as the card key
      with no de-duplication. The measurements are carried, never computed with. */
  datatype WeatherRecord = WeatherRecord(
    id: int,
    name: string,
    country: string,
    weather: seq<Condition>,
    temp: real,
    humidity: real,
    windSpeed: real,
    dt: int)

  /** `[...prev, data]`: the list grows by exactly one, the new record is
      last and the earlier cards keep their places. */
  function Appended(cards: seq<WeatherRecord>, data: WeatherRecord): (r: seq<WeatherRecord>)
    ensures |r| == |cards| + 1
    ensures r[|cards|] == data
    ensures r[..|cards|] == cards
  {
    cards + [data]
  }

  /** `prev.filter(card => card.id !== id)`. */
  function RemoveById(cards: seq<WeatherRecord>, id: int): (r: seq<WeatherRecord>)
    ensures |r| <= |cards|
    ensures forall k :: 0 <= k < |r| ==> r[k].id != id
  {
    if cards == [] then []
    else
      var n := |cards| - 1;
      RemoveById(cards[..n], id) + (if cards[n].id != id then [cards[n]] else [])
  }

  /** The positions, in increasing order, of the cards whose id differs
      from `id`: exactly the cards a filter by `id` keeps. */
  function KeptIndices(cards: seq<WeatherRecord>, id: int): (ks: seq<nat>)
    ensures forall k :: 0 <= k < |ks| ==> ks[k] < |cards| && cards[ks[k]].id != id
    ensures forall a, b :: 0 <= a < b < |ks| ==> ks[a] < ks[b]
    ensures forall i :: 0 <= i < |cards| && cards[i].id != id ==> i in ks
  {
    if cards == [] then []
    else
      var n := |cards| - 1;
      var ks := KeptIndices(cards[..n], id);
      assert forall i :: 0 <= i < n ==> cards[..n][i] == cards[i];
      ks + (if cards[n].id != id then [n] else [])
  }

  /** Removal keeps every card with a different id, each exactly once and in
      the original relative order, and nothing else. */
  lemma {:induction false} RemoveKeepsOthersInOrder(cards: seq<WeatherRecord>, id: int)
    ensures |RemoveById(cards, id)| == |KeptIndices(cards, id)|
    ensures forall k :: 0 <= k < |KeptIndices(cards, id)| ==>
              RemoveById(cards, id)[k] == cards[KeptIndices(cards, id)[k]]
  {
    if cards != [] {
      var n := |cards| - 1;
      var front := cards[..n];
      RemoveKeepsOthersInOrder(front, id);
      var r, ks := RemoveById(front, id), KeptIndices(front, id);
      var last := if cards[n].id != id then [cards[n]] else [];
      assert RemoveById(cards, id) == r + last;
      assert KeptIndices(cards, id) == ks + (if cards[n].id != id then [n] else []);
      forall k | 0 <= k < |ks| ensures r[k] == cards[ks[k]] {
        assert front[ks[k]] == cards[ks[k]];
      }
    }
  }

  /** Removing an id that no card carries leaves the list as it was. */
  lemma {:induction false} RemoveAbsentIsNoop(cards: seq<WeatherRecord>, id: int)
    requires forall k :: 0 <= k < |cards| ==> cards[k].id != id
    ensures RemoveById(cards, id) == cards
  {
    if cards != [] {
      var n := |cards| - 1;
      RemoveAbsentIsNoop(cards[..n], id);
      assert cards[..n] + [cards[n]] == cards;
    }
  }

  /** A second removal of the same id changes nothing. */
  lemma RemoveIdempotent(cards: seq<WeatherRecord>, id: int)
    ensures RemoveById(RemoveById(cards, id), id) == RemoveById(cards, id)
  {
    RemoveAbsentIsNoop(RemoveById(cards, id), id);
  }

  /** Filtering distributes over concatenation: removal works card by card. */
  lemma {:induction false} RemoveConcat(a: seq<WeatherRecord>, b: seq<WeatherRecord>, id: int)
    ensures RemoveById(a + b, id) == RemoveById(a, id) + RemoveById(b, id)
  {
    if b == [] {
      assert a + b == a;
    } else {
      var n := |b| - 1;
      RemoveConcat(a, b[..n], id);
      assert (a + b)[..|a + b| - 1] == a + b[..n];
      assert (a + b)[|a + b| - 1] == b[n];
    }
  }

  /** Removals of two ids may be done in either order. */
  lemma {:induction false} RemoveCommutes(cards: seq<WeatherRecord>, x: int, y: int)
    ensures RemoveById(RemoveById(cards, x), y) == RemoveById(RemoveById(cards, y), x)
  {
    if cards != [] {
      var n := |cards| - 1;
      var c := cards[n];
      RemoveCommutes(cards[..n], x, y);
      RemoveConcat(RemoveById(cards[..n], x), if c.id != x then [c] else [], y);
      RemoveConcat(RemoveById(cards[..n], y), if c.id != y then [c] else [], x);
    }
  }
}
