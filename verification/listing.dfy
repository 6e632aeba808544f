/** The listing view of the index page (part4/scripts.js): the country facet
    built from the fetched places, and the `render` step that filters them by
    country and price ceiling. The fetched sequence is a value; filtering
    derives a new sequence from it and never changes it. */
module Listing {
  import opened Basics
  import opened Text

  /** A listing as returned by GET /api/v1/places/, with the fields the index
      page reads. `price` is the value after the page's numeric coercion. */
  datatype Place = Place(id: string, title: string, price: Num, country: Option<string>)

  /** `p.country || ""`. */
  function CountryText(p: Place): string
  {
    match p.country
    case Some(c) => c
    case None => ""
  }

  /** The facet entry a listing contributes: its trimmed country. */
  function FacetValue(p: Place): string
  {
    JsTrim(CountryText(p))
  }

  predicate StrictlySorted(s: seq<string>)
  {
    forall i, j :: 0 <= i < j < |s| ==> Less(s[i], s[j])
  }

  /** Adds `x` to a strictly sorted sequence, keeping it strictly sorted. */
  function Insert(s: seq<string>, x: string): (r: seq<string>)
    requires StrictlySorted(s)
    ensures StrictlySorted(r)
    ensures forall y :: y in r <==> y in s || y == x
  {
    if |s| == 0 then [x]
    else if x == s[0] then s
    else if Less(x, s[0]) then
      assert forall j :: 0 <= j < |s| ==> Less(x, s[j]) by {
        forall j | 0 < j < |s| ensures Less(x, s[j]) {
          LessTransitive(x, s[0], s[j]);
        }
      }
      [x] + s
    else
      LessTotal(x, s[0]);
      var rest := Insert(s[1..], x);
      assert forall y :: y in rest ==> Less(s[0], y);
      [s[0]] + rest
  }

  /** `places.map(p => (p.country||"").trim())`. */
  function FacetValues(places: seq<Place>): (vs: seq<string>)
    ensures |vs| == |places|
    ensures forall i :: 0 <= i < |places| ==> vs[i] == FacetValue(places[i])
  {
    if |places| == 0 then []
    else FacetValues(places[..|places| - 1]) + [FacetValue(places[|places| - 1])]
  }

  /** Some listing contributes `c` to the facet. */
  predicate Mentioned(places: seq<Place>, c: string)
  {
    c in FacetValues(places)
  }

  /** `Array.from(new Set(vs.filter(Boolean))).sort()`: the distinct
      non-empty strings of `vs`, ascending. */
  function SortedDistinct(vs: seq<string>): (r: seq<string>)
    ensures StrictlySorted(r)
    ensures forall c :: c in r <==> c != "" && c in vs
  {
    if |vs| == 0 then []
    else
      var c := vs[|vs| - 1];
      var rest := SortedDistinct(vs[..|vs| - 1]);
      assert vs == vs[..|vs| - 1] + [c];
      if c == "" then rest else Insert(rest, c)
  }

  /** The country options: the distinct non-empty trimmed countries, ascending. */
  function Countries(places: seq<Place>): (r: seq<string>)
    ensures StrictlySorted(r)
    ensures forall c :: c in r <==> c != "" && Mentioned(places, c)
  {
    SortedDistinct(FacetValues(places))
  }

  /** The first element of a strictly sorted sequence is below all the others. */
  lemma SortedHeadLeast(s: seq<string>)
    requires StrictlySorted(s) && |s| > 0
    ensures s[0] in s && s[0] !in s[1..]
    ensures forall y :: y in s && y != s[0] ==> Less(s[0], y)
  {
    LessIrreflexive(s[0]);
  }

  /** A strictly sorted sequence is determined by its elements. */
  lemma {:induction false} SortedUnique(a: seq<string>, b: seq<string>)
    requires StrictlySorted(a) && StrictlySorted(b)
    requires forall x :: x in a <==> x in b
    ensures a == b
    decreases |a|
  {
    if |a| > 0 {
      assert a[0] in b;
      SortedHeadLeast(a);
      SortedHeadLeast(b);
      if a[0] != b[0] {
        LessTransitive(a[0], b[0], a[0]);
        LessIrreflexive(a[0]);
        assert false;
      }
      assert a == [a[0]] + a[1..] && b == [b[0]] + b[1..];
      forall x ensures x in a[1..] <==> x in b[1..] {
        assert x in a <==> x == a[0] || x in a[1..];
        assert x in b <==> x == b[0] || x in b[1..];
      }
      SortedUnique(a[1..], b[1..]);
    } else if |b| > 0 {
      SortedHeadLeast(b);
      assert false;
    }
  }

  /** The country option list is the only ascending duplicate-free list of the
      non-empty trimmed countries. */
  lemma FacetIsTheSortedSet(places: seq<Place>, r: seq<string>)
    requires StrictlySorted(r)
    requires forall c :: c in r <==> c != "" && Mentioned(places, c)
    ensures r == Countries(places)
  {
    SortedUnique(r, Countries(places));
  }

  /** The value of the country select meaning "any country". */
  const AllChoice := "__all__"

  /** The price ceiling: the select's "__all__" (no ceiling, `Infinity`) or
      the number its value converts to. */
  datatype Ceiling = NoLimit | AtMost(limit: Num)

  predicate InCountry(p: Place, chosen: string)
  {
    chosen == AllChoice || CountryText(p) == chosen
  }

  /** `price <= maxPrice`: with no ceiling every number passes but `NaN` does not. */
  predicate InPrice(p: Place, ceiling: Ceiling)
  {
    match ceiling
    case NoLimit => p.price.Finite?
    case AtMost(m) => NumAtMost(p.price, m)
  }

  predicate Shown(p: Place, chosen: string, ceiling: Ceiling)
  {
    InCountry(p, chosen) && InPrice(p, ceiling)
  }

  /** `r` is `s` with some elements left out, the rest in their order. */
  predicate SubsequenceOf<T(==,!new)>(r: seq<T>, s: seq<T>)
    decreases |s|
  {
    if |r| == 0 then true
    else if |s| == 0 then false
    else (r[0] == s[0] && SubsequenceOf(r[1..], s[1..])) || SubsequenceOf(r, s[1..])
  }

  /** `Array.prototype.filter`: the elements satisfying `keep`, in order, each
      as often as in `s`. */
  function Keep<T(==,!new)>(s: seq<T>, keep: T -> bool): (r: seq<T>)
    ensures SubsequenceOf(r, s)
    ensures forall x :: multiset(r)[x] == if keep(x) then multiset(s)[x] else 0
  {
    if |s| == 0 then []
    else
      var rest := Keep(s[1..], keep);
      assert multiset(s) == multiset{s[0]} + multiset(s[1..]) by {
        assert s == [s[0]] + s[1..];
      }
      if keep(s[0]) then
        assert ([s[0]] + rest)[1..] == rest;
        [s[0]] + rest
      else rest
  }

  lemma {:induction false} KeepIdempotent<T(!new)>(s: seq<T>, keep: T -> bool)
    ensures Keep(Keep(s, keep), keep) == Keep(s, keep)
  {
    if |s| > 0 {
      KeepIdempotent(s[1..], keep);
      if keep(s[0]) {
        assert ([s[0]] + Keep(s[1..], keep))[1..] == Keep(s[1..], keep);
      }
    }
  }

  /** Two tests that agree on every element keep the same elements. */
  lemma {:induction false} KeepCongruent<T(!new)>(s: seq<T>, f: T -> bool, g: T -> bool)
    requires forall x :: f(x) == g(x)
    ensures Keep(s, f) == Keep(s, g)
  {
    if |s| > 0 {
      KeepCongruent(s[1..], f, g);
    }
  }

  /** The listings the index page shows for the chosen country and ceiling. */
  function Visible(places: seq<Place>, chosen: string, ceiling: Ceiling): seq<Place>
  {
    Keep(places, p => Shown(p, chosen, ceiling))
  }

  /** The filtered list is an order-preserving subsequence of the fetched
      listings holding exactly the listings that pass both tests. */
  lemma VisibleExactly(places: seq<Place>, chosen: string, ceiling: Ceiling)
    ensures SubsequenceOf(Visible(places, chosen, ceiling), places)
    ensures forall p :: p in Visible(places, chosen, ceiling) <==> p in places && Shown(p, chosen, ceiling)
    ensures forall p :: Shown(p, chosen, ceiling) ==>
              multiset(Visible(places, chosen, ceiling))[p] == multiset(places)[p]
  {
    var r := Visible(places, chosen, ceiling);
    assert forall p :: p in r <==> multiset(r)[p] > 0;
    assert forall p :: p in places <==> multiset(places)[p] > 0;
  }

  /** Applying the same filter to its own result changes nothing. */
  lemma VisibleIdempotent(places: seq<Place>, chosen: string, ceiling: Ceiling)
    ensures Visible(Visible(places, chosen, ceiling), chosen, ceiling) == Visible(places, chosen, ceiling)
  {
    KeepIdempotent(places, p => Shown(p, chosen, ceiling));
  }

  /** "Any country" is the same as not testing the country at all. */
  lemma AnyCountryOmitsCountryTest(places: seq<Place>, ceiling: Ceiling)
    ensures Visible(places, AllChoice, ceiling) == Keep(places, p => InPrice(p, ceiling))
  {
    KeepCongruent(places, p => Shown(p, AllChoice, ceiling), p => InPrice(p, ceiling));
  }

  /** "No ceiling" is not the same as not testing the price: listings whose
      price is `NaN` are still left out. */
  lemma NoLimitStillDropsNaN(places: seq<Place>, chosen: string)
    ensures Visible(places, chosen, NoLimit) == Keep(places, p => InCountry(p, chosen) && p.price.Finite?)
  {
    KeepCongruent(places, p => Shown(p, chosen, NoLimit), p => InCountry(p, chosen) && p.price.Finite?);
  }

  /** The facet trims country names but the filter compares them untrimmed:
      choosing the option a padded country produced hides that listing. */
  lemma PaddedCountryHiddenByItsOwnOption(p: Place, ceiling: Ceiling)
    requires FacetValue(p) != "" && FacetValue(p) != AllChoice
    requires CountryText(p) != FacetValue(p)
    ensures FacetValue(p) in Countries([p])
    ensures Visible([p], FacetValue(p), ceiling) == []
  {
    assert FacetValues([p])[0] == FacetValue(p);
    assert !Shown(p, FacetValue(p), ceiling);
    assert Visible([p], FacetValue(p), ceiling) == Keep([p][1..], q => Shown(q, FacetValue(p), ceiling));
  }

  /** A listing card: title, price and the link of its details button. */
  datatype Card = Card(title: string, price: Num, detailsLink: string)

  function CardOf(p: Place): Card
  {
    Card(p.title, p.price, "place.html?id=" + p.id)
  }

  /** What `render` leaves in the list: one card per visible listing, or the
      empty-state message. */
  datatype ListView = Message(text: string) | Cards(cards: seq<Card>)

  const NoMatchText := "No places match the filter."

  /** `render()`: the message exactly when no listing passes both tests,
      otherwise one card per passing listing in fetched order. */
  function Render(places: seq<Place>, chosen: string, ceiling: Ceiling): (v: ListView)
    ensures v.Message? <==> forall i :: 0 <= i < |places| ==> !Shown(places[i], chosen, ceiling)
    ensures v.Message? ==> v.text == NoMatchText
    ensures v.Cards? ==> |v.cards| == |Visible(places, chosen, ceiling)| > 0
    ensures v.Cards? ==> forall i :: 0 <= i < |v.cards| ==>
              v.cards[i] == CardOf(Visible(places, chosen, ceiling)[i])
  {
    var shown := Visible(places, chosen, ceiling);
    VisibleExactly(places, chosen, ceiling);
    assert shown == [] <==> forall i :: 0 <= i < |places| ==> !Shown(places[i], chosen, ceiling) by {
      if shown != [] {
        assert shown[0] in shown;
      }
    }
    if |shown| == 0 then Message(NoMatchText)
    else Cards(seq(|shown|, i requires 0 <= i < |shown| => CardOf(shown[i])))
  }

  /** The two filter controls as the page reads them. */
  datatype Controls = Controls(country: string, price: Ceiling)

  /** A `change` event on one of the two controls. */
  datatype ControlChange = CountryChanged(country: string) | PriceChanged(price: Ceiling)

  /** A `change` listener: the changed control takes its new value, the other
      keeps its current one, and the list is rendered again from the same
      fetched listings. */
  function OnChange(places: seq<Place>, controls: Controls, change: ControlChange): (r: (Controls, ListView))
    ensures change.CountryChanged? ==> r.0 == Controls(change.country, controls.price)
    ensures change.PriceChanged? ==> r.0 == Controls(controls.country, change.price)
    ensures r.1 == Render(places, r.0.country, r.0.price)
  {
    var next := match change
      case CountryChanged(c) => controls.(country := c)
      case PriceChanged(m) => controls.(price := m);
    (next, Render(places, next.country, next.price))
  }

  /** The controls after a run of `change` events, one listener call per event. */
  function Replay(places: seq<Place>, controls: Controls, changes: seq<ControlChange>): Controls
    decreases |changes|
  {
    if |changes| == 0 then controls
    else OnChange(places, Replay(places, controls, changes[..|changes| - 1]), changes[|changes| - 1]).0
  }

  /** The value of the most recent country change, or `current` when there was none. */
  function LatestCountry(changes: seq<ControlChange>, current: string): string
    decreases |changes|
  {
    if |changes| == 0 then current
    else if changes[|changes| - 1].CountryChanged? then changes[|changes| - 1].country
    else LatestCountry(changes[..|changes| - 1], current)
  }

  /** The value of the most recent price change, or `current` when there was none. */
  function LatestPrice(changes: seq<ControlChange>, current: Ceiling): Ceiling
    decreases |changes|
  {
    if |changes| == 0 then current
    else if changes[|changes| - 1].PriceChanged? then changes[|changes| - 1].price
    else LatestPrice(changes[..|changes| - 1], current)
  }

  /** However the two controls were changed, each ends with its most recent
      value, and the list shown after the last event is the one those two
      values select. */
  lemma {:induction false} ReplayKeepsLatest(places: seq<Place>, controls: Controls, changes: seq<ControlChange>)
    ensures Replay(places, controls, changes)
            == Controls(LatestCountry(changes, controls.country), LatestPrice(changes, controls.price))
    ensures |changes| > 0 ==>
              OnChange(places, Replay(places, controls, changes[..|changes| - 1]), changes[|changes| - 1]).1
              == Render(places, LatestCountry(changes, controls.country), LatestPrice(changes, controls.price))
    decreases |changes|
  {
    if |changes| > 0 {
      ReplayKeepsLatest(places, controls, changes[..|changes| - 1]);
    }
  }

  /** Changing the country and then the price shows the same list, with the
      same controls, as the other way round; repeating a change shows what
      it already showed. */
  lemma ChangesCommute(places: seq<Place>, controls: Controls, country: string, price: Ceiling)
    ensures OnChange(places, OnChange(places, controls, CountryChanged(country)).0, PriceChanged(price))
            == OnChange(places, OnChange(places, controls, PriceChanged(price)).0, CountryChanged(country))
    ensures OnChange(places, OnChange(places, controls, CountryChanged(country)).0, CountryChanged(country))
            == OnChange(places, controls, CountryChanged(country))
    ensures OnChange(places, OnChange(places, controls, PriceChanged(price)).0, PriceChanged(price))
            == OnChange(places, controls, PriceChanged(price))
  {
  }
}
