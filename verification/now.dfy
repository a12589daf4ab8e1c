/** The current-conditions card: normalisation of `cityData`, the saved-cities
    list with its bookmark flag, and the toggle that adds or removes the
    current city. */
module Now {
  import opened Wrappers
  import opened Cities

  /** The card's bookmark state: the saved-cities list and the `isBookmarked` flag. */
  datatype Bookmark = Bookmark(saved: seq<City>, isBookmarked: bool)

  /** `cityData` as the card uses it: an array stays as it is, anything else
      (a single record, or a missing value) becomes a one-element array holding it. */
  function Normalise(cd: CityData): (r: seq<Option<City>>)
    ensures cd.Array? ==> r == cd.items
    ensures !cd.Array? ==> |r| == 1
    ensures cd.Single? ==> r[0] == Some(cd.city)
    ensures cd.Absent? ==> r[0].None?
  {
    match cd
    case Array(items) => items
    case Single(c) => [Some(c)]
    case Absent => [None]
  }

  /** The first selected element, `cityData[0]`, after normalisation; None when there is none. */
  function First(cd: CityData): (x: Option<City>)
    ensures cd.Array? && |cd.items| > 0 ==> x == cd.items[0]
    ensures cd.Array? && |cd.items| == 0 ==> x.None?
    ensures cd.Single? ==> x == Some(cd.city)
    ensures cd.Absent? ==> x.None?
  {
    var items := Normalise(cd);
    if |items| == 0 then None else items[0]
  }

  /** `cityData[0]?.Key`: the key the card compares saved entries against. */
  function CurrentKey(cd: CityData): (k: Option<string>)
    ensures cd.Absent? ==> k.None?
    ensures cd.Single? ==> k == cd.city.key
    ensures cd.Array? && |cd.items| == 0 ==> k.None?
    ensures cd.Array? && |cd.items| > 0 && cd.items[0].Some? ==> k == cd.items[0].value.key
    ensures cd.Array? && |cd.items| > 0 && cd.items[0].None? ==> k.None?
  {
    KeyOf(First(cd))
  }

  /** Some entry of `saved` carries key `k` (`savedCities.some(city => city.Key === k)`). */
  function IsSaved(saved: seq<City>, k: Option<string>): (b: bool)
    ensures b <==> exists i :: 0 <= i < |saved| && saved[i].key == k
  {
    if |saved| == 0 then false
    else saved[0].key == k || IsSaved(saved[1..], k)
  }

  /** `xs` is `ys` with some elements dropped and the rest in their original order. */
  ghost predicate IsSubsequence(xs: seq<City>, ys: seq<City>)
    decreases |ys|
  {
    if |xs| == 0 then true
    else if |ys| == 0 then false
    else (xs[0] == ys[0] && IsSubsequence(xs[1..], ys[1..])) || IsSubsequence(xs, ys[1..])
  }

  /** How many saved entries carry key `k`. */
  function CountKey(saved: seq<City>, k: Option<string>): nat {
    if |saved| == 0 then 0
    else (if saved[0].key == k then 1 else 0) + CountKey(saved[1..], k)
  }

  /** The remove branch: `savedCities.filter(city => city.Key !== k)`. */
  function RemoveKey(saved: seq<City>, k: Option<string>): (r: seq<City>)
    ensures forall c :: c in r <==> c in saved && c.key != k
    ensures |r| == |saved| - CountKey(saved, k)
    ensures IsSubsequence(r, saved)
    ensures |r| <= |saved|
    ensures |r| < |saved| <==> IsSaved(saved, k)
  {
    if |saved| == 0 then []
    else
      var rest := RemoveKey(saved[1..], k);
      if saved[0].key != k then [saved[0]] + rest else rest
  }

  /** The record the add branch appends: `{ ...cityData[0], weather: currentWeather }`.
      Spreading a missing element contributes no properties. */
  function Snapshot(x: Option<City>, w: Option<CurrentWeather>): (c: City)
    ensures c.key == KeyOf(x)
    ensures c.weather == w
    ensures x.Some? ==> c.englishName == x.value.englishName && c.countryName == x.value.countryName
    ensures x.None? ==> c.englishName.None? && c.countryName.None?
  {
    match x
    case None => City(None, None, None, w)
    case Some(c0) => c0.(weather := w)
  }

  /** The add branch: `[...savedCities, { ...cityData[0], weather: currentWeather }]`. */
  function AddEntry(saved: seq<City>, x: Option<City>, w: Option<CurrentWeather>): (r: seq<City>)
    ensures |r| == |saved| + 1
    ensures r[..|saved|] == saved
    ensures r[|saved|] == Snapshot(x, w)
    ensures r[|saved|].key == KeyOf(x) && r[|saved|].weather == w
    ensures IsSaved(r, KeyOf(x))
  {
    saved + [Snapshot(x, w)]
  }

  /** The bookmark click: remove the current city when bookmarked, otherwise
      append its snapshot; either way the flag flips. */
  function Toggle(s: Bookmark, cd: CityData, w: Option<CurrentWeather>): (r: Bookmark)
    ensures r.isBookmarked == !s.isBookmarked
    ensures r.isBookmarked == IsSaved(r.saved, CurrentKey(cd))
    ensures s.isBookmarked ==> IsSubsequence(r.saved, s.saved) && |r.saved| <= |s.saved|
    ensures !s.isBookmarked ==> |r.saved| == |s.saved| + 1 && r.saved[..|s.saved|] == s.saved
  {
    if s.isBookmarked then
      Bookmark(RemoveKey(s.saved, CurrentKey(cd)), false)
    else
      Bookmark(AddEntry(s.saved, First(cd), w), true)
  }

  /** The membership effect: the flag is recomputed from the saved list. */
  function Sync(s: Bookmark, cd: CityData): (r: Bookmark)
    ensures r.saved == s.saved
    ensures r.isBookmarked <==> exists i :: 0 <= i < |s.saved| && s.saved[i].key == CurrentKey(cd)
  {
    s.(isBookmarked := IsSaved(s.saved, CurrentKey(cd)))
  }

  /** The flag agrees with membership of the current key (what the effect establishes). */
  predicate Consistent(s: Bookmark, cd: CityData) {
    s.isBookmarked == IsSaved(s.saved, CurrentKey(cd))
  }

  /** No two saved entries share a key. */
  predicate UniqueKeys(saved: seq<City>) {
    forall i, j :: 0 <= i < j < |saved| ==> saved[i].key != saved[j].key
  }

  /** After the effect has run, the state is consistent; and when the state
      already was, the effect leaves it unchanged. */
  lemma SyncEstablishesConsistency(s: Bookmark, cd: CityData)
    ensures Consistent(Sync(s, cd), cd)
    ensures Consistent(s, cd) ==> Sync(s, cd) == s
  {
  }

  /** Re-running the membership effect after a click does not change the flag. */
  lemma SyncAfterToggle(s: Bookmark, cd: CityData, w: Option<CurrentWeather>)
    ensures Sync(Toggle(s, cd, w), cd) == Toggle(s, cd, w)
  {
  }

  /** Removing a key that no entry carries leaves the list as it was. */
  lemma {:induction false} RemoveAbsentKey(saved: seq<City>, k: Option<string>)
    requires !IsSaved(saved, k)
    ensures RemoveKey(saved, k) == saved
  {
    if |saved| > 0 {
      assert saved[0].key != k;
      RemoveAbsentKey(saved[1..], k);
      assert saved == [saved[0]] + saved[1..];
    }
  }

  /** The filter works entry by entry, so it distributes over concatenation. */
  lemma {:induction false} RemoveKeyAppend(a: seq<City>, b: seq<City>, k: Option<string>)
    ensures RemoveKey(a + b, k) == RemoveKey(a, k) + RemoveKey(b, k)
  {
    if |a| > 0 {
      var ab := a + b;
      assert ab[0] == a[0] && ab[1..] == a[1..] + b;
      RemoveKeyAppend(a[1..], b, k);
      var head := if a[0].key != k then [a[0]] else [];
      assert RemoveKey(ab, k) == head + RemoveKey(a[1..] + b, k);
      assert RemoveKey(a, k) == head + RemoveKey(a[1..], k);
    } else {
      assert a + b == b;
    }
  }

  /** The filter keeps keys unique. */
  lemma {:induction false} RemoveKeyKeepsUnique(saved: seq<City>, k: Option<string>)
    requires UniqueKeys(saved)
    ensures UniqueKeys(RemoveKey(saved, k))
  {
    if |saved| > 0 {
      RemoveKeyKeepsUnique(saved[1..], k);
      var rest := RemoveKey(saved[1..], k);
      if saved[0].key != k {
        var r := [saved[0]] + rest;
        assert RemoveKey(saved, k) == r;
        forall i, j | 0 <= i < j < |r|
          ensures r[i].key != r[j].key
        {
          assert r[j] == rest[j - 1];
          if i == 0 {
            assert rest[j - 1] in saved[1..];
            var m :| 0 <= m < |saved[1..]| && saved[1..][m] == rest[j - 1];
            assert saved[m + 1] == rest[j - 1];
          } else {
            assert r[i] == rest[i - 1];
          }
        }
      }
    }
  }

  /** Adding a city whose key is not saved and then removing that key gives back the original list. */
  lemma {:induction false} AddThenRemove(saved: seq<City>, cd: CityData, w: Option<CurrentWeather>)
    requires !IsSaved(saved, CurrentKey(cd))
    ensures RemoveKey(AddEntry(saved, First(cd), w), CurrentKey(cd)) == saved
  {
    var k := CurrentKey(cd);
    RemoveKeyAppend(saved, [Snapshot(First(cd), w)], k);
    RemoveAbsentKey(saved, k);
  }

  /** From a consistent, unbookmarked state, two clicks restore the saved list and the flag. */
  lemma ToggleTwice(s: Bookmark, cd: CityData, w1: Option<CurrentWeather>, w2: Option<CurrentWeather>)
    requires Consistent(s, cd) && !s.isBookmarked
    ensures Toggle(Toggle(s, cd, w1), cd, w2) == s
  {
    AddThenRemove(s.saved, cd, w1);
  }

  /** A click from a consistent state keeps the state consistent and keeps saved keys unique:
      the add branch only runs when the key is absent. */
  lemma ToggleKeepsInvariant(s: Bookmark, cd: CityData, w: Option<CurrentWeather>)
    requires Consistent(s, cd) && UniqueKeys(s.saved)
    ensures Consistent(Toggle(s, cd, w), cd)
    ensures UniqueKeys(Toggle(s, cd, w).saved)
  {
    var k := CurrentKey(cd);
    if s.isBookmarked {
      RemoveKeyKeepsUnique(s.saved, k);
    } else {
      var r := AddEntry(s.saved, First(cd), w);
      forall i, j | 0 <= i < j < |r|
        ensures r[i].key != r[j].key
      {
        if j == |s.saved| {
          assert r[i] == s.saved[i];
        } else {
          assert r[i] == s.saved[i] && r[j] == s.saved[j];
        }
      }
    }
  }

  /** Uniqueness rests on the flag: a click with a stale `false` flag while the
      city is already saved appends a second entry with the same key. */
  lemma StaleFlagDuplicates(c: City, w: Option<CurrentWeather>)
    ensures !UniqueKeys(Toggle(Bookmark([c], false), Single(c), w).saved)
  {
  }
}
