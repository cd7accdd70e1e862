/** The persisted lists of hooks/useLocalStorage.ts: the stored value with
    its `setValue`, the favourite hotels and the recent searches. Only the
    in-memory value is modelled; reading and writing `localStorage` is not. */
module LocalStorage {
  import opened Base

  /** The argument of `setValue`: a new value, or a function of the
      current one. */
  datatype Update<!T> = Replace(value: T) | Transform(f: T -> T)

  /** The value `setValue(u)` stores when `current` is stored. */
  function Updated<T>(u: Update<T>, current: T): T
  {
    match u
    case Replace(v) => v
    case Transform(f) => f(current)
  }

  /** The state `useLocalStorage` keeps for one key. */
  class Store<T> {
    var value: T

    constructor(initialValue: T)
      ensures value == initialValue
    {
      value := initialValue;
    }

    /** `setValue`: applies a function to the stored value, or replaces
        it. */
    method SetValue(u: Update<T>)
      modifies this
      ensures value == Updated(u, old(value))
    {
      match u
      case Replace(v) =>
        value := v;
      case Transform(f) =>
        value := f(value);
    }
  }

  // ---------------------------------------------------------------------
  // Favourites

  /** The list `addFavorite(hotelId)` stores: the id moved, or added, to
      the end. */
  function AddedFavorite(prev: seq<string>, hotelId: string): seq<string>
  {
    Without(prev, hotelId) + [hotelId]
  }

  /** After `addFavorite` the id is the last element and occurs once; no
      other id is added or removed, and the others keep their order. */
  lemma AddedFavoriteShape(prev: seq<string>, hotelId: string)
    ensures var r := AddedFavorite(prev, hotelId);
      |r| > 0 && r[|r| - 1] == hotelId
      && Count(r, hotelId) == 1
      && (forall other :: other != hotelId ==> Count(r, other) == Count(prev, other))
      && IsSubsequence(r[..|r| - 1], prev)
  {
    var w := Without(prev, hotelId);
    var r := AddedFavorite(prev, hotelId);
    CountAppend(w, [hotelId], hotelId);
    CountPositive(w, hotelId);
    forall other | other != hotelId ensures Count(r, other) == Count(prev, other) {
      CountAppend(w, [hotelId], other);
    }
    assert r[..|r| - 1] == w;
  }

  /** Adding a favourite twice is adding it once. */
  lemma AddFavoriteIdempotent(prev: seq<string>, hotelId: string)
    ensures AddedFavorite(AddedFavorite(prev, hotelId), hotelId) == AddedFavorite(prev, hotelId)
  {
    var w := Without(prev, hotelId);
    WithoutAppend(w, [hotelId], hotelId);
    WithoutAbsent(w, hotelId);
    assert Without([hotelId], hotelId) == [];
  }

  /** The list `removeFavorite(hotelId)` stores. */
  function RemovedFavorite(prev: seq<string>, hotelId: string): (r: seq<string>)
    ensures hotelId !in r
    ensures forall other :: other != hotelId ==> Count(r, other) == Count(prev, other)
    ensures IsSubsequence(r, prev)
  {
    Without(prev, hotelId)
  }

  /** Removing a favourite just added leaves the list as removing it from
      the list before. */
  lemma RemoveUndoesAdd(prev: seq<string>, hotelId: string)
    ensures RemovedFavorite(AddedFavorite(prev, hotelId), hotelId) == RemovedFavorite(prev, hotelId)
  {
    var w := Without(prev, hotelId);
    WithoutAppend(w, [hotelId], hotelId);
    WithoutAbsent(w, hotelId);
    assert Without([hotelId], hotelId) == [];
  }

  /** A list without repeated ids keeps that property under both
      updates. */
  lemma FavoritesStayDistinct(prev: seq<string>, hotelId: string)
    requires NoDuplicates(prev)
    ensures NoDuplicates(AddedFavorite(prev, hotelId))
    ensures NoDuplicates(RemovedFavorite(prev, hotelId))
  {
    var r := AddedFavorite(prev, hotelId);
    AddedFavoriteShape(prev, hotelId);
    DistinctByCount(prev);
    forall x | x in r ensures Count(r, x) == 1 {
      if x != hotelId {
        CountPositive(r, x);
        CountPositive(prev, x);
      }
    }
    CountOneDistinct(r);
    var s := RemovedFavorite(prev, hotelId);
    forall x | x in s ensures Count(s, x) == 1 {
      CountPositive(s, x);
      CountPositive(prev, x);
    }
    CountOneDistinct(s);
  }

  /** In a list without repeats every element occurs once. */
  lemma {:induction false} DistinctByCount(s: seq<string>)
    requires NoDuplicates(s)
    ensures forall x :: x in s ==> Count(s, x) == 1
  {
    if s != [] {
      DistinctByCount(s[1..]);
      CountPositive(s[1..], s[0]);
      forall x | x in s ensures Count(s, x) == 1 {
        if x != s[0] {
          assert x in s[1..];
        }
      }
    }
  }

  /** A list in which every element occurs once has no repeats. */
  lemma {:induction false} CountOneDistinct(s: seq<string>)
    requires forall x :: x in s ==> Count(s, x) == 1
    ensures NoDuplicates(s)
  {
    if s != [] {
      assert s[0] in s;
      CountPositive(s[1..], s[0]);
      forall x | x in s[1..] ensures Count(s[1..], x) == 1 {
        assert x in s;
      }
      CountOneDistinct(s[1..]);
      forall i, j | 0 <= i < j < |s| ensures s[i] != s[j] {
        if i > 0 {
          assert s[i] == s[1..][i - 1] && s[j] == s[1..][j - 1];
        } else {
          assert s[j] == s[1..][j - 1];
        }
      }
    }
  }

  /** `useFavorites`: the stored ids of the favourite hotels. */
  class Favorites {
    const store: Store<seq<string>>

    constructor()
      ensures fresh(store) && store.value == []
    {
      store := new Store([]);
    }

    method AddFavorite(hotelId: string)
      modifies store
      ensures store.value == AddedFavorite(old(store.value), hotelId)
    {
      store.SetValue(Transform(prev => AddedFavorite(prev, hotelId)));
    }

    method RemoveFavorite(hotelId: string)
      modifies store
      ensures store.value == RemovedFavorite(old(store.value), hotelId)
    {
      store.SetValue(Transform(prev => RemovedFavorite(prev, hotelId)));
    }

    /** `isFavorite`: whether the id is stored. */
    function IsFavorite(hotelId: string): (r: bool)
      reads this, store
      ensures r <==> Count(store.value, hotelId) > 0
    {
      CountPositive(store.value, hotelId);
      hotelId in store.value
    }
  }

  // ---------------------------------------------------------------------
  // Recent searches

  /** The most searches kept. */
  const MaxRecentSearches := 10

  /** The list `addRecentSearch(query)` stores: the query first, then the
      earlier searches without it, ten at most. */
  function AddedRecentSearch(prev: seq<string>, query: string): (r: seq<string>)
    ensures 1 <= |r| <= MaxRecentSearches && r[0] == query
    ensures r[1..] == Without(prev, query)[..Min(MaxRecentSearches - 1, |Without(prev, query)|)]
  {
    var filtered := Without(prev, query);
    var r := ([query] + filtered)[..Min(MaxRecentSearches, 1 + |filtered|)];
    assert r[1..] == filtered[..Min(MaxRecentSearches - 1, |filtered|)];
    r
  }

  /** The query occurs once, and every other entry was an earlier search. */
  lemma RecentSearchOnce(prev: seq<string>, query: string)
    ensures var r := AddedRecentSearch(prev, query);
      Count(r, query) == 1 && forall s :: s in r[1..] ==> s in prev && s != query
  {
    var r := AddedRecentSearch(prev, query);
    var w := Without(prev, query);
    var kept := w[..Min(MaxRecentSearches - 1, |w|)];
    assert w == kept + w[|kept|..];
    CountAppend(kept, w[|kept|..], query);
    CountPositive(w, query);
    assert r == [query] + kept;
    assert Count(r, query) == 1 + Count(kept, query);
    forall s | s in r[1..] ensures s in prev && s != query {
      assert s in w;
      SubsequenceMembers(w, prev, s);
    }
  }

  /** Searching again for the latest search changes nothing. */
  lemma RepeatedSearchIdempotent(prev: seq<string>, query: string)
    ensures AddedRecentSearch(AddedRecentSearch(prev, query), query) == AddedRecentSearch(prev, query)
  {
    var r := AddedRecentSearch(prev, query);
    RecentSearchOnce(prev, query);
    assert r == [query] + r[1..];
    assert query !in r[1..];
    WithoutAbsent(r[1..], query);
    assert Without(r, query) == r[1..];
  }

  /** `clearRecentSearches` stores the empty list; `useRecentSearches`
      keeps the searches. */
  class RecentSearches {
    const store: Store<seq<string>>

    constructor()
      ensures fresh(store) && store.value == []
    {
      store := new Store([]);
    }

    method AddRecentSearch(query: string)
      modifies store
      ensures store.value == AddedRecentSearch(old(store.value), query)
    {
      store.SetValue(Transform(prev => AddedRecentSearch(prev, query)));
    }

    method ClearRecentSearches()
      modifies store
      ensures store.value == []
    {
      store.SetValue(Replace([]));
    }
  }
}
