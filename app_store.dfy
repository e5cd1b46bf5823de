/**
 * The zustand store `useAppStore` of frontend/src/store/index.ts: three
 * fields and a setter for each. Every setter calls zustand's `set` with a
 * partial object, which overwrites the fields it names and keeps the rest.
 */
module AppStore {
  import opened Outcomes

  /** `'browse' | 'favourites'`: the tab can hold no other value. */
  datatype Tab = Browse | Favourites

  /** A snapshot of the store's fields. */
  datatype AppState = AppState(searchQuery: string, selectedBreed: Option<string>, currentTab: Tab)

  /** The partial object passed to `set`: `Some` for each field it names. */
  datatype Partial = Partial(searchQuery: Option<string>, selectedBreed: Option<Option<string>>, currentTab: Option<Tab>)

  /** The state `create` starts from. */
  const Initial := AppState("", None, Browse)

  /** `set(partial)`: a shallow merge of the partial object into the state. */
  function Merge(state: AppState, partial: Partial): AppState
  {
    AppState(
      if partial.searchQuery.Some? then partial.searchQuery.value else state.searchQuery,
      if partial.selectedBreed.Some? then partial.selectedBreed.value else state.selectedBreed,
      if partial.currentTab.Some? then partial.currentTab.value else state.currentTab)
  }

  /** The two partial objects name no field in common. */
  predicate Disjoint(p: Partial, q: Partial)
  {
    && !(p.searchQuery.Some? && q.searchQuery.Some?)
    && !(p.selectedBreed.Some? && q.selectedBreed.Some?)
    && !(p.currentTab.Some? && q.currentTab.Some?)
  }

  /** Updates of different fields commute. */
  lemma MergeCommutes(state: AppState, p: Partial, q: Partial)
    requires Disjoint(p, q)
    ensures Merge(Merge(state, p), q) == Merge(Merge(state, q), p)
  {
  }

  /** Applying the same update twice is applying it once. */
  lemma MergeIdempotent(state: AppState, p: Partial)
    ensures Merge(Merge(state, p), p) == Merge(state, p)
  {
  }

  /** One update per field, in any state, leaves exactly those three values. */
  lemma UpdatesPersistTogether(state: AppState, query: string, breed: Option<string>, tab: Tab)
    ensures Merge(Merge(Merge(state, Partial(Some(query), None, None)), Partial(None, Some(breed), None)), Partial(None, None, Some(tab)))
      == AppState(query, breed, tab)
  {
  }

  class Store {
    var searchQuery: string
    var selectedBreed: Option<string>
    var currentTab: Tab

    /** The fields as one value. */
    function State(): AppState
      reads this
    {
      AppState(searchQuery, selectedBreed, currentTab)
    }

    constructor ()
      ensures State() == Initial
    {
      searchQuery, selectedBreed, currentTab := "", None, Browse;
    }

    /** zustand's `set`. */
    method Set(partial: Partial)
      modifies this
      ensures State() == Merge(old(State()), partial)
    {
      if partial.searchQuery.Some? {
        searchQuery := partial.searchQuery.value;
      }
      if partial.selectedBreed.Some? {
        selectedBreed := partial.selectedBreed.value;
      }
      if partial.currentTab.Some? {
        currentTab := partial.currentTab.value;
      }
    }

    /** `setSearchQuery(query)`, the empty query included. */
    method SetSearchQuery(query: string)
      modifies this
      ensures State() == Merge(old(State()), Partial(Some(query), None, None))
      ensures searchQuery == query && selectedBreed == old(selectedBreed) && currentTab == old(currentTab)
    {
      Set(Partial(Some(query), None, None));
    }

    /** `setSelectedBreed(breed)`, `null` (`None`) included. */
    method SetSelectedBreed(breed: Option<string>)
      modifies this
      ensures State() == Merge(old(State()), Partial(None, Some(breed), None))
      ensures selectedBreed == breed && searchQuery == old(searchQuery) && currentTab == old(currentTab)
    {
      Set(Partial(None, Some(breed), None));
    }

    /** `setCurrentTab(tab)`. */
    method SetCurrentTab(tab: Tab)
      modifies this
      ensures State() == Merge(old(State()), Partial(None, None, Some(tab)))
      ensures currentTab == tab && searchQuery == old(searchQuery) && selectedBreed == old(selectedBreed)
    {
      Set(Partial(None, None, Some(tab)));
    }
  }

  /** A fresh store, then one call of each setter: all three values are there together. */
  method UpdateAllFields(query: string, breed: Option<string>, tab: Tab) returns (state: AppState)
    ensures state == AppState(query, breed, tab)
  {
    var store := new Store();
    store.SetSearchQuery(query);
    store.SetSelectedBreed(breed);
    store.SetCurrentTab(tab);
    state := store.State();
  }

  /** Selecting a breed and then `null` leaves no breed selected and the other fields at their initial values. */
  method SelectThenClearBreed(breed: string) returns (state: AppState)
    ensures state == Initial
  {
    var store := new Store();
    store.SetSelectedBreed(Some(breed));
    store.SetSelectedBreed(None);
    state := store.State();
  }
}
