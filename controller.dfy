/** The query-state controller: the state of the search box and the filter panel, the
    visible list they both overwrite, and the one parameter store they both read and write.
    Each handler, with the effects it triggers, is one atomic transition. */
module Controller {
  import opened Wrappers
  import Text
  import opened Doctors
  import opened SearchParams
  import Pipeline
  import Search
  import Reducers
  import opened UrlSync

  class QueryController {
    /** The dataset, fetched once before the page mounts. */
    const doctors: seq<Doctor>
    /** The URL's search parameters, shared by the search box and the filter panel. */
    const params: ParamStore
    var searchTerm: string
    var consultType: string
    var specialties: seq<string>
    var sortBy: string
    /** `filteredDoctors`: whichever of the search path and the filter path wrote last. */
    var visible: seq<Doctor>

    function State(): FilterState
      reads this
    {
      FilterState(consultType, specialties, sortBy)
    }

    /** Once the dataset is non-empty, the store holds the filter panel's state: a reload
        reads back the same consult mode, specialties and sort. */
    ghost predicate Valid()
      reads this, params
    {
      |doctors| > 0 ==> ReadFilterState(params.pairs) == State()
    }

    /** The suggestion list, which the search box's effect on `searchTerm` recomputes after
        every change of the text: none for a blank text, else the first three name matches. */
    function CurrentSuggestions(): seq<Doctor>
      reads this
    {
      Search.Suggestions(doctors, searchTerm)
    }

    /** Mounting the page on a loaded dataset. The app first shows the whole dataset; each
        component reads its initial state from the store; then the effects run in component
        order: the search box's mount effect (filter by a non-empty `search`), then the filter
        panel's two effects (`applyFilters`, then `applyFilters` and `updateUrlParams` when
        the dataset is non-empty). */
    constructor Mount(doctors: seq<Doctor>, params: ParamStore)
      modifies params
      ensures this.doctors == doctors && this.params == params
      ensures searchTerm == ReadText(old(params.pairs), SearchKey)
      ensures State() == ReadFilterState(old(params.pairs))
      ensures visible == if |doctors| > 0 then Pipeline.Derive(doctors, consultType, specialties, sortBy) else []
      ensures params.pairs == if |doctors| > 0 then Serialized(old(params.pairs), State()) else old(params.pairs)
      ensures Valid()
    {
      this.doctors := doctors;
      this.params := params;
      ghost var initial := params.pairs;
      visible := doctors;
      var search := params.Get(SearchKey);
      searchTerm := search.GetOr("");
      var consult := params.Get(ConsultKey);
      consultType := consult.GetOr("");
      var chosen := params.GetAll(SpecialtyKey);
      specialties := chosen;
      var sort := params.Get(SortKey);
      sortBy := sort.GetOr("");
      new;
      assert State() == ReadFilterState(initial) && searchTerm == ReadText(initial, SearchKey);
      if search.Some? && search.value != "" {
        searchTerm := search.value;
        visible := Search.FilterDoctors(doctors, search.value);
      }
      var published := Pipeline.ApplyFilters(doctors, consultType, specialties, sortBy);
      if published.Some? {
        visible := published.value;
      }
      ghost var term := searchTerm;
      FilterStateChanged();
      assert searchTerm == term;
    }

    /** The filter panel's effect on a change of consult mode, specialties or sort: with a
        non-empty dataset, `applyFilters` and `updateUrlParams`; otherwise nothing. */
    method FilterStateChanged()
      modifies this`visible, params
      ensures |doctors| > 0 ==> visible == Pipeline.Derive(doctors, consultType, specialties, sortBy)
      ensures |doctors| > 0 ==> params.pairs == Serialized(old(params.pairs), State())
      ensures |doctors| == 0 ==> visible == old(visible) && params.pairs == old(params.pairs)
      ensures |doctors| > 0 ==> Valid()
    {
      if |doctors| > 0 {
        var published := Pipeline.ApplyFilters(doctors, consultType, specialties, sortBy);
        visible := published.value;
        UpdateUrlParams(params, consultType, specialties, sortBy);
        RoundTrip(old(params.pairs), State());
      }
    }

    /** `handleConsultTypeChange(choice)`; the effect runs when the value changed. */
    method ToggleConsultType(choice: string)
      requires Valid()
      modifies this`consultType, this`visible, params
      ensures consultType == Reducers.Toggle(old(consultType), choice)
      ensures Valid()
      ensures consultType != old(consultType) && |doctors| > 0 ==>
        visible == Pipeline.Derive(doctors, consultType, specialties, sortBy) && params.pairs == Serialized(old(params.pairs), State())
      ensures consultType == old(consultType) || |doctors| == 0 ==>
        visible == old(visible) && params.pairs == old(params.pairs)
    {
      var next := Reducers.Toggle(consultType, choice);
      if next != consultType {
        consultType := next;
        FilterStateChanged();
      }
    }

    /** `handleSortChange(choice)`; the effect runs when the value changed. */
    method ToggleSortBy(choice: string)
      requires Valid()
      modifies this`sortBy, this`visible, params
      ensures sortBy == Reducers.Toggle(old(sortBy), choice)
      ensures Valid()
      ensures sortBy != old(sortBy) && |doctors| > 0 ==>
        visible == Pipeline.Derive(doctors, consultType, specialties, sortBy) && params.pairs == Serialized(old(params.pairs), State())
      ensures sortBy == old(sortBy) || |doctors| == 0 ==>
        visible == old(visible) && params.pairs == old(params.pairs)
    {
      var next := Reducers.Toggle(sortBy, choice);
      if next != sortBy {
        sortBy := next;
        FilterStateChanged();
      }
    }

    /** `handleSpecialtyChange(specialty)`; the reducer always builds a new array, so the
        effect always runs. */
    method ToggleSpecialty(specialty: string)
      requires Valid()
      modifies this`specialties, this`visible, params
      ensures specialties == Reducers.ToggleSpecialty(old(specialties), specialty)
      ensures Valid()
      ensures |doctors| > 0 ==>
        visible == Pipeline.Derive(doctors, consultType, specialties, sortBy) && params.pairs == Serialized(old(params.pairs), State())
      ensures |doctors| == 0 ==> visible == old(visible) && params.pairs == old(params.pairs)
    {
      specialties := Reducers.ToggleSpecialty(specialties, specialty);
      FilterStateChanged();
    }

    /** `handleInputChange`: the text always changes, and with it the suggestions; a blank
        text also deletes `search` and shows the whole dataset, bypassing the filters. */
    method HandleInputChange(value: string)
      requires Valid()
      modifies this`searchTerm, this`visible, params
      ensures searchTerm == value
      ensures CurrentSuggestions() == Search.Suggestions(doctors, value)
      ensures Text.IsBlank(value) ==> CurrentSuggestions() == []
      ensures Valid()
      ensures Text.IsBlank(value) ==> params.pairs == Without(old(params.pairs), SearchKey) && visible == doctors
      ensures !Text.IsBlank(value) ==> params.pairs == old(params.pairs) && visible == old(visible)
    {
      searchTerm := value;
      if Text.IsBlank(value) {
        SearchWritesKeepFilterState(params.pairs, "");
        params.Delete(SearchKey);
        visible := doctors;
      }
    }

    /** `handleSuggestionClick(name)`: the name becomes the search text, the visible list is
        the name filter alone, and `search` is set to the name. */
    method HandleSuggestionClick(name: string)
      requires Valid()
      modifies this`searchTerm, this`visible, params
      ensures searchTerm == name
      ensures visible == Search.FilterDoctors(doctors, name)
      ensures params.pairs == Replaced(old(params.pairs), SearchKey, name)
      ensures ReadText(params.pairs, SearchKey) == name
      ensures Valid()
    {
      searchTerm := name;
      visible := Search.FilterDoctors(doctors, name);
      SearchWritesKeepFilterState(params.pairs, name);
      SearchWriteReadsBack(params.pairs, name);
      params.Set(SearchKey, name);
    }

    /** `handleKeyDown`: Enter shows the name filter of the current (untrimmed) text and
        stores the text when it is not blank; any other key does nothing. */
    method HandleKeyDown(key: string)
      requires Valid()
      modifies this`visible, params
      ensures Valid()
      ensures key == "Enter" ==> visible == Search.FilterDoctors(doctors, searchTerm)
      ensures key == "Enter" && !Text.IsBlank(searchTerm) ==> params.pairs == Replaced(old(params.pairs), SearchKey, searchTerm)
      ensures key != "Enter" || Text.IsBlank(searchTerm) ==> params.pairs == old(params.pairs)
      ensures key != "Enter" ==> visible == old(visible)
    {
      if key == "Enter" {
        visible := Search.FilterDoctors(doctors, searchTerm);
        if !Text.IsBlank(searchTerm) {
          SearchWritesKeepFilterState(params.pairs, searchTerm);
          params.Set(SearchKey, searchTerm);
        }
      }
    }
  }

  /** A shared link reproduces the filter view, shown for one sequence of handlers: mount,
      toggle a specialty, toggle a sort, toggle the video consult mode. A page mounted afresh
      on the same store then reads back the same consult mode, specialties and sort, and
      shows the same filtered list. For any sequence of handlers, the general statement is
      that each handler keeps `Valid()` and that `Mount` reads its state from the store. */
  method ReloadReproducesFilters(doctors: seq<Doctor>, params: ParamStore, specialty: string, sort: string)
    returns (first: QueryController, reloaded: QueryController)
    requires |doctors| > 0
    modifies params
    ensures reloaded.State() == first.State()
    ensures reloaded.visible == Pipeline.Derive(doctors, first.consultType, first.specialties, first.sortBy)
  {
    first := new QueryController.Mount(doctors, params);
    first.ToggleSpecialty(specialty);
    first.ToggleSortBy(sort);
    first.ToggleConsultType(Pipeline.VideoConsult);
    reloaded := new QueryController.Mount(doctors, params);
  }
}
