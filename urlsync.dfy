/** The link between the filter panel's state and the parameter store: the initial reads
    (`get(...) || ''`, `getAll('specialty')`) and `updateUrlParams`. */
module UrlSync {
  import opened Wrappers
  import opened SearchParams

  const SearchKey: string := "search"
  const ConsultKey: string := "consultType"
  const SpecialtyKey: string := "specialty"
  const SortKey: string := "sortBy"

  /** The filter panel's part of the query state. */
  datatype FilterState = FilterState(consultType: string, specialties: seq<string>, sortBy: string)

  /** `params.get(name) || ''`: the first value `getAll(name)` lists, or '' when it lists
      none (an empty first value reads as '' either way). */
  function ReadText(pairs: seq<Pair>, name: string): (r: string)
    ensures r == if ValuesOf(pairs, name) == [] then "" else ValuesOf(pairs, name)[0]
  {
    LookupIsFirstValue(pairs, name);
    Lookup(pairs, name).GetOr("")
  }

  /** The filter panel's initial state, read once from the store. */
  function ReadFilterState(pairs: seq<Pair>): FilterState {
    FilterState(ReadText(pairs, ConsultKey), ValuesOf(pairs, SpecialtyKey), ReadText(pairs, SortKey))
  }

  /** The pairs `specialties.forEach(s => append('specialty', s))` adds: one `specialty` pair
      per selected specialty, in selection order, so that `getAll('specialty')` of them is
      the selection and every other name has no value in them. */
  function SpecialtyPairs(specialties: seq<string>): (r: seq<Pair>)
    ensures |r| == |specialties|
    ensures forall i :: 0 <= i < |r| ==> r[i] == (SpecialtyKey, specialties[i])
    ensures forall n :: ValuesOf(r, n) == if n == SpecialtyKey then specialties else []
  {
    if specialties == [] then []
    else
      var rest := SpecialtyPairs(specialties[1..]);
      ValuesOfCons((SpecialtyKey, specialties[0]), rest);
      [(SpecialtyKey, specialties[0])] + rest
  }

  /** The pairs after `updateUrlParams`: `consultType` set or deleted, every `specialty` pair
      deleted and one appended per selection, `sortBy` set or deleted. */
  function Serialized(pairs: seq<Pair>, state: FilterState): seq<Pair> {
    var withConsult := if state.consultType != "" then Replaced(pairs, ConsultKey, state.consultType) else Without(pairs, ConsultKey);
    var withSpecialties := Without(withConsult, SpecialtyKey) + SpecialtyPairs(state.specialties);
    if state.sortBy != "" then Replaced(withSpecialties, SortKey, state.sortBy) else Without(withSpecialties, SortKey)
  }

  /** What `getAll` answers after `updateUrlParams`, for every name: the written value (no
      value for an empty one) for `consultType` and `sortBy`, exactly the selection for
      `specialty`, and the old values for every other name. */
  lemma SerializedValues(pairs: seq<Pair>, state: FilterState, name: string)
    ensures ValuesOf(Serialized(pairs, state), name) ==
      if name == ConsultKey then (if state.consultType == "" then [] else [state.consultType])
      else if name == SpecialtyKey then state.specialties
      else if name == SortKey then (if state.sortBy == "" then [] else [state.sortBy])
      else ValuesOf(pairs, name)
  {
    var withConsult := if state.consultType != "" then Replaced(pairs, ConsultKey, state.consultType) else Without(pairs, ConsultKey);
    var withSpecialties := Without(withConsult, SpecialtyKey) + SpecialtyPairs(state.specialties);
    if state.consultType != "" {
      ValuesOfReplaced(pairs, ConsultKey, state.consultType, name);
    } else {
      ValuesOfWithout(pairs, ConsultKey, name);
    }
    ValuesOfConcat(Without(withConsult, SpecialtyKey), SpecialtyPairs(state.specialties), name);
    ValuesOfWithout(withConsult, SpecialtyKey, name);
    if state.sortBy != "" {
      ValuesOfReplaced(withSpecialties, SortKey, state.sortBy, name);
    } else {
      ValuesOfWithout(withSpecialties, SortKey, name);
    }
  }

  /** Reading the state back from the store after `updateUrlParams` gives the state that was
      written: `get('consultType') || ''`, `getAll('specialty')` (replaced, never merged, in
      order) and `get('sortBy') || ''`. */
  lemma RoundTrip(pairs: seq<Pair>, state: FilterState)
    ensures ReadFilterState(Serialized(pairs, state)) == state
  {
    var out := Serialized(pairs, state);
    SerializedValues(pairs, state, ConsultKey);
    SerializedValues(pairs, state, SpecialtyKey);
    SerializedValues(pairs, state, SortKey);
    LookupIsFirstValue(out, ConsultKey);
    LookupIsFirstValue(out, SortKey);
  }

  /** `search` and every other name keep both their `get` and their `getAll` answers. */
  lemma SerializedKeepsOtherKeys(pairs: seq<Pair>, state: FilterState, name: string)
    requires name != ConsultKey && name != SpecialtyKey && name != SortKey
    ensures ValuesOf(Serialized(pairs, state), name) == ValuesOf(pairs, name)
    ensures Lookup(Serialized(pairs, state), name) == Lookup(pairs, name)
  {
    SerializedValues(pairs, state, name);
    LookupIsFirstValue(Serialized(pairs, state), name);
    LookupIsFirstValue(pairs, name);
  }

  /** Writing the same state a second time changes no answer of `get` or `getAll`. */
  lemma SerializedTwice(pairs: seq<Pair>, state: FilterState, name: string)
    ensures ValuesOf(Serialized(Serialized(pairs, state), state), name) == ValuesOf(Serialized(pairs, state), name)
  {
    SerializedValues(Serialized(pairs, state), state, name);
    SerializedValues(pairs, state, name);
  }

  /** ... but it can reorder the pairs, and so change the query string: on an empty store a
      first write gives `specialty=ENT&sortBy=fees` and a second `sortBy=fees&specialty=ENT`. */
  lemma SerializedTwiceReorders()
    ensures var state := FilterState("", ["ENT"], "fees");
      && Serialized([], state) == [(SpecialtyKey, "ENT"), (SortKey, "fees")]
      && Serialized(Serialized([], state), state) == [(SortKey, "fees"), (SpecialtyKey, "ENT")]
  {
    var state := FilterState("", ["ENT"], "fees");
    assert SpecialtyPairs(["ENT"]) == [(SpecialtyKey, "ENT")];
    assert Without([], ConsultKey) == [] && Without([], SpecialtyKey) == [];
    assert [] + [(SpecialtyKey, "ENT")] == [(SpecialtyKey, "ENT")];
    var once := [(SpecialtyKey, "ENT"), (SortKey, "fees")];
    assert Without(once, ConsultKey) == once by {
      WithoutCons(once, ConsultKey);
      WithoutCons(once[1..], ConsultKey);
    }
    assert Without(once, SpecialtyKey) == [(SortKey, "fees")] by {
      WithoutCons(once, SpecialtyKey);
      WithoutCons(once[1..], SpecialtyKey);
    }
    assert Replaced([(SpecialtyKey, "ENT")], SortKey, "fees") == once;
    assert Replaced([(SortKey, "fees"), (SpecialtyKey, "ENT")], SortKey, "fees") == [(SortKey, "fees"), (SpecialtyKey, "ENT")] by {
      assert Without([(SpecialtyKey, "ENT")], SortKey) == [(SpecialtyKey, "ENT")] by {
        WithoutCons([(SpecialtyKey, "ENT")], SortKey);
      }
    }
  }

  /** The search box's writes (`delete('search')`, `set('search', v)`) leave the filter
      panel's state in the store as it was. */
  lemma SearchWritesKeepFilterState(pairs: seq<Pair>, value: string)
    ensures ReadFilterState(Without(pairs, SearchKey)) == ReadFilterState(pairs)
    ensures ReadFilterState(Replaced(pairs, SearchKey, value)) == ReadFilterState(pairs)
  {
    var names := [ConsultKey, SpecialtyKey, SortKey];
    forall name | name in names
      ensures ValuesOf(Without(pairs, SearchKey), name) == ValuesOf(pairs, name)
      ensures ValuesOf(Replaced(pairs, SearchKey, value), name) == ValuesOf(pairs, name)
      ensures Lookup(Without(pairs, SearchKey), name) == Lookup(pairs, name)
      ensures Lookup(Replaced(pairs, SearchKey, value), name) == Lookup(pairs, name)
    {
      ValuesOfWithout(pairs, SearchKey, name);
      ValuesOfReplaced(pairs, SearchKey, value, name);
      LookupIsFirstValue(pairs, name);
      LookupIsFirstValue(Without(pairs, SearchKey), name);
      LookupIsFirstValue(Replaced(pairs, SearchKey, value), name);
    }
  }

  /** After `set('search', v)` the store answers `v` for `search`. */
  lemma SearchWriteReadsBack(pairs: seq<Pair>, value: string)
    ensures Lookup(Replaced(pairs, SearchKey, value), SearchKey) == Some(value)
    ensures ReadText(Without(pairs, SearchKey), SearchKey) == ""
  {
    ValuesOfReplaced(pairs, SearchKey, value, SearchKey);
    LookupIsFirstValue(Replaced(pairs, SearchKey, value), SearchKey);
    ValuesOfWithout(pairs, SearchKey, SearchKey);
    LookupIsFirstValue(Without(pairs, SearchKey), SearchKey);
  }

  /** `updateUrlParams` on the store: set or delete, then the `forEach` of appends, then set
      or delete. */
  method UpdateUrlParams(params: ParamStore, consultType: string, specialties: seq<string>, sortBy: string)
    modifies params
    ensures params.pairs == Serialized(old(params.pairs), FilterState(consultType, specialties, sortBy))
  {
    if consultType != "" {
      params.Set(ConsultKey, consultType);
    } else {
      params.Delete(ConsultKey);
    }
    params.Delete(SpecialtyKey);
    ghost var cleared := params.pairs;
    var i := 0;
    while i < |specialties|
      invariant 0 <= i <= |specialties|
      invariant params.pairs == cleared + SpecialtyPairs(specialties[..i])
    {
      assert SpecialtyPairs(specialties[..i + 1]) == SpecialtyPairs(specialties[..i]) + [(SpecialtyKey, specialties[i])];
      params.Append(SpecialtyKey, specialties[i]);
      i := i + 1;
    }
    assert specialties[..i] == specialties;
    if sortBy != "" {
      params.Set(SortKey, sortBy);
    } else {
      params.Delete(SortKey);
    }
  }
}
