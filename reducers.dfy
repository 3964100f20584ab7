/** The state reducers of the filter panel: the consult-mode and sort toggles
    (`handleConsultTypeChange`, `handleSortChange`) and the specialty checkbox toggle
    (`handleSpecialtyChange`). */
module Reducers {
  import Seqs

  /** `prev === choice ? '' : choice`: choosing the active option again clears it. */
  function Toggle(prev: string, choice: string): (r: string)
    ensures r == "" || r == choice
    ensures r == "" <==> (prev == choice || choice == "")
  {
    if prev == choice then "" else choice
  }

  /** Choosing the same option twice restores the previous value exactly when that value
      was empty or that option. */
  lemma ToggleTwice(prev: string, choice: string)
    ensures Toggle(Toggle(prev, choice), choice) == prev <==> (prev == "" || prev == choice)
  {
  }

  function IsNotName(s: string): string -> bool {
    (x: string) => x != s
  }

  /** `prev.filter(x => x !== s)`. */
  function Removed(prev: seq<string>, s: string): (r: seq<string>)
    ensures s !in r
  {
    Seqs.FilterMembership(prev, IsNotName(s), s);
    Seqs.Filter(prev, IsNotName(s))
  }

  /** `prev.includes(s) ? prev.filter(x => x !== s) : [...prev, s]`. */
  function ToggleSpecialty(prev: seq<string>, s: string): (r: seq<string>)
    ensures s in r <==> s !in prev
  {
    if s in prev then Removed(prev, s) else prev + [s]
  }

  predicate NoDuplicates(list: seq<string>) {
    forall i, j :: 0 <= i < j < |list| ==> list[i] != list[j]
  }

  /** A selected specialty loses every copy; an unselected one is added once, at the end. */
  lemma ToggleSpecialtyShape(prev: seq<string>, s: string)
    ensures s in prev ==> multiset(ToggleSpecialty(prev, s))[s] == 0
    ensures s !in prev ==> ToggleSpecialty(prev, s) == prev + [s]
  {
  }

  /** The other specialties keep their copies and their relative order. */
  lemma ToggleSpecialtyKeepsOthers(prev: seq<string>, s: string, x: string)
    requires x != s
    ensures Removed(ToggleSpecialty(prev, s), s) == Removed(prev, s)
    ensures multiset(ToggleSpecialty(prev, s))[x] == multiset(prev)[x]
  {
    Seqs.FilterMultiset(prev, IsNotName(s), x);
    if s in prev {
      WithoutTwice(prev, s);
    } else {
      AppendThenRemove(prev, s);
    }
  }

  lemma WithoutTwice(prev: seq<string>, s: string)
    ensures Removed(Removed(prev, s), s) == Removed(prev, s)
  {
    var r := Removed(prev, s);
    Seqs.FilterAll(r, IsNotName(s));
  }

  lemma AppendThenRemove(prev: seq<string>, s: string)
    ensures Removed(prev + [s], s) == Removed(prev, s)
  {
    Seqs.FilterConcat(prev, [s], IsNotName(s));
  }

  /** A list without duplicates stays without duplicates. */
  lemma ToggleSpecialtyNoDuplicates(prev: seq<string>, s: string)
    requires NoDuplicates(prev)
    ensures NoDuplicates(ToggleSpecialty(prev, s))
  {
    if s in prev {
      FilterNoDuplicates(prev, IsNotName(s));
    }
  }

  lemma {:induction false} FilterNoDuplicates(list: seq<string>, p: string -> bool)
    requires NoDuplicates(list)
    ensures NoDuplicates(Seqs.Filter(list, p))
  {
    if list != [] {
      FilterNoDuplicates(list[1..], p);
      Seqs.FilterMembership(list[1..], p, list[0]);
      assert list[0] !in list[1..];
    }
  }

  /** Toggling an unselected specialty twice restores the list. A selected one, toggled
      twice, ends up once, at the end. */
  lemma ToggleSpecialtyTwice(prev: seq<string>, s: string)
    ensures s !in prev ==> ToggleSpecialty(ToggleSpecialty(prev, s), s) == prev
    ensures s in prev ==> ToggleSpecialty(ToggleSpecialty(prev, s), s) == Removed(prev, s) + [s]
  {
    if s !in prev {
      AppendThenRemove(prev, s);
      Seqs.FilterAll(prev, IsNotName(s));
    }
  }
}
