/** The filter/sort pipeline of the filter panel (`applyFilters`): a consult-mode filter, an
    OR specialty filter and a stable sort on a normalised fee or experience key. */
module Pipeline {
  import opened Wrappers
  import Seqs
  import Sorting
  import Text
  import opened Doctors

  const VideoConsult: string := "Video Consult"
  const InClinic: string := "In Clinic"

  /** The consult test of a non-empty `consultType`: "Video Consult" asks for video
      consultation, and every other value, "In Clinic" or not, asks for its absence. */
  function ConsultTest(consultType: string): Doctor -> bool {
    (d: Doctor) => if consultType == VideoConsult then d.videoConsult else !d.videoConsult
  }

  /** The consult step: no filter for an empty `consultType`. */
  function ByConsult(consultType: string, doctors: seq<Doctor>): seq<Doctor> {
    if consultType == "" then doctors else Seqs.Filter(doctors, ConsultTest(consultType))
  }

  /** The specialty test of a non-empty selection. The field is first defaulted with
      `speciality || []`, so an empty string counts as an empty array. */
  predicate SharesSpecialty(selected: seq<string>, d: Doctor) {
    match d.speciality
    case Arr(names) => exists s :: s in selected && s in names
    case Str(name) => name != "" && name in selected
    case Other => false
  }

  function SpecialtyTest(selected: seq<string>): Doctor -> bool {
    (d: Doctor) => SharesSpecialty(selected, d)
  }

  /** The specialty step: no filter for an empty selection. */
  function BySpecialty(selected: seq<string>, doctors: seq<Doctor>): seq<Doctor> {
    if |selected| > 0 then Seqs.Filter(doctors, SpecialtyTest(selected)) else doctors
  }

  /** The doctors that pass both filters, in dataset order. */
  function Filtered(doctors: seq<Doctor>, consultType: string, specialties: seq<string>): seq<Doctor> {
    BySpecialty(specialties, ByConsult(consultType, doctors))
  }

  datatype SortField = Fees | Experience

  /** The sort that `sortBy` selects; any other value means no sorting. */
  function SortFieldOf(sortBy: string): Option<SortField> {
    if sortBy == "fees" then Some(Fees)
    else if sortBy == "experience" then Some(Experience)
    else None
  }

  /** The normalised key of the sorted field. */
  function Key(f: SortField, d: Doctor): nat {
    match f
    case Fees => Text.NumericKey(d.fees)
    case Experience => Text.NumericKey(d.experience)
  }

  /** The comparator: `feeA - feeB` for fees, `key(b) - key(a)` for experience. A positive
      answer puts `a` after `b`. */
  function Compare(f: SortField, a: Doctor, b: Doctor): int {
    match f
    case Fees => Key(f, a) - Key(f, b)
    case Experience => Key(f, b) - Key(f, a)
  }

  /** The comparator as the function value handed to `sort`. */
  function Comparator(f: SortField): (Doctor, Doctor) -> int {
    (a: Doctor, b: Doctor) => Compare(f, a, b)
  }

  /** The sort `applyFilters` performs for field `f`. */
  function SortBy(f: SortField, s: seq<Doctor>): seq<Doctor> {
    Sorting.StableSort(Comparator(f), s)
  }

  /** The key the comparator compares, as a function value. */
  function KeyOf(f: SortField): Doctor -> int {
    (d: Doctor) => Key(f, d)
  }

  /** The rank the comparator orders by ascending: the fee key, or the negated experience
      key. */
  function Rank(f: SortField): Doctor -> int {
    (d: Doctor) => var k: int := Key(f, d); match f case Fees => k case Experience => -k
  }

  /** The comparator orders by rank and never separates equal keys. */
  lemma ComparatorOrders(f: SortField)
    ensures Sorting.RankedBy(Comparator(f), Rank(f))
    ensures Sorting.KeepsTies(Comparator(f), KeyOf(f))
  {
  }

  /** The doctors whose key for `f` is `k`, in order. */
  function WithKey(f: SortField, k: nat, s: seq<Doctor>): seq<Doctor> {
    Sorting.WithKey(KeyOf(f), k, s)
  }

  /** The visible list that `applyFilters` publishes. */
  function Derive(doctors: seq<Doctor>, consultType: string, specialties: seq<string>, sortBy: string): seq<Doctor> {
    var filtered := Filtered(doctors, consultType, specialties);
    match SortFieldOf(sortBy)
    case None => filtered
    case Some(f) => SortBy(f, filtered)
  }

  /** The consult step keeps every doctor for an empty mode; for "Video Consult" exactly the
      doctors with video consultation, and for any other mode exactly those without; in
      dataset order. */
  lemma ConsultFilterKeeps(consultType: string, doctors: seq<Doctor>, d: Doctor)
    ensures consultType == "" ==> ByConsult(consultType, doctors) == doctors
    ensures multiset(ByConsult(consultType, doctors))[d] ==
      if consultType == "" || (consultType == VideoConsult) == d.videoConsult then multiset(doctors)[d] else 0
    ensures Seqs.SubsequenceOf(ByConsult(consultType, doctors), doctors)
  {
    if consultType == "" {
      assert Seqs.SubsequenceOf(doctors, doctors) by {
        Seqs.PrefixIsSubsequence(doctors, |doctors|);
        assert doctors[..|doctors|] == doctors;
      }
    } else {
      Seqs.FilterMultiset(doctors, ConsultTest(consultType), d);
      Seqs.FilterIsSubsequence(doctors, ConsultTest(consultType));
    }
  }

  /** A consult mode other than the two the panel offers is not ignored: it filters exactly
      as "In Clinic" does. */
  lemma UnknownModeActsAsInClinic(consultType: string, doctors: seq<Doctor>)
    requires consultType != "" && consultType != VideoConsult
    ensures ByConsult(consultType, doctors) == ByConsult(InClinic, doctors)
  {
    Seqs.FilterEquivalent(doctors, ConsultTest(consultType), ConsultTest(InClinic));
  }

  /** A selection that no doctor's field matches (an unknown name, say) is not ignored: it
      hides every doctor. */
  lemma UnmatchedSelectionHidesAll(specialties: seq<string>, doctors: seq<Doctor>)
    requires |specialties| > 0
    requires forall i :: 0 <= i < |doctors| ==> !SharesSpecialty(specialties, doctors[i])
    ensures BySpecialty(specialties, doctors) == []
  {
    var r := BySpecialty(specialties, doctors);
    if r != [] {
      Seqs.FilterMembership(doctors, SpecialtyTest(specialties), r[0]);
      assert false;
    }
  }

  /** The specialty step keeps every doctor for an empty selection; otherwise exactly the
      doctors whose array shares a selected name, or whose non-empty string is selected; a
      doctor with any other field is dropped. */
  lemma SpecialtyFilterKeeps(specialties: seq<string>, doctors: seq<Doctor>, d: Doctor)
    ensures specialties == [] ==> BySpecialty(specialties, doctors) == doctors
    ensures multiset(BySpecialty(specialties, doctors))[d] ==
      if specialties == [] then multiset(doctors)[d]
      else match d.speciality
        case Arr(names) => if exists s :: s in specialties && s in names then multiset(doctors)[d] else 0
        case Str(name) => if name != "" && name in specialties then multiset(doctors)[d] else 0
        case Other => 0
    ensures Seqs.SubsequenceOf(BySpecialty(specialties, doctors), doctors)
  {
    if specialties == [] {
      assert Seqs.SubsequenceOf(doctors, doctors) by {
        Seqs.PrefixIsSubsequence(doctors, |doctors|);
        assert doctors[..|doctors|] == doctors;
      }
    } else {
      Seqs.FilterMultiset(doctors, SpecialtyTest(specialties), d);
      Seqs.FilterIsSubsequence(doctors, SpecialtyTest(specialties));
    }
  }

  /** The visible list is a permutation of the filtered doctors. Sorting by "fees" orders it by
      non-decreasing fee key and by "experience" by non-increasing experience key, in both cases
      keeping the filtered order among equal keys; any other `sortBy` keeps the filtered order. */
  lemma DeriveCorrect(doctors: seq<Doctor>, consultType: string, specialties: seq<string>, sortBy: string)
    ensures var r := Derive(doctors, consultType, specialties, sortBy);
      && multiset(r) == multiset(Filtered(doctors, consultType, specialties))
      && (sortBy == "fees" ==>
            && (forall i, j :: 0 <= i < j < |r| ==> Text.NumericKey(r[i].fees) <= Text.NumericKey(r[j].fees))
            && (forall k: nat :: WithKey(Fees, k, r) == WithKey(Fees, k, Filtered(doctors, consultType, specialties))))
      && (sortBy == "experience" ==>
            && (forall i, j :: 0 <= i < j < |r| ==> Text.NumericKey(r[i].experience) >= Text.NumericKey(r[j].experience))
            && (forall k: nat :: WithKey(Experience, k, r) == WithKey(Experience, k, Filtered(doctors, consultType, specialties))))
      && (sortBy != "fees" && sortBy != "experience" ==> r == Filtered(doctors, consultType, specialties))
  {
    var filtered := Filtered(doctors, consultType, specialties);
    match SortFieldOf(sortBy)
    case None =>
    case Some(Fees) => SortByFeesCorrect(filtered);
    case Some(Experience) => SortByExperienceCorrect(filtered);
  }

  /** Sorting by fees permutes the list into non-decreasing fee keys, equal keys in input order. */
  lemma SortByFeesCorrect(s: seq<Doctor>)
    ensures var r := SortBy(Fees, s);
      && multiset(r) == multiset(s)
      && (forall i, j :: 0 <= i < j < |r| ==> Text.NumericKey(r[i].fees) <= Text.NumericKey(r[j].fees))
      && (forall k: nat :: WithKey(Fees, k, r) == WithKey(Fees, k, s))
  {
    ComparatorOrders(Fees);
    Sorting.StableSortCorrect(Comparator(Fees), Rank(Fees), KeyOf(Fees), s);
    var r := SortBy(Fees, s);
    forall i, j | 0 <= i < j < |r|
      ensures Text.NumericKey(r[i].fees) <= Text.NumericKey(r[j].fees)
    {
      assert Comparator(Fees)(r[i], r[j]) <= 0;
    }
  }

  /** Sorting by experience permutes the list into non-increasing experience keys, equal keys in
      input order. */
  lemma SortByExperienceCorrect(s: seq<Doctor>)
    ensures var r := SortBy(Experience, s);
      && multiset(r) == multiset(s)
      && (forall i, j :: 0 <= i < j < |r| ==> Text.NumericKey(r[i].experience) >= Text.NumericKey(r[j].experience))
      && (forall k: nat :: WithKey(Experience, k, r) == WithKey(Experience, k, s))
  {
    ComparatorOrders(Experience);
    Sorting.StableSortCorrect(Comparator(Experience), Rank(Experience), KeyOf(Experience), s);
    var r := SortBy(Experience, s);
    forall i, j | 0 <= i < j < |r|
      ensures Text.NumericKey(r[i].experience) >= Text.NumericKey(r[j].experience)
    {
      assert Comparator(Experience)(r[i], r[j]) <= 0;
    }
  }

  /** The OR example: with specialties {Dentist}, {ENT}, {Dentist, ENT} and none, selecting
      Dentist keeps the first and third doctor, and selecting both keeps the first three. */
  lemma SpecialtyOrExample(p: Doctor, q: Doctor, r: Doctor, s: Doctor)
    requires p.speciality == Arr(["Dentist"]) && q.speciality == Arr(["ENT"])
    requires r.speciality == Arr(["Dentist", "ENT"]) && s.speciality == Arr([])
    ensures BySpecialty(["Dentist"], [p, q, r, s]) == [p, r]
    ensures BySpecialty(["Dentist", "ENT"], [p, q, r, s]) == [p, q, r]
  {
    var one, both := SpecialtyTest(["Dentist"]), SpecialtyTest(["Dentist", "ENT"]);
    assert one(p) && !one(q) && one(r) && !one(s) by {
      assert "Dentist" in ["Dentist"] && "Dentist" in ["Dentist", "ENT"] && "Dentist" != "ENT";
    }
    assert both(q) && both(r) && !both(s) by {
      assert "ENT" in ["ENT"] && "ENT" in ["Dentist", "ENT"];
    }
    FilterFour(p, q, r, s, one);
    assert [p] + ([] + ([r] + [])) == [p, r];
    FilterFour(p, q, r, s, both);
    assert [p] + ([q] + ([r] + [])) == [p, q, r];
  }

  /** `filter` over four elements, one test at a time. */
  lemma FilterFour<T>(p: T, q: T, r: T, s: T, test: T -> bool)
    ensures Seqs.Filter([p, q, r, s], test) ==
      (if test(p) then [p] else []) + ((if test(q) then [q] else []) + ((if test(r) then [r] else []) + (if test(s) then [s] else [])))
  {
    var last, two, three := [s], [r, s], [q, r, s];
    assert [s] + [] == last && [r] + last == two && [q] + two == three && [p] + three == [p, q, r, s];
    Seqs.FilterCons(s, [], test);
    Seqs.FilterCons(r, last, test);
    Seqs.FilterCons(q, two, test);
    Seqs.FilterCons(p, three, test);
  }

  /** The fee example: fees 300, 100, 300, 200 for a, b, c, d sort to b, d, a, c. */
  lemma FeeSortExample(a: Doctor, b: Doctor, c: Doctor, d: Doctor)
    requires a.fees == "300" && b.fees == "100" && c.fees == "300" && d.fees == "200"
    ensures SortBy(Fees, [a, b, c, d]) == [b, d, a, c]
  {
    ExampleKeys();
    var cmp := Comparator(Fees);
    assert cmp(a, b) == 200 && cmp(a, c) == 0 && cmp(a, d) == 100;
    assert cmp(b, d) == -100 && cmp(c, d) == 100;
    Sorting.SortFour(cmp, a, b, c, d);
  }

  lemma ExampleKeys()
    ensures Text.NumericKey("100") == 100 && Text.NumericKey("200") == 200 && Text.NumericKey("300") == 300
  {
    Text.KeyOfDecimal(100);
    Text.KeyOfDecimal(200);
    Text.KeyOfDecimal(300);
    assert Text.DecimalString(100) == "100" && Text.DecimalString(200) == "200" && Text.DecimalString(300) == "300";
  }

  /** `applyFilters`: nothing for an empty dataset (the visible list is left alone);
      otherwise the two filters and the optional sort, applied to copies. */
  method ApplyFilters(doctors: seq<Doctor>, consultType: string, specialties: seq<string>, sortBy: string)
    returns (published: Option<seq<Doctor>>)
    ensures published == if |doctors| == 0 then None else Some(Derive(doctors, consultType, specialties, sortBy))
  {
    if |doctors| == 0 {
      return None;
    }
    var filtered := doctors;
    if consultType != "" {
      filtered := Seqs.Filter(filtered, ConsultTest(consultType));
    }
    if |specialties| > 0 {
      filtered := Seqs.Filter(filtered, SpecialtyTest(specialties));
    }
    var sortedDoctors := new Doctor[|filtered|](i requires 0 <= i < |filtered| => filtered[i]);
    assert sortedDoctors[..] == filtered;
    var field := SortFieldOf(sortBy);
    if field.Some? {
      Sorting.SortInPlace(sortedDoctors, Comparator(field.value));
    }
    published := Some(sortedDoctors[..]);
  }
}
