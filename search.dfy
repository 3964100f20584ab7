/** The search box (`AutocompleteSearch`): the name filter behind Enter and a suggestion
    click, and the bounded suggestion list recomputed on every keystroke. */
module Search {
  import Seqs
  import Text
  import opened Doctors

  /** The cap on suggestions (`slice(0, 3)`). */
  const MaxSuggestions: nat := 3

  /** `doctor.name.toLowerCase().includes(term.toLowerCase())`. */
  predicate NameMatches(term: string, d: Doctor) {
    Text.Contains(Text.Lower(d.name), Text.Lower(term))
  }

  function NameTest(term: string): Doctor -> bool {
    (d: Doctor) => NameMatches(term, d)
  }

  /** `filterDoctors(term)`: the doctors whose name contains `term`, ignoring ASCII case, in
      dataset order. The term is not trimmed. */
  function FilterDoctors(doctors: seq<Doctor>, term: string): (r: seq<Doctor>)
    ensures forall i :: 0 <= i < |r| ==> NameMatches(term, r[i])
  {
    Seqs.Filter(doctors, NameTest(term))
  }

  /** The suggestions effect: nothing for a term that is blank after trimming, otherwise the
      first three matches. */
  function Suggestions(doctors: seq<Doctor>, term: string): (r: seq<Doctor>)
    ensures |r| <= MaxSuggestions
    ensures Text.IsBlank(term) ==> r == []
    ensures !Text.IsBlank(term) ==> |r| == Min(MaxSuggestions, |FilterDoctors(doctors, term)|)
    ensures !Text.IsBlank(term) ==> r == FilterDoctors(doctors, term)[..|r|]
  {
    if Text.IsBlank(term) then []
    else
      var matched := FilterDoctors(doctors, term);
      matched[..Min(MaxSuggestions, |matched|)]
  }

  function Min(a: nat, b: nat): nat {
    if a < b then a else b
  }

  /** `filterDoctors` keeps exactly the doctors whose name matches, every copy of each, in
      dataset order. */
  lemma FilterDoctorsKeeps(doctors: seq<Doctor>, term: string, d: Doctor)
    ensures multiset(FilterDoctors(doctors, term))[d] == if NameMatches(term, d) then multiset(doctors)[d] else 0
    ensures Seqs.SubsequenceOf(FilterDoctors(doctors, term), doctors)
  {
    Seqs.FilterMultiset(doctors, NameTest(term), d);
    Seqs.FilterIsSubsequence(doctors, NameTest(term));
  }

  /** The empty term matches every name: `filterDoctors('')` is the whole dataset. */
  lemma FilterDoctorsEmptyTerm(doctors: seq<Doctor>)
    ensures FilterDoctors(doctors, "") == doctors
  {
    forall i | 0 <= i < |doctors|
      ensures NameMatches("", doctors[i])
    {
      Text.ContainsEmpty(Text.Lower(doctors[i].name));
    }
    Seqs.FilterAll(doctors, NameTest(""));
  }

  /** Matching ignores the case of the term. */
  lemma FilterDoctorsIgnoresTermCase(doctors: seq<Doctor>, term: string)
    ensures FilterDoctors(doctors, Text.Lower(term)) == FilterDoctors(doctors, term)
  {
    Text.LowerIdempotent(term);
    Seqs.FilterEquivalent(doctors, NameTest(Text.Lower(term)), NameTest(term));
  }

  /** Every suggestion is a doctor of the dataset whose name contains the term, and the
      suggestions are in dataset order. */
  lemma SuggestionsInDatasetOrder(doctors: seq<Doctor>, term: string)
    ensures forall i :: 0 <= i < |Suggestions(doctors, term)| ==> NameMatches(term, Suggestions(doctors, term)[i])
    ensures Seqs.SubsequenceOf(Suggestions(doctors, term), doctors)
  {
    var matched := FilterDoctors(doctors, term);
    var r := Suggestions(doctors, term);
    Seqs.FilterIsSubsequence(doctors, NameTest(term));
    if !Text.IsBlank(term) {
      Seqs.PrefixIsSubsequence(matched, |r|);
      Seqs.SubsequenceTransitive(r, matched, doctors);
    }
  }

  /** When every name matches a non-blank term (ten doctors all named "Dr ..." searched for
      "Dr"), the suggestions are the first three doctors of the dataset. */
  lemma SuggestionsWhenAllMatch(doctors: seq<Doctor>, term: string)
    requires !Text.IsBlank(term)
    requires forall i :: 0 <= i < |doctors| ==> NameMatches(term, doctors[i])
    ensures Suggestions(doctors, term) == if |doctors| < MaxSuggestions then doctors else doctors[..MaxSuggestions]
  {
    Seqs.FilterAll(doctors, NameTest(term));
  }
}
