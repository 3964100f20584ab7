/** A doctor record as the remote dataset delivers it, and the two display rules of the
    doctor card that the listing depends on. */
module Doctors {
  import Text

  /** The `speciality` field, whose shape the dataset does not fix: an array of names, a
      single name, or anything else (absent, null, a number, an object). */
  datatype Speciality = Arr(names: seq<string>) | Str(name: string) | Other

  /** One entry of the dataset. `fees` and `experience` are the strings that `String(x)`
      produces for the stored values (a number such as 500, or text such as "₹500"). */
  datatype Doctor = Doctor(
    id: string,
    name: string,
    speciality: Speciality,
    videoConsult: bool,
    fees: string,
    experience: string)

  const Rupee: char := '\U{20B9}'

  /** `displayFees`: the fee text shown on a card, with a rupee sign prefixed unless the fee
      text already carries one. */
  function DisplayFees(fees: string): (r: string)
    ensures Rupee in r
    ensures Rupee in fees ==> r == fees
    ensures Rupee !in fees ==> r == [Rupee] + fees
  {
    if Rupee in fees then fees else [Rupee] + fees
  }

  /** Exactly one rupee sign is added, and only when there was none; the digits, and so the
      sort key, are unchanged. */
  lemma DisplayFeesSigns(fees: string)
    ensures multiset(DisplayFees(fees))[Rupee] == if Rupee in fees then multiset(fees)[Rupee] else 1
    ensures Text.NumericKey(DisplayFees(fees)) == Text.NumericKey(fees)
    ensures DisplayFees(DisplayFees(fees)) == DisplayFees(fees)
  {
    if Rupee !in fees {
      assert multiset([Rupee] + fees) == multiset{Rupee} + multiset(fees);
      Text.KeyIgnoresNonDigits([Rupee], fees);
    }
  }

  /** The numeric fee 500 and the text "₹500" sort alike and display alike. */
  lemma RupeeNormalisationExample()
    ensures Text.NumericKey("500") == 500 && Text.NumericKey("\U{20B9}500") == 500
    ensures DisplayFees("500") == "\U{20B9}500" && DisplayFees("\U{20B9}500") == "\U{20B9}500"
  {
    Text.KeyOfDecimal(500);
    assert Text.DecimalString(500) == "500";
    Text.KeyIgnoresNonDigits([Rupee], "500");
    assert [Rupee] + "500" == "\U{20B9}500";
  }

  /** `names.join(sep)`. */
  function Join(names: seq<string>, sep: string): string {
    if names == [] then ""
    else if |names| == 1 then names[0]
    else names[0] + sep + Join(names[1..], sep)
  }

  /** Joining one more name appends a separator and the name. */
  lemma {:induction false} JoinSnoc(names: seq<string>, last: string, sep: string)
    requires names != []
    ensures Join(names + [last], sep) == Join(names, sep) + sep + last
  {
    if |names| > 1 {
      assert (names + [last])[1..] == names[1..] + [last];
      JoinSnoc(names[1..], last, sep);
    }
  }

  /** `displaySpecialties` for a doctor whose only specialty field is `speciality`: an array
      is joined with ", ", a string is shown as it is, and anything else shows nothing. */
  function DisplaySpecialties(s: Speciality): (r: string)
    ensures s.Arr? && |s.names| == 1 ==> r == s.names[0]
    ensures s.Str? ==> r == s.name
    ensures s.Other? || s == Arr([]) ==> r == ""
  {
    match s
    case Arr(names) => Join(names, ", ")
    case Str(name) => name
    case Other => ""
  }

  /** An array with one more name shows the old text, then ", ", then the name. With the
      contract of `DisplaySpecialties` this fixes the text shown for every array. */
  lemma DisplaySpecialtiesSnoc(names: seq<string>, last: string)
    requires names != []
    ensures DisplaySpecialties(Arr(names + [last])) == DisplaySpecialties(Arr(names)) + ", " + last
  {
    JoinSnoc(names, last, ", ");
  }
}
