/** The confidence cascade: four matcher answers to one label or none. */
module Classifier {

  /** The five tiers, highest first, and `Unmatched` for the empty label. */
  datatype Confidence =
    | FullNameAndAddress
    | LastNameAndAddress
    | FirstNameAndAddress
    | AddressOnly
    | NameOnly
    | Unmatched
  {
    /** The 'match confidence' text stored in a record; "" for `Unmatched`. */
    function Label(): (s: string)
      ensures s == "" <==> this == Unmatched
    {
      match this
      case FullNameAndAddress => "full name and address"
      case LastNameAndAddress => "last name and address"
      case FirstNameAndAddress => "first name and address"
      case AddressOnly => "address only"
      case NameOnly => "name only"
      case Unmatched => ""
    }
  }

  /** The if/else-if cascade: the first rule that applies wins. `name` is the
      full-name matcher, `lastName` and `firstName` the single-name matchers,
      `address` the address matcher. */
  function Classify(name: bool, lastName: bool, firstName: bool, address: bool): (c: Confidence)
    ensures c == FullNameAndAddress <==> name && address
    ensures c == LastNameAndAddress <==> !name && lastName && address
    ensures c == FirstNameAndAddress <==> !name && !lastName && firstName && address
    ensures c == AddressOnly <==> !name && !lastName && !firstName && address
    ensures c == NameOnly <==> name && !address
    ensures c == Unmatched <==> !name && !address
  {
    if name && address then FullNameAndAddress
    else if lastName && address then LastNameAndAddress
    else if firstName && address then FirstNameAndAddress
    else if address then AddressOnly
    else if name then NameOnly
    else Unmatched
  }

  /** Different tiers carry different labels, so a record's label names its tier. */
  lemma LabelsDistinct(c: Confidence, d: Confidence)
    ensures c.Label() == d.Label() <==> c == d
  {
  }
}
