/** The four field matchers and the full-name matcher. Each one reads its
    fields inside a try block; a missing field makes `.trim()` throw, and the
    catch block sets the global error flag and answers false. */
module Matchers {
  import opened Text
  import opened Records

  /** What one matcher call yields: its answer, and whether a catch block ran
      during the call (and so set the global `hadError` flag). */
  datatype Outcome = Outcome(matched: bool, error: bool)

  /** The value of a catch block: false, with the error flag set. */
  const Failed := Outcome(false, true)

  /** The comparison form of a present field: trimmed, then upper-cased. */
  function Canon(s: string): string
  {
    Upper(Trim(s))
  }

  /** `field.trim().toUpperCase()`, or `None` when that throws: it throws
      exactly on a missing field, and never makes the text longer. */
  function Normalize(f: Option<string>): (r: Option<string>)
    ensures r.None? <==> f.None?
    ensures r.Some? ==> |r.value| <= |f.value|
  {
    match f
    case None => None
    case Some(s) => Some(Canon(s))
  }

  /** `field.trim().substring(0, 5).toUpperCase()`, or `None` when that throws.
      Upper-casing after the cut gives the first five characters of the
      comparison form, since the two steps commute. */
  function ZipKey(f: Option<string>): (r: Option<string>)
    ensures r.None? <==> f.None?
    ensures r.Some? ==> r.value == Prefix(Canon(f.value), 5) && |r.value| <= 5
  {
    match f
    case None => None
    case Some(s) =>
      UpperPrefix(Trim(s), 5);
      Some(Upper(Prefix(Trim(s), 5)))
  }

  /** Both strings non-empty and `hay` containing `needle`. */
  ghost predicate ContainsNonEmpty(hay: string, needle: string)
  {
    |hay| > 0 && |needle| > 0 && IsSubstring(needle, hay)
  }

  /** The body shared by the last-name and first-name matchers: the owner's
      'Owner Name 1' contains the voter's name part. */
  function OwnerNameContains(ownerName1: Option<string>, voterPart: Option<string>): (r: Outcome)
    ensures r.error <==> ownerName1.None? || voterPart.None?
    ensures r.matched <==>
      ownerName1.Some? && voterPart.Some? &&
      ContainsNonEmpty(Canon(ownerName1.value), Canon(voterPart.value))
  {
    match (Normalize(ownerName1), Normalize(voterPart))
    case (Some(ownerName), Some(part)) =>
      Outcome(|ownerName| > 0 && |part| > 0 && Includes(ownerName, part), false)
    case _ => Failed
  }

  /** `ownerNameMatchesVoterLastName`. */
  function LastNameMatch(owner: Owner, voter: Voter): (r: Outcome)
    ensures r.error <==> owner.name1.None? || voter.nameLast.None?
    ensures r.matched <==>
      owner.name1.Some? && voter.nameLast.Some? &&
      ContainsNonEmpty(Canon(owner.name1.value), Canon(voter.nameLast.value))
  {
    OwnerNameContains(owner.name1, voter.nameLast)
  }

  /** `ownerNameMatchesVoterFirstName`. */
  function FirstNameMatch(owner: Owner, voter: Voter): (r: Outcome)
    ensures r.error <==> owner.name1.None? || voter.nameFirst.None?
    ensures r.matched <==>
      owner.name1.Some? && voter.nameFirst.Some? &&
      ContainsNonEmpty(Canon(owner.name1.value), Canon(voter.nameFirst.value))
  {
    OwnerNameContains(owner.name1, voter.nameFirst)
  }

  /** `ownerNameMatchesVoterName`: last name `&&` first name, so the first-name
      matcher runs (and can raise the flag) only when the last name matched. */
  function NameMatch(owner: Owner, voter: Voter): (r: Outcome)
    ensures r.matched <==> LastNameMatch(owner, voter).matched && FirstNameMatch(owner, voter).matched
    ensures r.error <==>
      LastNameMatch(owner, voter).error ||
      (LastNameMatch(owner, voter).matched && FirstNameMatch(owner, voter).error)
  {
    var last := LastNameMatch(owner, voter);
    if last.matched then FirstNameMatch(owner, voter) else last
  }

  /** The canonical first five characters of a present zip. */
  function Zip5(s: string): string
  {
    Prefix(Canon(s), 5)
  }

  /** `ownerZipCodeMatchesVoterZipCode`. */
  function ZipMatch(owner: Owner, voter: Voter): (r: Outcome)
    ensures r.error <==> owner.zip.None? || voter.zip.None? || voter.mailZip.None?
    ensures r.matched <==>
      !r.error &&
      (Zip5(owner.zip.value) == Zip5(voter.zip.value) ||
       Zip5(owner.zip.value) == Zip5(voter.mailZip.value))
  {
    match (ZipKey(owner.zip), ZipKey(voter.zip), ZipKey(voter.mailZip))
    case (Some(ownerZipCode), Some(voterZipCode), Some(voterMailZipCode)) =>
      Outcome(ownerZipCode == voterZipCode || ownerZipCode == voterMailZipCode, false)
    case _ => Failed
  }

  /** Some field the address matcher reads before it calls the zip matcher is missing. */
  predicate AddressFieldMissing(owner: Owner, voter: Voter)
  {
    owner.address.None? || voter.houseNumber.None? || voter.street.None? || voter.mailStreet.None?
  }

  /** The owner address contains both the house number and the street. */
  ghost predicate NumberAndStreetIn(ownerAddress: string, houseNumber: string, street: string)
  {
    |street| > 0 && ContainsNonEmpty(ownerAddress, houseNumber) && IsSubstring(street, ownerAddress)
  }

  /** The owner address and the mailing street contain one another. */
  ghost predicate MailStreetOverlaps(ownerAddress: string, mailStreet: string)
  {
    |ownerAddress| > 0 && |mailStreet| > 0 &&
    (IsSubstring(mailStreet, ownerAddress) || IsSubstring(ownerAddress, mailStreet))
  }

  /** One of the two address conditions holds on the canonical forms. */
  ghost predicate AddressAgrees(owner: Owner, voter: Voter)
    requires !AddressFieldMissing(owner, voter)
  {
    var ownerAddress := Canon(owner.address.value);
    NumberAndStreetIn(ownerAddress, Canon(voter.houseNumber.value), Canon(voter.street.value)) ||
    MailStreetOverlaps(ownerAddress, Canon(voter.mailStreet.value))
  }

  /** The number-and-street branch on normalised strings. */
  function NumberAndStreet(ownerAddress: string, houseNumber: string, street: string): (r: bool)
    ensures r <==> NumberAndStreetIn(ownerAddress, houseNumber, street)
  {
    |ownerAddress| > 0 && |houseNumber| > 0 && |street| > 0 &&
    Includes(ownerAddress, houseNumber) && Includes(ownerAddress, street)
  }

  /** The mailing-street branch on normalised strings. */
  function MailStreet(ownerAddress: string, mailAddress: string): (r: bool)
    ensures r <==> MailStreetOverlaps(ownerAddress, mailAddress)
  {
    |ownerAddress| > 0 && |mailAddress| > 0 &&
    (Includes(ownerAddress, mailAddress) || Includes(mailAddress, ownerAddress))
  }

  /** `ownerAddressMatchesVoterAddress`. The error flag is raised by its own
      catch block (a missing address field) or by the zip matcher's. */
  function AddressMatch(owner: Owner, voter: Voter): (r: Outcome)
    ensures r.error <==> AddressFieldMissing(owner, voter) || ZipMatch(owner, voter).error
    ensures r.matched <==>
      !AddressFieldMissing(owner, voter) && ZipMatch(owner, voter).matched && AddressAgrees(owner, voter)
  {
    match (Normalize(owner.address), Normalize(voter.houseNumber), Normalize(voter.street), Normalize(voter.mailStreet))
    case (Some(ownerAddress), Some(houseNumber), Some(street), Some(mailAddress)) =>
      var zip := ZipMatch(owner, voter);
      Outcome(zip.matched && (NumberAndStreet(ownerAddress, houseNumber, street) || MailStreet(ownerAddress, mailAddress)), zip.error)
    case _ => Failed
  }

  /** No matcher both matches and raises the flag. */
  lemma MatchedMeansNoError(owner: Owner, voter: Voter)
    ensures LastNameMatch(owner, voter).matched ==> !LastNameMatch(owner, voter).error
    ensures FirstNameMatch(owner, voter).matched ==> !FirstNameMatch(owner, voter).error
    ensures NameMatch(owner, voter).matched ==> !NameMatch(owner, voter).error
    ensures ZipMatch(owner, voter).matched ==> !ZipMatch(owner, voter).error
    ensures AddressMatch(owner, voter).matched ==> !AddressMatch(owner, voter).error
  {
  }

  /** A zip shorter than five characters (after trimming) is compared whole. */
  lemma ShortZipComparedWhole(s: string)
    requires |Trim(s)| < 5
    ensures Zip5(s) == Canon(s)
  {
  }

  /** Any tail after at least five trimmed characters (spaces and line
      breaks included) leaves the zip's comparison form as it was. */
  lemma Zip5IgnoresTail(s: string, tail: string)
    requires |Trim(s)| >= 5
    ensures Zip5(s + tail) == Zip5(s)
  {
    TrimmedPrefixAppend(s, tail, 5);
    UpperPrefix(Trim(s), 5);
    UpperPrefix(Trim(s + tail), 5);
  }

  /** A zip carried past five characters (a ZIP+4, say) matches as its first five do. */
  lemma ZipIgnoresTail(owner: Owner, voter: Voter, tail: string)
    requires owner.zip.Some? && |Trim(owner.zip.value)| >= 5
    ensures ZipMatch(owner.(zip := Some(owner.zip.value + tail)), voter) == ZipMatch(owner, voter)
  {
    var s := owner.zip.value;
    Zip5IgnoresTail(s, tail);
  }

  /** The same holds for a tail on the voter's zip. */
  lemma ZipIgnoresVoterTail(owner: Owner, voter: Voter, tail: string)
    requires voter.zip.Some? && |Trim(voter.zip.value)| >= 5
    ensures ZipMatch(owner, voter.(zip := Some(voter.zip.value + tail))) == ZipMatch(owner, voter)
  {
    var s := voter.zip.value;
    Zip5IgnoresTail(s, tail);
  }

  /** And for a tail on the voter's mailing zip. */
  lemma ZipIgnoresMailTail(owner: Owner, voter: Voter, tail: string)
    requires voter.mailZip.Some? && |Trim(voter.mailZip.value)| >= 5
    ensures ZipMatch(owner, voter.(mailZip := Some(voter.mailZip.value + tail))) == ZipMatch(owner, voter)
  {
    var s := voter.mailZip.value;
    Zip5IgnoresTail(s, tail);
  }

  /** An address match is a zip match. */
  lemma AddressNeedsZip(owner: Owner, voter: Voter)
    ensures AddressMatch(owner, voter).matched ==> ZipMatch(owner, voter).matched
  {
  }

  /** Every matcher answers false and raises the flag when a field it reads is missing. */
  lemma MissingFieldFails(owner: Owner, voter: Voter)
    ensures owner.name1.None? || voter.nameLast.None? ==> LastNameMatch(owner, voter) == Failed
    ensures owner.name1.None? || voter.nameFirst.None? ==> FirstNameMatch(owner, voter) == Failed
    ensures owner.name1.None? || voter.nameLast.None? ==> NameMatch(owner, voter) == Failed
    ensures owner.zip.None? || voter.zip.None? || voter.mailZip.None? ==> ZipMatch(owner, voter) == Failed
    ensures AddressFieldMissing(owner, voter) ==> AddressMatch(owner, voter) == Failed
  {
  }

  /** A missing house number defeats the address matcher even when the mailing
      street alone would have matched: the read throws before either branch is tried. */
  lemma MissingHouseNumberDefeatsMailStreet(owner: Owner, voter: Voter)
    requires voter.houseNumber.None?
    requires owner.address.Some? && voter.street.Some? && voter.mailStreet.Some?
    requires ZipMatch(owner, voter).matched
    requires MailStreetOverlaps(Canon(owner.address.value), Canon(voter.mailStreet.value))
    ensures !AddressMatch(owner, voter).matched && AddressMatch(owner, voter).error
  {
  }
}
