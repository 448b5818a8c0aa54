/** The records the matching engine reads and writes. Each property of a JSON
    object the engine looks at is an `Option<string>`: `None` stands for a
    property that is absent (or holds something other than a string), which is
    exactly the case in which the engine's `.trim()` call throws. */
module Records {

  datatype Option<+T> = None | Some(value: T)

  /** A property-owner row: 'Owner Name 1', 'Owner Address', 'Owner Zip'. */
  datatype Owner = Owner(
    name1: Option<string>,
    address: Option<string>,
    zip: Option<string>)

  /** A voter-roll row, with the properties the engine reads (the JSON names
      are the snake_case forms of these, `type` being `streetType`). */
  datatype Voter = Voter(
    namePrefix: Option<string>,
    nameFirst: Option<string>,
    nameMiddle: Option<string>,
    nameLast: Option<string>,
    nameSuffix: Option<string>,
    houseNumber: Option<string>,
    houseFraction: Option<string>,
    preDir: Option<string>,
    street: Option<string>,
    streetType: Option<string>,
    postDir: Option<string>,
    buildingNumber: Option<string>,
    apartmentNumber: Option<string>,
    mailStreet: Option<string>,
    zip: Option<string>,
    mailZip: Option<string>,
    phone1: Option<string>,
    phone2: Option<string>,
    voterId: Option<string>,
    email: Option<string>,
    city: Option<string>,
    mailCity: Option<string>)

  /** One pushed match: the 'match confidence' label, the owner's three
      fields as read, the two voter display strings and the voter's contact
      fields passed through unchanged. */
  datatype MatchRecord = MatchRecord(
    confidence: string,
    ownerName: Option<string>,
    ownerAddress: Option<string>,
    ownerZip: Option<string>,
    voterName: string,
    voterAddress: string,
    voterZip: Option<string>,
    voterMailStreet: Option<string>,
    voterMailZip: Option<string>,
    voterPhone1: Option<string>,
    voterPhone2: Option<string>,
    voterId: Option<string>,
    voterEmail: Option<string>)
}
