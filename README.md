# Owner-occupied / Oakland voter matching, modelled in Dafny

`filter_oakland.js` is a one-shot batch script. It does the following, in order:

1. It keeps the voters whose mailing city (or, failing that, city) contains "OAKLAND".
2. It compares every property owner with every kept voter using four field matchers:
   - last name;
   - first name;
   - zip;
   - address, which includes the zip matcher.
3. It classifies each pair with an if/else-if cascade into one of five confidence tiers, or into no tier.
4. It counts each classified pair in its tier's counter.
5. It pushes a match record for every classified pair. The record carries two display strings built from the voter's optional parts.
6. It sorts the records, best tier first.

Each matcher reads its fields inside a `try`. A missing or non-string field makes `.trim()` throw. The `catch` then sets a global `hadError` flag and the matcher answers false.

This project models exactly that engine:

- `Text` (`text.dfy`): the JavaScript string operations the engine uses. These are `trim`, `toUpperCase`, `substring(0, n)` and `includes`, proved against declarative definitions (substring occurrence, stripped whitespace).
- `Records` (`records.dfy`): owner, voter and match-record rows. Every property is an `Option<string>`; `None` marks a property whose string method call (`.trim()`, or `.toUpperCase()` for the city fields) would throw.
- `Matchers` (`matchers.dfy`): the five matcher functions. Each returns `Outcome(matched, error)`, where `error` means a catch block ran during the call.
- `Classifier` (`classifier.dfy`): the confidence cascade and its labels.
- `Display` (`display.dfy`): the 'voter name' and 'voter address' template literals.
- `Engine` (`engine.dfy`), which holds:
  - the tier counters;
  - the per-pair evaluation;
  - the nested owner × voter loop, as a method with loop invariants. The script's globals `hadError`, `matchConfidenceCounts` and `ownerOccupiedWithAllVoterInfo` become its locals and results.
  - its specification as folds over the cross product in loop order.
- `Ranker` (`ranker.dfy`): `entryPriority` and the sort. The sort is done in place on an `array`, by an insertion sort with adjacent swaps. The sort and its specification take the comparator's key as a parameter, and the script passes `entryPriority` of the label. The sort is proved equal to the specification `Ranked`, which lists the priority bands 5, 4, …, 0 in turn, each in emission order. `Ranked` itself is proved to be:
  - a permutation;
  - descending;
  - stable;
  - idempotent;
  - the only descending arrangement with the same bands.
- `VoterFilter` (`voters.dfy`): the Oakland filter. It has no `try`, so a missing city it reads stops the whole run (`None`).
- `Pipeline` (`pipeline.dfy`): the whole script between input and output, as one method proved equal to a specification function. Its lemmas connect the ranked report back to the engine's records and counters.

Some points of the code's behaviour that the model follows exactly, and that are easy to get wrong:

- The owner fields are read as 'Owner Name 1', 'Owner Address' and 'Owner Zip'.
- The address matcher reads `mail_street`, and the zip matcher it calls reads `mail_zip`. A voter lacking either therefore never gets an address match; `Engine.AddressFieldMissingCapsTier` and `Engine.ZipFieldMissingCapsTier` state this.
- The zip key is trimmed, then cut to five characters, then upper-cased.
- The voter filter has no `catch`, so a voter without a mailing city ends the run instead of being skipped.

## Model

| member | source | states |
|---|---|---|
| `Text.Includes` | filter_oakland.js:44-45 | `hay.includes(needle)` is true exactly when `needle` occurs as a contiguous substring of `hay` |
| `Text.Trim` | filter_oakland.js:41-42 | the result is `s` with a leading and a trailing run of ECMAScript whitespace removed, and neither starts nor ends with whitespace; it is empty exactly when `s` is all whitespace |
| `Text.Upper` | filter_oakland.js:41-42 | same length, each character upper-cased (ASCII letters only) |
| `Text.Prefix` | filter_oakland.js:83-85 | `substring(0, n)`: the first `n` characters, or the whole string when it is shorter |
| `Text.UpperPrefix` | filter_oakland.js:83-85 | cutting to five characters and upper-casing commute, so the zip key is the first five characters of the canonical zip |
| `Text.TrimStartAppend` | filter_oakland.js:83 | text appended after a non-blank character does not change the leading whitespace removed |
| `Text.TrimAppend` | filter_oakland.js:83 | for any text appended after a non-blank character, the trimmed longer string starts with the whole trimmed shorter one |
| `Matchers.Normalize` | filter_oakland.js:41-42 | `trim().toUpperCase()` throws exactly on a missing field and never lengthens the text |
| `Matchers.ZipKey` | filter_oakland.js:83-85 | throws exactly on a missing zip; otherwise the key is the first five characters of the trimmed, upper-cased zip (cutting and upper-casing commute, `Text.UpperPrefix`) |
| `Matchers.OwnerNameContains` | filter_oakland.js:41-51 | raises the flag exactly when one of the two fields is missing; matches exactly when both are present, both are non-empty after trimming, and the owner name contains the voter part |
| `Matchers.LastNameMatch` | filter_oakland.js:39-52 | error iff 'Owner Name 1' or `name_last` is missing; matched iff both are present, both canonical forms are non-empty, and the last name occurs in the owner name |
| `Matchers.FirstNameMatch` | filter_oakland.js:60-73 | the same, for `name_first` |
| `Matchers.NameMatch` | filter_oakland.js:28-31 | matched iff both the last-name and first-name matchers match on the same owner name; error iff the last-name matcher errs, or it matches and the first-name matcher errs (short-circuit `&&`) |
| `Matchers.ZipMatch` | filter_oakland.js:81-95 | error iff 'Owner Zip', `zip` or `mail_zip` is missing; otherwise matched iff the first five characters of the canonical owner zip equal those of the voter's zip or mailing zip |
| `Matchers.NumberAndStreet` | filter_oakland.js:110-111 | true iff the owner address, house number and street are non-empty and the address contains both |
| `Matchers.MailStreet` | filter_oakland.js:113-114 | true iff both are non-empty and one contains the other |
| `Matchers.AddressMatch` | filter_oakland.js:103-125 | error iff one of the four address fields is missing or the zip matcher errs; matched iff all four are present, the zip matches, and one of the two address conditions holds |
| `Matchers.MatchedMeansNoError` | filter_oakland.js:39-125 | no matcher both answers true and raises the flag |
| `Matchers.ShortZipComparedWhole` | filter_oakland.js:83-85 | a zip shorter than five characters after trimming is compared whole |
| `Matchers.ZipIgnoresTail` | filter_oakland.js:83-88 | once the trimmed zip has five characters, any suffix on the owner's 'Owner Zip' (a ZIP+4 such as "-1234" or " 1234", trailing spaces or line breaks) does not change the zip matcher's answer |
| `Matchers.ZipIgnoresVoterTail` | filter_oakland.js:84-88 | the same for any suffix on the voter's `zip`, whitespace included |
| `Matchers.ZipIgnoresMailTail` | filter_oakland.js:85-88 | the same for any suffix on the voter's `mail_zip`, whitespace included |
| `Matchers.AddressNeedsZip` | filter_oakland.js:116-118 | an address match implies a zip match |
| `Matchers.MissingFieldFails` | filter_oakland.js:39-125 | every matcher answers false and raises the flag when a field it reads is missing |
| `Matchers.MissingHouseNumberDefeatsMailStreet` | filter_oakland.js:105-124 | a missing house number makes the address matcher fail and raise the flag, even when the zip matches and the mailing-street condition holds |
| `Classifier.Confidence.Label` | filter_oakland.js:148-163 | only the empty tier has the empty label |
| `Classifier.Classify` | filter_oakland.js:148-163 | the cascade, one iff per tier: full name and address iff `name && address`; last name and address iff `!name && lastName && address`; and so on; no label iff neither the name nor the address matches |
| `Classifier.LabelsDistinct` | filter_oakland.js:150-162 | different tiers have different labels |
| `Engine.Counts.Bump` | filter_oakland.js:149-162 | the taken branch's counter goes up by one; every other counter is unchanged; the total grows by one exactly for a non-empty label |
| `Engine.EvaluatePair` | filter_oakland.js:142-163 | the four matcher calls and the cascade for one pair; `Engine.PairClassification` states the label and flag it yields in terms of the matchers |
| `Engine.PairClassification` | filter_oakland.js:142-163 | a pair gets a label iff the address matches or both names match; it is the top tier iff address, last name and first name all match; "name only" iff both names match and the address does not; the pair raises the flag iff one of its matchers does |
| `Engine.AddressFieldMissingCapsTier` | filter_oakland.js:103-124 | a missing address field raises the flag and leaves only "name only" (when the full name matches) or no label |
| `Engine.ZipFieldMissingCapsTier` | filter_oakland.js:81-94 | the same, for a missing zip field |
| `Engine.MakeRecord` | filter_oakland.js:167-181 | the pushed object: the label, the three owner fields, the two display strings and the seven voter fields passed through; `Engine.EmittedExactly` states which pairs push it |
| `Engine.Row` | filter_oakland.js:141 | one owner's pairs, one per voter, in voter order |
| `Engine.RunMatchEngine` | filter_oakland.js:136-184 | the records, counters and flag after the loops are the specification folds over the owner × voter pairs in loop order |
| `Engine.RowStartIsProduct` | filter_oakland.js:141-145 | `RowStart(i, m)`, where owner `i`'s row starts, is `i * m` for `m` voters |
| `Engine.CrossLength` | filter_oakland.js:141-145 | the number of pairs is `RowStart` of the owner count, so owners times voters |
| `Engine.CrossAt` | filter_oakland.js:141-145 | owner `i` and voter `j` are visited at step `RowStart(i, m) + j` for `m` voters: owners outer, voters inner |
| `Engine.EmittedAppend` | filter_oakland.js:165-183 | visiting more pairs only appends records |
| `Engine.EmittedByOwner` | filter_oakland.js:141-183 | the record list is the previous owners' records followed by this owner's |
| `Engine.EmittedFromPair` | filter_oakland.js:165-183 | every record in the list was built from some visited pair with a non-empty label |
| `Engine.PairEmitted` | filter_oakland.js:165-183 | every visited pair with a non-empty label has its record in the list |
| `Engine.EmittedExactly` | filter_oakland.js:165-183 | a record is in the list iff some visited pair has a non-empty label and that record is the one built from it |
| `Engine.EmittedLabels` | filter_oakland.js:165-168 | every pushed record's label has priority 1 to 5 |
| `Engine.TallyCountsRecords` | filter_oakland.js:148-168 | the five counters add up to the number of records |
| `Engine.TierPriority` | filter_oakland.js:187-196 | the priority `entryPriority` gives each tier's label; at least 1 for a real tier |
| `Engine.TiersInCascadeOrder` | filter_oakland.js:147-163 | the tiers the cascade tries first get strictly higher `entryPriority` values (lines 187-196), down to 0 for no label, so "best tier first" in the sort is the cascade's order |
| `Engine.TallyPerTier` | filter_oakland.js:148-168 | each tier's counter equals the number of records with that tier's label |
| `Engine.AnyErrorMeansSomePair` | filter_oakland.js:47-51 | the flag is set iff some visited pair raised it |
| `Engine.AnyErrorSticky` | filter_oakland.js:11 | once set, the flag stays set whatever pairs follow |
| `Engine.EmptyCross` | filter_oakland.js:141-145 | no owners or no voters means no pairs |
| `Engine.EmptyInputs` | filter_oakland.js:128-184 | no owners or no voters means no records, all counters zero and no error |
| `Display.Present` | filter_oakland.js:172-173 | the kept strings are exactly the values of the present, non-empty parts: each kept string is one of them, and each of them is kept (no more strings than parts) |
| `Display.PresentAppend` | filter_oakland.js:172-173 | the present parts of two runs of parts are those of the first run followed by those of the second, so the parts keep their order |
| `Display.SpaceJoinedAppend` | filter_oakland.js:172-173 | joining with leading spaces distributes over concatenation |
| `Display.VoterName` | filter_oakland.js:172 | the 'voter name' template; `Display.VoterNameLayout` states its layout |
| `Display.VoterAddress` | filter_oakland.js:173 | the 'voter address' template; `Display.VoterAddressLayout` states its layout |
| `Display.VoterNameLayout` | filter_oakland.js:172 | the display name is the prefix plus one space (when present), then the first name (`undefined` when missing), then each present middle, last and suffix part after one space, in that order |
| `Display.VoterAddressLayout` | filter_oakland.js:173 | the display address is the house number (`undefined` when missing), then each present fraction, pre-direction, street, type, post-direction, building number and apartment number part after one space, in that order |
| `Ranker.EntryPriority` | filter_oakland.js:187-196 | 0 to 5, and 0 exactly for a label outside the five tiers |
| `Ranker.PriorityInRange` | filter_oakland.js:187-196 | every record's priority lies in 0..5 |
| `Ranker.Priority` | filter_oakland.js:198 | the comparator's key, `entryPriority` of the record's label; `Ranker.PriorityInRange` bounds it by 0..5 |
| `Ranker.Band` | filter_oakland.js:198 | the records of one priority, all carrying it |
| `Ranker.BandKeepsAll` | filter_oakland.js:198 | a band holds each record of its priority as many times as the input does, and no record of another priority |
| `Ranker.BandOfRankedFrom` | filter_oakland.js:186-199 | the ranked list holds the same records of each priority, in the same order |
| `Ranker.RankedIsStable` | filter_oakland.js:186-199 | equal-label records keep their emission order |
| `Ranker.RankedIsDescending` | filter_oakland.js:198 | the ranked list is non-increasing in priority |
| `Ranker.MultisetRankedFromAppend` | filter_oakland.js:186-199 | ranking a concatenation collects the records of both parts |
| `Ranker.RankedIsPermutation` | filter_oakland.js:186-199 | the ranked list has the same records with the same multiplicities |
| `Ranker.DescendingIsRanked` | filter_oakland.js:186-199 | a list already in descending order is left as it is |
| `Ranker.RankedIsUnique` | filter_oakland.js:186-199 | any descending list with the same bands as the input is the ranked list, so a stable sort has exactly one possible outcome |
| `Ranker.RankedIdempotent` | filter_oakland.js:186-199 | sorting twice is sorting once |
| `Ranker.SwapKeepsBands` | filter_oakland.js:186-199 | swapping two neighbours of different priority keeps every band |
| `Ranker.SortMatches` | filter_oakland.js:186-199 | the array after the in-place sort by the comparator's key is the ranked form of the array before it |
| `Ranker.Insert` | filter_oakland.js:186-199 | one insertion step extends the sorted prefix by one, keeps every band, and leaves the records after the inserted one where they were |
| `VoterFilter.IsOaklandVoter` | filter_oakland.js:17 | keeps a voter iff the upper-cased `mail_city` contains "OAKLAND" or (failing that) the upper-cased `city` does; throws iff `mail_city` is missing, or it does not qualify and `city` is missing |
| `VoterFilter.OaklandVoters` | filter_oakland.js:17 | fails iff the predicate throws on some voter; otherwise every voter in the result qualifies |
| `VoterFilter.FilterKeepsOrder` | filter_oakland.js:17 | the filtered list is a subsequence of the input: the kept voters stay in their order |
| `VoterFilter.FilterKeepsCount` | filter_oakland.js:17 | each qualifying voter is kept as many times as it occurs in the input, and every other voter is dropped |
| `VoterFilter.UpperKeepsOccurrence` | filter_oakland.js:17 | upper-casing preserves substring occurrence |
| `VoterFilter.MailCityDecides` | filter_oakland.js:17 | a mailing city containing "oakland" in any ASCII case keeps the voter, whatever the city |
| `VoterFilter.FilterIdempotent` | filter_oakland.js:17 | filtering the filtered list changes nothing |
| `Pipeline.SortRecords` | filter_oakland.js:186-199 | the pushed records, sorted in an array by `entryPriority`, come out as their ranked form |
| `Pipeline.FilterOakland` | filter_oakland.js:15-199 | filter, match and sort in place yield the specification report, or no report when the filter throws |
| `Pipeline.ReportIsRankedTally` | filter_oakland.js:136-199 | the report's records are descending, stable and a permutation of the pushed records; the counters add up to their number; each counter is the size of its tier's band |
| `Pipeline.FilterFirst` | filter_oakland.js:17 | handing the engine the already-filtered voters gives the same report |
| `Pipeline.UnreadableVoterStops` | filter_oakland.js:17 | one voter without a mailing city stops the run |

## Left out

- Reading and parsing the two JSON inputs (lines 8-10). Serialising to JSON, writing the CSV through `objects-to-csv`, and deleting old outputs (lines 4, 6, 201-210). All of these are I/O and foreign library calls. The model starts from the parsed rows and ends with the sorted report.
- The async wrapper around the output (lines 201-210): it only sequences I/O.
- `console.log` diagnostics, and the `ownerNumber` and `matchNumber` counters that only feed them (lines 49, 70, 92, 122, 127, 137-138, 166).
- The closing report (lines 212-217) only prints the flag and the five counters. The model returns them in the report instead.
- The `else` branch at line 19: `useOnlyOaklandVoters` is the constant `true`, so only the filter branch can run.
- Non-string JSON values are folded into `None`. For the matchers this is exact: `.trim()` throws on numbers, booleans and `null` as on absent properties. The record differs in three places:
  - The first name and the house number, interpolated unguarded (lines 172-173), print a number's digits, `true`, `false`, `null`, an array's elements joined by commas or `[object Object]` in JavaScript where the model prints `undefined`.
  - An optional display part tested with `` x ? ` ${x}` : '' `` (lines 172-173) prints its value in JavaScript when it is a non-zero number, `true`, an array or an object (" 4" for apartment number 4, " true", " " for `[]`, " [object Object]" for an object). The model treats each of these as absent and prints nothing.
  - The pass-through fields (lines 169-171 and 174-180) keep a number, a boolean, `null`, an array or an object in JavaScript; the model holds `None` for each.
- `Text.Upper`: upper-cases ASCII letters only. JavaScript's `toUpperCase` also maps other Unicode letters, and a few of them to two characters (`"ß"` becomes `"SS"`). Because the model maps one character to one, cutting to five characters and upper-casing commute (`Text.UpperPrefix`). The ensures of `Matchers.ZipKey` and `Matchers.ZipMatch` state the zip key as the first five characters of the upper-cased zip, so they rely on this simplification, as does the ensures of `Matchers.Normalize` that the canonical form is never longer than the field. In JavaScript, a zip with such a letter among its first five characters is cut first and then upper-cased, as `ZipKey`'s body does.
- `Text.Prefix`: counts Unicode scalar values, where `substring` counts UTF-16 code units. The two differ only for characters outside the Basic Multilingual Plane.
- `Ranker.SortMatches`: the algorithm of the JavaScript engine's `Array.prototype.sort` is not visible. A stable insertion sort stands for it. Because a stable descending sort has exactly one outcome (`Ranker.RankedIsUnique`), the result is the same.
- Exceptions other than reading a missing property: none can arise in the modelled code, and general exception semantics are not modelled.
