# Marina boat inventory, modelled in Dafny

This project models `boatManagement.c`, a small marina program. The
program keeps up to 120 boats in a fixed table. Each boat has a name, a
length in feet, a place (slip, land, trailor or storage) with a
place-specific detail, and a balance owed. The program loads the table
from a CSV file and writes it back on exit. In between, it lets the
operator add a boat from a CSV line, remove a boat by name, take a
payment, apply a month's storage charges and list the boats sorted by
name.

The model keeps the program's own structure:

- `wrappers.dfy`: `Option` and `Result`.
- `text.dfy` (module `Text`): the C library character classes and
  `strcasecmp`. It is modelled as `CaseCmp`, the sign of the comparison
  of the ASCII-lowered strings. The module also proves that this
  comparison is antisymmetric and transitive.
- `numbers.dfy` (module `Numbers`): three conversions and the proofs that
  each reads back what `printf` wrote:
  - the `%d` conversion of `scanf` and `printf`;
  - glibc `atoi`, which saturates at 64 bits and then wraps to 32 bits;
  - `%lf` and `%.2f` on balances held in whole cents.
- `boats.dfy` (module `Boats`): `PlaceType`, the `location` union, the
  boat record, `StringToPlaceType` and `PlaceToString`, and the monthly
  charge per foot.
- `codec.dfy` (module `Codec`):
  - the `sscanf` pattern `%127[^,],%d,%15[^,],%15[^,],%lf`, with its field
    count and its field widths;
  - the two ways a scanned line becomes a boat: the unchecked load, and
    the validated `AddBoat`;
  - the `fprintf` sequence of `WriteBoatsToFile`;
  - the round trips between the two directions.
- `lines.dfy` (module `FileLines`): how `fgets(line, 256, file)` cuts the
  file into lines of at most 255 characters.
- `inventory.dfy` (module `Inventory`): what each operation does to the
  list `boats[0 .. boatCount)`, as functions on sequences, and the
  properties of those functions.
- `manager.dfy` (module `Management`): the class `BoatManager`. It holds
  a fixed `array<Boat>` of 120 slots and `boatCount`. Each method updates
  the table in place as the C function does, with a loop where the C
  function has one, and is proved against the function in `Inventory`.
  `SortInventory` is the exception to "as the C function does": it sorts
  by selection where the C code calls `qsort`.

Money is held in integer cents: `12.50` per foot is `1250`. A boat's
`amountOwed` is a number of cents.

## Model

| member | source | states |
|---|---|---|
| Text.CaseCmp | boatManagement.c:214 | the comparison is -1, 0 or 1, and 0 exactly when the names are equal ignoring case |
| Text.CaseCmpAntisymmetric | boatManagement.c:208-215 | swapping the two boats negates `CompareBoats` |
| Text.CaseCmpTransitive | boatManagement.c:208-215 | "not after" is transitive, so the boats have a sorted order |
| Numbers.ScanInt | boatManagement.c:76 | `%d` takes at least one character and every digit in reach, so what is left does not start with a digit |
| Numbers.Atoi | boatManagement.c:80 | `atoi` always gives a 32-bit value: 0 when no number can be read, and the number itself when it fits 32 bits |
| Numbers.ScanCents | boatManagement.c:76 | `%lf` takes at least one character and every digit in reach, so what is left does not start with a digit |
| Numbers.ScanCentsSign | boatManagement.c:128-132 | a balance read in cents is below zero exactly when a minus sign stands before a number that is not all zeros, which is when the C `double` is below zero |
| Numbers.SubCentDebt | boatManagement.c:128-132 | `-0.001` reads as one cent below zero, so `AddBoat`'s test `amountOwed < 0` refuses it as the C code does |
| Numbers.IntToStringForm | boatManagement.c:100-105 | `%d` prints a minus sign exactly for a negative number, with only digits after it |
| Numbers.CentsToStringForm | boatManagement.c:108 | `%.2f` prints a minus sign exactly for a negative balance, and ends with a point and two digits |
| Numbers.ScanIntOfIntToString | boatManagement.c:76 | `%d` reads back the number `%d` printed, stopping just after its digits |
| Numbers.AtoiOfIntToString | boatManagement.c:102 | `atoi` of a printed 32-bit slip or storage number gives that number |
| Numbers.ScanCentsOfCentsToString | boatManagement.c:108 | `%lf` reads back, to the cent, the balance `%.2f` printed |
| Boats.PlaceToString | boatManagement.c:48-57 | each place name is 1 to 8 lower-case characters with no comma |
| Boats.StringToPlaceType | boatManagement.c:39-45 | a recognised place's name equals the text ignoring case |
| Boats.PlaceOfText | boatManagement.c:39-45 | a text names a real place exactly when it equals that place's name ignoring case |
| Boats.PlaceRoundTrip | boatManagement.c:39-57 | converting any place's name back gives that place, `no_place` included |
| Boats.PlaceIgnoresCase | boatManagement.c:39-45 | texts equal up to case give the same place |
| Boats.RatePerFoot | boatManagement.c:188-204 | each of the four places has a rate between $11.20 and $25.00 a foot; a boat with no place has rate 0 |
| Boats.MonthlyCharge | boatManagement.c:188-204 | the charge is never negative for a non-negative length, at least $11.20 a foot for a placed boat, and 0 with no place |
| Boats.Charge | boatManagement.c:188-204 | a charge keeps name, length and location, and raises the balance by length times the place's rate |
| Boats.ChargeNeverLowersBalance | boatManagement.c:188-204 | a boat of non-negative length never owes less after a charge |
| Codec.FieldRun | boatManagement.c:76 | `%w[^,]` takes at most `w` characters, none a comma or the NUL that ends a C string, and stops at one of those unless the width or the text ran out |
| Codec.ScanField | boatManagement.c:76 | a matched `%w[^,]` field has 1 to `w` characters, none a comma or a NUL |
| Codec.ScanLine | boatManagement.c:76 | at most 5 fields are converted; the name has at most 127 characters and at least 1 once converted; the extra field has at most 15 and at least 1 once converted; neither holds a comma or a NUL |
| Codec.LoadLocation | boatManagement.c:78-85 | the location read for a place is of that place's variant |
| Codec.LoadBoat | boatManagement.c:76-85 | the boat loaded from any line has the place its third field names, and a name of at most 127 characters with no comma or NUL |
| Codec.CheckFields | boatManagement.c:131-164 | "invalid format" exactly when fewer than 5 fields, an empty name, a length of 0 or less, or a negative balance; "invalid bay letter" exactly when a well-formed `land` line's extra field is not one letter; "invalid place type" exactly when a well-formed line names no place; otherwise accepted, as the boat the load makes of the same fields |
| Codec.CheckPlace | boatManagement.c:139-164 | for well-formed fields: refused for a bad bay letter exactly on `land`, refused for the place exactly when there is none, otherwise accepted with the scanned name, length, balance and place |
| Codec.ParseNewBoat | boatManagement.c:128-164 | a typed line is "invalid format" exactly when its scan fails the format test, is accepted exactly when it passes both tests, and an accepted line gives the same boat as loading that line from the file |
| Codec.SaveLine | boatManagement.c:100-108 | the line written for a boat is its record followed by one newline; `Codec.NoPlaceScan` and `Codec.LoadRoundTrip` state what that line reads back as |
| Codec.ScanFormatted | boatManagement.c:100-108 | `sscanf` on a storable boat's record converts all 5 fields and gets back its name, length, place name, extra text and balance |
| Codec.LoadRoundTrip | boatManagement.c:76-108 | reading back the line written for a storable boat gives the same boat |
| Codec.AddRoundTrip | boatManagement.c:114-164 | `AddBoat` accepts the record of any boat it would accept, and makes that same boat of it |
| Codec.NoPlaceScan | boatManagement.c:76-108 | the line of a boat with no place scans as name, length and `no_place`, and the scan stops there |
| Codec.NoPlaceLosesAmount | boatManagement.c:100-108 | a boat with no place is written with an empty extra field; reading it back converts 3 fields and the balance becomes 0 |
| Codec.RecordFits | boatManagement.c:67-108 | a file-safe boat's record has at most 254 characters and no newline |
| Codec.SaveLineIsLine | boatManagement.c:67-68 | a file-safe boat's line fits the 255 characters one read takes, and its only newline ends it |
| FileLines.LineRun | boatManagement.c:67-68 | one read takes at most 255 characters, at least one if any are left, and no newline except the last |
| FileLines.Lines | boatManagement.c:67-68 | every line read has 1 to 255 characters |
| FileLines.LinesOfFileText | boatManagement.c:67-68 | reading back a file written as whole lines gives exactly those lines |
| FileLines.LongLineIsCut | boatManagement.c:67-68 | a line with no newline in its first 255 characters is read in two or more pieces |
| Inventory.NameMatches | boatManagement.c:174 | a name matches exactly when it equals the boat's name ignoring case |
| Inventory.FindBoat | boatManagement.c:173-174 | the result is the first boat whose name matches ignoring case, or none matches |
| Inventory.FirstMatch | boatManagement.c:173-174 | the first matching slot is the one the search returns |
| Inventory.Removed | boatManagement.c:172-184 | with no match nothing changes; with a match the list is one shorter; boats that do not match are all kept |
| Inventory.RemovedFirstMatch | boatManagement.c:172-184 | exactly one matching boat goes, the first; boats before it stay, boats after it move up one, and nothing else is lost |
| Inventory.LoadAllAt | boatManagement.c:68-85 | the k-th boat loaded is made of the k-th line |
| Inventory.Appended | boatManagement.c:68-86 | appending keeps the boats already there as a prefix, adds no more than it is given, and never passes 120 boats |
| Inventory.Loaded | boatManagement.c:68-86 | loading keeps the boats already there as a prefix, adds at most one boat per line, and never passes 120 boats |
| Inventory.AppendedIsCappedPrefix | boatManagement.c:68-86 | appending under the cap keeps the first boats that fit, in order, and drops the rest |
| Inventory.LoadedIsCappedPrefix | boatManagement.c:68-86 | loading appends the boats of the first lines in file order, as many as fit under 120, and ignores the rest |
| Inventory.LoadedSize | boatManagement.c:69 | loading never goes past 120 boats and never drops any; it stops early only at 120 |
| Inventory.SaveLines | boatManagement.c:98-109 | one line per boat, the k-th being the line of the k-th boat |
| Inventory.LoadAllOfSaveLines | boatManagement.c:76-108 | each saved line of a storable boat loads back as that boat |
| Inventory.LoadSavedLines | boatManagement.c:68-110 | loading the saved lines of up to 120 storable boats into an empty table gives them back in order |
| Inventory.SaveThenLoad | boatManagement.c:60-111 | writing the file and reading it into an empty table gives back the same boats in order, when every record fits a line |
| Inventory.LoadedStep | boatManagement.c:68-86 | below the cap, one line read adds its boat at the end |
| Inventory.TotalOwedUpdate | boatManagement.c:321-326 | changing one boat's balance changes the total owed by the same amount |
| Inventory.Charged | boatManagement.c:187-206 | every boat keeps its name, length and location, and its balance rises by its length times its place's rate |
| Inventory.ChargedTotal | boatManagement.c:187-206 | the charges raise the total owed by exactly one month's charges |
| Inventory.ChargedSameCharge | boatManagement.c:187-206 | a charge does not change the next month's charge |
| Inventory.ChargedTwice | boatManagement.c:187-206 | charging twice adds two months to every balance and changes nothing else |
| Inventory.PaymentOutcome | boatManagement.c:315-332 | "no boat" exactly when no name matches; a payment above the first match's balance is rejected, and only such a payment; a rejection reports that boat's balance |
| Inventory.AfterPayment | boatManagement.c:315-332 | the list keeps its length, and is unchanged unless the payment is accepted |
| Inventory.AcceptedPayment | boatManagement.c:321-326 | an accepted payment comes off the first matching boat only, leaves its balance non-negative, and lowers the total owed by the payment |
| Inventory.RejectedPayment | boatManagement.c:321-322 | a payment above the first matching boat's balance is rejected with that balance, and no boat changes |
| Inventory.PaymentKeepsBalancesNonNegative | boatManagement.c:321-326 | if no balance is negative before a payment, none is after it |
| Inventory.SwapPlacesMinimum | boatManagement.c:217-220 | swapping the least remaining boat into place extends the sorted prefix |
| Inventory.PrefixMultiset | boatManagement.c:217-220 | a reordering that leaves the slots past the count alone reorders the counted slots among themselves |
| Management.BoatManager.constructor | boatManagement.c:238 | a new manager has an empty inventory |
| Management.BoatManager.ReadBoatsFromFile | boatManagement.c:60-89 | an unreadable file changes nothing; otherwise the boats of the file's lines are appended as the load specifies |
| Management.BoatManager.Push | boatManagement.c:167 | the boat goes into slot `boatCount`, which then grows by one |
| Management.BoatManager.WriteBoatsToFile | boatManagement.c:92-111 | the file written is the lines of the boats in table order, or nothing when it cannot be opened |
| Management.BoatManager.AddBoat | boatManagement.c:114-168 | a full table refuses; otherwise the line is accepted or refused exactly as `ParseNewBoat` says, an accepted boat is appended at index `boatCount`, and a refusal changes nothing |
| Management.BoatManager.Find | boatManagement.c:173-174 | the slot returned is the first match of the search |
| Management.BoatManager.RemoveBoat | boatManagement.c:172-184 | reports whether a boat matched and leaves the inventory as `Removed` specifies |
| Management.BoatManager.CloseGap | boatManagement.c:176-179 | the shift removes slot `i` and keeps the order of the rest |
| Management.BoatManager.Pay | boatManagement.c:315-332 | the answer and the new inventory are those of the payment rule: accepted and taken off the first match's balance, rejected with that balance, or no such boat |
| Management.BoatManager.ApplyMonthlyCharges | boatManagement.c:187-206 | the new inventory is every boat charged once |
| Management.BoatManager.SortInventory | boatManagement.c:217-220 | the inventory ends sorted by name ignoring case, and is a permutation of what it was |
| Management.BoatManager.Swap | boatManagement.c:219 | exactly two slots are exchanged, and the table keeps the same boats |
| Management.BoatManager.LeastFrom | boatManagement.c:208-220 | the slot returned holds a boat whose name comes no later than any other from `i` on |

## Behaviour of the code worth noting

- A name longer than 127 characters is not cut to 127 characters and
  then read on. `%127[^,]` stops after 127 characters, and the next
  directive, a literal comma, fails against the 128th. `AddBoat` then
  refuses the line as "invalid format". The load keeps the first 127
  characters and nothing else.
- `qsort` is not stable. Boats whose names differ only in case may end
  up in either order, so no claim about their order is made.
- `WriteBoatsToFile` writes boats with no place, as `no_place` with an
  empty extra field. `%15[^,]` cannot match that empty field, so on reload
  the balance is not read (`Codec.NoPlaceLosesAmount`).
- The payment dialogue accepts any payment that is not more than the
  balance. A negative payment is therefore accepted, and it raises the
  balance.

## Left out

- File, keyboard and screen I/O are left out. `ReadBoatsFromFile` takes
  the file's text, or None when `fopen` fails. `WriteBoatsToFile` returns
  the text it writes. The menu loop of `main`, its `scanf`/`getchar`
  input handling and the inventory listing are not modelled, because
  they only print and dispatch.
- Payment reading: the payment dialogue is the method `Pay`. Its name and
  payment arrive already read, and the payment is in cents.
- Floating point: balances and payments are whole cents.
  - `%lf` keeps the first two fraction digits and rounds down, where the
    C program keeps a `double`. The sign test of `AddBoat` is unaffected
    (`Numbers.ScanCentsSign`). A payment that differs from the balance by
    less than a cent can be compared differently.
  - Rounding error in `length * 11.20` is not modelled.
- Numbers.ScanCents: only plain decimal notation is read as C reads it.
  With an exponent or in hexadecimal, the model stops at the `e` or the
  `x`: `1e5` reads as 1.00 where C reads 100000.00, and `0x10` as 0.00
  where C reads 16.00. `inf` and `nan` are a matching failure here, so
  `Codec.ParseNewBoat` refuses the lines C accepts with them.
- Overflow in `%d`: the length is an unbounded integer. An out-of-range
  `%d` conversion is undefined behaviour in C.
- `sscanf` returns EOF for an empty line. That is modelled as a count of
  0, which `AddBoat` refuses just the same.
- Uninitialised fields: fields that `sscanf` did not convert are left
  uninitialised in C. Here they read as empty text or zero, so a loaded
  `land` record whose extra field was not converted gets NUL as its bay
  letter.
- A 15-character trailer tag fills `trailerTag[16]` without a terminator
  when loaded with `strncpy(..., 15)`. The model keeps the 15 characters.
- NUL characters: the scan of a line stops at a NUL, as it stops at
  the end of a C string, and `Codec.Storable` excludes NUL from the name,
  the tag and the bay letter. Printing a name or tag that holds a NUL is
  not cut at the NUL as `%s` would cut it; no scanned field holds one.
- Text encoding: each `char` of a string stands for one byte of the C
  string, so the widths of `%127[^,]` and `%15[^,]`, the 256 bytes of
  `fgets`, and `strlen(extra) == 1` are counted in `char`s. Multi-byte
  text is not modelled. A name or tag whose UTF-8 encoding is longer than
  its `char` count can pass these widths here where C cuts the field and
  `AddBoat` refuses the line. For example, a trailer tag of eight `é`
  is 8 `char`s but 16 bytes.
- `strcasecmp`'s return value is reduced to its sign, which is all the
  program uses. Locales other than "C" are not modelled.
- Memory: `malloc`, `free` and the pointer table are left out. Each slot
  holds a boat value, so no two slots can share a record, and allocation
  failure is not modelled.
- `SortInventory` is proved with a selection sort, not the `qsort`
  algorithm. Only the result is specified: sorted, and a permutation.
- `Inventory.SaveThenLoad`: the round trip is proved for "file-safe"
  boats only. A file-safe boat has no newline in its text fields, a
  32-bit length and a balance of at most 85 digits before the point. A
  longer line is cut by `fgets` (`FileLines.LongLineIsCut`).
