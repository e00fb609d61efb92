# Weighbridge weighing-entry engine

A Dafny model of the weighing-entry engine inside the `WeightStation` React
component of QuickScale (`src/App.tsx`). An operator records a vehicle's first
weight and saves a ticket. Later the operator looks the ticket up by its serial
number, enters the second weight, and saves it again. The station computes the
net weight `|first - second|` and a "per-40" figure `whole.remainder`, where the
remainder is counted out of 40. It also allocates serial numbers and lays out
the printed ticket.

The files:

- `wrappers.dfy`: module `Wrappers`, the `Option` type (`x || ''` becomes `GetOr`).
- `decimal.dfy`: module `Decimal`, integers as text the way JavaScript writes
  them (`toString`) and reads them back (`parseInt`: leading white space, an
  optional sign, the leading run of digits).
- `weighing.dfy`: module `Weighing`, the net weight and the per-40 figure
  (`calculateFinalWeight`).
- `entries.dfy`: module `Entries`, the `Entry` record and the stored list. It
  holds lookup by serial (`find`/`some`), replace by serial (`map`), append or
  replace on save, and the two next-serial rules.
- `printing.dfy`: module `Printing`, the ticket's default field layout and the
  merge with stored position overrides.
- `station.dfy`: module `Station`. This holds the save checks and the record a
  save builds. It also holds the class `WeightStation`, whose fields are the
  component's `useState` variables. Each handler is a method: load, typing
  into a field, second weight, save, new entry, search, print.
  `FirstWeighing` and `SecondWeighing` run one full two-weighing cycle.

Weights and amounts are integers. Dates and times are opaque strings that the
caller passes in. The stored entries are a `seq<Entry>`, and each save replaces
the whole sequence.

Points where the code's behaviour is easy to misread:

- `handleSave` (src/App.tsx:132-148) checks the serial, the first weight, the
  vehicle number and the amount, and nothing else. It checks neither the
  driver name nor the second weight, and the model does the same.
- A re-save stamps the record with the clock's current date and time
  (src/App.tsx:159-160). The record's original first-weighing date and time
  are not kept.
- Both serial rules read the last record in the list, not the largest serial.
  `Entries.NextSerialCanCollide` shows that this can hand out a serial already
  in use. Save then refuses that serial as a duplicate.
- On save, the per-40 figure is copied from the screen while the net weight is
  recomputed (src/App.tsx:156-157). Changing the first weight after the second
  therefore stores a stale per-40 figure. `Station.StalePer40Saved` exhibits
  this. The model keeps this behaviour as written.

## Model

| member | source | states |
|---|---|---|
| Weighing.FinalWeight | src/App.tsx:110 | the net weight is never negative, is at least each signed difference of the two readings, and equals one of them |
| Weighing.FinalWeightSymmetric | src/App.tsx:110 | swapping first and second weight gives the same net weight |
| Weighing.FinalWeightZero | src/App.tsx:110 | the net weight is zero exactly when the two readings are equal |
| Weighing.WeightPer40 | src/App.tsx:113-120 | the per-40 figure of a net weight; `AsWrittenAgrees` ties it to the code's own computation, `Per40Shape` gives its two forms and `Per40RoundTrip` shows it loses nothing |
| Weighing.AsWrittenAgrees | src/App.tsx:113-120 | the float-style computation (divide by 40, floor, scale the fraction by 40, `Math.round`), done in exact reals, yields the same text as `final / 40` and `final % 40` |
| Weighing.Per40Shape | src/App.tsx:113-120 | a multiple of 40 gives plain digits with no `.`; otherwise the text is `final/40` then `.` then a remainder in 1..39 |
| Weighing.Per40WholePrefix | src/App.tsx:113-120 | `parseInt` of the per-40 figure reads back `final / 40` |
| Weighing.Per40RoundTrip | src/App.tsx:113-120 | decoding the per-40 figure gives back the net weight, so the figure loses nothing |
| Weighing.Per40Injective | src/App.tsx:113-120 | different net weights never share a per-40 figure |
| Weighing.Per40Examples | src/App.tsx:113-120 | 80 gives "2", 85 gives "2.5", 83 gives "2.3", 150 gives "3.30" |
| Decimal.IntToString | src/App.tsx:64 | `toString` of an integer (also used at src/App.tsx:119-120 and 201): at least one character, starting with `-` exactly for negatives; `ParseIntRoundTrip` and `IntToStringInjective` characterise it |
| Decimal.ParseInt | src/App.tsx:64 | `parseInt` in base 10 (also used at src/App.tsx:201); `ParseIntRoundTrip` and `ParseIntOfNumeral` state what it reads back |
| Decimal.ParseIntRoundTrip | src/App.tsx:64 | `parseInt` reads back every integer that `toString` writes, negative ones included |
| Decimal.IntToStringInjective | src/App.tsx:64 | distinct integers have distinct decimal texts |
| Decimal.ParseIntOfNumeral | src/App.tsx:64 | `parseInt` of a numeral followed by text that does not start with a digit yields the numeral's value |
| Decimal.NatToStringRoundTrip | src/App.tsx:113-120 | the digits written for a natural number have that number as their value |
| Entries.HasSerial | src/App.tsx:132 | the `some` test: true exactly when a record of the list has the serial; `Validate` and `FindBySerial` are stated through it |
| Entries.FindBySerial | src/App.tsx:395 | the lookup finds nothing exactly when no record has the serial; otherwise it finds a record of the list with that serial |
| Entries.FindReturnsFirst | src/App.tsx:395 | the lookup returns the first record with the serial |
| Entries.ReplaceBySerial | src/App.tsx:166-169 | the edit-mode update has the same length; each record with the entry's serial becomes the entry and every other record is unchanged |
| Entries.Upsert | src/App.tsx:165-172 | in create mode the old list is a prefix, the length grows by one and the new last record is the entry; in edit mode it is the replace-by-serial |
| Entries.ReplaceKeepsSerials | src/App.tsx:166-169 | replacing keeps every position's serial, so unique serials stay unique |
| Entries.AppendKeepsUnique | src/App.tsx:171 | appending a record whose serial is absent keeps serials unique |
| Entries.ReplaceExactlyOne | src/App.tsx:166-169 | with unique serials, the edit-mode update changes exactly one position, the one holding the serial |
| Entries.FindAfterReplace | src/App.tsx:166-169 | after an edit-mode update, the lookup by that serial finds the new record |
| Entries.FindAfterAppend | src/App.tsx:171 | after a create-mode append of a fresh serial, the lookup by that serial finds the new record |
| Entries.NextSerialOnLoad | src/App.tsx:62-66 | the start-up serial rule; `NextSerialOfEmpty`, `NextSerialAfterNumber`, `NextSerialOnBadSerial` and `NextSerialPathsAgree` characterise it |
| Entries.NextSerialOnNew | src/App.tsx:201 | the new-entry serial rule; the same lemmas characterise it, and `NextSerialFresh`/`NextSerialCanCollide` say when it is fresh |
| Entries.NextSerialAfterNumber | src/App.tsx:62-66 | when the last serial is the text of `k`, both rules (load and new entry) give the text of `k + 1` |
| Entries.NextSerialOfEmpty | src/App.tsx:201 | with no records, both rules give "1" |
| Entries.NextSerialOnBadSerial | src/App.tsx:64 | a non-empty last serial that is not a number gives "1" on load but "NaN" on a new entry |
| Entries.NextSerialPathsAgree | src/App.tsx:62-66 | the two serial rules give the same serial exactly when the list is empty, the last serial is empty, or it is a number |
| Entries.NextSerialFresh | src/App.tsx:201 | when every serial is a number and the last is the largest, the new-entry serial is not yet used |
| Entries.NextSerialCanCollide | src/App.tsx:201 | serials "3" then "2" give the new-entry serial "3", which is already used |
| Entries.NextSerialExample | src/App.tsx:62-66 | serials "1", "2", "5" give "6" on load and on a new entry |
| Printing.DefaultFields | src/App.tsx:214-227 | the ticket has the twelve field ids in order, field `i` at (50, 50·(i+1)), and only the four weight fields are bold; `DefaultFieldValues` gives what each shows |
| Printing.DefaultFieldValues | src/App.tsx:215-226 | each field shows the record's value for its id: the serial, date and time, the second date and time or empty text, vehicle, driver, the amount and three weights in decimal, and the per-40 figure |
| Printing.MergePositions | src/App.tsx:229-232 | each field keeps its id, value and boldness; its position is the override for its id if one is stored, else its default |
| Printing.MergeWithoutOverrides | src/App.tsx:229-232 | with no stored overrides the layout is the default one |
| Printing.MergeIdempotent | src/App.tsx:229-232 | applying the overrides twice is the same as once |
| Printing.MergeIgnoresUnknownIds | src/App.tsx:229-232 | an override for an id that no field has changes nothing |
| Station.Validate | src/App.tsx:132-148 | the save checks run in order and the first failure wins: duplicate serial (create mode only), zero first weight, empty vehicle, zero amount; each outcome holds exactly under its condition |
| Station.SaveError.Message | src/App.tsx:133-146 | the notification text of each refused save, word for word |
| Station.BuildEntry | src/App.tsx:150-163 | the saved record copies the form and the clock; without a second weight the net weight is 0, the per-40 figure is "0" and there is no second timestamp; with one, the net weight is the distance between the readings and the on-screen per-40 figure and second timestamp are kept |
| Station.EntryForm | src/App.tsx:399-408 | the working values a found record puts on screen, missing second timestamps as empty text; `ResaveUnchanged` shows saving them back gives the same record |
| Station.BuildEntryConsistent | src/App.tsx:150-163 | when the on-screen per-40 figure belongs to the current readings, the saved per-40 figure matches the saved net weight |
| Station.StalePer40Saved | src/App.tsx:157 | readings 1000/850 show "3.30"; a first weight then corrected to 1040 saves net weight 190 beside "3.30", which does not match |
| Station.ResaveUnchanged | src/App.tsx:150-163 | reopening a saved record and saving it unchanged stores the same record, re-stamped with the new date and time |
| Station.SaveKeepsUnique | src/App.tsx:130-172 | a save that passes the checks keeps serials unique |
| Station.SavedEntryIsFound | src/App.tsx:130-172 | after a save that passes the checks, the lookup by its serial finds the saved record |
| Station.WeightStation.Load | src/App.tsx:31-66 | start-up state: empty form, serial "1" or the next serial after the stored list, no current entry, not editing; an absent or unreadable list is empty |
| Station.WeightStation.SetClock | src/App.tsx:73-77 | the clock tick sets the date and time that the next save uses |
| Station.WeightStation.SetVehicleNumber | src/App.tsx:450 | typing sets the vehicle number and nothing else |
| Station.WeightStation.SetDriverName | src/App.tsx:461 | typing sets the driver name and nothing else |
| Station.WeightStation.SetAmount | src/App.tsx:472 | typing sets the amount and nothing else |
| Station.WeightStation.SetFirstWeight | src/App.tsx:498 | typing sets the first weight; the derived fields on screen are not recomputed |
| Station.WeightStation.SetSearchSerial | src/App.tsx:632 | typing sets the serial to search for |
| Station.WeightStation.EnterSecondWeight | src/App.tsx:109-128 | a second weight sets the net weight against the current first weight, the per-40 figure of that net weight, and the second timestamp |
| Station.WeightStation.Save | src/App.tsx:130-178 | a failed check changes only the notification; a passing one stores the create/edit update of the built record, makes it the current entry, ends editing and keeps serials unique; the lookup then finds the record |
| Station.WeightStation.Show | src/App.tsx:399-408 | puts a full set of working values on screen: afterwards the form is exactly the given one |
| Station.WeightStation.New | src/App.tsx:186-202 | the form is cleared (weights, amount and derived fields 0, "0", text fields empty), editing and the search result end, and the serial is the new-entry rule applied to the list |
| Station.WeightStation.SearchBySerial | src/App.tsx:394-414 | the result is the lookup of the search serial; a hit copies the record onto the form and starts editing; a miss leaves the form and the editing flag as they were |
| Station.WeightStation.PrintFields | src/App.tsx:208-232 | without a current entry only the notification is set; with one, the ticket is the default layout merged with the stored positions |
| Station.FirstWeighing | src/App.tsx:130-178 | a fresh station saving vehicle "ABC-1", amount 500 and first weight 1000 holds one record with serial "1", net weight 0 and per-40 "0" |
| Station.SecondWeighing | src/App.tsx:394-414 | looking that record up, entering second weight 850 and saving replaces it with net weight 150 and per-40 "3.30" |

## Left out

- Rendering: the JSX, the tables, the last-five slice and the CSS (src/App.tsx:416-647). This is presentation.
- The print window's HTML, styles and script: drag-to-reposition, `postMessage` and the `message` listener that stores new positions (src/App.tsx:234-391). These are browser windowing and cross-window messaging. `PrintFields` ends at the merged field list. Stored positions arrive only as the `Load` parameter.
- `localStorage` and JSON (src/App.tsx:53, 57-60, 175, 388). The stored list arrives as a `Stored` value: absent, unreadable, or a decoded list. Save does not write anything out. A malformed stored print-position value, which would make the component throw, is not modelled.
- The clock: `Date`, `toLocaleDateString`, `toLocaleTimeString` and the one-second interval (src/App.tsx:73-82, 125-127). Dates and times are strings passed to `Load`, `SetClock` and `EnterSecondWeight`.
- Keyboard and focus navigation and button focus after save or new (src/App.tsx:85-107, 181-183, 204-205). These are DOM side effects.
- Fractional, `NaN` or floating-point weights and amounts from `Number(...)` on the inputs. All weights are integers, so the per-40 rounding is exact. `Weighing.AsWrittenAgrees` uses exact reals, not IEEE doubles.
- Decimal.ParseInt: models only ASCII white space, a sign and decimal digits. It does not model Unicode white space, `0x` prefixes, or the loss of precision beyond 2^53.
- React's batched, asynchronous state updates and stale closures. Each handler is one atomic method over the current fields.
- Decimal.TrimStart: states only that the result is no longer than its input and starts with a non-space. It does not state that the result is a suffix of the input.
