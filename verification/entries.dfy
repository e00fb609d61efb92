/**
 * The stored weighing records and the operations the component performs on the
 * list of them: `some` and `find` by serial, the `map` that replaces an edited
 * record, the append of a new one, and the next serial number.
 */
module Entries {
  import opened Wrappers
  import opened Decimal

  /**
   * A finalized weighing record. `secondDate`/`secondTime` are absent when the
   * record was saved without a second weight.
   */
  datatype Entry = Entry(
    serialNumber: string,
    driverName: string,
    vehicleNumber: string,
    firstWeight: int,
    secondWeight: int,
    finalWeight: int,
    weightPer40: string,
    amount: int,
    date: string,
    time: string,
    secondDate: Option<string>,
    secondTime: Option<string>)

  /** `entries.some(e => e.serialNumber === serial)`. */
  predicate HasSerial(entries: seq<Entry>, serial: string) {
    exists i | 0 <= i < |entries| :: entries[i].serialNumber == serial
  }

  /** No two records share a serial number. */
  ghost predicate UniqueSerials(entries: seq<Entry>) {
    forall i, j | 0 <= i < j < |entries| :: entries[i].serialNumber != entries[j].serialNumber
  }

  /** `entries.find(e => e.serialNumber === serial)`: the first record with that serial. */
  function FindBySerial(entries: seq<Entry>, serial: string): (r: Option<Entry>)
    ensures r.None? <==> !HasSerial(entries, serial)
    ensures r.Some? ==> r.value in entries && r.value.serialNumber == serial
  {
    if entries == [] then None
    else if entries[0].serialNumber == serial then Some(entries[0])
    else
      var r := FindBySerial(entries[1..], serial);
      assert forall i | 1 <= i < |entries| :: entries[i] == entries[1..][i - 1];
      r
  }

  /** `find` returns the first record with the serial, not any later one. */
  lemma {:induction false} FindReturnsFirst(entries: seq<Entry>, serial: string, i: nat)
    requires i < |entries| && entries[i].serialNumber == serial
    requires forall j | 0 <= j < i :: entries[j].serialNumber != serial
    ensures FindBySerial(entries, serial) == Some(entries[i])
  {
    if i > 0 {
      FindReturnsFirst(entries[1..], serial, i - 1);
    }
  }

  /**
   * `entries.map(e => e.serialNumber === entry.serialNumber ? entry : e)`:
   * every record with the new record's serial is replaced by it.
   */
  function ReplaceBySerial(entries: seq<Entry>, entry: Entry): (r: seq<Entry>)
    ensures |r| == |entries|
    ensures forall i | 0 <= i < |r| ::
      r[i] == if entries[i].serialNumber == entry.serialNumber then entry else entries[i]
  {
    if entries == [] then []
    else
      [if entries[0].serialNumber == entry.serialNumber then entry else entries[0]]
        + ReplaceBySerial(entries[1..], entry)
  }

  /**
   * Storing a record: appended when it is new, put in place of the record(s)
   * with its serial when an existing one is being edited.
   */
  function Upsert(entries: seq<Entry>, entry: Entry, isEditing: bool): (r: seq<Entry>)
    ensures !isEditing ==> |r| == |entries| + 1 && entries <= r && r[|entries|] == entry
    ensures isEditing ==> r == ReplaceBySerial(entries, entry)
  {
    if isEditing then ReplaceBySerial(entries, entry) else entries + [entry]
  }

  /**
   * The serial the component starts with after loading the stored list: the
   * last record's serial plus one, or "1" when the list is empty or that serial
   * is not a number.
   */
  function NextSerialOnLoad(entries: seq<Entry>): string
  {
    if entries == [] then "1"
    else match ParseInt(entries[|entries| - 1].serialNumber)
      case None => "1"
      case Some(n) => IntToString(n + 1)
  }

  /**
   * The serial a "new entry" action assigns: `parseInt(last serial || '0') + 1`.
   * An empty list or an empty serial reads as 0; a serial that is not a number
   * gives `NaN`, whose text is "NaN".
   */
  function NextSerialOnNew(entries: seq<Entry>): string
  {
    var last := if entries == [] || entries[|entries| - 1].serialNumber == "" then "0"
                else entries[|entries| - 1].serialNumber;
    match ParseInt(last)
    case None => "NaN"
    case Some(n) => IntToString(n + 1)
  }

  /** Replacing keeps every serial where it was, so it keeps serials unique. */
  lemma ReplaceKeepsSerials(entries: seq<Entry>, entry: Entry)
    ensures forall i | 0 <= i < |entries| ::
      ReplaceBySerial(entries, entry)[i].serialNumber == entries[i].serialNumber
    ensures UniqueSerials(entries) ==> UniqueSerials(ReplaceBySerial(entries, entry))
  {
  }

  /** Appending a record whose serial is not yet present keeps serials unique. */
  lemma AppendKeepsUnique(entries: seq<Entry>, entry: Entry)
    requires UniqueSerials(entries)
    requires !HasSerial(entries, entry.serialNumber)
    ensures UniqueSerials(entries + [entry])
  {
    var r := entries + [entry];
    forall i, j | 0 <= i < j < |r|
      ensures r[i].serialNumber != r[j].serialNumber
    {
      if j == |entries| {
        assert entries[i].serialNumber != entry.serialNumber;
      }
    }
  }

  /**
   * With unique serials, the edit replaces exactly one record: the list is the
   * old one with the record at the matching position swapped for the new one.
   */
  lemma ReplaceExactlyOne(entries: seq<Entry>, entry: Entry)
    requires UniqueSerials(entries)
    requires HasSerial(entries, entry.serialNumber)
    ensures exists i | 0 <= i < |entries| ::
      entries[i].serialNumber == entry.serialNumber
      && ReplaceBySerial(entries, entry) == entries[i := entry]
  {
    var i :| 0 <= i < |entries| && entries[i].serialNumber == entry.serialNumber;
    var r := ReplaceBySerial(entries, entry);
    forall k | 0 <= k < |entries|
      ensures r[k] == entries[i := entry][k]
    {
      if k != i {
        assert entries[k].serialNumber != entries[i].serialNumber;
      }
    }
    assert r == entries[i := entry];
  }

  /** After an edit, looking the serial up finds the new record. */
  lemma {:induction false} FindAfterReplace(entries: seq<Entry>, entry: Entry)
    requires HasSerial(entries, entry.serialNumber)
    ensures FindBySerial(ReplaceBySerial(entries, entry), entry.serialNumber) == Some(entry)
  {
    var r := ReplaceBySerial(entries, entry);
    if entries[0].serialNumber != entry.serialNumber {
      var i :| 0 <= i < |entries| && entries[i].serialNumber == entry.serialNumber;
      assert entries[1..][i - 1].serialNumber == entry.serialNumber;
      FindAfterReplace(entries[1..], entry);
      assert r[1..] == ReplaceBySerial(entries[1..], entry);
    }
  }

  /** After a create, looking the new serial up finds the new record. */
  lemma {:induction false} FindAfterAppend(entries: seq<Entry>, entry: Entry)
    requires !HasSerial(entries, entry.serialNumber)
    ensures FindBySerial(entries + [entry], entry.serialNumber) == Some(entry)
  {
    if entries != [] {
      assert !HasSerial(entries[1..], entry.serialNumber) by {
        forall i | 0 <= i < |entries| - 1
          ensures entries[1..][i].serialNumber != entry.serialNumber
        {
          assert entries[1..][i] == entries[i + 1];
        }
      }
      FindAfterAppend(entries[1..], entry);
      assert (entries + [entry])[1..] == entries[1..] + [entry];
      assert (entries + [entry])[0] == entries[0];
      assert entries[0].serialNumber != entry.serialNumber;
    }
  }

  /** When the last serial is a number `k`, both paths give `k + 1`. */
  lemma NextSerialAfterNumber(entries: seq<Entry>, k: int)
    requires entries != [] && entries[|entries| - 1].serialNumber == IntToString(k)
    ensures NextSerialOnLoad(entries) == IntToString(k + 1)
    ensures NextSerialOnNew(entries) == IntToString(k + 1)
  {
    ParseIntRoundTrip(k);
  }

  /** An empty list gives "1" on both paths. */
  lemma NextSerialOfEmpty()
    ensures NextSerialOnLoad([]) == "1"
    ensures NextSerialOnNew([]) == "1"
  {
    ParseIntOfNumeral(0, []);
    assert NatToString(0) + [] == "0";
  }

  /**
   * The two paths disagree exactly on a non-empty last serial that is not a
   * number: loading falls back to "1", a new entry gets "NaN".
   */
  lemma NextSerialOnBadSerial(entries: seq<Entry>)
    requires entries != []
    requires entries[|entries| - 1].serialNumber != ""
    requires ParseInt(entries[|entries| - 1].serialNumber).None?
    ensures NextSerialOnLoad(entries) == "1"
    ensures NextSerialOnNew(entries) == "NaN"
  {
  }

  /**
   * Apart from that case the two paths agree: an empty list, an empty last
   * serial or a numeric one gives the same next serial on load and on a new
   * entry.
   */
  lemma NextSerialPathsAgree(entries: seq<Entry>)
    ensures NextSerialOnLoad(entries) == NextSerialOnNew(entries) <==>
      (entries == [] || entries[|entries| - 1].serialNumber == ""
       || ParseInt(entries[|entries| - 1].serialNumber).Some?)
  {
    ParseIntOfNumeral(0, []);
    assert NatToString(0) + [] == "0";
    assert IntToString(0 + 1) == "1";
  }

  /**
   * The next serial is fresh when every serial is the numeral of a number and
   * the last-inserted one is the largest.
   */
  lemma NextSerialFresh(entries: seq<Entry>, numbers: seq<int>)
    requires entries != [] && |numbers| == |entries|
    requires forall i | 0 <= i < |entries| :: entries[i].serialNumber == IntToString(numbers[i])
    requires forall i | 0 <= i < |numbers| :: numbers[i] <= numbers[|numbers| - 1]
    ensures !HasSerial(entries, NextSerialOnNew(entries))
  {
    var k := numbers[|numbers| - 1];
    NextSerialAfterNumber(entries, k);
    forall i | 0 <= i < |entries|
      ensures entries[i].serialNumber != IntToString(k + 1)
    {
      IntToStringInjective(numbers[i], k + 1);
    }
  }

  /**
   * The next serial follows insertion order, not the largest serial: after
   * "3" then "2" the next serial is "3" again, which is already taken.
   */
  lemma NextSerialCanCollide(a: Entry, b: Entry)
    requires a.serialNumber == "3" && b.serialNumber == "2"
    ensures NextSerialOnNew([a, b]) == "3"
    ensures HasSerial([a, b], NextSerialOnNew([a, b]))
  {
    NextSerialAfterNumber([a, b], 2);
    assert IntToString(3) == "3";
    assert [a, b][0].serialNumber == NextSerialOnNew([a, b]);
  }

  /** Serials "1", "2", "5" inserted in that order give "6". */
  lemma NextSerialExample(a: Entry, b: Entry, c: Entry)
    requires a.serialNumber == "1" && b.serialNumber == "2" && c.serialNumber == "5"
    ensures NextSerialOnNew([a, b, c]) == "6"
    ensures NextSerialOnLoad([a, b, c]) == "6"
  {
    NextSerialAfterNumber([a, b, c], 5);
  }
}
