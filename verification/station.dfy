/**
 * The weighing session: the working fields of the entry being weighed, and the
 * save, new-entry, search and second-weight actions that change them and the
 * stored list.
 */
module Station {
  import opened Wrappers
  import opened Decimal
  import opened Weighing
  import opened Entries
  import opened Printing

  /** The working values of the entry on screen. */
  datatype Form = Form(
    serialNumber: string,
    vehicleNumber: string,
    driverName: string,
    amount: int,
    firstWeight: int,
    secondWeight: int,
    finalWeight: int,
    weightPer40: string,
    secondDate: string,
    secondTime: string)

  /** Why a save was refused; each reason has the notification the operator sees. */
  datatype SaveError = DuplicateSerial | MissingFirstWeight | MissingVehicleNumber | MissingAmount
  {
    function Message(): string {
      match this
      case DuplicateSerial => "Serial number already exists. Please use a different serial number."
      case MissingFirstWeight => "Please enter first weight"
      case MissingVehicleNumber => "Please enter vehicle number"
      case MissingAmount => "Please enter amount"
    }
  }

  const SavedMessage := "Entry saved successfully"
  const FoundMessage := "Entry found"
  const NotFoundMessage := "No entry found with this serial number"
  const PrintNeedsSaveMessage := "Please save an entry before printing"

  /** What the stored-entries key held at start-up. */
  datatype Stored = Absent | Malformed | Loaded(entries: seq<Entry>)

  /**
   * The checks before a save, in order, the first failure winning: a serial
   * already in the list (only when creating), then a zero first weight, an
   * empty vehicle number, a zero amount.
   */
  function Validate(f: Form, isEditing: bool, entries: seq<Entry>): (r: Option<SaveError>)
    ensures r == Some(DuplicateSerial) <==> !isEditing && HasSerial(entries, f.serialNumber)
    ensures r == Some(MissingFirstWeight) <==>
      (isEditing || !HasSerial(entries, f.serialNumber)) && f.firstWeight == 0
    ensures r == Some(MissingVehicleNumber) <==>
      (isEditing || !HasSerial(entries, f.serialNumber)) && f.firstWeight != 0 && f.vehicleNumber == ""
    ensures r == Some(MissingAmount) <==>
      (isEditing || !HasSerial(entries, f.serialNumber)) && f.firstWeight != 0 && f.vehicleNumber != ""
      && f.amount == 0
    ensures r == None <==>
      (isEditing || !HasSerial(entries, f.serialNumber)) && f.firstWeight != 0 && f.vehicleNumber != ""
      && f.amount != 0
  {
    if !isEditing && HasSerial(entries, f.serialNumber) then Some(DuplicateSerial)
    else if f.firstWeight == 0 then Some(MissingFirstWeight)
    else if f.vehicleNumber == "" then Some(MissingVehicleNumber)
    else if f.amount == 0 then Some(MissingAmount)
    else None
  }

  /**
   * The shape every saved record has: without a second weight the derived
   * fields are zero and there is no second timestamp; with one, the net weight
   * is the distance between the readings and the second timestamp is present.
   */
  predicate SavedShape(e: Entry) {
    && (e.secondWeight == 0 ==>
          e.finalWeight == 0 && e.weightPer40 == "0" && e.secondDate.None? && e.secondTime.None?)
    && (e.secondWeight != 0 ==>
          e.finalWeight == FinalWeight(e.firstWeight, e.secondWeight)
          && e.secondDate.Some? && e.secondTime.Some?)
  }

  /** The per-40 figure of a record is the figure of its net weight. */
  predicate DerivedConsistent(e: Entry) {
    e.finalWeight >= 0 && e.weightPer40 == WeightPer40(e.finalWeight)
  }

  /**
   * The record a save stores, stamped with the given date and time. The net
   * weight is recomputed from the readings; the per-40 figure is the one on
   * screen.
   */
  function BuildEntry(f: Form, date: string, time: string): (e: Entry)
    ensures SavedShape(e)
    ensures e.serialNumber == f.serialNumber && e.vehicleNumber == f.vehicleNumber
    ensures e.driverName == f.driverName && e.amount == f.amount
    ensures e.firstWeight == f.firstWeight && e.secondWeight == f.secondWeight
    ensures e.date == date && e.time == time
    ensures f.secondWeight != 0 ==>
      e.weightPer40 == f.weightPer40 && e.secondDate == Some(f.secondDate) && e.secondTime == Some(f.secondTime)
  {
    var second := f.secondWeight != 0;
    Entry(
      f.serialNumber, f.driverName, f.vehicleNumber, f.firstWeight, f.secondWeight,
      if second then FinalWeight(f.firstWeight, f.secondWeight) else 0,
      if second then f.weightPer40 else "0",
      f.amount, date, time,
      if second then Some(f.secondDate) else None,
      if second then Some(f.secondTime) else None)
  }

  /** The working values a found record puts on screen. */
  function EntryForm(e: Entry): Form {
    Form(e.serialNumber, e.vehicleNumber, e.driverName, e.amount, e.firstWeight, e.secondWeight,
         e.finalWeight, e.weightPer40, e.secondDate.GetOr(""), e.secondTime.GetOr(""))
  }

  /**
   * A saved record is consistent when the per-40 figure on screen was the one
   * of the current readings (or there is no second weight).
   */
  lemma BuildEntryConsistent(f: Form, date: string, time: string)
    requires f.secondWeight != 0 ==> f.weightPer40 == WeightPer40(FinalWeight(f.firstWeight, f.secondWeight))
    ensures DerivedConsistent(BuildEntry(f, date, time))
  {
    assert WeightPer40(0) == "0";
  }

  /**
   * The per-40 figure on screen is not recomputed when the first weight changes:
   * readings 1000 and 850 give "3.30"; a first weight then corrected to 1040
   * saves net weight 190 beside that stale "3.30" (190 is "4.30").
   */
  lemma StalePer40Saved(f: Form, date: string, time: string)
    requires f.firstWeight == 1040 && f.secondWeight == 850 && f.weightPer40 == WeightPer40(FinalWeight(1000, 850))
    ensures BuildEntry(f, date, time).finalWeight == 190
    ensures !DerivedConsistent(BuildEntry(f, date, time))
  {
    Per40Examples();
    assert WeightPer40(190)[0] == '4';
  }

  /**
   * Reopening a saved record and saving it unchanged stores the same record,
   * except that the date and time are the ones of the new save.
   */
  lemma ResaveUnchanged(e: Entry, date: string, time: string)
    requires SavedShape(e)
    ensures BuildEntry(EntryForm(e), date, time) == e.(date := date, time := time)
  {
  }

  /** A save that passes validation keeps serial numbers unique. */
  lemma SaveKeepsUnique(f: Form, isEditing: bool, entries: seq<Entry>, date: string, time: string)
    requires UniqueSerials(entries)
    requires Validate(f, isEditing, entries).None?
    ensures UniqueSerials(Upsert(entries, BuildEntry(f, date, time), isEditing))
  {
    var e := BuildEntry(f, date, time);
    if isEditing {
      ReplaceKeepsSerials(entries, e);
    } else {
      AppendKeepsUnique(entries, e);
    }
  }

  /** After a save, looking its serial up finds the record just saved. */
  lemma SavedEntryIsFound(f: Form, isEditing: bool, entries: seq<Entry>, date: string, time: string)
    requires Validate(f, isEditing, entries).None?
    requires isEditing ==> HasSerial(entries, f.serialNumber)
    ensures FindBySerial(Upsert(entries, BuildEntry(f, date, time), isEditing), f.serialNumber)
            == Some(BuildEntry(f, date, time))
  {
    var e := BuildEntry(f, date, time);
    if isEditing {
      FindAfterReplace(entries, e);
    } else {
      FindAfterAppend(entries, e);
    }
  }

  /** The component: its state fields, and one method per action. */
  class WeightStation {
    var firstWeight: int
    var secondWeight: int
    var serialNumber: string
    var vehicleNumber: string
    var driverName: string
    var amount: int
    var finalWeight: int
    var weightPer40: string
    var savedEntries: seq<Entry>
    var notification: string
    var currentEntry: Option<Entry>
    var currentDate: string
    var currentTime: string
    var secondDate: string
    var secondTime: string
    var searchSerial: string
    var searchResult: Option<Entry>
    var isEditing: bool
    var printPositions: map<string, Position>

    /** Editing always targets a serial that is in the list. */
    ghost predicate Valid()
      reads this
    {
      isEditing ==> HasSerial(savedEntries, serialNumber)
    }

    function Working(): Form
      reads this
    {
      Form(serialNumber, vehicleNumber, driverName, amount, firstWeight, secondWeight,
           finalWeight, weightPer40, secondDate, secondTime)
    }

    /**
     * Start-up: the initial field values, then the stored list (an absent or
     * unreadable one leaves it empty and the serial "1"), the stored print
     * positions and the clock's date and time.
     */
    constructor Load(stored: Stored, positions: map<string, Position>, date: string, time: string)
      ensures Valid()
      ensures savedEntries == (if stored.Loaded? then stored.entries else [])
      ensures Working() == Form(if stored.Loaded? then NextSerialOnLoad(stored.entries) else "1",
                                "", "", 0, 0, 0, 0, "0", "", "")
      ensures !isEditing && currentEntry.None? && searchResult.None?
      ensures notification == "" && searchSerial == ""
      ensures currentDate == date && currentTime == time && printPositions == positions
    {
      firstWeight, secondWeight, amount, finalWeight := 0, 0, 0, 0;
      serialNumber, vehicleNumber, driverName, weightPer40 := "1", "", "", "0";
      savedEntries, notification := [], "";
      currentEntry, searchResult := None, None;
      secondDate, secondTime, searchSerial := "", "", "";
      isEditing := false;
      printPositions := positions;
      match stored {
        case Absent =>
        case Malformed =>
          serialNumber := "1";
        case Loaded(entries) =>
          savedEntries := entries;
          if |entries| > 0 {
            serialNumber := NextSerialOnLoad(entries);
          }
      }
      currentDate, currentTime := date, time;
    }

    /** The clock tick: the displayed date and time, used by the next save. */
    method SetClock(date: string, time: string)
      requires Valid()
      modifies this`currentDate, this`currentTime
      ensures Valid() && currentDate == date && currentTime == time
    {
      currentDate, currentTime := date, time;
    }

    method SetVehicleNumber(value: string)
      requires Valid()
      modifies this`vehicleNumber
      ensures Valid() && vehicleNumber == value
    {
      vehicleNumber := value;
    }

    method SetDriverName(value: string)
      requires Valid()
      modifies this`driverName
      ensures Valid() && driverName == value
    {
      driverName := value;
    }

    method SetAmount(value: int)
      requires Valid()
      modifies this`amount
      ensures Valid() && amount == value
    {
      amount := value;
    }

    /** A new first weight; the derived fields on screen are left as they are. */
    method SetFirstWeight(value: int)
      requires Valid()
      modifies this`firstWeight
      ensures Valid() && firstWeight == value
    {
      firstWeight := value;
    }

    method SetSearchSerial(value: string)
      requires Valid()
      modifies this`searchSerial
      ensures Valid() && searchSerial == value
    {
      searchSerial := value;
    }

    /**
     * A new second weight: the net weight and per-40 figure are recomputed
     * against the current first weight, and the second timestamp is taken.
     */
    method EnterSecondWeight(value: int, date: string, time: string)
      requires Valid()
      modifies this`secondWeight, this`finalWeight, this`weightPer40, this`secondDate, this`secondTime
      ensures Valid()
      ensures secondWeight == value
      ensures finalWeight == FinalWeight(firstWeight, value)
      ensures weightPer40 == WeightPer40(FinalWeight(firstWeight, value))
      ensures secondDate == date && secondTime == time
    {
      secondWeight := value;
      var final := FinalWeight(firstWeight, value);
      finalWeight := final;
      weightPer40 := WeightPer40(final);
      secondDate, secondTime := date, time;
    }

    /**
     * Save: on a failed check only the notification changes; otherwise the
     * record is built, appended (create) or put in place of its serial (edit),
     * becomes the current entry, and editing ends.
     */
    method Save()
      requires Valid()
      modifies this`savedEntries, this`currentEntry, this`notification, this`isEditing
      ensures Valid()
      ensures var err := Validate(old(Working()), old(isEditing), old(savedEntries));
        err.Some? ==>
          && notification == err.value.Message()
          && savedEntries == old(savedEntries)
          && currentEntry == old(currentEntry)
          && isEditing == old(isEditing)
      ensures var entry := BuildEntry(old(Working()), currentDate, currentTime);
        Validate(old(Working()), old(isEditing), old(savedEntries)).None? ==>
          && savedEntries == Upsert(old(savedEntries), entry, old(isEditing))
          && FindBySerial(savedEntries, serialNumber) == Some(entry)
          && currentEntry == Some(entry)
          && notification == SavedMessage
          && !isEditing
      ensures old(UniqueSerials(savedEntries)) ==> UniqueSerials(savedEntries)
    {
      var err := Validate(Working(), isEditing, savedEntries);
      if err.Some? {
        notification := err.value.Message();
        return;
      }
      var entry := BuildEntry(Working(), currentDate, currentTime);
      SavedEntryIsFound(Working(), isEditing, savedEntries, currentDate, currentTime);
      if UniqueSerials(savedEntries) {
        SaveKeepsUnique(Working(), isEditing, savedEntries, currentDate, currentTime);
      }
      savedEntries := Upsert(savedEntries, entry, isEditing);
      currentEntry := Some(entry);
      notification := SavedMessage;
      isEditing := false;
    }

    /** Puts a full set of working values on screen (one `setX` call per field). */
    method Show(f: Form)
      modifies this`serialNumber, this`vehicleNumber, this`driverName, this`amount,
               this`firstWeight, this`secondWeight, this`finalWeight, this`weightPer40,
               this`secondDate, this`secondTime
      ensures Working() == f
    {
      serialNumber, vehicleNumber, driverName, amount := f.serialNumber, f.vehicleNumber, f.driverName, f.amount;
      firstWeight, secondWeight, finalWeight, weightPer40 := f.firstWeight, f.secondWeight, f.finalWeight, f.weightPer40;
      secondDate, secondTime := f.secondDate, f.secondTime;
    }

    /**
     * New entry: the working fields are cleared, editing and the search result
     * are dropped, and the serial becomes the next one after the last record's.
     */
    method New()
      requires Valid()
      modifies this`serialNumber, this`vehicleNumber, this`driverName, this`amount,
               this`firstWeight, this`secondWeight, this`finalWeight, this`weightPer40,
               this`secondDate, this`secondTime,
               this`notification, this`currentEntry, this`searchResult, this`isEditing
      ensures Valid()
      ensures Working() == Form(NextSerialOnNew(old(savedEntries)), "", "", 0, 0, 0, 0, "0", "", "")
      ensures notification == "" && currentEntry.None? && searchResult.None? && !isEditing
    {
      Show(Form(NextSerialOnNew(savedEntries), "", "", 0, 0, 0, 0, "0", "", ""));
      notification := "";
      currentEntry, searchResult := None, None;
      isEditing := false;
    }

    /**
     * Search: a hit puts the found record's values on screen and switches to
     * editing it; a miss changes only the search result and the notification.
     */
    method SearchBySerial()
      requires Valid()
      modifies this`serialNumber, this`vehicleNumber, this`driverName, this`amount,
               this`firstWeight, this`secondWeight, this`finalWeight, this`weightPer40,
               this`secondDate, this`secondTime,
               this`searchResult, this`notification, this`isEditing
      ensures Valid()
      ensures searchResult == FindBySerial(savedEntries, searchSerial)
      ensures searchResult.Some? ==>
        && searchResult.value.serialNumber == searchSerial
        && Working() == EntryForm(searchResult.value)
        && isEditing
        && notification == FoundMessage
      ensures searchResult.None? ==>
        && Working() == old(Working())
        && isEditing == old(isEditing)
        && notification == NotFoundMessage
    {
      var found := FindBySerial(savedEntries, searchSerial);
      searchResult := found;
      match found {
        case Some(e) =>
          notification := FoundMessage;
          Show(EntryForm(e));
          isEditing := true;
        case None =>
          notification := NotFoundMessage;
      }
    }

    /**
     * The ticket's fields for the current entry, each at its stored override
     * position or its default one; without a saved entry, only a notification.
     */
    method PrintFields() returns (fields: Option<seq<PrintField>>)
      requires Valid()
      modifies this`notification
      ensures Valid()
      ensures currentEntry.None? ==> fields.None? && notification == PrintNeedsSaveMessage
      ensures currentEntry.Some? ==>
        && fields == Some(MergePositions(DefaultFields(currentEntry.value), printPositions))
        && notification == old(notification)
    {
      match currentEntry {
        case None =>
          notification := PrintNeedsSaveMessage;
          fields := None;
        case Some(e) =>
          fields := Some(MergePositions(DefaultFields(e), printPositions));
      }
    }
  }

  /**
   * The first half of a weighing cycle: a fresh station records vehicle
   * "ABC-1", amount 500 and first weight 1000, and saves it without a second
   * weight.
   */
  method FirstWeighing() returns (station: WeightStation)
    ensures fresh(station) && station.Valid() && !station.isEditing
    ensures |station.savedEntries| == 1
    ensures var e := station.savedEntries[0];
      && e.serialNumber == "1" && e.vehicleNumber == "ABC-1" && e.amount == 500
      && e.firstWeight == 1000 && e.secondWeight == 0 && e.finalWeight == 0 && e.weightPer40 == "0"
  {
    station := new WeightStation.Load(Loaded([]), map[], "01/01/2024", "09:00:00");
    station.SetVehicleNumber("ABC-1");
    station.SetAmount(500);
    station.SetFirstWeight(1000);
    station.Save();
  }

  /**
   * The second half: the record is looked up by serial, the second weight 850
   * is entered, and the save replaces the record in place.
   */
  method SecondWeighing(station: WeightStation)
    requires station.Valid() && !station.isEditing
    requires |station.savedEntries| == 1
    requires var e := station.savedEntries[0];
      && e.serialNumber == "1" && e.firstWeight == 1000 && e.vehicleNumber == "ABC-1" && e.amount == 500
    modifies station
    ensures |station.savedEntries| == 1
    ensures var e := station.savedEntries[0];
      && e.serialNumber == "1" && e.finalWeight == 150 && e.weightPer40 == "3.30"
  {
    station.SetSearchSerial("1");
    station.SearchBySerial();
    station.EnterSecondWeight(850, "01/01/2024", "09:30:00");
    Per40Examples();
    station.Save();
  }
}
