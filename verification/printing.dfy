/**
 * The printable ticket's fields and where they go: the built-in layout and
 * the merge of the operator's stored position overrides over it.
 */
module Printing {
  import opened Wrappers
  import opened Decimal
  import opened Entries

  datatype Position = Position(x: int, y: int)

  datatype PrintField = PrintField(id: string, value: string, position: Position, isBold: bool)

  /** The field identifiers, in ticket order. */
  const FieldIds: seq<string> := [
    "serial", "date", "time", "secondDate", "secondTime", "vehicle", "driver",
    "amount", "firstWeight", "secondWeight", "finalWeight", "weightPer40"]

  /**
   * The built-in layout of a record's ticket: one field per identifier, all at
   * x = 50 and 50 apart vertically, the four weights in bold.
   */
  function DefaultFields(e: Entry): (fields: seq<PrintField>)
    ensures |fields| == |FieldIds|
    ensures forall i | 0 <= i < |fields| ::
      && fields[i].id == FieldIds[i]
      && fields[i].position == Position(50, 50 * (i + 1))
      && (fields[i].isBold <==> i >= 8)
  {
    [ PrintField("serial", e.serialNumber, Position(50, 50), false),
      PrintField("date", e.date, Position(50, 100), false),
      PrintField("time", e.time, Position(50, 150), false),
      PrintField("secondDate", e.secondDate.GetOr(""), Position(50, 200), false),
      PrintField("secondTime", e.secondTime.GetOr(""), Position(50, 250), false),
      PrintField("vehicle", e.vehicleNumber, Position(50, 300), false),
      PrintField("driver", e.driverName, Position(50, 350), false),
      PrintField("amount", IntToString(e.amount), Position(50, 400), false),
      PrintField("firstWeight", IntToString(e.firstWeight), Position(50, 450), true),
      PrintField("secondWeight", IntToString(e.secondWeight), Position(50, 500), true),
      PrintField("finalWeight", IntToString(e.finalWeight), Position(50, 550), true),
      PrintField("weightPer40", e.weightPer40, Position(50, 600), true) ]
  }

  /**
   * What each field of the built-in layout shows: the record's value for its
   * identifier, numbers in decimal and a missing second timestamp as empty text.
   */
  lemma DefaultFieldValues(e: Entry)
    ensures DefaultFields(e)[0].value == e.serialNumber
    ensures DefaultFields(e)[1].value == e.date && DefaultFields(e)[2].value == e.time
    ensures DefaultFields(e)[3].value == e.secondDate.GetOr("") && DefaultFields(e)[4].value == e.secondTime.GetOr("")
    ensures DefaultFields(e)[5].value == e.vehicleNumber && DefaultFields(e)[6].value == e.driverName
    ensures DefaultFields(e)[7].value == IntToString(e.amount)
    ensures DefaultFields(e)[8].value == IntToString(e.firstWeight)
    ensures DefaultFields(e)[9].value == IntToString(e.secondWeight)
    ensures DefaultFields(e)[10].value == IntToString(e.finalWeight)
    ensures DefaultFields(e)[11].value == e.weightPer40
  {
  }

  /**
   * Each field keeps its identifier, text and weight, and takes the stored
   * override for its identifier when there is one, its own position otherwise.
   */
  function MergePositions(fields: seq<PrintField>, overrides: map<string, Position>): (r: seq<PrintField>)
    ensures |r| == |fields|
    ensures forall i | 0 <= i < |r| ::
      && r[i].id == fields[i].id
      && r[i].value == fields[i].value
      && r[i].isBold == fields[i].isBold
      && r[i].position == if fields[i].id in overrides then overrides[fields[i].id] else fields[i].position
  {
    if fields == [] then []
    else
      var f := fields[0];
      [f.(position := if f.id in overrides then overrides[f.id] else f.position)]
        + MergePositions(fields[1..], overrides)
  }

  /** Without overrides the layout is the built-in one. */
  lemma MergeWithoutOverrides(fields: seq<PrintField>)
    ensures MergePositions(fields, map[]) == fields
  {
    var r := MergePositions(fields, map[]);
    assert forall i | 0 <= i < |r| :: r[i] == fields[i];
  }

  /** Merging the same overrides again changes nothing. */
  lemma MergeIdempotent(fields: seq<PrintField>, overrides: map<string, Position>)
    ensures MergePositions(MergePositions(fields, overrides), overrides) == MergePositions(fields, overrides)
  {
    var once := MergePositions(fields, overrides);
    var twice := MergePositions(once, overrides);
    assert forall i | 0 <= i < |twice| :: twice[i] == once[i];
  }

  /** An override for an identifier no field carries has no effect. */
  lemma MergeIgnoresUnknownIds(fields: seq<PrintField>, overrides: map<string, Position>, id: string, p: Position)
    requires forall i | 0 <= i < |fields| :: fields[i].id != id
    ensures MergePositions(fields, overrides[id := p]) == MergePositions(fields, overrides)
  {
    var a := MergePositions(fields, overrides[id := p]);
    var b := MergePositions(fields, overrides);
    assert forall i | 0 <= i < |a| :: a[i] == b[i];
  }
}
