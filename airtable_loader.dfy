/**
 * The catalog loader: the Airtable records, already fetched, become one
 * DataFrame row each, every column of the frame present (missing cells
 * filled with the empty string), plus a `text` column holding the rendered
 * venue description that is later embedded for retrieval.
 */
module AirtableLoader {
  import opened Results

  /** The `fields` mapping of one Airtable record: column name to cell text. */
  type Record = map<string, string>

  /** One row of the resulting DataFrame. */
  type Row = map<string, string>

  /**
   * The exceptions that escape the loader: `KeyError` when the template reads
   * a column the frame lacks, `ValueError` when the frame has no column at all
   * (pandas then skips the template and refuses to store a column-less
   * result as `text`).
   */
  datatype LoadError = KeyError(column: string) | ValueError

  const NameColumn := "Name"
  const AddressColumn := "Address"
  const CuisineColumn := "Cuisine"
  const AtmosphereColumn := "Atmosphere"
  const CapacityColumn := "Capacity_Max"
  const FeaturesColumn := "Special_Features"
  /** The column the rendered description is stored in. */
  const TextColumn := "text"

  /** The columns the template reads with `row.get`, which tolerates their absence. */
  const OptionalColumns: set<string> := {CuisineColumn, AtmosphereColumn, CapacityColumn, FeaturesColumn}

  /** How Python formats the `None` that `row.get` returns for a column the frame lacks. */
  const NoneText := "None"

  /** The six values substituted into the description template, in template order. */
  datatype Slots = Slots(name: string, address: string, cuisine: string,
                         atmosphere: string, capacity: string, features: string)

  /** The fixed description template. */
  function Template(s: Slots): string
  {
    s.name + ", " + s.address + ", Cuisine: " + s.cuisine + ", Atmosphere: " + s.atmosphere
      + ", Capacity: " + s.capacity + ", Features: " + s.features
  }

  /** The slot of `s` that column `k` fills; columns outside the template fill none. */
  function SlotText(s: Slots, k: string): string
  {
    if k == NameColumn then s.name
    else if k == AddressColumn then s.address
    else if k == CuisineColumn then s.cuisine
    else if k == AtmosphereColumn then s.atmosphere
    else if k == CapacityColumn then s.capacity
    else if k == FeaturesColumn then s.features
    else ""
  }

  /** Some record of the table has column `k`. */
  ghost predicate AnyHas(records: seq<Record>, k: string)
  {
    exists i :: 0 <= i < |records| && k in records[i]
  }

  /** The DataFrame's columns: the union of the keys of all records. */
  function Columns(records: seq<Record>): set<string>
  {
    if |records| == 0 then {}
    else Columns(records[..|records| - 1]) + records[|records| - 1].Keys
  }

  /** A column of the frame is exactly a key of some record. */
  lemma {:induction false} ColumnsIff(records: seq<Record>, k: string)
    ensures k in Columns(records) <==> AnyHas(records, k)
  {
    if |records| > 0 {
      var init := records[..|records| - 1];
      ColumnsIff(init, k);
      if AnyHas(init, k) {
        var i :| 0 <= i < |init| && k in init[i];
        assert records[i] == init[i];
      }
      if AnyHas(records, k) && k !in records[|records| - 1] {
        var i :| 0 <= i < |records| && k in records[i];
        assert init[i] == records[i];
      }
    }
  }

  /** One record as a row of the filled frame: every column is present, a missing cell is "". */
  function Filled(rec: Record, cols: set<string>): (row: Row)
    ensures row.Keys == cols + rec.Keys
    ensures forall k :: k in rec ==> row[k] == rec[k]
    ensures forall k :: k in cols && k !in rec ==> row[k] == ""
  {
    map k | k in cols + rec.Keys :: if k in rec then rec[k] else ""
  }

  /** `row.get(k)` as the template prints it. */
  function GetText(row: Row, k: string): string
  {
    if k in row then row[k] else NoneText
  }

  /** The values the template reads from a row: `Name` and `Address` by indexing, the rest by `get`. */
  function RowSlots(row: Row): Slots
    requires NameColumn in row && AddressColumn in row
  {
    Slots(row[NameColumn], row[AddressColumn], GetText(row, CuisineColumn),
          GetText(row, AtmosphereColumn), GetText(row, CapacityColumn), GetText(row, FeaturesColumn))
  }

  /** The row with its rendered description stored under `text`, replacing any earlier cell there. */
  function WithText(row: Row): Row
    requires NameColumn in row && AddressColumn in row
  {
    row[TextColumn := Template(RowSlots(row))]
  }

  /** One record as its row of the finished frame: filled, then described. */
  function LoadRow(rec: Record, cols: set<string>): Row
    requires NameColumn in cols && AddressColumn in cols
  {
    WithText(Filled(rec, cols))
  }

  /**
   * `fetch_airtable_data` after the network fetch: the records become the
   * filled frame with its `text` column. A frame without columns (no
   * records, or only records without fields) raises ValueError; otherwise
   * rendering the first row raises KeyError when the frame has no `Name`
   * column, or else no `Address` column.
   */
  function FetchAirtableData(records: seq<Record>): (r: Result<seq<Row>, LoadError>)
    ensures r.Success? ==> |records| > 0 && |r.value| == |records|
    ensures r.Success? ==> forall i :: 0 <= i < |r.value| ==> TextColumn in r.value[i]
  {
    var cols := Columns(records);
    if cols == {} then Failure(ValueError)
    else if NameColumn !in cols then Failure(KeyError(NameColumn))
    else if AddressColumn !in cols then Failure(KeyError(AddressColumn))
    else Success(LoadRows(records, cols))
  }

  /** Every record loaded as its row, in record order. */
  function LoadRows(records: seq<Record>, cols: set<string>): (rows: seq<Row>)
    requires NameColumn in cols && AddressColumn in cols
    ensures |rows| == |records|
    ensures forall i :: 0 <= i < |records| ==> rows[i] == LoadRow(records[i], cols)
  {
    seq(|records|, i requires 0 <= i < |records| => LoadRow(records[i], cols))
  }

  // ---------------------------------------------------------------------
  // Reference definition of what each record renders as, from the records alone

  /** What the template prints for record `i`, column `k`: its own cell, "" if only other records have the column, "None" if none has it. */
  ghost function CellText(records: seq<Record>, i: int, k: string): string
    requires 0 <= i < |records|
  {
    if k in records[i] then records[i][k]
    else if AnyHas(records, k) then ""
    else NoneText
  }

  /** The template's six values for record `i`, from the reference cell text. */
  ghost function ReferenceSlots(records: seq<Record>, i: int): Slots
    requires 0 <= i < |records|
  {
    Slots(CellText(records, i, NameColumn), CellText(records, i, AddressColumn),
          CellText(records, i, CuisineColumn), CellText(records, i, AtmosphereColumn),
          CellText(records, i, CapacityColumn), CellText(records, i, FeaturesColumn))
  }

  // ---------------------------------------------------------------------
  // Properties

  /** Row `i` of a successful load is record `i`, filled to the frame's columns, with its description added. */
  lemma RowOf(records: seq<Record>, i: int)
    requires FetchAirtableData(records).Success?
    requires 0 <= i < |records|
    ensures NameColumn in Columns(records) && AddressColumn in Columns(records)
    ensures FetchAirtableData(records).value[i] == LoadRow(records[i], Columns(records))
  {
  }

  /** The cells of a loaded row other than `text`: the record's own, then "" for the frame's other columns. */
  lemma LoadRowCell(rec: Record, cols: set<string>, k: string)
    requires NameColumn in cols && AddressColumn in cols
    requires k != TextColumn
    ensures k in LoadRow(rec, cols) <==> k in cols || k in rec
    ensures k in rec ==> LoadRow(rec, cols)[k] == rec[k]
    ensures k in cols && k !in rec ==> LoadRow(rec, cols)[k] == ""
  {
    var row := Filled(rec, cols);
    assert LoadRow(rec, cols) == row[TextColumn := Template(RowSlots(row))];
  }

  /**
   * Loading fails exactly when no record has the Name column or none has the
   * Address column. A table whose records all lack fields (the empty table
   * included) fails with ValueError; otherwise Name is checked before Address.
   */
  lemma FailsIffRequiredColumnMissing(records: seq<Record>)
    ensures FetchAirtableData(records).Failure? <==>
              !AnyHas(records, NameColumn) || !AnyHas(records, AddressColumn)
    ensures FetchAirtableData(records).Failure? ==>
              FetchAirtableData(records).error ==
                (if forall i :: 0 <= i < |records| ==> records[i] == map[] then ValueError
                 else if !AnyHas(records, NameColumn) then KeyError(NameColumn)
                 else KeyError(AddressColumn))
  {
    ColumnsIff(records, NameColumn);
    ColumnsIff(records, AddressColumn);
    if forall i :: 0 <= i < |records| ==> records[i] == map[] {
      forall k ensures k !in Columns(records) {
        ColumnsIff(records, k);
      }
    } else {
      var i :| 0 <= i < |records| && records[i] != map[];
      var k :| k in records[i];
      ColumnsIff(records, k);
    }
  }

  /** No records, or records without fields, give a frame without columns, which raises ValueError. */
  lemma ColumnlessFramesRaiseValueError()
    ensures FetchAirtableData([]) == Failure(ValueError)
    ensures FetchAirtableData([map[], map[]]) == Failure(ValueError)
  {
    var blank: Record := map[];
    assert [blank, blank][..1] == [blank];
    assert [blank][..0] == [];
  }

  /** A loaded row still has Name and Address, and its `text` is the template over its own cells. */
  lemma LoadRowText(rec: Record, cols: set<string>)
    requires NameColumn in cols && AddressColumn in cols
    ensures NameColumn in LoadRow(rec, cols) && AddressColumn in LoadRow(rec, cols)
    ensures RowSlots(LoadRow(rec, cols)) == RowSlots(Filled(rec, cols))
    ensures LoadRow(rec, cols)[TextColumn] == Template(RowSlots(LoadRow(rec, cols)))
  {
    var row := Filled(rec, cols);
    assert LoadRow(rec, cols) == row[TextColumn := Template(RowSlots(row))];
  }

  /** The slot a column fills in a row's template values is that column's `get` text; other columns fill none. */
  lemma SlotTextOfRow(row: Row, k: string)
    requires NameColumn in row && AddressColumn in row
    ensures SlotText(RowSlots(row), k)
      == if k in OptionalColumns || k == NameColumn || k == AddressColumn then GetText(row, k) else ""
  {
  }

  /** One row per record, in record order: row `i` holds record `i`'s description in the fixed template. */
  lemma TextOfRecord(records: seq<Record>, i: int)
    requires FetchAirtableData(records).Success?
    requires 0 <= i < |records|
    ensures FetchAirtableData(records).value[i][TextColumn] == Template(ReferenceSlots(records, i))
  {
    RowOf(records, i);
    var cols := Columns(records);
    var filled := Filled(records[i], cols);
    forall k | k in OptionalColumns || k == NameColumn || k == AddressColumn
      ensures GetText(filled, k) == CellText(records, i, k)
    {
      ColumnsIff(records, k);
    }
    assert RowSlots(filled) == ReferenceSlots(records, i);
  }

  /** A column some record has but record `i` lacks is the empty string in row `i`, and so in the slot of row `i`'s `text` it fills. */
  lemma MissingCellIsEmpty(records: seq<Record>, i: int, k: string)
    requires FetchAirtableData(records).Success?
    requires 0 <= i < |records|
    requires AnyHas(records, k) && k !in records[i] && k != TextColumn
    ensures k in FetchAirtableData(records).value[i]
    ensures FetchAirtableData(records).value[i][k] == ""
    ensures SlotText(ReferenceSlots(records, i), k) == ""
    ensures var row := FetchAirtableData(records).value[i];
      && NameColumn in row && AddressColumn in row
      && row[TextColumn] == Template(RowSlots(row))
      && SlotText(RowSlots(row), k) == ""
  {
    RowOf(records, i);
    ColumnsIff(records, k);
    LoadRowCell(records[i], Columns(records), k);
    var filled := Filled(records[i], Columns(records));
    LoadRowText(records[i], Columns(records));
    SlotTextOfRow(filled, k);
  }

  /** An optional column that no record has is absent from every row, so its slot of the row's `text` prints "None". */
  lemma AbsentOptionalColumnPrintsNone(records: seq<Record>, i: int, k: string)
    requires FetchAirtableData(records).Success?
    requires 0 <= i < |records|
    requires k in OptionalColumns && !AnyHas(records, k)
    ensures k !in FetchAirtableData(records).value[i]
    ensures SlotText(ReferenceSlots(records, i), k) == NoneText
    ensures var row := FetchAirtableData(records).value[i];
      && NameColumn in row && AddressColumn in row
      && row[TextColumn] == Template(RowSlots(row))
      && SlotText(RowSlots(row), k) == NoneText
  {
    RowOf(records, i);
    ColumnsIff(records, k);
    assert k != TextColumn && k !in records[i];
    assert SlotText(ReferenceSlots(records, i), k) == CellText(records, i, k) by {
      if k == CuisineColumn {
      } else if k == AtmosphereColumn {
      } else if k == CapacityColumn {
      } else {
        assert k == FeaturesColumn;
      }
    }
    LoadRowCell(records[i], Columns(records), k);
    var filled := Filled(records[i], Columns(records));
    assert GetText(filled, k) == NoneText;
    LoadRowText(records[i], Columns(records));
    SlotTextOfRow(filled, k);
  }

  /** Every cell of record `i` survives unchanged in row `i` (except a former `text` cell); the only other new cells are "" and `text`. */
  lemma FieldsPreserved(records: seq<Record>, i: int)
    requires FetchAirtableData(records).Success?
    requires 0 <= i < |records|
    ensures var row := FetchAirtableData(records).value[i];
      && (forall k :: k in row <==> AnyHas(records, k) || k == TextColumn)
      && (forall k :: k in records[i] && k != TextColumn ==> row[k] == records[i][k])
      && (forall k :: k in row && k !in records[i] && k != TextColumn ==> row[k] == "")
  {
    RowOf(records, i);
    var row := FetchAirtableData(records).value[i];
    forall k | k != TextColumn
      ensures (k in row <==> AnyHas(records, k))
      ensures k in records[i] ==> row[k] == records[i][k]
      ensures k in row && k !in records[i] ==> row[k] == ""
    {
      ColumnsIff(records, k);
      LoadRowCell(records[i], Columns(records), k);
    }
  }

  /** Row `i` depends only on record `i` and on which columns the table has: equal inputs give identical text. */
  lemma RowDependsOnRecordAndColumns(a: seq<Record>, i: int, b: seq<Record>, j: int)
    requires FetchAirtableData(a).Success? && FetchAirtableData(b).Success?
    requires 0 <= i < |a| && 0 <= j < |b|
    requires a[i] == b[j]
    requires forall k :: AnyHas(a, k) <==> AnyHas(b, k)
    ensures FetchAirtableData(a).value[i] == FetchAirtableData(b).value[j]
  {
    RowOf(a, i);
    RowOf(b, j);
    forall k ensures k in Columns(a) <==> k in Columns(b) {
      ColumnsIff(a, k);
      ColumnsIff(b, k);
    }
    assert Columns(a) == Columns(b);
  }

  /** A one-venue catalog without Atmosphere, Capacity_Max or Special_Features: its row keeps the three cells and prints "None" for the other three slots. */
  lemma LeJardinExample()
    ensures FetchAirtableData([map["Name" := "Le Jardin", "Address" := "12 Rue de Rivoli, 1st arr.", "Cuisine" := "French"]])
      == Success([map["Name" := "Le Jardin", "Address" := "12 Rue de Rivoli, 1st arr.", "Cuisine" := "French",
                      "text" := Template(Slots("Le Jardin", "12 Rue de Rivoli, 1st arr.", "French", "None", "None", "None"))]])
  {
    var rec: Record := map["Name" := "Le Jardin", "Address" := "12 Rue de Rivoli, 1st arr.", "Cuisine" := "French"];
    assert Columns([rec]) == rec.Keys by {
      assert [rec][..0] == [];
    }
    assert Filled(rec, rec.Keys) == rec;
    assert RowSlots(rec) == Slots("Le Jardin", "12 Rue de Rivoli, 1st arr.", "French", NoneText, NoneText, NoneText);
    assert LoadRow(rec, rec.Keys) == rec[TextColumn := Template(RowSlots(rec))];
    assert FetchAirtableData([rec]).value == [LoadRow(rec, rec.Keys)];
  }
}
