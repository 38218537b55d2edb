# fullconcierge: catalog normaliser and language routing, in Dafny

This project models the two pieces of deterministic logic in the concierge
assistant, which recommends restaurants from an Airtable venue catalog:

- **The catalog loader** (`fetch_airtable_data`, module `AirtableLoader`).
  It takes the fields of each Airtable record and builds a table from them.
  The table's columns are the union of all record keys. A cell a record lacks
  is filled with `""` (pandas `fillna('')`). Each row also gets a `text` column
  rendered from the fixed template
  `"{Name}, {Address}, Cuisine: {Cuisine}, Atmosphere: {Atmosphere}, Capacity: {Capacity_Max}, Features: {Special_Features}"`.
  A record is a `map<string, string>` and the table is a `seq` of records.
  The result is a `Result`: on success, the rows; on failure, the `KeyError` the template raises for a missing `Name` or `Address` column,
  or the `ValueError` pandas raises when the frame has no columns at all (no records, or only records without fields).
- **The request pipeline** (module `App`). It runs when the button is pressed and the request is non-empty.
  It detects the request's language.
  It translates a French request to English, loads the catalog and turns its rows into documents, runs the retrieval QA chain,
  and translates the answer back to French for a French request.
  It then builds the proposal's arguments and chooses the download label.
  Language detection, both translators, the catalog fetch and the QA chain are external services.
  They are passed in as a `Services` value of total functions, where `None` means the call raised and ended the run.
  A run records the external calls it made, in order, so that "no translator was called" can be stated as a property.

The model follows the code in three places where one might expect something else:

- One might expect a missing optional field to print as the empty string.
  The code prints `""` only when some other record has that column.
  When no record has the column, `row.get` returns `None`, which prints as `None` (`AbsentOptionalColumnPrintsNone`).
- One might expect each record that lacks Name or Address to be rejected.
  The code raises `KeyError` only when no record at all has the column.
  A record that lacks `Name` while another record has it prints `""` in the Name slot (`FailsIffRequiredColumnMissing`, `TextOfRecord`).
- One might expect language detection to fall back to a default language.
  The code lets detection's exception end the run (`Raised(Detect)`).

## Model

| member | source | states |
|---|---|---|
| `AirtableLoader.ColumnsIff` | airtable_loader.py:7 | a column of the frame is exactly a key that at least one record has |
| `AirtableLoader.Filled` | airtable_loader.py:8 | after `fillna('')`, a row has every column, keeps the record's own cells, and holds `""` in each column the record lacks |
| `AirtableLoader.FetchAirtableData` | airtable_loader.py:4-10 | on success the table is non-empty and there is one row per record, each with a `text` cell |
| `AirtableLoader.LoadRowCell` | airtable_loader.py:8-9 | adding `text` leaves every other cell of the filled row as it was |
| `AirtableLoader.FailsIffRequiredColumnMissing` | airtable_loader.py:7-9 | loading fails exactly when no record has `Name` or none has `Address`; the error is `ValueError` when every record lacks fields (the empty table included), else `KeyError` naming `Name` first, then `Address` |
| `AirtableLoader.ColumnlessFramesRaiseValueError` | airtable_loader.py:7-9 | the empty table and a table of two records without fields both fail with `ValueError` |
| `AirtableLoader.TextOfRecord` | airtable_loader.py:7-9 | row `i`'s `text` is the fixed template applied to record `i`'s cells, where each cell is its own value, `""` if only other records have the column, and `None` if no record has it |
| `AirtableLoader.MissingCellIsEmpty` | airtable_loader.py:8-9 | a column that some record has but record `i` lacks is `""` in row `i`; row `i`'s `text` is the template over that row, with `""` in the slot the column fills |
| `AirtableLoader.AbsentOptionalColumnPrintsNone` | airtable_loader.py:9 | an optional column that no record has is absent from every row; row `i`'s `text` is the template over that row, with `None` in that column's slot |
| `AirtableLoader.FieldsPreserved` | airtable_loader.py:7-9 | a row's keys are the frame's columns plus `text`; every cell of the record except a former `text` keeps its value; every other added cell is `""` |
| `AirtableLoader.RowDependsOnRecordAndColumns` | airtable_loader.py:7-9 | rendering is deterministic: two tables with the same set of columns give identical rows for identical records |
| `AirtableLoader.LeJardinExample` | airtable_loader.py:7-9 | a one-venue catalog with only Name, Address and Cuisine keeps those three cells and prints `None` for Atmosphere, Capacity and Features |
| `App.DownloadLabel` | app.py:103 | the label is the French one iff the detected language is `fr`, else the English one |
| `App.Documents` | app.py:60-61 | one document per row, in row order; its content is the row's `text` and its metadata the row's other cells |
| `App.DocumentsOfCatalog` | app.py:59-61 | the chain's documents match the catalog records one for one, in order, and each content is that record's templated description |
| `App.Pipeline` | app.py:44-103 | detection is always the first external call of a run |
| `App.Submit` | app.py:43 | the pipeline runs iff the button was pressed and the request is non-empty |
| `App.NonFrenchPassesThrough` | app.py:46-94 | for a request not detected as `fr`, no translator is called; a completed run queries with the input unchanged and shows the chain's answer unchanged |
| `App.FrenchTranslatesBothWays` | app.py:46-94 | for a request detected as `fr`, a completed run queries with the fr-to-en translation of the input; the displayed result is the en-to-fr translation of the chain's answer to that query |
| `App.CompletedRunCalls` | app.py:46-94 | a completed run calls detect, the fr-to-en translator (French only), the catalog fetch, the chain and then the en-to-fr translator (French only), each once and in that order |
| `App.FailedRunStops` | app.py:46-94 | a failed run ends at the call that raised; a catalog that cannot be loaded (`KeyError` or `ValueError`) ends it right after the fetch, before the chain runs |
| `App.ProposalOfRun` | app.py:101-103 | the proposal gets the untranslated request, client `Client (EBA/ESMA)`, price 70 and the displayed result; the label follows the detected language |

## Left out

- The Airtable network call (`Table(...).all()`) is left out. Its result is a parameter: the records passed to `FetchAirtableData`, or `Services.fetchRecords` in the pipeline.
- The `fields` lookup of each Airtable record is left out. Each record is modelled as its `fields` mapping, which Airtable always supplies.
- Cell values are modelled as text. Python's formatting of non-text cells is left out: numbers, checkboxes, attachment lists, and the float `40.0` pandas makes of an integer column with gaps.
- The `ValueError` for a frame without columns is modelled as one error value. Its message, and the pandas steps behind it (`apply` on an empty frame, then storing a column-less result as `text`), are not modelled.
- The Streamlit page, spinner, subheader, success box and download mechanics are UI and are left out. Only the label choice is kept.
- Loading credentials and environment variables is configuration I/O and is left out.
- Embeddings, the FAISS index, the prompt text, the GPT-4 model and the RetrievalQA chain are foreign library calls. Their generation is nondeterministic, and their similarity search uses floating point. They are one abstract service `qa(documents, query)`, so index building and top-k retrieval live inside it. The location-mismatch disclosure exists only as prompt text and is not modelled.
- `langdetect` and the Google translator are external services and are treated as abstract functions.
- Rendering the proposal with jinja2 and xhtml2pdf, the date, and the file writes are I/O. Only the arguments handed to `generate_proposal_pdf` are modelled (`Proposal`).
