# ML warehouse access layer: a Dafny model

This project models the core of `src/npg_irods/db/mlwh.py`, the read-side access layer to
the multi-LIMS ML warehouse. It covers four parts:

- **Schema** (`schema.dfy`): the `Platform` enumeration, one datatype per warehouse table
  (sample, study, the Illumina, Nanopore and PacBio run/flowcell/metrics tables, and the
  product-location table), and the declared constraints as a `WellFormed` predicate:
  primary keys, the unique `id_iseq_product` and `id_pac_bio_product` columns, the unique
  (run name, well label, plate number) and (run, well metrics) indexes, and the foreign keys.
  The storage layer admits a new row only when it breaks none of them. For the three
  tables with declared unique keys, the model proves that admission matches exactly the
  rows whose insertion keeps the warehouse well formed.
- **Change detection** (`queries.dfy`): `find_updated_samples` and `find_updated_studies`
  select rows recorded inside `[since, until]` whose creation does not fall in
  `[since - 1 day, since]`. SQL `BETWEEN` includes both ends. The rows come out ordered
  by ascending `recorded_at`. The model proves three things: the result is a permutation
  of exactly the matching rows, it is sorted, and each matching row appears once when
  primary keys are unique.
- **Point lookups** (`queries.dfy`): the two lookups by LIMS id follow the `scalar_one`
  contract. They return the only matching row, or fail with `NotFound` (no row) or
  `MultipleMatches` (two or more rows). The consent lookup selects exactly the samples
  whose flag equals 1.
- **Session lifecycle** (`sessions.dfy`): `session_context` is a `Session` class whose
  state is Open, Committed, RolledBack or Closed. The class also holds the committed and
  pending writes and the calls it received. `SessionContext` runs a caller's block and is
  proved against the specification function `ContextOutcome`:
  - it commits only when the block and the commit succeed;
  - it rolls back when an `Exception` leaves the `try`;
  - it re-raises the block's exception unchanged;
  - it closes exactly once, as the last action.

`wrappers.dfy` holds `Option` (SQL NULL) and `Result`. `rowseqs.dfy` holds the generic
selection (`WHERE`), ordering (`ORDER BY ... ASC`) and unique-index predicates that the
queries and constraints are built from.

Timestamps are integer seconds and the look-back is the constant `ONE_DAY = 86400`. A
table is a sequence of rows. The queries take the table that the session would read.

Three points of the declared schema and signatures of `src/npg_irods/db/mlwh.py`:
- Only `pac_bio_product_metrics.id_pac_bio_product` is declared unique
  (`src/npg_irods/db/mlwh.py:339`). `pac_bio_run_well_metrics.id_pac_bio_product`
  (line 300) is not, so the model does not make it unique.
- `plate_number` may be NULL (line 303). The SQL standard never treats a NULL key as equal
  to another, and neither do MySQL, PostgreSQL or SQLite. So run-well rows with a NULL
  plate never collide on the (run, well, plate) index (`Schema.NullPlateAdmitted`). Not
  every engine follows this: SQL Server's unique indexes treat NULLs as equal, and the
  model does not cover such an engine.
- The change-detection functions are annotated `Iterator[int]`, but they yield the
  string columns `id_sample_lims` / `id_study_lims`. The model yields strings.

## Model

| member | source | states |
|---|---|---|
| Schema.ParsePlatform | src/npg_irods/db/mlwh.py:50-55 | a stored platform name reads back as the member with that name; any other name fails with an enum ConstraintViolation, and no member has that name |
| Schema.PlatformRoundTrip | src/npg_irods/db/mlwh.py:359 | storing a platform by name and reading it back gives the same platform |
| Schema.UnknownPlatformRejected | src/npg_irods/db/mlwh.py:359 | the name "Nanopore" is rejected as a constraint violation |
| Schema.WellFormed | src/npg_irods/db/mlwh.py:146-339 | a well-formed warehouse has unique product ids in both product metrics tables, no two run-well rows with a non-NULL plate sharing (run, well, plate), no two PacBio product rows sharing (run, well metrics), and every non-NULL Illumina flowcell link naming an existing flowcell; it is defined as every primary key, declared unique column and unique index holding (NULL keys never collide) and every foreign key naming an existing parent |
| Schema.InsertIseqProductMetrics | src/npg_irods/db/mlwh.py:175-184 | an admitted row is appended; a duplicate-id_iseq_product refusal names an existing row with that id; a foreign-key refusal means no flowcell has the referenced key |
| Schema.InsertIseqProductMetricsExact | src/npg_irods/db/mlwh.py:178-184 | on a well-formed warehouse the insert succeeds iff the warehouse with the new row is well formed (unique pk and product id, flowcell link NULL or existing) |
| Schema.InsertPacBioRunWellMetrics | src/npg_irods/db/mlwh.py:285-303 | an admitted row is appended; a refusal on the run-well index names an existing row with the same run, well and non-NULL plate |
| Schema.InsertPacBioRunWellMetricsExact | src/npg_irods/db/mlwh.py:285-303 | on a well-formed warehouse the insert succeeds iff the result is well formed, including the foreign keys of product metrics into this table |
| Schema.NullPlateAdmitted | src/npg_irods/db/mlwh.py:286-292 | a run-well row with a NULL plate number never violates the (run, well, plate) unique index |
| Schema.InsertPacBioProductMetrics | src/npg_irods/db/mlwh.py:320-339 | an admitted row is appended; each unique-index refusal names an existing row with the same product id, or the same (run, well metrics) pair |
| Schema.InsertPacBioProductMetricsExact | src/npg_irods/db/mlwh.py:320-339 | on a well-formed warehouse the insert succeeds iff the result is well formed (unique pk, product id and (run, well metrics), both parents exist) |
| Queries.UpdatedRows | src/npg_irods/db/mlwh.py:442-448 | the selected rows are sorted by recorded_at and hold each row as often as the table does if it is recorded in the window and not created in the look-back day, else not at all |
| Queries.FindConsentWithdrawnSamples | src/npg_irods/db/mlwh.py:385-394 | exactly the samples whose consent_withdrawn equals 1, each as often as in the table; no sample with any other value |
| Queries.ScalarOne | src/npg_irods/db/mlwh.py:407-409 | NotFound iff no row matches, MultipleMatches iff two distinct rows match, otherwise a matching row of the table |
| Queries.ScalarOneUnique | src/npg_irods/db/mlwh.py:422-424 | a successful lookup returns the only matching row |
| Queries.FindSampleBySampleId | src/npg_irods/db/mlwh.py:412-424 | NotFound iff no sample has the id, MultipleMatches iff two rows have it, otherwise the one sample with that id |
| Queries.FindStudyByStudyId | src/npg_irods/db/mlwh.py:397-409 | NotFound iff no study has the id, MultipleMatches iff two rows have it, otherwise the one study with that id |
| Queries.UpdatedSamples | src/npg_irods/db/mlwh.py:440-449 | the reported sample rows are non-decreasing in recorded_at and are a permutation of the samples recorded in [since, until] and not created in [since - 1 day, since] |
| Queries.FindUpdatedSamples | src/npg_irods/db/mlwh.py:427-452 | yields the id_sample_lims of each reported sample row, in the same order |
| Queries.FindUpdatedSamplesSound | src/npg_irods/db/mlwh.py:440-446 | every yielded id belongs to a sample of the table with since <= recorded_at <= until and not since - 1 day <= created <= since |
| Queries.FindUpdatedSamplesComplete | src/npg_irods/db/mlwh.py:442-453 | every sample meeting both conditions is yielded, and exactly once when primary keys are unique |
| Queries.RecentlyCreatedNotReported | src/npg_irods/db/mlwh.py:440-446 | in any table, a sample with since - 1 day <= created <= since (for example created = recorded_at = since) is not among the reported rows |
| Queries.OldSampleUpdatedInWindowReported | src/npg_irods/db/mlwh.py:440-446 | a sample created over a day before since and recorded in the window is reported |
| Queries.SharedBoundaryReportedTwice | src/npg_irods/db/mlwh.py:445 | in any table, a sample created long before and recorded exactly at a shared window boundary is reported by both adjacent windows |
| Queries.UpdatedStudies | src/npg_irods/db/mlwh.py:468-477 | the reported study rows are non-decreasing in recorded_at and are a permutation of the studies recorded in [since, until] and not created in [since - 1 day, since] |
| Queries.FindUpdatedStudies | src/npg_irods/db/mlwh.py:455-480 | yields the id_study_lims of each reported study row, in the same order |
| Queries.FindUpdatedStudiesSound | src/npg_irods/db/mlwh.py:468-474 | every yielded id belongs to a study of the table with since <= recorded_at <= until and not since - 1 day <= created <= since |
| Queries.FindUpdatedStudiesComplete | src/npg_irods/db/mlwh.py:470-480 | every study meeting both conditions is yielded, and exactly once when primary keys are unique |
| Sessions.Session.constructor | src/npg_irods/db/mlwh.py:371 | a new session is open, has no pending writes and has received no calls |
| Sessions.Session.Flush | src/npg_irods/db/mlwh.py:373 | the caller's writes join the open transaction; nothing is committed |
| Sessions.Session.Commit | src/npg_irods/db/mlwh.py:375 | on success the pending writes become durable and the session is Committed; a refused commit raises its error and changes nothing |
| Sessions.Session.Rollback | src/npg_irods/db/mlwh.py:377 | pending writes are discarded, durable contents unchanged, state RolledBack |
| Sessions.Session.Close | src/npg_irods/db/mlwh.py:382 | the session is Closed, an uncommitted transaction is discarded, durable contents unchanged |
| Sessions.ContextOutcome | src/npg_irods/db/mlwh.py:366-382 | commit iff the block and the commit succeed; rollback iff an Exception leaves the try; close exactly once and last; the block's exception is re-raised unchanged; writes become durable only through the commit |
| Sessions.SessionContext | src/npg_irods/db/mlwh.py:371-382 | running a block leaves the session Closed with the calls, the raised exception and the durable contents that ContextOutcome specifies |

## Left out

- Column types, string lengths, secondary non-unique indexes, `relationship`/`back_populates`
  navigation and the `__repr__` methods. They are storage and debugging declarations with
  no behaviour.
- Admission of rows into the six tables that declare no unique key besides the primary key
  (sample, study, iseq_flowcell, oseq_flowcell, pac_bio_run, seq_product_irods_locations).
  Their constraints are stated in `Schema.WellFormed`. The layer itself never inserts rows.
- `yield_per(SQL_CHUNK_SIZE)` batching and the lazy iterator. They affect only fetching and
  memory. The model returns the whole sequence of ids at once.
- Order among rows with equal `recorded_at`, and the order of the consent query's result.
  SQL promises neither. The contracts state a permutation and leave both unspecified.
- Sub-second timestamp precision, time zones and calendar arithmetic. A timestamp is an
  integer number of seconds.
- Queries.FindUpdatedSamples and Queries.FindUpdatedStudies: Python's `datetime` has a
  bounded range. The look-back subtraction `since - timedelta(days=1)` (lines 440 and 468)
  raises `OverflowError` when `since` is within one day of `datetime.min`. Because the
  function is a generator, the error appears on the first `next()`. The model's unbounded
  integer seconds never fail, so this error path is not captured.
- The `Engine`, connections, pooling and durability. The warehouse's committed contents are
  a value the session holds. A failing commit is a parameter; a failing rollback or close
  is not modelled.
- `structlog` logging calls.
- Sessions.ContextOutcome and Sessions.SessionContext: the caller's block is modelled as
  writes followed by completion or an exception. A block that itself commits, rolls back
  or closes the session it receives is not modelled. In the program, such a block's
  writes before its own commit stay durable even when it later raises.
- `Platform` member values (1, 2, 3) appear only as a comment on the datatype. The column
  stores member names, and the program never looks a platform up by value.
- Queries.FindSampleBySampleId, Queries.FindStudyByStudyId and Schema.ParsePlatform:
  string equality is modelled as exact character equality, as under a binary collation.
  The database compares strings under the column's collation, which the source does not
  fix. Matching that depends on the collation is not modelled. For example, a
  case-insensitive or trailing-space-insensitive collation would make "abc" match a row
  holding "ABC", and two such rows would then give `MultipleMatches`.
- Schema.WellFormed, Schema.InsertIseqProductMetrics, Schema.InsertPacBioRunWellMetrics and
  Schema.InsertPacBioProductMetrics, with their `*Exact` lemmas: the string columns of
  unique keys are compared by exact character equality. These are `id_iseq_product`,
  `id_pac_bio_product`, and the run name and well label of the (run, well, plate) index.
  A collision that depends on the column's collation is not modelled. Under a
  case-insensitive collation the database would refuse "ABC" beside an existing "abc",
  or ("run1", "a1", 1) beside ("run1", "A1", 1); the model admits both.
