/**
 * The query functions of `src/npg_irods/db/mlwh.py`, over tables held as
 * sequences of rows: the consent-withdrawn selection, the two point lookups
 * by LIMS id, and the two change-detection queries.
 */
module Queries {
  import opened Wrappers
  import opened RowSeqs
  import opened Schema

  /** The look-back before `since` in which a row's creation is taken to be new, not an update. */
  const ONE_DAY: int := 86400

  /** SQL `x BETWEEN lo AND hi`, which includes both ends. */
  predicate Between(x: int, lo: int, hi: int) {
    lo <= x <= hi
  }

  /** A row with these timestamps is reported as updated in the window from `since` to `until`. */
  predicate IsUpdate(created: Timestamp, recordedAt: Timestamp, since: Timestamp, until: Timestamp) {
    Between(recordedAt, since, until) && !Between(created, since - ONE_DAY, since)
  }

  /**
   * The rows a change-detection query selects, in the order it yields them:
   * those updated in the window, ordered by ascending `recordedAt`. Rows
   * with equal `recordedAt` come in no promised order.
   */
  function UpdatedRows<R(==,!new)>(
    rows: seq<R>, created: R -> Timestamp, recordedAt: R -> Timestamp, since: Timestamp, until: Timestamp
  ): (r: seq<R>)
    ensures SortedBy(r, recordedAt)
    ensures forall x :: multiset(r)[x] == if IsUpdate(created(x), recordedAt(x), since, until) then multiset(rows)[x] else 0
  {
    SortBy(Filter(rows, x => IsUpdate(created(x), recordedAt(x), since, until)), recordedAt)
  }

  // ---------------------------------------------------------------- samples

  /** The samples whose consent has been withdrawn (flag value 1). */
  function FindConsentWithdrawnSamples(samples: seq<Sample>): (r: seq<Sample>)
    ensures forall s :: multiset(r)[s] == if s.consentWithdrawn == 1 then multiset(samples)[s] else 0
    ensures forall s :: s in r <==> s in samples && s.consentWithdrawn == 1
  {
    var r := Filter(samples, (s: Sample) => s.consentWithdrawn == 1);
    assert forall s :: s in r <==> multiset(r)[s] > 0;
    r
  }

  /** Why a lookup that demands exactly one row failed. */
  datatype LookupError = NotFound | MultipleMatches

  /** The one row satisfying `p` (SQLAlchemy's `scalar_one`); zero or several rows are an error. */
  function ScalarOne<R(==,!new)>(rows: seq<R>, p: R -> bool): (r: Result<R, LookupError>)
    ensures r == Err(NotFound) <==> NoneMatch(rows, p)
    ensures r == Err(MultipleMatches) <==> TwoMatch(rows, p)
    ensures r.Ok? ==> r.value in rows && p(r.value)
  {
    var m := Filter(rows, p);
    FilterEmpty(rows, p);
    FilterTwo(rows, p);
    if |m| == 0 then Err(NotFound)
    else if |m| == 1 then
      assert multiset(m)[m[0]] > 0;
      Ok(m[0])
    else Err(MultipleMatches)
  }

  /** A successful `ScalarOne` returns the only row of the table satisfying `p`. */
  lemma ScalarOneUnique<R(!new)>(rows: seq<R>, p: R -> bool, x: R)
    requires ScalarOne(rows, p).Ok?
    requires x in rows && p(x)
    ensures x == ScalarOne(rows, p).value
  {
  }

  /** The sample whose LIMS sample id is `sampleId`, when exactly one row has it. */
  function FindSampleBySampleId(samples: seq<Sample>, sampleId: string): (r: Result<Sample, LookupError>)
    ensures r == Err(NotFound) <==> forall i :: 0 <= i < |samples| ==> samples[i].idSampleLims != sampleId
    ensures r == Err(MultipleMatches) <==>
      exists i, j :: 0 <= i < j < |samples| && samples[i].idSampleLims == sampleId && samples[j].idSampleLims == sampleId
    ensures r.Ok? ==> r.value in samples && r.value.idSampleLims == sampleId
    ensures r.Ok? ==> forall s :: s in samples && s.idSampleLims == sampleId ==> s == r.value
  {
    var p := (s: Sample) => s.idSampleLims == sampleId;
    var r := ScalarOne(samples, p);
    if r.Ok? then
      assert forall s :: s in samples && s.idSampleLims == sampleId ==> s == r.value by {
        forall s | s in samples && p(s) ensures s == r.value {
          ScalarOneUnique(samples, p, s);
        }
      }
      r
    else r
  }

  /** The sample rows `find_updated_samples` reports, in the order it reports them. */
  function UpdatedSamples(samples: seq<Sample>, since: Timestamp, until: Timestamp): (r: seq<Sample>)
    ensures forall i, j :: 0 <= i < j < |r| ==> r[i].recordedAt <= r[j].recordedAt
    ensures forall s :: multiset(r)[s] == if IsUpdate(s.created, s.recordedAt, since, until) then multiset(samples)[s] else 0
  {
    UpdatedRows(samples, (s: Sample) => s.created, (s: Sample) => s.recordedAt, since, until)
  }

  /** The LIMS sample ids of the samples updated in the window, by ascending `recordedAt`. */
  function FindUpdatedSamples(samples: seq<Sample>, since: Timestamp, until: Timestamp): (ids: seq<string>)
    ensures var rows := UpdatedSamples(samples, since, until);
      |ids| == |rows| && forall i :: 0 <= i < |ids| ==> ids[i] == rows[i].idSampleLims
  {
    var rows := UpdatedSamples(samples, since, until);
    seq(|rows|, i requires 0 <= i < |rows| => rows[i].idSampleLims)
  }

  /** Every reported id is that of a sample recorded inside the window, both ends
      included, and not created in the day up to and including `since`. */
  lemma FindUpdatedSamplesSound(samples: seq<Sample>, since: Timestamp, until: Timestamp, i: int)
    requires 0 <= i < |FindUpdatedSamples(samples, since, until)|
    ensures var s := UpdatedSamples(samples, since, until)[i];
      && s in samples
      && FindUpdatedSamples(samples, since, until)[i] == s.idSampleLims
      && since <= s.recordedAt <= until
      && !(since - ONE_DAY <= s.created <= since)
  {
  }

  /** Every sample updated in the window is reported, and in a table whose primary
      keys are unique it is reported exactly once. */
  lemma FindUpdatedSamplesComplete(samples: seq<Sample>, since: Timestamp, until: Timestamp, s: Sample)
    requires s in samples
    requires since <= s.recordedAt <= until && !(since - ONE_DAY <= s.created <= since)
    ensures s in UpdatedSamples(samples, since, until)
    ensures s.idSampleLims in FindUpdatedSamples(samples, since, until)
    ensures UniqueIndex(samples, SamplePk) ==> multiset(UpdatedSamples(samples, since, until))[s] == 1
  {
    var rows := UpdatedSamples(samples, since, until);
    assert multiset(rows)[s] > 0;
    var k :| 0 <= k < |rows| && rows[k] == s;
    assert FindUpdatedSamples(samples, since, until)[k] == s.idSampleLims;
    if UniqueIndex(samples, SamplePk) {
      UniqueRowOccursOnce(samples, SamplePk, s);
    }
  }

  /**
   * A sample created in the day up to and including `since` is taken as new,
   * not updated, and is never reported, whatever its `recordedAt`; a sample
   * created and recorded exactly at `since` is one such.
   */
  lemma RecentlyCreatedNotReported(samples: seq<Sample>, s: Sample, since: Timestamp, until: Timestamp)
    requires since - ONE_DAY <= s.created <= since
    ensures s !in UpdatedSamples(samples, since, until)
  {
  }

  /** A sample created more than a day before `since` and recorded inside the window is reported. */
  lemma OldSampleUpdatedInWindowReported(s: Sample, since: Timestamp, until: Timestamp)
    requires since <= s.recordedAt <= until && s.created < since - ONE_DAY
    ensures FindUpdatedSamples([s], since, until) == [s.idSampleLims]
  {
  }

  /**
   * Both ends of the window are included, so a caller that resumes from the
   * previous `until` sees again a sample recorded exactly at that instant.
   */
  lemma SharedBoundaryReportedTwice(samples: seq<Sample>, s: Sample, t0: Timestamp, t1: Timestamp, t2: Timestamp)
    requires s in samples
    requires t0 <= t1 <= t2 && s.recordedAt == t1 && s.created < t0 - ONE_DAY
    ensures s in UpdatedSamples(samples, t0, t1) && s in UpdatedSamples(samples, t1, t2)
  {
  }

  // ---------------------------------------------------------------- studies

  /** The study whose LIMS study id is `studyId`, when exactly one row has it. */
  function FindStudyByStudyId(studies: seq<Study>, studyId: string): (r: Result<Study, LookupError>)
    ensures r == Err(NotFound) <==> forall i :: 0 <= i < |studies| ==> studies[i].idStudyLims != studyId
    ensures r == Err(MultipleMatches) <==>
      exists i, j :: 0 <= i < j < |studies| && studies[i].idStudyLims == studyId && studies[j].idStudyLims == studyId
    ensures r.Ok? ==> r.value in studies && r.value.idStudyLims == studyId
    ensures r.Ok? ==> forall s :: s in studies && s.idStudyLims == studyId ==> s == r.value
  {
    var p := (s: Study) => s.idStudyLims == studyId;
    var r := ScalarOne(studies, p);
    if r.Ok? then
      assert forall s :: s in studies && s.idStudyLims == studyId ==> s == r.value by {
        forall s | s in studies && p(s) ensures s == r.value {
          ScalarOneUnique(studies, p, s);
        }
      }
      r
    else r
  }

  /** The study rows `find_updated_studies` reports, in the order it reports them. */
  function UpdatedStudies(studies: seq<Study>, since: Timestamp, until: Timestamp): (r: seq<Study>)
    ensures forall i, j :: 0 <= i < j < |r| ==> r[i].recordedAt <= r[j].recordedAt
    ensures forall s :: multiset(r)[s] == if IsUpdate(s.created, s.recordedAt, since, until) then multiset(studies)[s] else 0
  {
    UpdatedRows(studies, (s: Study) => s.created, (s: Study) => s.recordedAt, since, until)
  }

  /** The LIMS study ids of the studies updated in the window, by ascending `recordedAt`. */
  function FindUpdatedStudies(studies: seq<Study>, since: Timestamp, until: Timestamp): (ids: seq<string>)
    ensures var rows := UpdatedStudies(studies, since, until);
      |ids| == |rows| && forall i :: 0 <= i < |ids| ==> ids[i] == rows[i].idStudyLims
  {
    var rows := UpdatedStudies(studies, since, until);
    seq(|rows|, i requires 0 <= i < |rows| => rows[i].idStudyLims)
  }

  /** Every reported id is that of a study recorded inside the window, both ends
      included, and not created in the day up to and including `since`. */
  lemma FindUpdatedStudiesSound(studies: seq<Study>, since: Timestamp, until: Timestamp, i: int)
    requires 0 <= i < |FindUpdatedStudies(studies, since, until)|
    ensures var s := UpdatedStudies(studies, since, until)[i];
      && s in studies
      && FindUpdatedStudies(studies, since, until)[i] == s.idStudyLims
      && since <= s.recordedAt <= until
      && !(since - ONE_DAY <= s.created <= since)
  {
  }

  /** Every study updated in the window is reported, and in a table whose primary
      keys are unique it is reported exactly once. */
  lemma FindUpdatedStudiesComplete(studies: seq<Study>, since: Timestamp, until: Timestamp, s: Study)
    requires s in studies
    requires since <= s.recordedAt <= until && !(since - ONE_DAY <= s.created <= since)
    ensures s in UpdatedStudies(studies, since, until)
    ensures s.idStudyLims in FindUpdatedStudies(studies, since, until)
    ensures UniqueIndex(studies, StudyPk) ==> multiset(UpdatedStudies(studies, since, until))[s] == 1
  {
    var rows := UpdatedStudies(studies, since, until);
    assert multiset(rows)[s] > 0;
    var k :| 0 <= k < |rows| && rows[k] == s;
    assert FindUpdatedStudies(studies, since, until)[k] == s.idStudyLims;
    if UniqueIndex(studies, StudyPk) {
      UniqueRowOccursOnce(studies, StudyPk, s);
    }
  }
}
