/**
 * The warehouse schema of `src/npg_irods/db/mlwh.py`: the sequencing
 * platform enumeration, one datatype per table row, the uniqueness and
 * foreign-key constraints the tables declare, and the storage layer's
 * admission of a new row, which rejects a row breaking any of them.
 *
 * A DateTime column is an integer count of seconds; `pk` stands for each
 * table's auto-incremented surrogate key (`id_sample_tmp`, `id_study_tmp`, ...).
 */
module Schema {
  import opened Wrappers
  import opened RowSeqs

  /** A point in time, in whole seconds. */
  type Timestamp = int

  /**
   * The sequencing platforms a product location may name. The enumeration
   * declares the values Illumina = 1, ONT = 2, PacBio = 3, but the column
   * stores member names, so only the names matter here.
   */
  datatype Platform = Illumina | ONT | PacBio

  /** The member name, which is what an `Enum(Platform)` column stores. */
  function PlatformName(p: Platform): string
  {
    match p
    case Illumina => "Illumina"
    case ONT => "ONT"
    case PacBio => "PacBio"
  }

  /** The error kinds the storage layer reports for a rejected row. */
  datatype ConstraintViolation =
    | PrimaryKey(table: string)
    | DuplicateKey(index: string)
    | ForeignKey(column: string)
    | EnumValue(value: string)

  /** Reads a stored `seq_platform_name`: one of the three member names, anything else is rejected. */
  function ParsePlatform(name: string): (r: Result<Platform, ConstraintViolation>)
    ensures r.Ok? ==> PlatformName(r.value) == name
    ensures r.Err? ==> r.error == EnumValue(name) && forall p: Platform :: PlatformName(p) != name
  {
    if name == "Illumina" then Ok(Illumina)
    else if name == "ONT" then Ok(ONT)
    else if name == "PacBio" then Ok(PacBio)
    else Err(EnumValue(name))
  }

  /** Storing a platform by name and reading it back gives the same platform. */
  lemma PlatformRoundTrip(p: Platform)
    ensures ParsePlatform(PlatformName(p)) == Ok(p)
  {
  }

  /** A row of the `sample` table. */
  datatype Sample = Sample(
    pk: int,
    idLims: string,
    idSampleLims: string,
    created: Timestamp,
    lastUpdated: Timestamp,
    recordedAt: Timestamp,
    consentWithdrawn: int,
    name: Option<string>,
    organism: Option<string>,
    accessionNumber: Option<string>,
    commonName: Option<string>,
    cohort: Option<string>,
    sangerSampleId: Option<string>,
    supplierName: Option<string>,
    publicName: Option<string>,
    donorId: Option<string>,
    dateOfConsentWithdrawn: Option<Timestamp>,
    markedAsConsentWithdrawnBy: Option<string>,
    uuidSampleLims: string)

  /** A row of the `study` table. */
  datatype Study = Study(
    pk: int,
    idLims: string,
    idStudyLims: string,
    created: Timestamp,
    lastUpdated: Timestamp,
    recordedAt: Timestamp,
    name: Option<string>,
    accessionNumber: Option<string>,
    description: Option<string>,
    containsHumanDna: Option<int>,
    contaminatedHumanDna: Option<int>,
    removeXAndAutosomes: Option<int>,
    separateYChromosomeData: Option<int>,
    enaProjectId: Option<string>,
    studyTitle: Option<string>,
    studyVisibility: Option<string>,
    egaDacAccessionNumber: Option<string>,
    dataAccessGroup: Option<string>)

  /** A row of the `iseq_flowcell` table: one Illumina lane entry. */
  datatype IseqFlowcell = IseqFlowcell(
    pk: int,
    lastUpdated: Timestamp,
    recordedAt: Timestamp,
    sampleFk: int,
    idLims: string,
    idFlowcellLims: string,
    position: int,
    entityType: string,
    entityIdLims: string,
    idPoolLims: string,
    studyFk: Option<int>,
    manualQc: Option<int>,
    tagIndex: Option<int>,
    pipelineIdLims: Option<string>,
    idLibraryLims: Option<string>,
    primerPanel: Option<string>)

  /** A row of the `iseq_product_metrics` table; its flowcell link is NULL once the flowcell is deleted. */
  datatype IseqProductMetrics = IseqProductMetrics(
    pk: int,
    idIseqProduct: string,
    lastChanged: Option<Timestamp>,
    flowcellFk: Option<int>,
    idRun: Option<int>,
    position: Option<int>,
    tagIndex: Option<int>,
    qc: Option<int>)

  /** A row of the `oseq_flowcell` table: one Nanopore flowcell entry. */
  datatype OseqFlowcell = OseqFlowcell(
    pk: int,
    idFlowcellLims: string,
    lastUpdated: Timestamp,
    recordedAt: Timestamp,
    sampleFk: int,
    studyFk: int,
    experimentName: string,
    instrumentName: string,
    instrumentSlot: int,
    idLims: string,
    pipelineIdLims: Option<string>,
    requestedDataType: Option<string>,
    tagIdentifier: Option<string>,
    tagSequence: Option<string>,
    tagSetIdLims: Option<string>,
    tagSetName: Option<string>,
    tag2Identifier: Option<string>,
    tag2Sequence: Option<string>,
    tag2SetIdLims: Option<string>,
    tag2SetName: Option<string>,
    flowcellId: Option<string>,
    runId: Option<string>)

  /** A row of the `pac_bio_run` table: one PacBio run and well entry. */
  datatype PacBioRun = PacBioRun(
    pk: int,
    lastUpdated: Timestamp,
    recordedAt: Timestamp,
    sampleFk: int,
    studyFk: int,
    pacBioRunName: Option<string>,
    wellLabel: string,
    plateNumber: Option<int>,
    idLims: string,
    idPacBioRunLims: string,
    tagIdentifier: Option<string>,
    tagSequence: Option<string>,
    tagSetIdLims: Option<string>,
    tagSetName: Option<string>,
    tag2Sequence: Option<string>,
    tag2SetIdLims: Option<string>,
    tag2SetName: Option<string>,
    tag2Identifier: Option<string>)

  /** A row of the `pac_bio_run_well_metrics` table. */
  datatype PacBioRunWellMetrics = PacBioRunWellMetrics(
    pk: int,
    lastChanged: Option<Timestamp>,
    idPacBioProduct: string,
    pacBioRunName: string,
    wellLabel: string,
    plateNumber: Option<int>)

  /** A row of the `pac_bio_product_metrics` table. */
  datatype PacBioProductMetrics = PacBioProductMetrics(
    lastChanged: Option<Timestamp>,
    pk: int,
    rwMetricsFk: int,
    runFk: int,
    idPacBioProduct: string,
    qc: bool)

  /** A row of the `seq_product_irods_locations` table: where a product is stored. */
  datatype SeqProductIrodsLocations = SeqProductIrodsLocations(
    pk: int,
    created: Option<Timestamp>,
    lastChanged: Option<Timestamp>,
    idProduct: string,
    seqPlatformName: Platform,
    pipelineName: string,
    irodsRootCollection: string,
    irodsDataRelativePath: Option<string>,
    irodsSecondaryDataRelativePath: Option<string>)

  /** The nine tables of the warehouse. */
  datatype Warehouse = Warehouse(
    samples: seq<Sample>,
    studies: seq<Study>,
    iseqFlowcells: seq<IseqFlowcell>,
    iseqProductMetrics: seq<IseqProductMetrics>,
    oseqFlowcells: seq<OseqFlowcell>,
    pacBioRuns: seq<PacBioRun>,
    pacBioRunWellMetrics: seq<PacBioRunWellMetrics>,
    pacBioProductMetrics: seq<PacBioProductMetrics>,
    seqProductIrodsLocations: seq<SeqProductIrodsLocations>)

  // Index keys. A key is None when one of its columns is NULL.

  function SamplePk(s: Sample): Option<int> { Some(s.pk) }
  function StudyPk(s: Study): Option<int> { Some(s.pk) }
  function IseqFlowcellPk(f: IseqFlowcell): Option<int> { Some(f.pk) }
  function IseqProductMetricsPk(m: IseqProductMetrics): Option<int> { Some(m.pk) }
  function OseqFlowcellPk(f: OseqFlowcell): Option<int> { Some(f.pk) }
  function PacBioRunPk(r: PacBioRun): Option<int> { Some(r.pk) }
  function PacBioRunWellMetricsPk(m: PacBioRunWellMetrics): Option<int> { Some(m.pk) }
  function PacBioProductMetricsPk(m: PacBioProductMetrics): Option<int> { Some(m.pk) }
  function LocationPk(l: SeqProductIrodsLocations): Option<int> { Some(l.pk) }

  /** The unique `id_iseq_product` column. */
  function IseqProductKey(m: IseqProductMetrics): Option<string> { Some(m.idIseqProduct) }

  /** The unique index `pac_bio_metrics_run_well` on (run name, well label, plate number). */
  function RunWellKey(m: PacBioRunWellMetrics): Option<(string, string, int)> {
    if m.plateNumber.Some? then Some((m.pacBioRunName, m.wellLabel, m.plateNumber.value)) else None
  }

  /** The unique `id_pac_bio_product` column of the product metrics. */
  function PacBioProductKey(m: PacBioProductMetrics): Option<string> { Some(m.idPacBioProduct) }

  /** The unique index `pac_bio_metrics_product` on (run, well metrics). */
  function RunAndWellMetricsKey(m: PacBioProductMetrics): Option<(int, int)> { Some((m.runFk, m.rwMetricsFk)) }

  /** A foreign key: NULL, or the primary key of some row of `parents`. */
  predicate References<P>(fk: Option<int>, parents: seq<P>, pk: P -> Option<int>) {
    fk.None? || exists i :: 0 <= i < |parents| && pk(parents[i]) == fk
  }

  /** Every primary key is unique in its table. */
  predicate PrimaryKeysUnique(w: Warehouse) {
    && UniqueIndex(w.samples, SamplePk)
    && UniqueIndex(w.studies, StudyPk)
    && UniqueIndex(w.iseqFlowcells, IseqFlowcellPk)
    && UniqueIndex(w.iseqProductMetrics, IseqProductMetricsPk)
    && UniqueIndex(w.oseqFlowcells, OseqFlowcellPk)
    && UniqueIndex(w.pacBioRuns, PacBioRunPk)
    && UniqueIndex(w.pacBioRunWellMetrics, PacBioRunWellMetricsPk)
    && UniqueIndex(w.pacBioProductMetrics, PacBioProductMetricsPk)
    && UniqueIndex(w.seqProductIrodsLocations, LocationPk)
  }

  /** Every declared unique column and unique index holds. */
  predicate SecondaryKeysUnique(w: Warehouse) {
    && UniqueIndex(w.iseqProductMetrics, IseqProductKey)
    && UniqueIndex(w.pacBioRunWellMetrics, RunWellKey)
    && UniqueIndex(w.pacBioProductMetrics, PacBioProductKey)
    && UniqueIndex(w.pacBioProductMetrics, RunAndWellMetricsKey)
  }

  /** Every declared foreign key refers to an existing row. */
  predicate ForeignKeysHold(w: Warehouse) {
    && (forall f :: f in w.iseqFlowcells ==>
          References(Some(f.sampleFk), w.samples, SamplePk) && References(f.studyFk, w.studies, StudyPk))
    && (forall m :: m in w.iseqProductMetrics ==>
          References(m.flowcellFk, w.iseqFlowcells, IseqFlowcellPk))
    && (forall f :: f in w.oseqFlowcells ==>
          References(Some(f.sampleFk), w.samples, SamplePk) && References(Some(f.studyFk), w.studies, StudyPk))
    && (forall r :: r in w.pacBioRuns ==>
          References(Some(r.sampleFk), w.samples, SamplePk) && References(Some(r.studyFk), w.studies, StudyPk))
    && (forall m :: m in w.pacBioProductMetrics ==>
          References(Some(m.rwMetricsFk), w.pacBioRunWellMetrics, PacBioRunWellMetricsPk)
          && References(Some(m.runFk), w.pacBioRuns, PacBioRunPk))
  }

  /** The warehouse satisfies every constraint its schema declares. */
  predicate WellFormed(w: Warehouse)
    // no two Illumina product metrics rows share a product id
    ensures WellFormed(w) ==> forall i, j :: 0 <= i < j < |w.iseqProductMetrics| ==>
      w.iseqProductMetrics[i].idIseqProduct != w.iseqProductMetrics[j].idIseqProduct
    // no two run-well rows with a non-NULL plate share run name, well label and plate
    ensures WellFormed(w) ==> forall i, j :: 0 <= i < j < |w.pacBioRunWellMetrics| ==>
      var a, b := w.pacBioRunWellMetrics[i], w.pacBioRunWellMetrics[j];
      a.plateNumber.Some? ==> (a.pacBioRunName, a.wellLabel, a.plateNumber) != (b.pacBioRunName, b.wellLabel, b.plateNumber)
    // no two PacBio product metrics rows share a product id, or a (run, well metrics) pair
    ensures WellFormed(w) ==> forall i, j :: 0 <= i < j < |w.pacBioProductMetrics| ==>
      var a, b := w.pacBioProductMetrics[i], w.pacBioProductMetrics[j];
      a.idPacBioProduct != b.idPacBioProduct && (a.runFk, a.rwMetricsFk) != (b.runFk, b.rwMetricsFk)
    // a non-NULL flowcell link of an Illumina product metrics row names an existing flowcell
    ensures WellFormed(w) ==> forall m :: m in w.iseqProductMetrics && m.flowcellFk.Some? ==>
      exists f :: f in w.iseqFlowcells && f.pk == m.flowcellFk.value
  {
    PrimaryKeysUnique(w) && SecondaryKeysUnique(w) && ForeignKeysHold(w)
  }

  /** The storage layer's insertion of an Illumina product metrics row. */
  function InsertIseqProductMetrics(w: Warehouse, m: IseqProductMetrics): (r: Result<Warehouse, ConstraintViolation>)
    ensures r.Ok? ==> r.value == w.(iseqProductMetrics := w.iseqProductMetrics + [m])
    ensures r == Err(DuplicateKey("id_iseq_product")) ==>
      exists i :: 0 <= i < |w.iseqProductMetrics| && w.iseqProductMetrics[i].idIseqProduct == m.idIseqProduct
    ensures r == Err(ForeignKey("id_iseq_flowcell_tmp")) ==>
      m.flowcellFk.Some? && forall f :: f in w.iseqFlowcells ==> Some(f.pk) != m.flowcellFk
  {
    if Collides(w.iseqProductMetrics, m, IseqProductMetricsPk) then Err(PrimaryKey("iseq_product_metrics"))
    else if Collides(w.iseqProductMetrics, m, IseqProductKey) then Err(DuplicateKey("id_iseq_product"))
    else if !References(m.flowcellFk, w.iseqFlowcells, IseqFlowcellPk) then Err(ForeignKey("id_iseq_flowcell_tmp"))
    else Ok(w.(iseqProductMetrics := w.iseqProductMetrics + [m]))
  }

  /** On a well-formed warehouse the insertion succeeds exactly when the table with the new row is still well formed. */
  lemma InsertIseqProductMetricsExact(w: Warehouse, m: IseqProductMetrics)
    requires WellFormed(w)
    ensures InsertIseqProductMetrics(w, m).Ok? <==> WellFormed(w.(iseqProductMetrics := w.iseqProductMetrics + [m]))
  {
    UniqueIndexAppend(w.iseqProductMetrics, m, IseqProductMetricsPk);
    UniqueIndexAppend(w.iseqProductMetrics, m, IseqProductKey);
  }

  /** The storage layer's insertion of a PacBio run-well metrics row. */
  function InsertPacBioRunWellMetrics(w: Warehouse, m: PacBioRunWellMetrics): (r: Result<Warehouse, ConstraintViolation>)
    ensures r.Ok? ==> r.value == w.(pacBioRunWellMetrics := w.pacBioRunWellMetrics + [m])
    ensures r == Err(DuplicateKey("pac_bio_metrics_run_well")) ==>
      m.plateNumber.Some? &&
      exists i :: 0 <= i < |w.pacBioRunWellMetrics| &&
        var o := w.pacBioRunWellMetrics[i];
        o.pacBioRunName == m.pacBioRunName && o.wellLabel == m.wellLabel && o.plateNumber == m.plateNumber
  {
    if Collides(w.pacBioRunWellMetrics, m, PacBioRunWellMetricsPk) then Err(PrimaryKey("pac_bio_run_well_metrics"))
    else if Collides(w.pacBioRunWellMetrics, m, RunWellKey) then Err(DuplicateKey("pac_bio_metrics_run_well"))
    else Ok(w.(pacBioRunWellMetrics := w.pacBioRunWellMetrics + [m]))
  }

  /** On a well-formed warehouse the insertion succeeds exactly when the table with the new row is still well formed. */
  lemma InsertPacBioRunWellMetricsExact(w: Warehouse, m: PacBioRunWellMetrics)
    requires WellFormed(w)
    ensures InsertPacBioRunWellMetrics(w, m).Ok? <==> WellFormed(w.(pacBioRunWellMetrics := w.pacBioRunWellMetrics + [m]))
  {
    var w' := w.(pacBioRunWellMetrics := w.pacBioRunWellMetrics + [m]);
    UniqueIndexAppend(w.pacBioRunWellMetrics, m, PacBioRunWellMetricsPk);
    UniqueIndexAppend(w.pacBioRunWellMetrics, m, RunWellKey);
    forall x | x in w'.pacBioProductMetrics
      ensures References(Some(x.rwMetricsFk), w'.pacBioRunWellMetrics, PacBioRunWellMetricsPk)
    {
      assert References(Some(x.rwMetricsFk), w.pacBioRunWellMetrics, PacBioRunWellMetricsPk);
      var i :| 0 <= i < |w.pacBioRunWellMetrics| && PacBioRunWellMetricsPk(w.pacBioRunWellMetrics[i]) == Some(x.rwMetricsFk);
      assert w'.pacBioRunWellMetrics[i] == w.pacBioRunWellMetrics[i];
    }
    assert ForeignKeysHold(w');
  }

  /** The storage layer's insertion of a PacBio product metrics row. */
  function InsertPacBioProductMetrics(w: Warehouse, m: PacBioProductMetrics): (r: Result<Warehouse, ConstraintViolation>)
    ensures r.Ok? ==> r.value == w.(pacBioProductMetrics := w.pacBioProductMetrics + [m])
    ensures r == Err(DuplicateKey("id_pac_bio_product")) ==>
      exists i :: 0 <= i < |w.pacBioProductMetrics| && w.pacBioProductMetrics[i].idPacBioProduct == m.idPacBioProduct
    ensures r == Err(DuplicateKey("pac_bio_metrics_product")) ==>
      exists i :: 0 <= i < |w.pacBioProductMetrics| &&
        w.pacBioProductMetrics[i].runFk == m.runFk && w.pacBioProductMetrics[i].rwMetricsFk == m.rwMetricsFk
  {
    if Collides(w.pacBioProductMetrics, m, PacBioProductMetricsPk) then Err(PrimaryKey("pac_bio_product_metrics"))
    else if Collides(w.pacBioProductMetrics, m, PacBioProductKey) then Err(DuplicateKey("id_pac_bio_product"))
    else if Collides(w.pacBioProductMetrics, m, RunAndWellMetricsKey) then Err(DuplicateKey("pac_bio_metrics_product"))
    else if !References(Some(m.rwMetricsFk), w.pacBioRunWellMetrics, PacBioRunWellMetricsPk) then Err(ForeignKey("id_pac_bio_rw_metrics_tmp"))
    else if !References(Some(m.runFk), w.pacBioRuns, PacBioRunPk) then Err(ForeignKey("id_pac_bio_tmp"))
    else Ok(w.(pacBioProductMetrics := w.pacBioProductMetrics + [m]))
  }

  /** On a well-formed warehouse the insertion succeeds exactly when the table with the new row is still well formed. */
  lemma InsertPacBioProductMetricsExact(w: Warehouse, m: PacBioProductMetrics)
    requires WellFormed(w)
    ensures InsertPacBioProductMetrics(w, m).Ok? <==> WellFormed(w.(pacBioProductMetrics := w.pacBioProductMetrics + [m]))
  {
    UniqueIndexAppend(w.pacBioProductMetrics, m, PacBioProductMetricsPk);
    UniqueIndexAppend(w.pacBioProductMetrics, m, PacBioProductKey);
    UniqueIndexAppend(w.pacBioProductMetrics, m, RunAndWellMetricsKey);
  }

  /** A run-well metrics row whose plate number is NULL never collides on the
      (run, well, plate) index, so such rows are admitted whatever rows exist. */
  lemma NullPlateAdmitted(w: Warehouse, m: PacBioRunWellMetrics)
    requires m.plateNumber.None?
    requires !Collides(w.pacBioRunWellMetrics, m, PacBioRunWellMetricsPk)
    ensures InsertPacBioRunWellMetrics(w, m).Ok?
  {
  }

  /** A platform name outside the enumeration, such as "Nanopore", is rejected. */
  lemma UnknownPlatformRejected()
    ensures ParsePlatform("Nanopore") == Err(EnumValue("Nanopore"))
  {
  }
}
