/** The converter's run over one parsed input file: the header check, then
    one evidence string per row, in row order, with a running count. */
module Conversion {
  import opened Wrappers
  import opened ConsequenceMap
  import opened EvidenceStrings

  /** One parsed input line: column name to the value in that column. */
  type Row = map<string, string>

  /** The columns that the header must name, in the order they are checked. */
  const RequiredColumns: seq<string> :=
    ["sample_id", "phenotype", "db_snp_id", "tier", "genomic_feature_ensembl_id", "consequence_type"]

  /** What a run produces: the records emitted so far, the number counted,
      and the error that stopped the run, if any. */
  datatype RunResult = RunResult(records: seq<EvidenceString>, count: nat, failure: Option<Error>)

  /** The index of the first column not named in the header, or |columns|
      when every column is there. */
  function FirstMissingIndex(columns: seq<string>, header: seq<string>): (k: nat)
    ensures k <= |columns|
    ensures forall j | 0 <= j < k :: columns[j] in header
    ensures k < |columns| ==> columns[k] !in header
  {
    if columns == [] then 0
    else if columns[0] !in header then 0
    else 1 + FirstMissingIndex(columns[1..], header)
  }

  /** A row's value for a column; a missing key raises in the converter. */
  function Field(row: Row, column: string): (r: Result<string, Error>)
    ensures r.Success? <==> column in row
    ensures r.Success? ==> r.value == row[column]
    ensures r.Failure? ==> r.error == MissingField(column)
  {
    if column in row then Success(row[column]) else Failure(MissingField(column))
  }

  /** The columns a row is indexed by, in the order the converter evaluates
      the builder's arguments. */
  const ArgOrder: seq<string> :=
    ["genomic_feature_ensembl_id", "phenotype", "db_snp_id", "consequence_type", "sample_id", "tier"]

  /** The record for one row: its six fields, read in the order the converter
      passes them, given to the builder. A row without one of them fails with
      the first absent one in that order. */
  function BuildFromRow(row: Row): (r: Result<EvidenceString, Error>)
    ensures forall j | 0 <= j < |ArgOrder| && ArgOrder[j] !in row && (forall i | 0 <= i < j :: ArgOrder[i] in row) ::
              r == Failure(MissingField(ArgOrder[j]))
    ensures (forall c | c in RequiredColumns :: c in row) ==>
              r == BuildEvidenceString(row["genomic_feature_ensembl_id"], row["phenotype"], row["db_snp_id"],
                                       row["consequence_type"], row["sample_id"], row["tier"])
    ensures r.Failure? && r.error.MissingField? ==>
              r.error.column in RequiredColumns && r.error.column !in row
    ensures r.Failure? ==> r.error.MissingField? || r.error.UnknownConsequence?
  {
    assert && ArgOrder[0] == "genomic_feature_ensembl_id" && ArgOrder[1] == "phenotype"
           && ArgOrder[2] == "db_snp_id" && ArgOrder[3] == "consequence_type"
           && ArgOrder[4] == "sample_id" && ArgOrder[5] == "tier";
    var ensemblId :- Field(row, "genomic_feature_ensembl_id");
    var phenotype :- Field(row, "phenotype");
    var dbSnpId :- Field(row, "db_snp_id");
    var consequenceType :- Field(row, "consequence_type");
    var sampleId :- Field(row, "sample_id");
    var tier :- Field(row, "tier");
    BuildEvidenceString(ensemblId, phenotype, dbSnpId, consequenceType, sampleId, tier)
  }

  /** The records emitted for the given rows and the error, if any, that
      stopped the emission. */
  datatype Emission = Emission(records: seq<EvidenceString>, failure: Option<Error>)

  /** The records are the built records of a prefix of the rows, and the
      emission either covers every row or stops with the error of the first
      row that did not build. */
  predicate EmittedFrom(rows: seq<Row>, o: Emission) {
    && |o.records| <= |rows|
    && (forall i | 0 <= i < |o.records| :: BuildFromRow(rows[i]) == Success(o.records[i]))
    && (o.failure.None? ==> |o.records| == |rows|)
    && (o.failure.Some? ==>
          |o.records| < |rows| && BuildFromRow(rows[|o.records|]) == Failure(o.failure.value))
  }

  /** Emission row by row: each row's record is emitted before the next row
      is read, and the first failing row ends the emission, keeping what was
      already emitted. */
  function Emit(rows: seq<Row>): (o: Emission)
    ensures EmittedFrom(rows, o)
  {
    if rows == [] then Emission([], None)
    else
      match BuildFromRow(rows[0])
      case Failure(e) => Emission([], Some(e))
      case Success(record) =>
        var rest := Emit(rows[1..]);
        Emission([record] + rest.records, rest.failure)
  }

  /** EmittedFrom holds of no emission but Emit's. */
  lemma EmitUnique(rows: seq<Row>, o: Emission)
    requires EmittedFrom(rows, o)
    ensures o == Emit(rows)
  {
  }

  /** The whole run: nothing is emitted unless every required column is in
      the header. */
  function Convert(header: seq<string>, rows: seq<Row>): (r: RunResult)
  {
    var k := FirstMissingIndex(RequiredColumns, header);
    if k < |RequiredColumns| then RunResult([], 0, Some(MissingColumn(RequiredColumns[k])))
    else
      var o := Emit(rows);
      RunResult(o.records, |o.records|, o.failure)
  }

  /** The converter's main loop: check the header column by column, stopping
      at the first missing one, then build, emit and count one record per row. */
  method Run(header: seq<string>, rows: seq<Row>) returns (result: RunResult)
    ensures result == Convert(header, rows)
  {
    for i := 0 to |RequiredColumns|
      invariant forall j | 0 <= j < i :: RequiredColumns[j] in header
    {
      if RequiredColumns[i] !in header {
        return RunResult([], 0, Some(MissingColumn(RequiredColumns[i])));
      }
    }
    var records: seq<EvidenceString> := [];
    var count: nat := 0;
    for i := 0 to |rows|
      invariant count == |records| == i
      invariant forall j | 0 <= j < i :: BuildFromRow(rows[j]) == Success(records[j])
    {
      var built := BuildFromRow(rows[i]);
      if built.Failure? {
        EmitUnique(rows, Emission(records, Some(built.error)));
        return RunResult(records, count, Some(built.error));
      }
      records := records + [built.value];
      count := count + 1;
    }
    EmitUnique(rows, Emission(records, None));
    result := RunResult(records, count, None);
  }

  /** A run whose header lacks a required column emits nothing and reports the
      first absent column in the order of RequiredColumns. */
  lemma MissingColumnStopsRun(header: seq<string>, rows: seq<Row>, k: nat)
    requires k < |RequiredColumns| && RequiredColumns[k] !in header
    requires forall j | 0 <= j < k :: RequiredColumns[j] in header
    ensures Convert(header, rows) == RunResult([], 0, Some(MissingColumn(RequiredColumns[k])))
  {
  }

  /** Conversely, a run reports a missing column only when a required column
      is absent, and then it has emitted nothing. */
  lemma MissingColumnReported(header: seq<string>, rows: seq<Row>)
    requires Convert(header, rows).failure.Some? && Convert(header, rows).failure.value.MissingColumn?
    ensures Convert(header, rows).failure.value.column in RequiredColumns
    ensures Convert(header, rows).failure.value.column !in header
    ensures Convert(header, rows).records == [] && Convert(header, rows).count == 0
  {
  }

  /** With every required column present and every row built, there is one
      record per row, the i-th built from the i-th row, and the count is the
      number of rows. */
  lemma AllRowsConverted(header: seq<string>, rows: seq<Row>)
    requires forall c | c in RequiredColumns :: c in header
    requires forall i | 0 <= i < |rows| :: BuildFromRow(rows[i]).Success?
    ensures Convert(header, rows).failure == None
    ensures |Convert(header, rows).records| == Convert(header, rows).count == |rows|
    ensures forall i | 0 <= i < |rows| :: Convert(header, rows).records[i] == BuildFromRow(rows[i]).value
  {
  }

  /** A row that fails to build ends the run there: the records of the rows
      before it stay emitted and counted, and its error is reported. */
  lemma FailingRowStopsRun(header: seq<string>, rows: seq<Row>, k: nat)
    requires forall c | c in RequiredColumns :: c in header
    requires k < |rows| && BuildFromRow(rows[k]).Failure?
    requires forall i | 0 <= i < k :: BuildFromRow(rows[i]).Success?
    ensures Convert(header, rows).failure == Some(BuildFromRow(rows[k]).error)
    ensures |Convert(header, rows).records| == Convert(header, rows).count == k
    ensures forall i | 0 <= i < k :: Convert(header, rows).records[i] == BuildFromRow(rows[i]).value
  {
  }

  /** The count is always the number of records emitted. */
  lemma CountsRecords(header: seq<string>, rows: seq<Row>)
    ensures Convert(header, rows).count == |Convert(header, rows).records|
  {
  }

  /** Rows as a dictionary reader yields them have a value for every header
      column, so once the header check passes the only row error left is an
      unknown consequence label, that of the first row not emitted. */
  lemma ReaderRowsFailOnlyOnConsequence(header: seq<string>, rows: seq<Row>)
    requires forall c | c in RequiredColumns :: c in header
    requires forall i, c | 0 <= i < |rows| && c in header :: c in rows[i]
    ensures var r := Convert(header, rows);
      r.failure.Some? ==>
        && |r.records| < |rows|
        && r.failure.value == UnknownConsequence(rows[|r.records|]["consequence_type"])
        && rows[|r.records|]["consequence_type"] !in ConsequenceToSo
  {
  }
}
