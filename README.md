# GEL tiering to Open Targets evidence strings, modelled in Dafny

The converter `gel_tiering_to_ot.py` reads a tab-separated export of GEL
tiering results and writes one Open Targets "genetic association" evidence
string per row. This project models its core:

- `ConsequenceMap` (consequence_map.dfy): the static table from Sequence
  Ontology consequence labels (`missense_variant`, `stop_gained`, ...) to SO
  term URIs, as a `map<string, string>` with the 35 entries of the source, and
  the exact, case-sensitive lookup the builder makes in it. A label that is not
  a key has no entry and nothing is substituted.
- `EvidenceStrings` (evidence_strings.dfy): the evidence string as nested
  datatypes (target, disease, variant, the gene-to-variant and
  variant-to-disease evidence blocks, provenance, resource score), the
  builder `BuildEvidenceString`, which fails with `UnknownConsequence` where
  the source raises `KeyError`, and its inverse `Decode` on well-formed
  records.
- `Conversion` (conversion.dfy): the run over a parsed file. `Run` is the
  source's `main` loop as a method: it checks the six required columns in
  order and stops at the first one the header lacks, then builds, emits and
  counts one record per row. `Convert` is the functional specification it is
  proved equal to; the lemmas about `Convert` state the run's promises.
- `Scenarios` (examples_run.dfy): concrete runs — one record, an unknown
  label, a two-row file and a file without the `tier` column.
- `Wrappers` (wrappers.dfy): `Option` and a failure-compatible `Result`.

The table has 35 entries in the code. Both the unknown-label lookup and a row
without a required key raise `KeyError` in the source; the model names them
`UnknownConsequence` and `MissingField`. The JSON member `type` is the field `recordType` (and
`variantType`, `scoreType` inside `variant` and `resource_score`), since
`type` is a Dafny keyword.

A failing row ends the run at that row: in the source the exception
propagates out of the loop after the earlier records were printed, so the
model keeps the records emitted before it and reports the row's error.

## Model

| member | source | states |
|---|---|---|
| `ConsequenceMap.LookupConsequence` | gel_tiering_to_ot.py:62-63 | the lookup succeeds exactly when the label is a key of the table, and then yields that key's entry; otherwise there is no value and no default |
| `ConsequenceMap.TermsAreSoUris` | gel_tiering_to_ot.py:131-167 | every value of the table is `http://purl.obolibrary.org/obo/SO_` followed by seven decimal digits |
| `ConsequenceMap.LookupYieldsSoTerm` | gel_tiering_to_ot.py:62-63 | a successful lookup yields a Sequence Ontology term URI |
| `ConsequenceMap.TermsDistinct` | gel_tiering_to_ot.py:131-167 | distinct labels map to distinct term URIs |
| `ConsequenceMap.LookupInjective` | gel_tiering_to_ot.py:62-63 | two labels that resolve to the same term are the same label |
| `EvidenceStrings.UniqueAssociationFields` | gel_tiering_to_ot.py:71-76 | the uniqueness key has exactly the keys sample_id, gene, phenotype, variant, mapped to the given values |
| `EvidenceStrings.BuildEvidenceString` | gel_tiering_to_ot.py:53-126 | the builder succeeds exactly when the consequence label is in the table and otherwise fails with that label |
| `EvidenceStrings.DecodeBuild` | gel_tiering_to_ot.py:53-126 | a built record is well formed — source "eva", access level "public", schema "1.2.8", type "genetic_association", the target-type and loss-of-function URIs, variant type "snp single", both dates "2018-10-22T23:00:00", provenance {id "abc", version "1"}, the two evidence codes, score of type "probability" and value 1 — and decodes to exactly its five non-tier inputs |
| `EvidenceStrings.BuildDecode` | gel_tiering_to_ot.py:53-126 | every well-formed record is what the builder makes from the inputs it decodes to, with any tier: the builder's results are exactly the well-formed records |
| `EvidenceStrings.FunctionalConsequenceFromTable` | gel_tiering_to_ot.py:103 | for a label in the table the record's functional consequence is that label's table entry |
| `EvidenceStrings.IdentifierUris` | gel_tiering_to_ot.py:77-88 | target id is `http://identifiers.org/ensembl/` + Ensembl id and variant id is `http://identifiers.org/dbsnp/` + dbSNP id, with no other transformation |
| `EvidenceStrings.PassThroughFields` | gel_tiering_to_ot.py:71-106 | disease id is the phenotype, the experiment reference is the sample id, and the uniqueness key maps its four keys to sample id, Ensembl id, phenotype and dbSNP id |
| `EvidenceStrings.TierIgnored` | gel_tiering_to_ot.py:53-126 | two calls that differ only in the tier give the same result |
| `EvidenceStrings.BuildInjective` | gel_tiering_to_ot.py:53-126 | equal successful results come from equal inputs apart from the tier |
| `Conversion.FirstMissingIndex` | gel_tiering_to_ot.py:36-40 | the index found is that of the first column absent from the header: all earlier ones are present, and it is the number of columns only when all are present |
| `Conversion.Field` | gel_tiering_to_ot.py:44-46 | reading a column succeeds exactly when the row has that key, with its value; otherwise it fails naming the column |
| `Conversion.BuildFromRow` | gel_tiering_to_ot.py:44-46 | a row lacking a required key fails with `MissingField` naming the first absent key in the order the builder's arguments are evaluated; a row with every required key builds the record of its six values; a row error is an absent required key or an unknown consequence label |
| `Conversion.Emit` | gel_tiering_to_ot.py:42-48 | the records are the built records of the first rows, in order; either every row is covered or the emission stops at the first row that fails, with that row's error |
| `Conversion.EmitUnique` | gel_tiering_to_ot.py:42-48 | those facts determine the emission: no other outcome satisfies them |
| `Conversion.Run` | gel_tiering_to_ot.py:28-48 | the method's header loop, row loop and counter give exactly the specified run `Convert` |
| `Conversion.MissingColumnStopsRun` | gel_tiering_to_ot.py:36-40 | if a required column is absent, the run emits nothing, counts nothing and reports the first absent column in the order of the required columns |
| `Conversion.MissingColumnReported` | gel_tiering_to_ot.py:36-40 | a missing-column error names a required column that the header lacks, and comes with no records |
| `Conversion.AllRowsConverted` | gel_tiering_to_ot.py:42-48 | with all required columns present and every row building, there is one record per row, record i is built from row i, no error, and the count is the number of rows |
| `Conversion.FailingRowStopsRun` | gel_tiering_to_ot.py:42-48 | the first failing row ends the run: the records of the rows before it stay emitted and counted, and its error is reported |
| `Conversion.CountsRecords` | gel_tiering_to_ot.py:48 | the count always equals the number of records emitted |
| `Conversion.ReaderRowsFailOnlyOnConsequence` | gel_tiering_to_ot.py:34-48 | when every row has a value for every header column, as a dictionary reader's rows do, the only possible row error is the unknown consequence label of the first row not emitted |
| `Scenarios.MissenseRecord` | gel_tiering_to_ot.py:62-103 | the record for ENSG00000139618 / EFO_0000305 / rs123 / missense_variant has the expected target, variant and disease ids and the term SO_0001583 |
| `Scenarios.UnknownLabelRejected` | gel_tiering_to_ot.py:63 | the label `bogus_variant` fails with that label |
| `Scenarios.RowOfBuilds` | gel_tiering_to_ot.py:44-46 | a row with the six columns builds the record of its six values |
| `Scenarios.TwoRowFile` | gel_tiering_to_ot.py:42-48 | a two-row file gives two records, in row order, and a count of 2 |
| `Scenarios.FileWithoutTier` | gel_tiering_to_ot.py:36-40 | a header without `tier` gives no records and the error naming `tier` |

## Left out

- `tsv_to_json.py` is not part of this model: its builder wraps classes generated at run time by a JSON-schema library from a schema file that is not available, and its output is that library's serialisation.
- `random_tsv.py` is not part of this model: it samples at random, loads tables with pandas and queries an ontology-mapping web service.
- Command-line parsing, logging and its messages (the missing-column message also names the file and lists the header) are left out; `MissingColumn` carries only the column.
- Opening the file and tab-separated tokenisation by the dictionary reader are left out: the model takes the header and the rows already parsed. The reader's `None` value for the cells of a short row and its `None` key for extra cells are not modelled; a row is a map from column name to string, and a row without a required key fails with `MissingField`, as indexing it raises in the source.
- An empty file: the reader's field names are then `None` and the membership test raises a `TypeError`; the model, given an empty header, reports `MissingColumn("sample_id")`. Both end the run with nothing emitted.
- JSON text from `json.dumps` (member order, escaping, the newline after each record) is left out; records are datatypes and the uniqueness key is a map without order.
- The process exit status and the final "Processed %d objects" log line are left out beyond the `RunResult`: a run that stops with an error is a `RunResult` with `failure` set.
- ConsequenceMap.TermsDistinct: the table is written out with its 35 labels, but the count `|ConsequenceToSo| == 35` is not proved; it needs all 595 pairs of labels compared in one verification condition, which exceeds a 2M resource limit for one verification condition, and writing the literal as a union of smaller maps makes the lookups and the other table lemmas exceed that limit instead. Distinctness of the term URIs is proved.
