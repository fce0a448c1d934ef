/** Concrete runs of the converter: one record, an unknown label, a two-row
    file and a file without the tier column. */
module Scenarios {
  import opened Wrappers
  import opened ConsequenceMap
  import opened EvidenceStrings
  import opened Conversion

  lemma MissenseRecord()
    ensures var r := BuildEvidenceString("ENSG00000139618", "EFO_0000305", "rs123", "missense_variant", "SAMPLE1", "TIER1");
      && r.Success?
      && r.value.target.id == "http://identifiers.org/ensembl/ENSG00000139618"
      && r.value.variant.id == "http://identifiers.org/dbsnp/rs123"
      && r.value.disease.id == "EFO_0000305"
      && r.value.evidence.gene2variant.functionalConsequence == "http://purl.obolibrary.org/obo/SO_0001583"
  {
    assert LookupConsequence("missense_variant") == Some("http://purl.obolibrary.org/obo/SO_0001583");
    assert EnsemblPrefix + "ENSG00000139618" == "http://identifiers.org/ensembl/ENSG00000139618";
    assert DbSnpPrefix + "rs123" == "http://identifiers.org/dbsnp/rs123";
  }

  lemma UnknownLabelRejected()
    ensures BuildEvidenceString("ENSG1", "EFO_1", "rs1", "bogus_variant", "S1", "TIER1")
         == Failure(UnknownConsequence("bogus_variant"))
  {
  }

  function RowOf(sampleId: string, phenotype: string, dbSnpId: string, tier: string,
                 ensemblId: string, consequenceType: string): (row: Row)
    ensures forall c | c in RequiredColumns :: c in row
  {
    map["sample_id" := sampleId, "phenotype" := phenotype, "db_snp_id" := dbSnpId, "tier" := tier,
        "genomic_feature_ensembl_id" := ensemblId, "consequence_type" := consequenceType]
  }

  /** A row with all six columns builds the record of its six values. */
  lemma RowOfBuilds(sampleId: string, phenotype: string, dbSnpId: string, tier: string,
                    ensemblId: string, consequenceType: string)
    ensures BuildFromRow(RowOf(sampleId, phenotype, dbSnpId, tier, ensemblId, consequenceType))
         == BuildEvidenceString(ensemblId, phenotype, dbSnpId, consequenceType, sampleId, tier)
  {
  }

  lemma TwoRowFile()
    ensures var r := Convert(RequiredColumns, [RowOf("S1", "EFO_1", "rs1", "TIER1", "ENSG1", "stop_gained"),
                                          RowOf("S2", "EFO_2", "rs2", "TIER2", "ENSG2", "synonymous_variant")]);
      && r.failure == None
      && |r.records| == r.count == 2
      && r.records[0].evidence.variant2disease.uniqueExperimentReference == "S1"
      && r.records[1].evidence.variant2disease.uniqueExperimentReference == "S2"
  {
    var rows := [RowOf("S1", "EFO_1", "rs1", "TIER1", "ENSG1", "stop_gained"),
                 RowOf("S2", "EFO_2", "rs2", "TIER2", "ENSG2", "synonymous_variant")];
    assert LookupConsequence("stop_gained").Some?;
    assert LookupConsequence("synonymous_variant").Some?;
    RowOfBuilds("S1", "EFO_1", "rs1", "TIER1", "ENSG1", "stop_gained");
    RowOfBuilds("S2", "EFO_2", "rs2", "TIER2", "ENSG2", "synonymous_variant");
    AllRowsConverted(RequiredColumns, rows);
  }

  lemma FileWithoutTier(rows: seq<Row>)
    ensures Convert(["sample_id", "phenotype", "db_snp_id", "genomic_feature_ensembl_id", "consequence_type"], rows)
         == RunResult([], 0, Some(MissingColumn("tier")))
  {
    MissingColumnStopsRun(["sample_id", "phenotype", "db_snp_id", "genomic_feature_ensembl_id", "consequence_type"], rows, 3);
  }
}
