/** One Open Targets "genetic association" evidence string, as the nested
    record the converter serialises, and the builder that makes one from the
    fields of one association row. */
module EvidenceStrings {
  import opened Wrappers
  import opened ConsequenceMap

  /** What can stop the conversion of an input. In the converter the first
      two are both a KeyError; the third is a logged error and exit status 1. */
  datatype Error =
    | UnknownConsequence(consequenceType: string)  // label not in the table
    | MissingField(column: string)                 // row has no value for a column
    | MissingColumn(column: string)                // header lacks a required column

  datatype Database = Database(id: string, version: string)
  datatype ProvenanceType = ProvenanceType(database: Database)
  datatype ResourceScore = ResourceScore(scoreType: string, value: int)
  datatype Target = Target(id: string, targetType: string, activity: string)
  datatype Disease = Disease(id: string)
  datatype Variant = Variant(id: string, variantType: string)

  datatype GeneToVariant = GeneToVariant(
    isAssociated: bool,
    dateAsserted: string,
    provenanceType: ProvenanceType,
    evidenceCodes: seq<string>,
    functionalConsequence: string)

  datatype VariantToDisease = VariantToDisease(
    uniqueExperimentReference: string,
    isAssociated: bool,
    dateAsserted: string,
    resourceScore: ResourceScore,
    provenanceType: ProvenanceType,
    evidenceCodes: seq<string>)

  datatype Evidence = Evidence(gene2variant: GeneToVariant, variant2disease: VariantToDisease)

  /** The top-level object; `recordType` is the JSON member "type". */
  datatype EvidenceString = EvidenceString(
    sourceId: string,
    accessLevel: string,
    validatedAgainstSchemaVersion: string,
    uniqueAssociationFields: map<string, string>,
    target: Target,
    disease: Disease,
    recordType: string,
    variant: Variant,
    evidence: Evidence)

  /** The inputs an evidence string is built from, less the tier, which the
      builder does not use. */
  datatype Association = Association(
    ensemblId: string,
    phenotype: string,
    dbSnpId: string,
    consequenceType: string,
    sampleId: string)

  const SourceId := "eva"
  const EnsemblPrefix := "http://identifiers.org/ensembl/"
  const DbSnpPrefix := "http://identifiers.org/dbsnp/"
  /** The score is not computed: every record carries probability 1. */
  const PlaceholderScore := 1

  /** The members every evidence string has whatever its inputs. */
  predicate HasFixedMetadata(e: EvidenceString) {
    && e.sourceId == "eva"
    && e.accessLevel == "public"
    && e.validatedAgainstSchemaVersion == "1.2.8"
    && e.target.targetType == "http://identifiers.org/cttv.target/gene_variant"
    && e.target.activity == "http://identifiers.org/cttv.activity/loss_of_function"
    && e.recordType == "genetic_association"
    && e.variant.variantType == "snp single"
    && e.evidence.gene2variant.isAssociated
    && e.evidence.gene2variant.dateAsserted == "2018-10-22T23:00:00"
    && e.evidence.gene2variant.provenanceType == ProvenanceType(Database("abc", "1"))
    && e.evidence.gene2variant.evidenceCodes == ["http://identifiers.org/eco/cttv_mapping_pipeline"]
    && e.evidence.variant2disease.isAssociated
    && e.evidence.variant2disease.dateAsserted == "2018-10-22T23:00:00"
    && e.evidence.variant2disease.resourceScore == ResourceScore("probability", 1)
    && e.evidence.variant2disease.provenanceType == ProvenanceType(Database("abc", "1"))
    && e.evidence.variant2disease.evidenceCodes == ["http://identifiers.org/eco/GWAS"]
  }

  /** The uniqueness key of an association: exactly four members. */
  function UniqueAssociationFields(sampleId: string, gene: string, phenotype: string, variant: string): (m: map<string, string>)
    ensures m.Keys == {"sample_id", "gene", "phenotype", "variant"}
    ensures m["sample_id"] == sampleId && m["gene"] == gene
    ensures m["phenotype"] == phenotype && m["variant"] == variant
  {
    map["sample_id" := sampleId, "gene" := gene, "phenotype" := phenotype, "variant" := variant]
  }

  /** The shape of every record the builder can return: the fixed members,
      identifier URIs under their prefixes, a functional consequence taken
      from the table, and a uniqueness key that agrees with the rest. */
  predicate WellFormed(e: EvidenceString) {
    && HasFixedMetadata(e)
    && EnsemblPrefix <= e.target.id
    && DbSnpPrefix <= e.variant.id
    && e.evidence.gene2variant.functionalConsequence in ConsequenceToSo.Values
    && e.uniqueAssociationFields == UniqueAssociationFields(
         e.evidence.variant2disease.uniqueExperimentReference,
         e.target.id[|EnsemblPrefix|..],
         e.disease.id,
         e.variant.id[|DbSnpPrefix|..])
  }

  /** The label whose table entry is the given term URI. */
  ghost function ConsequenceOf(uri: string): (c: string)
    requires uri in ConsequenceToSo.Values
    ensures c in ConsequenceToSo && ConsequenceToSo[c] == uri
  {
    var c :| c in ConsequenceToSo && ConsequenceToSo[c] == uri; c
  }

  /** Reads back the inputs a well-formed record was built from: the inverse
      of the builder. */
  ghost function Decode(e: EvidenceString): (a: Association)
    requires WellFormed(e)
  {
    Association(
      e.target.id[|EnsemblPrefix|..],
      e.disease.id,
      e.variant.id[|DbSnpPrefix|..],
      ConsequenceOf(e.evidence.gene2variant.functionalConsequence),
      e.evidence.variant2disease.uniqueExperimentReference)
  }

  /** The record for one association. Fails, as the converter's dictionary
      lookup does, when the consequence label is not in the table. */
  function BuildEvidenceString(ensemblId: string, phenotype: string, dbSnpId: string,
                               consequenceType: string, sampleId: string, tier: string)
    : (r: Result<EvidenceString, Error>)
    ensures r.Success? <==> consequenceType in ConsequenceToSo
    ensures r.Failure? ==> r.error == UnknownConsequence(consequenceType)
  {
    match LookupConsequence(consequenceType)
    case None => Failure(UnknownConsequence(consequenceType))
    case Some(functionalConsequence) =>
      Success(EvidenceString(
        SourceId,
        "public",
        "1.2.8",
        UniqueAssociationFields(sampleId, ensemblId, phenotype, dbSnpId),
        Target(EnsemblPrefix + ensemblId,
               "http://identifiers.org/cttv.target/gene_variant",
               "http://identifiers.org/cttv.activity/loss_of_function"),
        Disease(phenotype),
        "genetic_association",
        Variant(DbSnpPrefix + dbSnpId, "snp single"),
        Evidence(
          GeneToVariant(
            true,
            "2018-10-22T23:00:00",
            ProvenanceType(Database("abc", "1")),
            ["http://identifiers.org/eco/cttv_mapping_pipeline"],
            functionalConsequence),
          VariantToDisease(
            sampleId,
            true,
            "2018-10-22T23:00:00",
            ResourceScore("probability", PlaceholderScore),
            ProvenanceType(Database("abc", "1")),
            ["http://identifiers.org/eco/GWAS"]))))
  }

  /** A built record is well formed and decodes to exactly its inputs. */
  lemma DecodeBuild(ensemblId: string, phenotype: string, dbSnpId: string,
                    consequenceType: string, sampleId: string, tier: string)
    requires BuildEvidenceString(ensemblId, phenotype, dbSnpId, consequenceType, sampleId, tier).Success?
    ensures var e := BuildEvidenceString(ensemblId, phenotype, dbSnpId, consequenceType, sampleId, tier).value;
      && WellFormed(e)
      && Decode(e) == Association(ensemblId, phenotype, dbSnpId, consequenceType, sampleId)
  {
    var e := BuildEvidenceString(ensemblId, phenotype, dbSnpId, consequenceType, sampleId, tier).value;
    assert e.target.id[|EnsemblPrefix|..] == ensemblId;
    assert e.variant.id[|DbSnpPrefix|..] == dbSnpId;
    TermsDistinct();
  }

  /** The label's table entry is the record's functional consequence. */
  lemma FunctionalConsequenceFromTable(ensemblId: string, phenotype: string, dbSnpId: string,
                                       consequenceType: string, sampleId: string, tier: string)
    requires consequenceType in ConsequenceToSo
    ensures BuildEvidenceString(ensemblId, phenotype, dbSnpId, consequenceType, sampleId, tier).Success?
    ensures BuildEvidenceString(ensemblId, phenotype, dbSnpId, consequenceType, sampleId, tier)
              .value.evidence.gene2variant.functionalConsequence == ConsequenceToSo[consequenceType]
  {
  }

  /** Target and variant identifiers are the inputs under fixed prefixes,
      with nothing encoded or checked: stripping the prefix gives the input
      back. */
  lemma IdentifierUris(ensemblId: string, phenotype: string, dbSnpId: string,
                       consequenceType: string, sampleId: string, tier: string)
    requires BuildEvidenceString(ensemblId, phenotype, dbSnpId, consequenceType, sampleId, tier).Success?
    ensures var e := BuildEvidenceString(ensemblId, phenotype, dbSnpId, consequenceType, sampleId, tier).value;
      && e.target.id == "http://identifiers.org/ensembl/" + ensemblId
      && e.variant.id == "http://identifiers.org/dbsnp/" + dbSnpId
  {
  }

  /** Phenotype and sample identifier are copied unchanged, and the uniqueness
      key holds exactly the four inputs. */
  lemma PassThroughFields(ensemblId: string, phenotype: string, dbSnpId: string,
                          consequenceType: string, sampleId: string, tier: string)
    requires BuildEvidenceString(ensemblId, phenotype, dbSnpId, consequenceType, sampleId, tier).Success?
    ensures var e := BuildEvidenceString(ensemblId, phenotype, dbSnpId, consequenceType, sampleId, tier).value;
      && e.disease.id == phenotype
      && e.evidence.variant2disease.uniqueExperimentReference == sampleId
      && e.uniqueAssociationFields.Keys == {"sample_id", "gene", "phenotype", "variant"}
      && e.uniqueAssociationFields["sample_id"] == sampleId
      && e.uniqueAssociationFields["gene"] == ensemblId
      && e.uniqueAssociationFields["phenotype"] == phenotype
      && e.uniqueAssociationFields["variant"] == dbSnpId
  {
  }

  /** The tier is read but does not reach the record. */
  lemma TierIgnored(ensemblId: string, phenotype: string, dbSnpId: string,
                    consequenceType: string, sampleId: string, tier1: string, tier2: string)
    ensures BuildEvidenceString(ensemblId, phenotype, dbSnpId, consequenceType, sampleId, tier1)
         == BuildEvidenceString(ensemblId, phenotype, dbSnpId, consequenceType, sampleId, tier2)
  {
  }

  /** Records for different associations differ: the builder loses nothing
      but the tier. */
  lemma BuildInjective(a: Association, b: Association, tierA: string, tierB: string)
    requires BuildEvidenceString(a.ensemblId, a.phenotype, a.dbSnpId, a.consequenceType, a.sampleId, tierA).Success?
    requires BuildEvidenceString(a.ensemblId, a.phenotype, a.dbSnpId, a.consequenceType, a.sampleId, tierA)
          == BuildEvidenceString(b.ensemblId, b.phenotype, b.dbSnpId, b.consequenceType, b.sampleId, tierB)
    ensures a == b
  {
    DecodeBuild(a.ensemblId, a.phenotype, a.dbSnpId, a.consequenceType, a.sampleId, tierA);
    DecodeBuild(b.ensemblId, b.phenotype, b.dbSnpId, b.consequenceType, b.sampleId, tierB);
  }

  /** Every well-formed record is one the builder makes, from the inputs it
      decodes to and any tier: the well-formed records are exactly the
      builder's results. */
  lemma BuildDecode(e: EvidenceString, tier: string)
    requires WellFormed(e)
    ensures var a := Decode(e);
      BuildEvidenceString(a.ensemblId, a.phenotype, a.dbSnpId, a.consequenceType, a.sampleId, tier) == Success(e)
  {
    var a := Decode(e);
    assert EnsemblPrefix + a.ensemblId == e.target.id;
    assert DbSnpPrefix + a.dbSnpId == e.variant.id;
  }
}
