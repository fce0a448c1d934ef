/** The static table from Sequence Ontology consequence labels to Sequence
    Ontology term URIs, and the one lookup the converter makes in it. */
module ConsequenceMap {
  import opened Wrappers

  /** Every term URI in the table is this prefix followed by a 7-digit
      accession number. */
  const SoPrefix := "http://purl.obolibrary.org/obo/SO_"

  /** The dictionary literal of the converter, entry for entry. */
  const ConsequenceToSo: map<string, string> := map[
    "3_prime_UTR_variant" := "http://purl.obolibrary.org/obo/SO_0001624",
    "5_prime_UTR_variant" := "http://purl.obolibrary.org/obo/SO_0001623",
    "coding_sequence_variant" := "http://purl.obolibrary.org/obo/SO_0001580",
    "downstream_gene_variant" := "http://purl.obolibrary.org/obo/SO_0001632",
    "feature_elongation" := "http://purl.obolibrary.org/obo/SO_0001907",
    "feature_truncation" := "http://purl.obolibrary.org/obo/SO_0001906",
    "frameshift_variant" := "http://purl.obolibrary.org/obo/SO_0001589",
    "incomplete_terminal_codon_variant" := "http://purl.obolibrary.org/obo/SO_0001626",
    "inframe_deletion" := "http://purl.obolibrary.org/obo/SO_0001822",
    "inframe_insertion" := "http://purl.obolibrary.org/obo/SO_0001821",
    "intergenic_variant" := "http://purl.obolibrary.org/obo/SO_0001628",
    "intron_variant" := "http://purl.obolibrary.org/obo/SO_0001627",
    "mature_miRNA_variant" := "http://purl.obolibrary.org/obo/SO_0001620",
    "missense_variant" := "http://purl.obolibrary.org/obo/SO_0001583",
    "NMD_transcript_variant" := "http://purl.obolibrary.org/obo/SO_0001621",
    "non_coding_transcript_exon_variant" := "http://purl.obolibrary.org/obo/SO_0001792",
    "non_coding_transcript_variant" := "http://purl.obolibrary.org/obo/SO_0001619",
    "protein_altering_variant" := "http://purl.obolibrary.org/obo/SO_0001818",
    "regulatory_region_ablation" := "http://purl.obolibrary.org/obo/SO_0001894",
    "regulatory_region_amplification" := "http://purl.obolibrary.org/obo/SO_0001891",
    "regulatory_region_variant" := "http://purl.obolibrary.org/obo/SO_0001566",
    "splice_acceptor_variant" := "http://purl.obolibrary.org/obo/SO_0001574",
    "splice_donor_variant" := "http://purl.obolibrary.org/obo/SO_0001575",
    "splice_region_variant" := "http://purl.obolibrary.org/obo/SO_0001630",
    "start_lost" := "http://purl.obolibrary.org/obo/SO_0002012",
    "stop_gained" := "http://purl.obolibrary.org/obo/SO_0001587",
    "stop_lost" := "http://purl.obolibrary.org/obo/SO_0001578",
    "stop_retained_variant" := "http://purl.obolibrary.org/obo/SO_0001567",
    "synonymous_variant" := "http://purl.obolibrary.org/obo/SO_0001819",
    "TF_binding_site_variant" := "http://purl.obolibrary.org/obo/SO_0001782",
    "TFBS_ablation" := "http://purl.obolibrary.org/obo/SO_0001895",
    "TFBS_amplification" := "http://purl.obolibrary.org/obo/SO_0001892",
    "transcript_ablation" := "http://purl.obolibrary.org/obo/SO_0001893",
    "transcript_amplification" := "http://purl.obolibrary.org/obo/SO_0001889",
    "upstream_gene_variant" := "http://purl.obolibrary.org/obo/SO_0001631"
  ]

  /** A term URI: the Sequence Ontology prefix and seven decimal digits. */
  predicate IsSoTermUri(uri: string) {
    && |uri| == |SoPrefix| + 7
    && uri[..|SoPrefix|] == SoPrefix
    && forall i | |SoPrefix| <= i < |uri| :: '0' <= uri[i] <= '9'
  }

  /** Exact, case-sensitive lookup; an unknown label has no entry and no
      default is substituted. */
  function LookupConsequence(consequenceType: string): (r: Option<string>)
    ensures r.Some? <==> consequenceType in ConsequenceToSo
    ensures r.Some? ==> r.value == ConsequenceToSo[consequenceType]
  {
    if consequenceType in ConsequenceToSo then Some(ConsequenceToSo[consequenceType]) else None
  }

  /** Every value of the table is a Sequence Ontology term URI. */
  lemma TermsAreSoUris()
    ensures forall c | c in ConsequenceToSo :: IsSoTermUri(ConsequenceToSo[c])
  {
    forall c | c in ConsequenceToSo ensures IsSoTermUri(ConsequenceToSo[c]) {
      var uri := ConsequenceToSo[c];
      assert |uri| == |SoPrefix| + 7;
      assert uri[..|SoPrefix|] == SoPrefix;
    }
  }

  // The proof that distinct labels have distinct term URIs is split by the
  // last digit of the accession number, one lemma per digit, to keep each
  // pairwise comparison of the table's entries small.

  lemma TermsEndingIn0()
    ensures forall c1, c2 | c1 in ConsequenceToSo && c2 in ConsequenceToSo && c1 != c2 && ConsequenceToSo[c1][40] == '0' ::
      ConsequenceToSo[c1] != ConsequenceToSo[c2]
  {}

  lemma TermsEndingIn1()
    ensures forall c1, c2 | c1 in ConsequenceToSo && c2 in ConsequenceToSo && c1 != c2 && ConsequenceToSo[c1][40] == '1' ::
      ConsequenceToSo[c1] != ConsequenceToSo[c2]
  {}

  lemma TermsEndingIn2()
    ensures forall c1, c2 | c1 in ConsequenceToSo && c2 in ConsequenceToSo && c1 != c2 && ConsequenceToSo[c1][40] == '2' ::
      ConsequenceToSo[c1] != ConsequenceToSo[c2]
  {}

  lemma TermsEndingIn3()
    ensures forall c1, c2 | c1 in ConsequenceToSo && c2 in ConsequenceToSo && c1 != c2 && ConsequenceToSo[c1][40] == '3' ::
      ConsequenceToSo[c1] != ConsequenceToSo[c2]
  {}

  lemma TermsEndingIn4()
    ensures forall c1, c2 | c1 in ConsequenceToSo && c2 in ConsequenceToSo && c1 != c2 && ConsequenceToSo[c1][40] == '4' ::
      ConsequenceToSo[c1] != ConsequenceToSo[c2]
  {}

  lemma TermsEndingIn5()
    ensures forall c1, c2 | c1 in ConsequenceToSo && c2 in ConsequenceToSo && c1 != c2 && ConsequenceToSo[c1][40] == '5' ::
      ConsequenceToSo[c1] != ConsequenceToSo[c2]
  {}

  lemma TermsEndingIn6()
    ensures forall c1, c2 | c1 in ConsequenceToSo && c2 in ConsequenceToSo && c1 != c2 && ConsequenceToSo[c1][40] == '6' ::
      ConsequenceToSo[c1] != ConsequenceToSo[c2]
  {}

  lemma TermsEndingIn7()
    ensures forall c1, c2 | c1 in ConsequenceToSo && c2 in ConsequenceToSo && c1 != c2 && ConsequenceToSo[c1][40] == '7' ::
      ConsequenceToSo[c1] != ConsequenceToSo[c2]
  {}

  lemma TermsEndingIn8()
    ensures forall c1, c2 | c1 in ConsequenceToSo && c2 in ConsequenceToSo && c1 != c2 && ConsequenceToSo[c1][40] == '8' ::
      ConsequenceToSo[c1] != ConsequenceToSo[c2]
  {}

  lemma TermsEndingIn9()
    ensures forall c1, c2 | c1 in ConsequenceToSo && c2 in ConsequenceToSo && c1 != c2 && ConsequenceToSo[c1][40] == '9' ::
      ConsequenceToSo[c1] != ConsequenceToSo[c2]
  {}

  /** Distinct labels map to distinct term URIs, so a term URI determines the
      label it came from. */
  lemma TermsDistinct()
    ensures forall c1, c2 | c1 in ConsequenceToSo && c2 in ConsequenceToSo && c1 != c2 ::
      ConsequenceToSo[c1] != ConsequenceToSo[c2]
  {
    TermsAreSoUris();
    TermsEndingIn0(); TermsEndingIn1(); TermsEndingIn2(); TermsEndingIn3(); TermsEndingIn4();
    TermsEndingIn5(); TermsEndingIn6(); TermsEndingIn7(); TermsEndingIn8(); TermsEndingIn9();
    forall c1, c2 | c1 in ConsequenceToSo && c2 in ConsequenceToSo && c1 != c2
      ensures ConsequenceToSo[c1] != ConsequenceToSo[c2]
    {
      var last := ConsequenceToSo[c1][40];
      assert '0' <= last <= '9';
    }
  }

  /** A successful lookup yields a Sequence Ontology term URI. */
  lemma LookupYieldsSoTerm(consequenceType: string)
    requires LookupConsequence(consequenceType).Some?
    ensures IsSoTermUri(LookupConsequence(consequenceType).value)
  {
    TermsAreSoUris();
  }

  /** Two labels that the lookup resolves to the same term are the same label. */
  lemma LookupInjective(c1: string, c2: string)
    requires LookupConsequence(c1).Some? && LookupConsequence(c1) == LookupConsequence(c2)
    ensures c1 == c2
  {
    TermsDistinct();
  }
}
