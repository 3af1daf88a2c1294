/**
 * Facts about the concrete jargon table of the client script.
 *
 * Each row's term is read off the table literal in a lemma of its own, which
 * keeps every proof small; `JargonMapValid` collects them. With the table's
 * terms known to be valid, the general lemmas of `Jargon` apply to
 * `simplifyJargon` itself.
 */
module JargonTable {
  import opened Wrappers
  import opened Jargon
  import MedicineModel

  lemma Row0Valid()
    ensures ValidTerm(JargonMap[0].term)
  {
    assert JargonMap[0].term == "myalgia";
  }

  lemma Row1Valid()
    ensures ValidTerm(JargonMap[1].term)
  {
    assert JargonMap[1].term == "nausea";
  }

  lemma Row2Valid()
    ensures ValidTerm(JargonMap[2].term)
  {
    assert JargonMap[2].term == "dyspepsia";
  }

  lemma Row3Valid()
    ensures ValidTerm(JargonMap[3].term)
  {
    assert JargonMap[3].term == "pruritus";
  }

  lemma Row4Valid()
    ensures ValidTerm(JargonMap[4].term)
  {
    assert JargonMap[4].term == "erythema";
  }

  lemma Row5Valid()
    ensures ValidTerm(JargonMap[5].term)
  {
    assert JargonMap[5].term == "edema";
  }

  lemma Row6Valid()
    ensures ValidTerm(JargonMap[6].term)
  {
    assert JargonMap[6].term == "tachycardia";
  }

  lemma Row7Valid()
    ensures ValidTerm(JargonMap[7].term)
  {
    assert JargonMap[7].term == "hypotension";
  }

  lemma Row8Valid()
    ensures ValidTerm(JargonMap[8].term)
  {
    assert JargonMap[8].term == "hypertension";
  }

  lemma Row9Valid()
    ensures ValidTerm(JargonMap[9].term)
  {
    assert JargonMap[9].term == "somnolence";
  }

  lemma Row10Valid()
    ensures ValidTerm(JargonMap[10].term)
  {
    assert JargonMap[10].term == "contraindicated";
  }

  lemma Row11Valid()
    ensures ValidTerm(JargonMap[11].term)
  {
    assert JargonMap[11].term == "hepatic";
  }

  lemma Row12Valid()
    ensures ValidTerm(JargonMap[12].term)
  {
    assert JargonMap[12].term == "renal";
  }

  lemma Row13Valid()
    ensures ValidTerm(JargonMap[13].term)
  {
    assert JargonMap[13].term == "anaphylaxis";
  }

  lemma Row14Valid()
    ensures ValidTerm(JargonMap[14].term)
  {
    assert JargonMap[14].term == "thrombosis";
  }

  lemma Row15Valid()
    ensures ValidTerm(JargonMap[15].term)
  {
    assert JargonMap[15].term == "arrhythmia";
  }

  lemma Row16Valid()
    ensures ValidTerm(JargonMap[16].term)
  {
    assert JargonMap[16].term == "dyspnea";
  }

  lemma Row17Valid()
    ensures ValidTerm(JargonMap[17].term)
  {
    assert JargonMap[17].term == "flatulence";
  }

  lemma Row18Valid()
    ensures ValidTerm(JargonMap[18].term)
  {
    assert JargonMap[18].term == "alopecia";
  }

  lemma Row19Valid()
    ensures ValidTerm(JargonMap[19].term)
  {
    assert JargonMap[19].term == "vertigo";
  }

  lemma Row20Valid()
    ensures ValidTerm(JargonMap[20].term)
  {
    assert JargonMap[20].term == "insomnia";
  }

  lemma Row21Valid()
    ensures ValidTerm(JargonMap[21].term)
  {
    assert JargonMap[21].term == "pyrexia";
  }

  lemma Row22Valid()
    ensures ValidTerm(JargonMap[22].term)
  {
    assert JargonMap[22].term == "arthralgia";
  }

  lemma Row23Valid()
    ensures ValidTerm(JargonMap[23].term)
  {
    assert JargonMap[23].term == "rhinitis";
  }

  lemma Row24Valid()
    ensures ValidTerm(JargonMap[24].term)
  {
    assert JargonMap[24].term == "urticaria";
  }

  lemma Row25Valid()
    ensures ValidTerm(JargonMap[25].term)
  {
    assert JargonMap[25].term == "xerostomia";
  }

  lemma Row26Valid()
    ensures ValidTerm(JargonMap[26].term)
  {
    assert JargonMap[26].term == "epistaxis";
  }

  lemma Row27Valid()
    ensures ValidTerm(JargonMap[27].term)
  {
    assert JargonMap[27].term == "syncope";
  }

  lemma Row28Valid()
    ensures ValidTerm(JargonMap[28].term)
  {
    assert JargonMap[28].term == "palpitations";
  }

  lemma Row29Valid()
    ensures ValidTerm(JargonMap[29].term)
  {
    assert JargonMap[29].term == "diarrhea";
  }

  lemma Row30Valid()
    ensures ValidTerm(JargonMap[30].term)
  {
    assert JargonMap[30].term == "constipation";
  }

  lemma Row31Valid()
    ensures ValidTerm(JargonMap[31].term)
  {
    assert JargonMap[31].term == "vomiting";
  }

  lemma Row32Valid()
    ensures ValidTerm(JargonMap[32].term)
  {
    assert JargonMap[32].term == "headache";
  }

  lemma Row33Valid()
    ensures ValidTerm(JargonMap[33].term)
  {
    assert JargonMap[33].term == "fatigue";
  }

  lemma Row34Valid()
    ensures ValidTerm(JargonMap[34].term)
  {
    assert JargonMap[34].term == "dysphagia";
  }

  lemma Row35Valid()
    ensures ValidTerm(JargonMap[35].term)
  {
    assert JargonMap[35].term == "tinnitus";
  }

  lemma Row36Valid()
    ensures ValidTerm(JargonMap[36].term)
  {
    assert JargonMap[36].term == "paresthesia";
  }

  lemma Row37Valid()
    ensures ValidTerm(JargonMap[37].term)
  {
    assert JargonMap[37].term == "diaphoresis";
  }

  lemma Row38Valid()
    ensures ValidTerm(JargonMap[38].term)
  {
    assert JargonMap[38].term == "bradycardia";
  }

  /** Every term of the jargon table is non-empty lower-case ASCII letters. */
  lemma JargonMapValid()
    ensures AllValid(JargonMap)
  {
    forall k | 0 <= k < |JargonMap|
      ensures ValidTerm(JargonMap[k].term)
    {
    if k == 0 {
      Row0Valid();
    } else if k == 1 {
      Row1Valid();
    } else if k == 2 {
      Row2Valid();
    } else if k == 3 {
      Row3Valid();
    } else if k == 4 {
      Row4Valid();
    } else if k == 5 {
      Row5Valid();
    } else if k == 6 {
      Row6Valid();
    } else if k == 7 {
      Row7Valid();
    } else if k == 8 {
      Row8Valid();
    } else if k == 9 {
      Row9Valid();
    } else if k == 10 {
      Row10Valid();
    } else if k == 11 {
      Row11Valid();
    } else if k == 12 {
      Row12Valid();
    } else if k == 13 {
      Row13Valid();
    } else if k == 14 {
      Row14Valid();
    } else if k == 15 {
      Row15Valid();
    } else if k == 16 {
      Row16Valid();
    } else if k == 17 {
      Row17Valid();
    } else if k == 18 {
      Row18Valid();
    } else if k == 19 {
      Row19Valid();
    } else if k == 20 {
      Row20Valid();
    } else if k == 21 {
      Row21Valid();
    } else if k == 22 {
      Row22Valid();
    } else if k == 23 {
      Row23Valid();
    } else if k == 24 {
      Row24Valid();
    } else if k == 25 {
      Row25Valid();
    } else if k == 26 {
      Row26Valid();
    } else if k == 27 {
      Row27Valid();
    } else if k == 28 {
      Row28Valid();
    } else if k == 29 {
      Row29Valid();
    } else if k == 30 {
      Row30Valid();
    } else if k == 31 {
      Row31Valid();
    } else if k == 32 {
      Row32Valid();
    } else if k == 33 {
      Row33Valid();
    } else if k == 34 {
      Row34Valid();
    } else if k == 35 {
      Row35Valid();
    } else if k == 36 {
      Row36Valid();
    } else if k == 37 {
      Row37Valid();
    } else {
      Row38Valid();
    }
    }
  }

  /**
   * `simplifyJargon` returns a text holding no term of the table as a whole
   * word, ignoring case, unchanged (the sentinel cases aside).
   */
  lemma SimplifyJargonKeepsPlainText(t: string)
    requires t != "" && t != MedicineModel.NotAvailable && !HasTerm(t, JargonMap)
    ensures SimplifyJargon(Some(t)) == t
  {
    JargonMapValid();
    NoTermSimplifiesVerbatim(t, JargonMap);
  }

  /**
   * `simplifyJargon` glosses every maximal word that is a term of the table,
   * ignoring case, and copies every other character, provided no row's
   * annotation holds a later row's term as a whole word.
   */
  lemma SimplifyJargonAnnotatesWords(t: string)
    requires Inert(JargonMap)
    requires t != "" && t != MedicineModel.NotAvailable
    ensures SimplifyJargon(Some(t)) == AnnotateWords(t, JargonMap)
  {
    JargonMapValid();
    SimplifyAnnotatesWords(t, JargonMap);
  }
}
