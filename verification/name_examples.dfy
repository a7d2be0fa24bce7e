/** Worked values of the customer-name normaliser. Each lemma evaluates one
    stage on one literal and the last lemma of each group chains them through
    `PreprocessNameAfterEntities`: evaluating the regular-expression model on
    constant text is expensive for the solver, so no lemma does more. */
module NameExamples {
  import opened Wrappers
  import opened NameNormalizer

  // ---------------------------------------------------------------------------
  // "ACME"

  lemma AcmeEntityPass()
    ensures SubWords("ACME", EntityAlternatives, "", 0) == "ACME"
  {
    SubWordsSkip("ACME", EntityAlternatives, "", 0, 4);
  }

  lemma AcmeHasNoConjunction()
    ensures NoWordOf("ACME", ConjunctionAlternatives)
  {
  }

  lemma AcmeHasNoOmittedWord()
    ensures NoWordOf("ACME", WordsToOmit)
  {
  }

  lemma AcmeDropPunctuation()
    ensures DropPunctuation("ACME") == "ACME"
  {
  }

  lemma AcmeOmitPass()
    ensures OmitWords("ACME", WordsToOmit) == "ACME"
  {
    AcmeHasNoOmittedWord();
    OmitWordsSkip("ACME", WordsToOmit, 0, |WordsToOmit|);
  }

  lemma AcmeSquash()
    ensures SquashAndLower("ACME") == "acme"
  {
  }

  /** A single word that is none of the listed ones only changes case. */
  lemma PreprocessNameKeepsPlainWord()
    ensures PreprocessName(Some("ACME")) == "acme"
  {
    AcmeEntityPass();
    AcmeHasNoConjunction();
    AcmeDropPunctuation();
    AcmeOmitPass();
    AcmeSquash();
    PreprocessNameAfterEntities("ACME", "ACME", "ACME", "ACME");
  }

  // ---------------------------------------------------------------------------
  // "Acme Pvt. Ltd."

  /** The stretches of "Acme Pvt. Ltd." where the entity pass finds nothing ... */
  lemma SuffixedAcmeEntityGap1()
    ensures NoWordBetween("Acme Pvt. Ltd.", EntityAlternatives, 0, 5)
  {
    var s := "Acme Pvt. Ltd.";
    NoWordAtByFirstChar(s, 0, EntityAlternatives);
    NoWordInside(s, 1, 4, EntityAlternatives);
    NoWordAtByFirstChar(s, 4, EntityAlternatives);
    NoWordBetweenJoin(s, EntityAlternatives, 0, 1, 4);
    NoWordBetweenJoin(s, EntityAlternatives, 0, 4, 5);
  }

  lemma SuffixedAcmeEntityGap2()
    ensures NoWordBetween("Acme Pvt. Ltd.", EntityAlternatives, 8, 10)
  {
    var s := "Acme Pvt. Ltd.";
    NoWordAtByFirstChar(s, 8, EntityAlternatives);
    NoWordInside(s, 9, 10, EntityAlternatives);
    NoWordBetweenJoin(s, EntityAlternatives, 8, 9, 10);
  }

  lemma SuffixedAcmeEntityGap3()
    ensures NoWordBetween("Acme Pvt. Ltd.", EntityAlternatives, 13, 14)
  {
    NoWordAtByFirstChar("Acme Pvt. Ltd.", 13, EntityAlternatives);
  }

  /** ... and the two places where it finds `Pvt` (the fifth alternative) ... */
  lemma SuffixedAcmePassesOverAt5()
    ensures FirstAlternative("Acme Pvt. Ltd.", 5, EntityAlternatives) == FirstAlternative("Acme Pvt. Ltd.", 5, EntityAlternatives, 4)
  {
    var s := "Acme Pvt. Ltd.";
    FirstAlternativeSkip(s, 5, EntityAlternatives, 0);
    FirstAlternativeSkip(s, 5, EntityAlternatives, 1);
    FirstAlternativeSkip(s, 5, EntityAlternatives, 2);
    FirstAlternativeSkip(s, 5, EntityAlternatives, 3);
  }

  lemma SuffixedAcmeFindsPvt()
    ensures FirstAlternative("Acme Pvt. Ltd.", 5, EntityAlternatives) == Some(3)
  {
    var s := "Acme Pvt. Ltd.";
    SuffixedAcmePassesOverAt5();
    assert MatchesAt(s, 5, EntityAlternatives[4], 2);
    assert MatchesAt(s, 5, EntityAlternatives[4], 1);
    assert WordAt(s, 5, EntityAlternatives[4]);
    FirstAlternativeHit(s, 5, EntityAlternatives, 4);
  }

  /** ... and `Ltd` (the third). */
  lemma SuffixedAcmeFindsLtd()
    ensures FirstAlternative("Acme Pvt. Ltd.", 10, EntityAlternatives) == Some(3)
  {
    var s := "Acme Pvt. Ltd.";
    FirstAlternativeSkip(s, 10, EntityAlternatives, 0);
    FirstAlternativeSkip(s, 10, EntityAlternatives, 1);
    assert MatchesAt(s, 10, EntityAlternatives[2], 2);
    assert MatchesAt(s, 10, EntityAlternatives[2], 1);
    assert WordAt(s, 10, EntityAlternatives[2]);
    FirstAlternativeHit(s, 10, EntityAlternatives, 2);
  }

  /** From `Ltd` on, only the final dot is left ... */
  lemma SuffixedAcmeFromLtd()
    ensures SubWords("Acme Pvt. Ltd.", EntityAlternatives, "", 10) == "."
  {
    SuffixedAcmeFindsLtd();
    SubWordsAtMatch("Acme Pvt. Ltd.", EntityAlternatives, "", 10, 3);
    SuffixedAcmeEntityGap3();
    SubWordsSkip("Acme Pvt. Ltd.", EntityAlternatives, "", 13, 14);
  }

  /** ... from `Pvt` on, a dot, a space and that dot ... */
  lemma SuffixedAcmeFromPvt()
    ensures SubWords("Acme Pvt. Ltd.", EntityAlternatives, "", 5) == ". ."
  {
    var s := "Acme Pvt. Ltd.";
    SuffixedAcmeFindsPvt();
    SubWordsAtMatch(s, EntityAlternatives, "", 5, 3);
    SuffixedAcmeEntityGap2();
    SubWordsSkip(s, EntityAlternatives, "", 8, 10);
    SuffixedAcmeFromLtd();
  }

  /** ... so `Pvt` and `Ltd` are removed as whole words and the dots after them
      stay. */
  lemma SuffixedAcmeEntityPass()
    ensures SubWords("Acme Pvt. Ltd.", EntityAlternatives, "", 0) == "Acme . ."
  {
    SuffixedAcmeEntityGap1();
    SubWordsSkip("Acme Pvt. Ltd.", EntityAlternatives, "", 0, 5);
    SuffixedAcmeFromPvt();
  }

  lemma SuffixedAcmeHasNoConjunction()
    ensures NoWordOf("Acme . .", ConjunctionAlternatives)
  {
  }

  lemma SuffixedAcmeHasNoOmittedWord()
    ensures NoWordOf("Acme  ", WordsToOmit)
  {
  }

  lemma SuffixedAcmeDropPunctuation()
    ensures DropPunctuation("Acme . .") == "Acme  "
  {
    assert "Acme . ." == "Acme " + ". .";
    DropPunctuationAppend("Acme ", ". .");
    DropPunctuationKeeps("Acme ");
    SpacedDotsDropPunctuation();
  }

  lemma SpacedDotsDropPunctuation()
    ensures DropPunctuation(". .") == " "
  {
  }

  lemma SuffixedAcmeOmitPass()
    ensures OmitWords("Acme  ", WordsToOmit) == "Acme  "
  {
    SuffixedAcmeHasNoOmittedWord();
    OmitWordsSkip("Acme  ", WordsToOmit, 0, |WordsToOmit|);
  }

  lemma SuffixedAcmeSquash()
    ensures SquashAndLower("Acme  ") == "acme"
  {
  }

  /** Entity suffixes are removed with the dots and spaces around them: the name
      gets the same key as "ACME". */
  lemma PreprocessNameDropsEntitySuffix()
    ensures PreprocessName(Some("Acme Pvt. Ltd.")) == "acme"
  {
    SuffixedAcmeEntityPass();
    SuffixedAcmeHasNoConjunction();
    SuffixedAcmeDropPunctuation();
    SuffixedAcmeOmitPass();
    SuffixedAcmeSquash();
    PreprocessNameAfterEntities("Acme Pvt. Ltd.", "Acme . .", "Acme  ", "Acme  ");
  }

  // ---------------------------------------------------------------------------
  // "c o" and "co"

  lemma SpacedCoEntityPass()
    ensures SubWords("c o", EntityAlternatives, "", 0) == "c o"
  {
    SubWordsSkip("c o", EntityAlternatives, "", 0, 3);
  }

  lemma SpacedCoHasNoConjunction()
    ensures NoWordOf("c o", ConjunctionAlternatives)
  {
  }

  lemma SpacedCoHasNoOmittedWord()
    ensures NoWordOf("c o", WordsToOmit)
  {
  }

  lemma SpacedCoDropPunctuation()
    ensures DropPunctuation("c o") == "c o"
  {
  }

  lemma SpacedCoOmitPass()
    ensures OmitWords("c o", WordsToOmit) == "c o"
  {
    SpacedCoHasNoOmittedWord();
    OmitWordsSkip("c o", WordsToOmit, 0, |WordsToOmit|);
  }

  lemma SpacedCoSquash()
    ensures SquashAndLower("c o") == "co"
  {
  }

  /** Two letters separated by a space are no omitted word: only the space goes. */
  lemma PreprocessNameSpacedCo()
    ensures PreprocessName(Some("c o")) == "co"
  {
    SpacedCoEntityPass();
    SpacedCoHasNoConjunction();
    SpacedCoDropPunctuation();
    SpacedCoOmitPass();
    SpacedCoSquash();
    PreprocessNameAfterEntities("c o", "c o", "c o", "c o");
  }

  lemma CoEntityPass()
    ensures SubWords("co", EntityAlternatives, "", 0) == "co"
  {
    SubWordsSkip("co", EntityAlternatives, "", 0, 2);
  }

  lemma CoHasNoConjunction()
    ensures NoWordOf("co", ConjunctionAlternatives)
  {
  }

  /** None of the eight words listed before `co` occurs in "co". */
  lemma CoHasNoEarlierOmittedWord()
    ensures forall p, a :: 0 <= p < 2 && 0 <= a < 8 && |WordsToOmit[a]| > 0 ==> !WordAt("co", p, WordsToOmit[a])
  {
  }

  lemma CoDropPunctuation()
    ensures DropPunctuation("co") == "co"
  {
  }

  /** The omitted word `co` consumes the whole of "co". */
  lemma CoOmitPass()
    ensures OmitWords("co", WordsToOmit) == ""
  {
    CoHasNoEarlierOmittedWord();
    OmitWordsSkip("co", WordsToOmit, 0, 8);
    assert SubWords("co", [WordsToOmit[8]], "", 0) == "";
    OmitWordsSkip("", WordsToOmit, 9, |WordsToOmit|);
  }

  lemma EmptySquash()
    ensures SquashAndLower("") == ""
  {
  }

  /** The word `co` on its own normalises to the empty key. */
  lemma PreprocessNameCo()
    ensures PreprocessName(Some("co")) == ""
  {
    CoEntityPass();
    CoHasNoConjunction();
    CoDropPunctuation();
    CoOmitPass();
    EmptySquash();
    PreprocessNameAfterEntities("co", "co", "co", "");
  }

  /** The normaliser is not idempotent: the word `co` is only omitted once the
      space that separated its letters has been squashed away. */
  lemma PreprocessNameNotIdempotent()
    ensures PreprocessName(Some("c o")) == "co"
    ensures PreprocessName(Some(PreprocessName(Some("c o")))) == ""
  {
    PreprocessNameSpacedCo();
    PreprocessNameCo();
  }
}
