# Broker/insurer premium reconciliation, modelled in Dafny

The system reconciles two ledgers of insurance policies:

- the broker's dump (`Saiba_Dump`), whose rows are numbered `S1, S2, …`;
- the insurer's statement (`Lombard_Statement`), whose rows are numbered `L1, L2, …`.

Each ledger ends up split into a *matched* sheet and an *unmatched* sheet.
Matched rows carry two extra columns: `Matching_Index` (the rows of the other
ledger they were paired with) and `Matching_Attribute` (why).

Three passes run one after the other. Each later pass works only on what the
earlier passes left unmatched.

1. **Exact identifiers** (`Pol_no+End_no.py`, and the variant
   `Policy_no+Endorsement_no.py`). A broker row and an insurer row are paired
   when the broker's `PolicyNo` or `EndoNo` equals the insurer's `POL_NUM_TXT`.
   Rows with at least one partner go to the matched sheets. The others go to
   the unmatched sheets without their match columns.
2. **Customer + policy + premium** (`Customer+Policy+Premium.py`).
   - Customer names are normalised: entity suffixes and filler words are
     removed, punctuation and whitespace are dropped, and the text is
     lower-cased.
   - Each distinct raw name is normalised; two raw names can normalise to the
     same text, so the lists may repeat an entry. Every listed name on one side
     is compared with every listed name on the other with a fuzzy score. Pairs
     scoring at least 71 are expanded to row pairs, highest score first, and
     de-duplicated.
   - The row pairs are sorted by broker row number.
   - Pairs are kept when the product labels are similar and the insurer's
     premium lies within 2% of the broker's.
3. **Customer + premium + tenure** (`Customer+Premium+Tenure.py`). The same
   candidate pairs are built. Pairs are kept when the premiums agree and both
   policy dates are equal.

After each fuzzy pass:

- the surviving rows are annotated;
- they are removed from the unmatched sheets;
- they are merged into the matched sheets, which are kept in row-number order
  with the earlier rows winning on a duplicate index.

## How the model is organised

| module | file | what it holds |
|---|---|---|
| `Wrappers` | `wrappers.dfy` | `Option` |
| `Ids` | `ids.dfy` | row identifiers; their decimal text and how that text is read back |
| `Records` | `records.dfy` | the two ledgers' fields, rows, annotations, row lookup and selection |
| `Seqs` | `seqs.dfy` | first-occurrence de-duplication and the stable key sort |
| `LedgerState` | `ledger_state.dfy` | the four sheets, subtract and merge, and the reconciliation invariant |
| `MatchBook` | `match_book.dfy` | the four dictionaries the first pass fills in |
| `ExactIdPass` | `pass1.dfy` | the first pass |
| `NameNormalizer` | `names.dfy` | `preprocess_name`, with the word-boundary regular expressions written out |
| `NameExamples` | `name_examples.dfy` | the normaliser evaluated on concrete names |
| `NameCandidates` | `candidates.dfy` | `compute_similarity`, the pair expansion, de-duplication and sort |
| `AttributeFilters` | `filters.dfy` | the label, premium and tenure checks |
| `MatchIndex` | `match_index.dfy` | the `Matching_Index` dictionaries and the picking of matched rows |
| `PolicyPremiumPass` | `pass2.dfy` | the second pass |
| `PremiumTenurePass` | `pass3.dfy` | the third pass |
| `Reconciliation` | `pipeline.dfy` | the three passes composed |

Everything is a pure function. The fuzzy scorers are parameters of the model:

- `ratio`, standing for `fuzz.ratio`, returns an integer in 0..100;
- `labelRatio`, standing for `SequenceMatcher.ratio`, returns a real in [0, 1].

Every property is proved for all such functions.

### Missing names

The candidate name lists come from the raw names cast to text, so a missing
name is listed as the normalised text "nan". The rows are selected with
`preprocess_name` on the raw cell, which gives "" for a missing name. The model
keeps both (`NameCandidates.ListKey`, `NameCandidates.RowKey`). A broker row
with a missing customer name is therefore proposed with an insurer row exactly
when "" is itself a listed broker name, because some broker's raw name
normalises to "" (as "co" does), and "" scores at least 71 against the insurer
row's name (`NameCandidates.MissingBrokerNameProposed`). The same holds for
insurer rows (`NameCandidates.MissingInsurerNameProposed`).

### Behaviours of the code worth knowing

- **The name normaliser is not idempotent.** `"c o"` normalises to `"co"`, and
  `"co"` normalises to `""` because `co` is one of the omitted words
  (`NameExamples.PreprocessNameNotIdempotent`).
- **The premium tolerance accepts 102 against 100 in both orders.** The bound
  is 2% of the first argument. So `is_within_2_percent(102, 100)` holds,
  because `|102 - 100| = 2 <= 2.04`. The relation is asymmetric only at the edge
  of the band: 98 is within 2% of 100, but 100 is not within 2% of 98
  (`AttributeFilters.IsWithin2PercentExamples`).
- **The acronym shortcut of the label comparison never fires.** The labels are
  lower-cased (`preprocess_text`) before `acronym` collects capital letters, so
  every acronym is empty. Only the similarity ratio decides
  (`AttributeFilters.AcronymOfPreprocessed`, `AttributeFilters.LabelsSimilarIff`).
- **Python visits the common values of pass 1 in the set's own order.** The
  model takes any enumeration of them. `ExactIdPass.OrderIrrelevant` shows that
  every row's match and attribute lists are the same for every enumeration.

## Model

| member | source | states |
|---|---|---|
| Ids.DecimalRoundTrip | Pol_no+End_no.py:33-34 | reading back the decimal text written into an identifier gives the row number |
| Ids.NumericKeyOfRender | Customer+Policy+Premium.py:65-69 | both sort keys (the text after the prefix, and the trailing digits) recover the row number of any identifier |
| Ids.RenderInjective | Pol_no+End_no.py:33-34 | two identifiers have the same text exactly when they are the same identifier, so `S`/`L` text never collides |
| Records.AssignIds | Pol_no+End_no.py:33-34 | row `k` keeps its fields, gets no match columns, lies on the given ledger, and its identifier's sort key is `k + 1` |
| Records.AssignedIdsDistinct | Policy_no+Endorsement_no.py:8-9 | two rows of one sheet get the same identifier text only when they are the same row |
| LedgerState.AssignIdsShape | Pol_no+End_no.py:33-34 | the numbered sheet has no duplicate index, lies on one ledger, is in row-number order, and its indices are exactly ordinals 1..n |
| Records.Lookup | Customer+Policy+Premium.py:174-175 | a row lookup succeeds exactly when some row has that index |
| Records.SelectRejectPartition | Pol_no+End_no.py:90-93 | a mask and its negation split a sheet's indices into two disjoint parts that together give all of them |
| Records.DropMatchColumns | Pol_no+End_no.py:101-102 | the unmatched sheets keep their indices in order and every lookup of fields, and no index carries match columns any more |
| Records.Annotate | Pol_no+End_no.py:80-83 | the sheet keeps its indices in order and every lookup of fields; reading the match columns at an index of the sheet gives the match and attribute lists kept under it, and nothing at any other index |
| Records.MarkMatched | Customer+Policy+Premium.py:193-204 | the picked sheet keeps its indices in order and every lookup of fields; reading the match columns at any of its indices gives the dictionary's list for it and the pass's one attribute |
| Records.GetAppend | Pol_no+End_no.py:62-65 | appending to one index's list leaves every other index's list unchanged |
| MatchBook.RecordSpec | Pol_no+End_no.py:60-65 | after a run of links, each of the four dictionaries holds, for each index, its earlier list followed by that index's partners (or attributes) along the run, in order |
| MatchBook.TagsOfOneCheck | Pol_no+End_no.py:76-77 | when every link comes from one check, a row's attribute list repeats that check's attribute once per partner |
| ExactIdPass.KeysInCommonSpec | Pol_no+End_no.py:56 | a value is visited exactly when it is both a broker policy (or endorsement) number and an insurer `POL_NUM_TXT` |
| ExactIdPass.VisitEnumerates | Pol_no+End_no.py:56-57 | the visiting order lists every common value exactly once |
| ExactIdPass.BrokersWithSpec | Pol_no+End_no.py:58 | the broker list for a value holds exactly the rows whose checked column equals it, without repeats |
| ExactIdPass.InsurersWithSpec | Pol_no+End_no.py:59 | the insurer list for a value holds exactly the rows whose `POL_NUM_TXT` equals it, without repeats, and is empty exactly when no insurer has that value |
| ExactIdPass.CheckBrokerRow | Pol_no+End_no.py:56-65 | one check links a broker row to every insurer row sharing its checked number, in sheet order |
| ExactIdPass.CheckInsurerRow | Pol_no+End_no.py:68-77 | one check links an insurer row to every broker row sharing its number, in sheet order |
| ExactIdPass.BookBrokerRow | Pol_no+End_no.py:50-77 | a broker row's `Matching_Index` is the insurers matching its `PolicyNo`, then those matching its `EndoNo`; its `Matching_Attribute` says `POL_NUM_TXT` once per match |
| ExactIdPass.BookInsurerRow | Policy_no+Endorsement_no.py:24-63 | an insurer row's matches are the brokers with that `PolicyNo`, then those with that `EndoNo`; the attributes say `PolicyNo` and `EndoNo` once per match |
| ExactIdPass.OrderIrrelevant | Pol_no+End_no.py:57-77 | any two enumerations of the common values leave every row with the same four lists |
| ExactIdPass.BrokerHitIff | Pol_no+End_no.py:90 | the matched-sheet mask accepts a broker row exactly when its match list is non-empty |
| ExactIdPass.InsurerHitIff | Pol_no+End_no.py:92 | the matched-sheet mask accepts an insurer row exactly when its match list is non-empty |
| ExactIdPass.LinkedIff | Pol_no+End_no.py:56-77 | broker `k` lists insurer `j`, and insurer `j` lists broker `k`, exactly when the insurer's number equals the broker's policy or endorsement number |
| ExactIdPass.LinksMirror | Pol_no+End_no.py:62-63 | broker `k` lists insurer `j` as often as insurer `j` lists broker `k`; an insurer's attribute list is as long as its match list |
| ExactIdPass.BrokerMatchedIff | Pol_no+End_no.py:90-91 | a broker row has a match exactly when some insurer row carries its policy or endorsement number |
| ExactIdPass.InsurerMatchedIff | Pol_no+End_no.py:92-93 | an insurer row has a match exactly when some broker row carries its number as policy or endorsement number |
| ExactIdPass.RunBrokerRow | Pol_no+End_no.py:80-102 | each broker row ends on the matched sheet with its match columns when it has a match, and otherwise on the unmatched sheet without them |
| ExactIdPass.RunInsurerRow | Policy_no+Endorsement_no.py:66-88 | each insurer row ends on the matched sheet with its match columns when it has a match, and otherwise on the unmatched sheet without them |
| ExactIdPass.RunBrokerMatched | Pol_no+End_no.py:90-91 | `S(k+1)` is on the matched broker sheet exactly when some insurer number equals its policy or endorsement number |
| ExactIdPass.RunInsurerMatched | Pol_no+End_no.py:92-93 | `L(j+1)` is on the matched insurer sheet exactly when some broker policy or endorsement number equals its number |
| ExactIdPass.RunReconciled | Pol_no+End_no.py:33-102 | after the first pass each ledger's rows are split between its two sheets, with no overlap, no duplicates and row-number order; only matched rows carry match columns, and those columns are non-empty and name rows of the other ledger |
| NameNormalizer.FirstAlternativeSpec | Customer+Policy+Premium.py:21 | the alternation matches the first listed alternative that occurs as a whole word at the position, and fails exactly when none does |
| NameNormalizer.SubWordsSkip | Customer+Policy+Premium.py:21-22 | a stretch with no whole-word match is copied unchanged |
| NameNormalizer.DropPunctuationChars | Customer+Policy+Premium.py:23 | the result has no full stop or comma, and adds no character |
| NameNormalizer.DropPunctuationAppend | Customer+Policy+Premium.py:23 | dropping punctuation works piecewise over a concatenation |
| NameNormalizer.OmitWordsChars | Customer+Policy+Premium.py:24-25 | removing the omitted words adds no character |
| NameNormalizer.OmitWordsSkip | Customer+Policy+Premium.py:24-25 | words that occur nowhere in the name leave it unchanged |
| NameNormalizer.SquashAndLowerChars | Customer+Policy+Premium.py:26 | the result has no whitespace and no capital; its characters are exactly the lower-cased non-space characters of the input, none of them lost |
| NameNormalizer.SquashAndLowerKeeps | Customer+Policy+Premium.py:26 | text with no whitespace and no capital comes out unchanged |
| NameNormalizer.SquashAndLowerAppend | Customer+Policy+Premium.py:26 | squashing a concatenation is the concatenation of the squashed parts |
| NameNormalizer.PreprocessNameShape | Customer+Policy+Premium.py:13-27 | a missing name normalises to the empty string; a normalised name never holds whitespace, a capital, a full stop or a comma |
| NameNormalizer.PreprocessNameAfterEntities | Customer+Policy+Premium.py:21-26 | when no conjunction is left after the entity suffixes are removed, the name is the squashed and lower-cased result of the punctuation and word removal |
| NameExamples.PreprocessNameKeepsPlainWord | Customer+Policy+Premium.py:13-27 | "ACME" normalises to "acme" |
| NameExamples.PreprocessNameDropsEntitySuffix | Customer+Policy+Premium.py:21-26 | "Acme Pvt. Ltd." normalises to "acme": both suffixes and the dots go |
| NameExamples.PreprocessNameSpacedCo | Customer+Policy+Premium.py:13-27 | "c o" normalises to "co" |
| NameExamples.PreprocessNameCo | Customer+Policy+Premium.py:24-26 | "co" normalises to the empty string |
| NameExamples.PreprocessNameNotIdempotent | Customer+Policy+Premium.py:13-27 | normalising a normalised name can change it again |
| Seqs.UniqueSpec | Customer+Policy+Premium.py:31-32 | de-duplication keeps every value, adds none and repeats none |
| Seqs.AddNewSpec | Customer+Policy+Premium.py:55-62 | append-if-absent keeps the existing list as a prefix, adds exactly the new values and never creates a repeat |
| NameCandidates.KeysOfUniqueMember | Customer+Policy+Premium.py:31-32 | a normalised name is listed exactly when some row's name normalises to it |
| NameCandidates.HitsMember | Customer+Policy+Premium.py:37-43 | a name pair is recorded exactly when both names are listed and score at least the threshold |
| NameCandidates.HitsAboveThreshold | Customer+Policy+Premium.py:39-40 | every recorded pair scores between 71 and 100 |
| NameCandidates.BucketMember | Customer+Policy+Premium.py:41-43 | a score's bucket holds exactly the recorded pairs with that score |
| NameCandidates.DescendingSpec | Customer+Policy+Premium.py:53 | reading the buckets from the highest score down is a permutation of the recorded pairs in non-increasing score order |
| NameCandidates.IndexDictMember | Customer+Policy+Premium.py:44-45 | a row is listed under a name exactly when that name was recorded and the row's name normalises to it |
| NameCandidates.CrossMember | Customer+Policy+Premium.py:58-60 | the inner loops produce exactly the pairs of a listed broker row and a listed insurer row |
| NameCandidates.PairsFromMember | Customer+Policy+Premium.py:55-62 | a row pair is produced exactly when it comes from some recorded name pair |
| NameCandidates.PairsFromOrder | Customer+Policy+Premium.py:55-62 | the produced row pairs repeat none and come in non-increasing score order |
| NameCandidates.IndexPairsMember | Customer+Policy+Premium.py:30-62 | a row pair is proposed exactly when both rows exist and their normalised customer names score at least 71 |
| NameCandidates.MissingBrokerNameProposed | Customer+Policy+Premium.py:30-62 | a broker row with a missing name is proposed with an insurer row exactly when "" is a listed broker name and scores at least 71 against the insurer row's listed name |
| NameCandidates.MissingInsurerNameProposed | Customer+Policy+Premium.py:30-62 | an insurer row with a missing name is proposed with a broker row exactly when "" is a listed insurer name and the broker row's listed name scores at least 71 against it |
| NameCandidates.IndexPairsOrder | Customer+Policy+Premium.py:55-62 | the proposed pairs repeat none and come highest score first |
| NameCandidates.SortedListSpec | Customer+Policy+Premium.py:64-71 | the sorted list is a permutation of the proposals in broker row-number order; pairs of one broker row keep their relative order, highest score first |
| NameCandidates.SortedListMember | Customer+Policy+Premium.py:71 | a pair is in the sorted list exactly when its names match, and then both of its rows exist |
| Seqs.SortByKeySpec | Customer+Policy+Premium.py:65-69 | the key sort is ordered, is a permutation, and keeps the relative order of elements with equal keys |
| Seqs.InsertWithKey | Customer+Policy+Premium.py:69 | inserting one element leaves the order of the other elements with any one key unchanged |
| MatchIndex.IndexInIds | Customer+Policy+Premium.py:74-77 | filtering a sheet by a set of indices keeps exactly the rows whose index is in the set |
| MatchIndex.FilteredLookup | Customer+Policy+Premium.py:76-77 | looking up a proposed pair's rows in the filtered sheets gives the same fields as in the full sheets |
| AttributeFilters.KeepSpec | Customer+Policy+Premium.py:168-180 | a check keeps exactly the pairs it accepts, in their original order, without creating repeats or breaking the row-number order |
| AttributeFilters.KeepTwice | Customer+Policy+Premium.py:157-183 | two checks in a row keep the same pairs as one check accepting what both accept |
| AttributeFilters.PreprocessTextLower | Customer+Policy+Premium.py:85-88 | a prepared label holds no capital |
| AttributeFilters.AcronymOfPreprocessed | Customer+Policy+Premium.py:90-92 | the acronym of a prepared label is always empty |
| AttributeFilters.KeepAlnumSpace | Customer+Policy+Premium.py:94-96 | the cleaned text holds exactly the letters, digits and whitespace characters of the input: no other character, and none of those lost |
| AttributeFilters.KeepAlnumSpaceKeeps | Customer+Policy+Premium.py:94-96 | text made only of letters, digits and whitespace comes out unchanged |
| AttributeFilters.KeepAlnumSpaceAppend | Customer+Policy+Premium.py:94-96 | cleaning a concatenation is the concatenation of the cleaned parts |
| AttributeFilters.FindSimilarSingletons | Customer+Policy+Premium.py:102-121 | for one label on each side the result holds one entry for an equal non-empty acronym and one for a ratio at or above the threshold |
| AttributeFilters.LabelsSimilarIff | Customer+Policy+Premium.py:144-152 | two prepared labels are similar exactly when their cleaned texts reach a ratio of 0.75 |
| AttributeFilters.CheckLabelsMember | Customer+Policy+Premium.py:123-154 | the label check keeps exactly the pairs whose prepared and cleaned policy type and product name reach a ratio of 0.75 |
| AttributeFilters.IsWithin2PercentIff | Customer+Policy+Premium.py:164-165 | the second value is within 2% exactly when it lies in `[0.98 v1, 1.02 v1]`; nothing is within 2% of a negative value |
| AttributeFilters.IsWithin2PercentExamples | Customer+Premium+Tenure.py:88-89 | 98 and 102 are within 2% of 100, 103 is not, and 100 is not within 2% of 98 |
| AttributeFilters.CheckPremiumsMember | Customer+Policy+Premium.py:168-180 | the premium check keeps exactly the pairs whose two premiums are present and the insurer's lies within 2% of the broker's |
| AttributeFilters.CheckTenureSpec | Customer+Premium+Tenure.py:113-134 | the two returned lists have equal length and zip back into the pairs whose start dates and end dates are present and equal, in order |
| MatchIndex.PartnersMember | Customer+Policy+Premium.py:193-199 | a row's partner list holds exactly the rows it is paired with |
| MatchIndex.PartnersNoDup | Customer+Policy+Premium.py:195-199 | without repeated pairs, no partner list repeats a row |
| MatchIndex.SharedIndexGet | Customer+Policy+Premium.py:193-199 | because broker and insurer indices never coincide, the one shared dictionary gives every row exactly its own partners |
| MatchIndex.DirectedIndexGet | Customer+Premium+Tenure.py:154-159 | the two directed dictionaries give each broker row its insurer partners, and each insurer row its broker partners |
| MatchIndex.ZipIds | Customer+Premium+Tenure.py:138-139 | the rows picked by the two tenure lists are exactly the broker and insurer rows of the zipped pairs |
| MatchIndex.MarkedPick | Customer+Policy+Premium.py:189-204 | picking the rows named by the survivors and marking them gives exactly those rows, unchanged, each carrying its dictionary entry and the pass's attribute |
| PolicyPremiumPass.SurvivorsMember | Customer+Policy+Premium.py:30-183 | a pair survives the second pass exactly when the names match, the labels reach 0.75 and both premiums are present within 2% |
| PolicyPremiumPass.SurvivorsOrder | Customer+Policy+Premium.py:157-183 | the survivors are a subsequence of the sorted list, repeat none, stay in row-number order, and refer to rows that exist |
| PolicyPremiumPass.NewBrokerMatchesSpec | Customer+Policy+Premium.py:186-207 | the newly matched broker rows are exactly the surviving ones, unchanged, each listing its surviving partners and `Customer+Policy+Premium` |
| PolicyPremiumPass.NewInsurerMatchesSpec | Customer+Policy+Premium.py:186-208 | the newly matched insurer rows are exactly the surviving ones, unchanged, each listing its surviving partners and `Customer+Policy+Premium` |
| PolicyPremiumPass.MatchingIndexMutual | Customer+Policy+Premium.py:193-208 | a new broker match lists a new insurer match exactly when the insurer lists the broker, exactly when they form a surviving pair; no list repeats a row |
| PolicyPremiumPass.RunKeepsInvariant | Customer+Policy+Premium.py:186-225 | the second pass keeps the reconciliation invariant and moves exactly the surviving rows from the unmatched to the matched sheets |
| PolicyPremiumPass.RunKeepsMatched | Customer+Policy+Premium.py:224-225 | every row already on a matched sheet stays there unchanged |
| LedgerState.SubtractSpec | Customer+Policy+Premium.py:215-216 | removing the new matches leaves exactly the other rows, unchanged and in order |
| LedgerState.MergeSpec | Customer+Policy+Premium.py:224-225 | the merged matched sheet holds each index of either input once, in row-number order, and only rows taken from the inputs |
| LedgerState.MergePriorWins | Customer+Policy+Premium.py:224 | the first row with each index on the old matched sheet survives the merge |
| LedgerState.MoveKeepsReconciled | Customer+Premium+Tenure.py:188-198 | moving annotated rows from the unmatched to the matched sheet keeps the invariant; the matched indices grow, and the unmatched ones shrink, by exactly the moved ones |
| LedgerState.SplitReconciled | Pol_no+End_no.py:90-102 | splitting a numbered sheet by a mask that accepts only rows with match columns yields a reconciled pair of sheets |
| PremiumTenurePass.TenureListsSpec | Customer+Premium+Tenure.py:107-136 | the tenure lists have equal length and zip back into the premium survivors whose dates agree |
| PremiumTenurePass.PremiumSurvivorsMember | Customer+Premium+Tenure.py:92-107 | a pair passes the premium check exactly when the names match and both premiums are present within 2% |
| PremiumTenurePass.TenureCheckAt | Customer+Premium+Tenure.py:124-130 | for a proposed pair, the tenure check reads the rows' own dates and passes exactly when both start dates and both end dates are present and equal |
| PremiumTenurePass.SurvivorsMember | Customer+Premium+Tenure.py:34-136 | a pair survives the third pass exactly when the names match, the premiums match and the dates match |
| PremiumTenurePass.SurvivorsOrder | Customer+Premium+Tenure.py:107-136 | the survivors are a subsequence of the sorted list, repeat none, stay in row-number order, and refer to rows that exist |
| PremiumTenurePass.TenureListsIds | Customer+Premium+Tenure.py:136-139 | the rows picked by each tenure list are exactly that side's rows of the surviving pairs |
| PremiumTenurePass.NewBrokerMatchesSpec | Customer+Premium+Tenure.py:138-185 | the newly matched broker rows are exactly the surviving ones, unchanged, each listing its surviving partners and `Customer+Premium+Tenure` |
| PremiumTenurePass.NewInsurerMatchesSpec | Customer+Premium+Tenure.py:138-185 | the newly matched insurer rows are exactly the surviving ones, unchanged, each listing its surviving partners and `Customer+Premium+Tenure` |
| PremiumTenurePass.MatchingIndexMutual | Customer+Premium+Tenure.py:154-165 | a new broker match lists a new insurer match exactly when the insurer lists the broker, exactly when they form a surviving pair; no list repeats a row |
| PremiumTenurePass.RunKeepsInvariant | Customer+Premium+Tenure.py:185-198 | the third pass keeps the reconciliation invariant and moves exactly the surviving rows from the unmatched to the matched sheets |
| PremiumTenurePass.RunKeepsMatched | Customer+Premium+Tenure.py:197-198 | every row already on a matched sheet stays there unchanged |
| Reconciliation.ReconcileSplitsLedgers | Lombard_Saiba_Code.py:8-12 | after the three passes every broker row `S1..Sn` lies on exactly one broker sheet and every insurer row `L1..Lm` on exactly one insurer sheet; no other rows appear, none is repeated, the sheets are in row-number order, and only matched rows carry match columns |
| Reconciliation.FuzzyPassesKeepMatches | Lombard_Saiba_Code.py:24-26 | no fuzzy pass removes or alters a row an earlier pass matched |
| Reconciliation.ReconcileKeepsEarlierMatches | Lombard_Saiba_Code.py:8-12 | every row matched by the first or second pass is on the final matched sheets unchanged |

## Left out

- Reading and writing the Excel workbooks is not modelled, nor the file dialogs. The model starts from each sheet's rows and ends with the four sheets as values.
- The first pass writes the numbered sheets to a workbook and reads them back. That round trip is treated as the identity.
- Running the scripts as separate processes is not modelled. `Reconciliation.Reconcile` composes the three passes directly, in the order the runner lists them.
- `fuzz.ratio` and `SequenceMatcher.ratio` are parameters (`ratio`, `labelRatio`); their edit-distance algorithms are outside the model.
- Premiums are exact reals. IEEE double rounding is not modelled.
- Dates are compared as opaque values, with no calendar arithmetic; the source only tests them for equality.
- A missing premium or date is `None`. A missing premium fails the check, as every comparison with NaN does; a missing date is never equal to anything. pandas compares two NaT dates as unequal, and the model agrees. Any other NaN behaviour is not modelled.
- Policy and endorsement numbers are present text. How pandas treats a missing number (NaN) in the set intersection and in `isin` is not modelled. There `isin` counts NaN as a member, so in the source a row whose number is missing on both sheets can land on the matched sheet with an empty `Matching_Index`.
- Column reordering is not modelled; a row keeps its fields and its two match columns as separate parts.
- Joining the index lists into one text with `', '` is not modelled. The model keeps the lists, which determine that text.
- Text is ASCII. Unicode case mapping, and word and whitespace characters beyond ASCII, are not modelled.
- Only the regular-expression features the normaliser uses are modelled: word boundaries, an ordered alternation, case-insensitive letters, and `.` as the wildcard it is in `P.L.C.`.
- In the source, a row lookup on an empty selection raises `IndexError`. In the model every proposed pair is proved to refer to existing rows, so that error path cannot occur.
- Pandas' sort after removing duplicate indices is not stable, and is not modelled as such. The indices are unique by then, so every sort gives the same order; the model uses a stable insertion sort.
