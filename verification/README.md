# Verified models of eight small cores

This project models the parts of the repository whose correctness rests on more than one
function at a time, and proves what they are for. Each part keeps the shape of its source: what
changes objects in place is a class with methods, what loops is a method with loop invariants,
and each method is proved against a function; the theorems are about those functions.

| part | files |
|---|---|
| the BPE tokenizer of the search course | `BpeMerges`, `BpeOrders`, `BpeWords`, `BpeTraining`, `TokenText`, `ScratchBpe`, `BpeIds`, `BpeTokenizer` |
| the Grover circuit builder | `GroverGates`, `GroverCount`, `Grover`, `GroverSearch`, `GroverBest` |
| the layered sheet and its CSV | `SheetCsv`, `SheetImport`, `ColumnNames` |
| the GrimPan board: documents, commands, engine | `BoardDocument`, `BoardCommands`, `BoardChecks`, `BoardValidity`, `BoardEffects`, `BoardFields`, `BoardHistory`, `BoardBatch`, `BoardSize`, `BoardText`, `BoardFull`, `BoardBatchSize`, `BoardOutgrown`, `BoardEngine` |
| the GrimPan board: forks, quotes, links | `BoardShare`, `BoardProvenance`, `BoardQuote`, `BoardQuoteSize`, `BoardCopies`, `BoardLinks`, `BoardSnapshot`, `BoardCanonical` |
| the LoopProbe observer and probe selection | `OutputText`, `OutputTask`, `OutputReads`, `OutputLimit`, `OutputWatch`, `Globs`, `ProbeSelection` |
| the cluster scheduler | `Scheduling`, `Scheduler` |
| the expiring message board | `TtlBoard`, `TtlSnapshot` |
| what several of these share | `Basics`, `PythonText` |

`dafny verify dfyconfig.toml` checks everything.

## How the source is read

- **Tokenizer.** Text arrives after Unicode NFKC normalization; whitespace and reserved markers
  are modelled. `Learned` says which list training must produce, `Attested` that each merge
  occurred when it was learned. The central fact is `BpeMerges.Locality`; from it follow the
  equality of the encoder's greedy order with the learned order, for every word, and the absence
  of duplicate pieces. For lists from elsewhere, `BpeOrders` says exactly when the orders agree,
  and `BpeWords` says it for the words an encoder is given. `BpeIds` tells ids by the pieces they
  name.
- **Grover.** Gates act on amplitude functions over bit strings. The Hadamard is unnormalized, so
  a factor of the square root of 2 per gate is counted and divided out again in `Probability`.
  Angles appear as Chebyshev polynomials of their cosine, which needs no trigonometry. The number
  of iterations is the formula of the source over exact reals: the library's functions are
  parameters that obey the usual laws (`GroverCount.Exact`). The target is the text that the
  measurements print (`Grover.Readout`), the last classical bit first.
- **Board.** Coordinates are exact numbers. Everything the platform decides is a field of `Host`:
  the encoded size of a document, date parsing, URL parsing (assumed to settle after one pass),
  directions in degrees, digests, and which frames a selection encloses. Generated ids and clock
  readings are arguments of the commands that use them. Digests are assumed not to collide on the
  flattened documents at hand (`CollisionFree`, `Covered`), never on all documents. A quotation
  is accepted exactly when the draft that holds only its sources fits the size limit; its ids are
  fresh when the prepared document validates. What commands, forks and quotations write is said
  field by field in `BoardFields` and `BoardCopies`, apart from the functions that compute it.
- **Sheets.** `SheetImport` says what any CSV text is read as; `SheetCsv` has the round trips.
- **Batches.** A batch is checked under the header of the document before it, its commands in turn
  under later revisions and stamps. When the header gets shorter, which needs a loaded document with
  a longer stamp than the engine writes and depends on the clock of the engine it is loaded into, the
  batch may exceed the size limit though the sequence did not. `BoardBatch.BatchIsSequence` excludes
  that for any size that does not shrink.
- **Sizes.** `BoardSize.JsonSize` counts the bytes of a document as JSON in UTF-8: fields, escapes,
  digits and nested sources; `BoardText` writes that text and shows that it takes these bytes. How
  wide a number is printed is a parameter of at most 25 characters (`BoardSize.Printed`). `BoardFull` fills a board to the last byte with Korean letters.
- **Links.** JSON, gzip and their failures are fields of `Browser`, assumed to be lossless for the
  board at hand only (`BoardSnapshot.Carried`).
- **Digested text.** `BoardCanonical` works on JSON values, whose objects are maps from keys to
  values; a number is the text it is printed as.
- **Observer.** Bytes are written as characters with their codes; decoding a line as UTF-8 is a
  parameter. Terminal escapes and the task line pattern are modelled. Any chunking is covered, also
  with lines over 16 KiB: each observed line is then some ending of the real one, and `OutputLimit`
  says exactly when the outcomes are right. `OutputReads` bounds the chunks, as the program does.
- **Paths.** The regular expression pieces have their usual meaning, the dot excluding the newline.
  `Glob` reads the pattern itself, one character or directory at a time.
- **Scheduler.** Nodes and tasks are objects shared through two maps; iteration order is arbitrary,
  so a round returns, as ghosts, the order in which tasks were offered and the nodes picked
  (`Scheduling.Round`). CPU usage is a real number.
- **Message board.** Times are nanoseconds and a step carries its clock readings. Times in order is
  an assumption about runs: the handler reads its time before it takes the lock, and
  `TtlBoard.LatePushOutlives` shows what happens otherwise.

## Where the code does not do what one would expect

- A tokenizer state that no training wrote can load although greedy and learned order disagree on it
  (`BpeTokenizer.LoadableListsMayDisagree`); they agree exactly under the conditions of
  `BpeTokenizer.LoadedOrdersAgreeIff`.
- A batch can be refused for its size although its commands succeed in turn
  (`BoardBatchSize.BatchRefused`), exactly when the next header is shorter than the present one
  (`BoardBatchSize.AlwaysBatchesIff`), as after `2026-01-01T00:00:00.000000+00:00`
  (`BoardBatchSize.OffsetTimesRefuse`).
- The engine can accept a board that it would refuse to load, because it stamps after validating
  (`BoardOutgrown.RenamingOutgrows`), exactly when the next header is longer than the present one
  (`BoardOutgrown.AlwaysFitsIff`). The next revision is one above the clock, which a board opened
  before may have raised. Such a board cannot be shared, forked or quoted, nor its sources resolved
  (`BoardProvenance.EveryGenerationResolves`).
- A prepared quotation can be refused as too large (`BoardQuoteSize.QuoteRefused`), exactly when the
  sources alone exceed the limit (`BoardQuote.QuoteIsAccepted`), which takes a source held already
  that comes with a longer URL (`BoardQuoteSize.QuoteFits`).
- Rows of CSV survive printing and parsing except a row without fields and the single empty field
  (`SheetCsv.CsvRoundTrip`); sheets are nevertheless safe, because a cell is never printed as an
  empty field (`SheetCsv.SheetRoundTrip`).
- A link whose spare bits are not zero decodes to the bytes of another link
  (`BoardLinks.SpareBitsAreDropped`, `BoardLinks.CanonicalTokens`).
- A path with a newline may be described by a pattern that does not match it
  (`Globs.AgreesWithoutNewlines`).
- An overlong output line can be taken for a task line (`OutputLimit.OverlongLineMisleads`). For
  a given task and decoder the outcomes are right for every chunking exactly when every line reports
  the same as each ending that may be left of it (`OutputLimit.OutcomesAreBatchIff`), and for all of
  them exactly when no line is overlong (`OutputLimit.OutcomesAreBatchIffShort`); for reads of at most
  8192 bytes, see `OutputLimit.ReadOutcomesAreBatchIff`.
- A node registered under the empty name can keep tasks pending (`Scheduling.NamelessNodeStarves`),
  exactly while it is healthy and has a score (`Scheduling.LeftPendingExactly`), and a recovery of
  a node is not a reason to save the state (`Scheduler.ClusterState.CheckHealth`).
- Pushes whose times are out of order leave a message on the board past its expiry
  (`TtlBoard.LatePushOutlives`), exactly when one is earlier than the newest message still on the
  board (`TtlBoard.RunIsExactIffOrderly`).

## Model

| member | source | states |
|---|---|---|
| `BpeMerges.MergePair` | `260921SearchStudy/retrieval_course.py:230-240` | The index loop gives the left-to-right, non-overlapping replacement of the pair. |
| `BpeMerges.MergeSplit` | `260921SearchStudy/retrieval_course.py:230-240` | A cut that survives a merge was a cut before it, and the merge acts on the two sides independently. |
| `BpeMerges.Locality` | `260921SearchStudy/retrieval_course.py:230-240` | Any run of symbols of a tokenized word, with its edges kept, is exactly the tokenization of its own text in isolation, for every merge list and word. |
| `BpeMerges.AttestedInIsolation` | `260921SearchStudy/retrieval_course.py:305-320` | Just before a learned merge, the text of its product in isolation is cut into exactly the two symbols it joins. |
| `BpeMerges.ProductsAreDistinct` | `260921SearchStudy/retrieval_course.py:313-317` | No two learned merges produce the same string. |
| `BpeMerges.AttestedIsWellOrdered` | `260921SearchStudy/retrieval_course.py:305-320` | What a learned merge joins is never produced by itself or by a later merge. |
| `BpeMerges.LowestRankIsLearnedOrder` | `260921SearchStudy/retrieval_course.py:264-272` | Lowest-rank-first tokenization equals applying all merges once each, exhaustively left to right, in learned order, for every symbol sequence and every well-ordered list. |
| `BpeMerges.ApplyBpe` | `260921SearchStudy/retrieval_course.py:264-272` | The encoder loop computes the lowest-rank-first tokenization. |
| `BpeMerges.OrdersDifferOnAnUnlearnableList` | `260921SearchStudy/retrieval_course.py:264-272` | For every list of two merges whose second makes a part of the first, the two orders give different cuts of the three symbols; the exact condition for all lists is `BpeOrders.OrdersAgreeIffSettled`. |
| `BpeOrders.OrdersAgreeIffSettled` | `260921SearchStudy/retrieval_course.py:264-272` | For any list of distinct merges the two orders agree on every sequence of symbols if and only if no merge opens an earlier one, or itself, on at most four symbols. |
| `BpeOrders.OrdersAgreeOnWordsIff` | `260921SearchStudy/retrieval_course.py:264-272` | For any list of distinct merges the two orders agree on every string if and only if learned order leaves no text of a product cut into the two symbols of its merge. |
| `BpeWords.OrdersAgreeOnTextIff` | `260921SearchStudy/retrieval_course.py:264-272` | They agree on every word of a text, marked as the encoder marks it, if learned order leaves no product that may stand in such a word cut in two; and only if, as long as some letter is in no merge. |
| `BpeWords.SomeLetterIsSpare` | `260921SearchStudy/retrieval_course.py:264-272` | Merges of fewer letters than there are Korean syllables leave such a letter. |
| `BpeOrders.WellOrderedIsSettled` | `260921SearchStudy/retrieval_course.py:313-320` | Well-ordered lists, hence all trained ones, meet that condition. |
| `BpeTraining.CountPairs` | `260921SearchStudy/retrieval_course.py:222-228` | The counts are the frequency-weighted numbers of neighbouring occurrences, and every pair that occurs is counted. |
| `BpeTraining.ChoosePair` | `260921SearchStudy/retrieval_course.py:248-250` | The pair chosen is counted at least as often as every other, and among ties comes first in pair order. |
| `PairOrder.PairsByComponent` | `260921SearchStudy/retrieval_course.py:249` | Among equal counts the pair comes first whose first symbol does, or else whose second does, where a string comes before another at the first character where they differ or because it ends there. |
| `BpeTraining.Recut` | `260921SearchStudy/retrieval_course.py:318-320` | Rewriting every segmented word by the new pair gives the cuts of the extended merge list, with no frequency lost to a collision. |
| `BpeTraining.LearnedIsUnique` | `260921SearchStudy/retrieval_course.py:294-323` | Training is deterministic: the stopping rule and the choice rule determine the merge list. |
| `BpeTraining.LearnedIsAttested` | `260921SearchStudy/retrieval_course.py:305-320` | Every learned merge really occurred in a training word at the moment it was learned. |
| `ScratchBpe.EncoderCutsInLearnedOrder` | `260921SearchStudy/retrieval_course.py:264-272` | For every trained tokenizer and every word, seen or unseen, the encoder cuts the word as the learned merges do in order. |
| `ScratchBpe.TrainingWordsKeepTheirCut` | `260921SearchStudy/retrieval_course.py:264-272` | Every training word is encoded by exactly the segmentation it ended training with. |
| `ScratchBpe.VocabularyIsDistinct` | `260921SearchStudy/retrieval_course.py:301-317` | The vocabulary has no duplicates, so the guard on a joined piece is always true, and its size is 5 plus the alphabet plus the merges. |
| `ScratchBpe.SavedIsAcceptable` | `260921SearchStudy/retrieval_course.py:347-372` | What a trained tokenizer saves passes every check of loading. |
| `ScratchBpe.DecodeOfEncode` | `260921SearchStudy/retrieval_course.py:325-345` | Decoding an encoded accepted text gives its normalized form with each character outside the learned alphabet shown as `[UNK]`. |
| `ScratchBpe.KnownTextsRoundTrip` | `260921SearchStudy/retrieval_course.py:325-345` | A text written in the learned alphabet comes back as its normalized form. |
| `TokenText.SplitJoin` | `260921SearchStudy/retrieval_course.py:206-219` | Splitting a normalized text at spaces gives back the words it was joined from. |
| `TokenText.NormalizeWords` | `260921SearchStudy/retrieval_course.py:206-219` | Normalizing an accepted text keeps its words; there is at least one, and none holds a reserved marker or a space. |
| `TokenText.DecodedText` | `260921SearchStudy/retrieval_course.py:334-345` | Replacing the word marker by a space and trimming gives back the words joined by spaces. |
| `BpeTokenizer.ScratchBPE.CollectWords` | `260921SearchStudy/retrieval_course.py:297-300` | The words of all normalized texts are counted; the first text that is rejected decides the error. |
| `BpeTokenizer.BestCandidate` | `260921SearchStudy/retrieval_course.py:306-311` | Training stops exactly when no pair reaches the least frequency, and otherwise takes the preferred pair of all. |
| `BpeTokenizer.ScratchBPE.AppendMerge` | `260921SearchStudy/retrieval_course.py:312-317` | Recording a merge always appends its new piece and keeps pieces and ids in step. |
| `BpeTokenizer.ScratchBPE.LearnMerges` | `260921SearchStudy/retrieval_course.py:301-320` | The loop over merges ends with the list training determines and with the vocabulary that belongs to it. |
| `BpeTokenizer.ScratchBPE.Fit` | `260921SearchStudy/retrieval_course.py:294-323` | Fitting learns that list for the words of all texts, reports each complaint as the code does, and then leaves the object as it was. |
| `BpeTokenizer.ScratchBPE.Encode` | `260921SearchStudy/retrieval_course.py:325-332` | The loop computes the ids of the tokenized words between the two markers, unknown symbols becoming `[UNK]`; what these ids name is `BpeIds.EncodedNames`. |
| `BpeIds.EncodedNames` | `260921SearchStudy/retrieval_course.py:276-332` | For every trained or loaded tokenizer the first id names `[CLS]` and the last `[SEP]`; those between are the ids without special tokens, each names its symbol or `[UNK]`, none names a control, and the symbols spell the marked words. |
| `BpeIds.DecodedBetweenMarkers` | `260921SearchStudy/retrieval_course.py:325-345` | Decoded without skipping, an encoded text stands between `[CLS]` and `[SEP]`. |
| `BpeIds.SkippingIsVisible` | `260921SearchStudy/retrieval_course.py:334-345` | Skipping special tokens is decoding the ids that do not name `[PAD]`, `[CLS]`, `[SEP]` or `[MASK]`; `[UNK]` is shown. |
| `BpeIds.ShownIff` | `260921SearchStudy/retrieval_course.py:334-345` | Decoding fails exactly when some id is no index into the pieces, and reports the first one. |
| `BpeTokenizer.ScratchBPE.Decode` | `260921SearchStudy/retrieval_course.py:334-345` | The loop computes the decoded text and rejects an id out of range. |
| `BpeTokenizer.ScratchBPE.ToDict` | `260921SearchStudy/retrieval_course.py:347-352` | What is saved is the pieces and the merges in order. |
| `BpeTokenizer.ScratchBPE.FromDict` | `260921SearchStudy/retrieval_course.py:354-372` | A saved state is accepted exactly when it is consistent, and then restores pieces and merges. |
| `BpeTokenizer.SaveAndLoad` | `260921SearchStudy/retrieval_course.py:347-372` | Loading what a trained tokenizer saved is accepted, and the loaded tokenizer encodes every text as the first one does. |
| `BpeTokenizer.LoadedOrdersAgreeIff` | `260921SearchStudy/retrieval_course.py:354-372` | For every saved state that loads, the greedy and the learned order agree on all symbols, and on all marked words of texts, exactly under the two conditions above on its merge list, the second one for fewer letters than Korean syllables. |
| `BpeTokenizer.LoadableListsMayDisagree` | `260921SearchStudy/retrieval_course.py:354-372` | A state that no training wrote loads although its two orders cut the word abc, marked by the encoder, differently; its list fails both conditions. |
| `GroverGates.SquaresConserved` | `quantum260518/grover_20q.py:22-50` | Every circuit multiplies the sum of squared amplitudes by 2 per Hadamard: probability is conserved. |
| `GroverGates.HLayerTwice` | `quantum260518/grover_20q.py:45-50` | Two layers of Hadamards are the identity up to a factor 2 per qubit. |
| `GroverGates.HLayerSums` | `quantum260518/grover_20q.py:62` | A layer of Hadamards sums the amplitudes into states whose low bits are zero. |
| `Grover.ApplyMultiControlledZ` | `quantum260518/grover_20q.py:22-30` | The gates appended are those of the multi-controlled Z, with the single-qubit case apart. |
| `Grover.ApplyPhaseOracle` | `quantum260518/grover_20q.py:33-41` | The two loops append the Nots selected by the reversed target around the multi-controlled Z; which state that negates is `Grover.OracleNegatesTarget`. |
| `Grover.ApplyDiffuser` | `quantum260518/grover_20q.py:45-50` | The gates appended are the layers of the diffuser. |
| `Grover.BuildGroverCircuit` | `quantum260518/grover_20q.py:58-67` | A wrong target is rejected; otherwise the circuit is the first layer and the computed number of iterations, every qubit is measured into its own bit, and that number is returned. |
| `GroverCount.OptimalIterations` | `quantum260518/grover_20q.py:53-56` | The number computed, rounded from the arc sine in exact arithmetic, turns the state to within one first angle of a quarter circle. |
| `GroverCount.OneQubitStays` | `quantum260518/grover_20q.py:53-56` | For one qubit the formula gives exactly one half, which is rounded to the even integer: no iteration is made. |
| `Grover.MultiControlledZNegatesAllOnes` | `quantum260518/grover_20q.py:22-30` | For every n and every state vector, only the all-ones amplitude is negated. |
| `Grover.TargetIsRead` | `quantum260518/grover_20q.py:17-18` | The state the oracle is built for is the one that the measurements print as the target string, the last classical bit first; no other state is. |
| `Grover.ValidTargets` | `quantum260518/grover_20q.py:10-14` | The targets accepted are exactly the texts that measuring as many qubits can print; a wrong length is the error reported first. |
| `Grover.OracleNegatesTarget` | `quantum260518/grover_20q.py:17-41` | For every target string and every state vector, exactly the amplitude of the state that is read as the target is negated. |
| `Grover.DiffuserSubtractsTwiceTheMean` | `quantum260518/grover_20q.py:45-50` | For every n and every state vector, each amplitude becomes itself minus twice the mean. |
| `GroverSearch.CircuitFits` | `quantum260518/grover_20q.py:58-67` | Every emitted gate acts inside the register. |
| `GroverSearch.AmplitudesAfter` | `quantum260518/grover_20q.py:58-67` | After any number of iterations all non-target amplitudes are equal, and the two values follow the rotation. |
| `GroverSearch.RotationConserves` | `quantum260518/grover_20q.py:58-67` | The square of the target amplitude plus the others squared is conserved through every iteration. |
| `GroverSearch.RotationAngle` | `quantum260518/grover_20q.py:53-56` | k iterations turn by 2k + 1 times the first angle, in Chebyshev form. |
| `GroverSearch.SearchOutcome` | `quantum260518/grover_20q.py:58-67` | After k iterations the measurements print the target with chance (1 - T(1 - 2/N)) / 2, T the Chebyshev polynomial of degree 2k + 1 and N = 2^n, which is sin squared of (2k + 1) theta; every other text has an equal share of the rest. |
| `GroverSearch.ChanceIsProbability` | `quantum260518/grover_20q.py:58-67` | Of all states, one is printed as a given text of bits, and its probability is the chance of reading that text. |
| `GroverBest.PrintedSuccess` | `quantum260518/grover_20q.py:85-86` | The theoretical success the program prints equals the chance that the measurements of its circuit print the target, after any number of iterations. |
| `GroverBest.IterationsAreBest` | `quantum260518/grover_20q.py:53-67` | With the number of iterations made, the target is missed with chance at most 1/2^n, and no smaller number reads it with a better chance. |
| `GroverBest.IterationsAreFew` | `quantum260518/grover_20q.py:53-56` | The number of iterations is at most a quarter of pi times the square root of 2^n. |
| `GroverSearch.ChancesAddUp` | `quantum260518/grover_20q.py:58-67` | The chances of all readings add up to 1. |
| `SheetCsv.SplitEscapedBundle` | `260701sheet/src/sheet-model.js:232-260` | The loop over characters splits a bundle at unescaped delimiters. |
| `SheetCsv.BundleRoundTrip` | `260701sheet/src/sheet-model.js:165-186` | Decoding an encoded cell gives every layer back, whatever the layers hold. |
| `SheetCsv.ParseCsvText` | `260701sheet/src/sheet-model.js:101-159` | The parser loop computes the rows of the text. |
| `SheetCsv.CsvRoundTrip` | `260701sheet/src/sheet-model.js:101-163` | Parsing printed rows gives them back if and only if no row is empty and they are not one empty field. |
| `SheetCsv.ImportCsvToSheet` | `260701sheet/src/sheet-model.js:188-195` | Importing parses, decodes each field and squares up the rows; what that gives for any table is `SheetImport.ImportsValues`. |
| `SheetImport.ImportsValues` | `260701sheet/src/sheet-model.js:101-195` | Every table of fields without the layer delimiter is imported as a rectangle of cells, as wide as its longest row, with the fields as values and the other layers empty. |
| `SheetImport.AnyLineBreak` | `260701sheet/src/sheet-model.js:101-159` | Rows are read the same whether a line feed, a carriage return or both end them. |
| `SheetImport.QuotesInside` | `260701sheet/src/sheet-model.js:101-159` | Quotes may enclose any part of a field: what they enclose is taken as it is, and a doubled quote as one. |
| `SheetImport.BundleFillsLayers` | `260701sheet/src/sheet-model.js:169-260` | Two escaped parts or more fill value, procedure, period and source from the left; the surplus joins the source. |
| `SheetImport.LooseIsKept` | `260701sheet/src/sheet-model.js:232-260` | A backslash that escapes nothing is kept, at the very end of a part too. |
| `SheetImport.PlainText` | `260701sheet/src/sheet-model.js:161-163` | Plain fields are printed with commas between the fields of a row and line feeds between rows. |
| `SheetImport.FieldText` | `260701sheet/src/sheet-model.js:218-224` | A field is printed as it is if and only if it holds no quote, comma or line break. |
| `SheetCsv.SheetRoundTrip` | `260701sheet/src/sheet-model.js:188-203` | For every sheet, even without rows or columns, importing its export gives its cells squared up. |
| `ColumnNames.ColumnName` | `260701sheet/src/sheet-model.js:205-216` | The name computed is made of capital letters and counts to the index, with digits 1 to 26. |
| `ColumnNames.LabelOfNumber` | `260701sheet/src/sheet-model.js:205-216` | Every word of capital letters is the name of exactly the column it counts to. |
| `BoardDocument.ObjectNormalized` | `260915GrimPan/engine.js:64-95` | A normalized object is left as it is by normalizing again. |
| `BoardChecks.IdentifierIff` | `260915GrimPan/engine.js:24-27` | An id is accepted if and only if it is one to a hundred letters, digits, hyphens and underscores. |
| `BoardChecks.ColorIff` | `260915GrimPan/engine.js:28-32` | A colour is accepted if and only if it has at most 100 characters and is a hash with 3, 4, 6 or 8 hexadecimal digits, a word of up to 25 letters, or one of the four functions applied to numbers, in any case. |
| `BoardChecks.ColorIsHarmless` | `260915GrimPan/engine.js:28-32` | A colour accepted holds no character that markup or a URL needs. |
| `BoardFields.ObjectTaken` | `260915GrimPan/engine.js:64-95` | An object is taken exactly when it has a supported type, an id, points if it is a path, and keeps the limits of its type; it then holds every value supplied and the documented one for each missing, its rotation reduced to 0 up to 360 degrees, a path with the extent of its points at place 0, 0. |
| `BoardFields.NormalIffAllowed` | `260915GrimPan/engine.js:64-95` | Validation leaves an object as it is if and only if it keeps the limits and holds its own values. |
| `BoardFields.FrameTaken` | `260915GrimPan/engine.js:50-57` | A frame is taken exactly when it has an id, a place and a size within the limits; title and description have their documented values if missing. |
| `BoardDocument.SoundIsChecked` | `260915GrimPan/engine.js:137-172` | A document that meets every condition is unchanged by the checks. |
| `BoardDocument.CheckedIsSound` | `260915GrimPan/engine.js:137-172` | What the checks return meets every condition. |
| `BoardDocument.DocumentNormalized` | `260915GrimPan/engine.js:137-174` | Validation is idempotent, for documents and for the sources inside them. |
| `BoardValidity.MovedIsNormal` | `260915GrimPan/engine.js:257-266` | Moving keeps an object valid; the extent of a path does not depend on where it is. |
| `BoardValidity.RunKeeps` | `260915GrimPan/engine.js:232-338` | Every command, with all nested ones, keeps every condition of a valid document except the size, and keeps the point total equal to the real sum. |
| `BoardValidity.ValidatedDraft` | `260915GrimPan/engine.js:340-341` | Validating the draft after any command can only fail for its size and otherwise changes nothing. |
| `BoardEffects.CreateThenDelete` | `260915GrimPan/engine.js:212-219` | Creating an object and deleting it again leaves the draft as it was. |
| `BoardEffects.DeleteLeavesUnnamed` | `260915GrimPan/engine.js:252-256` | Deleting leaves exactly the objects not named, in order, and nothing else changes. |
| `BoardFields.UpdateWrites` | `260915GrimPan/engine.js:237-251` | Updating succeeds exactly when every name is well formed and known, no path is given a place, every result keeps the limits and the points have room in turn; each named object then holds every value given and its own elsewhere, and the others are left alone. |
| `BoardFields.CreateWrites` | `260915GrimPan/engine.js:212-219` | Creating succeeds exactly when the object is taken and there is room for it under an id of its own; it stands at the end with the values asked for, and nothing else changes. |
| `BoardFields.FrameAddWrites` | `260915GrimPan/engine.js:226-231` | Adding a frame succeeds exactly when it is taken and there is room for it under an id of its own; it stands at the end. |
| `BoardFields.FrameUpdateWrites` | `260915GrimPan/engine.js:303-309` | The frame named gets every value given and keeps its own elsewhere, or the update is refused for the limits; no other frame changes. |
| `BoardFields.FrameDeleteWrites` | `260915GrimPan/engine.js:310-313` | Deleting takes out the frame named and leaves the others in order. |
| `BoardFields.MoveWrites` | `260915GrimPan/engine.js:257-266` | Moving succeeds exactly when every name is well formed and known and every object named stays on the plane; those objects move by the distance given and the others stay. |
| `BoardFields.DeleteWrites` | `260915GrimPan/engine.js:252-256` | Deleting succeeds exactly when every name is well formed and known, and the first complaint decides the error; the objects not named stay in order. |
| `Basics.UniqueInOrder` | `260915GrimPan/engine.js:210` | Repeated names count once, in the order in which they first occur. |
| `BoardFields.AgentMoves` | `260915GrimPan/engine.js:267-280` | The agent goes to the place or by the distance given, not both, faces where it went, and with its pen down leaves one line from where it was, in its colour and width; this fails exactly when a place, the direction or the line is refused. |
| `BoardFields.FacesAlongAxes` | `260915GrimPan/engine.js:276` | Along the axes it faces 0 to the right, 90 down, 180 to the left and 270 up. |
| `BoardFields.AgentTurns` | `260915GrimPan/engine.js:281` | Turning sets the heading to the angle given, reduced to 0 up to 360 degrees, and nothing else. |
| `BoardFields.PenIsSet` | `260915GrimPan/engine.js:282-286` | The pen is set as given and keeps its colour and width if none are; a colour or width beyond the limits is refused. |
| `BoardFields.HeaderIsSet` | `260915GrimPan/engine.js:330-333` | Title and author are written as given and otherwise kept; too long ones are refused. |
| `BoardFields.ReactionWrites` | `260915GrimPan/engine.js:291-301` | A toggle is made for the author given or that of the board: it takes out the reaction that is there, or puts one in at the end with the time given, within the limits. |
| `BoardEffects.MoveEachIs` | `260915GrimPan/engine.js:257-266` | Moving succeeds if and only if every moved object stays on the plane, and moves exactly the listed objects. |
| `BoardEffects.MoveThereAndBack` | `260915GrimPan/engine.js:257-266` | Moving objects and moving them back leaves the draft as it was. |
| `BoardEffects.ToggleTwice` | `260915GrimPan/engine.js:291-301` | Adding a reaction and toggling it again leaves the document as it was. |
| `BoardEffects.ToggleFlips` | `260915GrimPan/engine.js:291-301` | After a toggle the author has the reaction if and only if not before, and every other reaction stays. |
| `BoardEngine.Workspace.constructor` | `260915GrimPan/engine.js:205-207` | The working copy starts with the document and the sum of its path points. |
| `BoardEngine.Workspace.Add` | `260915GrimPan/engine.js:212-219` | Adding an object in place reaches the specified draft or error. |
| `BoardEngine.Workspace.AddOneFrame` | `260915GrimPan/engine.js:226-231` | Adding a frame in place reaches the specified draft or error. |
| `BoardEngine.Workspace.UpdateObjects` | `260915GrimPan/engine.js:242-249` | The loop over the objects named reaches the specified draft or error, with the running total. |
| `BoardEngine.Workspace.MoveObjects` | `260915GrimPan/engine.js:259-264` | The loop moving objects in place reaches the specified draft or error. |
| `BoardEngine.Workspace.DeleteObjects` | `260915GrimPan/engine.js:252-255` | The filter keeps the objects not listed and takes their points off the total. |
| `BoardEngine.Workspace.MoveAgentTo` | `260915GrimPan/engine.js:274-279` | The agent draws if its pen is down, turns toward where it goes and gets there. |
| `BoardEngine.Workspace.Merge` | `260915GrimPan/engine.js:314-326` | Quoted sources are validated and merged in place, with each complaint as specified. |
| `BoardEngine.Workspace.Toggle` | `260915GrimPan/engine.js:291-301` | The reaction is removed where it is or added at the end. |
| `BoardEngine.Workspace.Perform` | `260915GrimPan/engine.js:232-338` | One command with all nested batches, changing the working copy in place, reaches exactly the specified draft or error. |
| `BoardEngine.Workspace.PerformAll` | `260915GrimPan/engine.js:289` | The loop over a batch stops at the first error. |
| `BoardEngine.Engine.Create` | `260915GrimPan/engine.js:181-182` | An engine is made only for a document that validates, and starts at its revision. |
| `BoardEngine.Engine.TrimHistory` | `260915GrimPan/engine.js:193-196` | The two limits are met by dropping the oldest items only, with the size kept up to date. |
| `BoardEngine.Engine.Execute` | `260915GrimPan/engine.js:201-352` | Executing a command ends in the specified state and response; a rejected command changes no field. |
| `BoardEngine.Engine.Restore` | `260915GrimPan/engine.js:353-365` | Undo and redo end in the specified state and response. |
| `BoardEngine.Engine.Open` | `260915GrimPan/engine.js:373-379` | Loading ends in the specified state and response. |
| `BoardEngine.Engine.Session` | `260915GrimPan/engine.js:366-380` | Any session of steps drives the fields through the states of the specification and keeps the invariant. |
| `BoardHistory.RedoKeepsAll` | `260915GrimPan/engine.js:353-361` | The trim inside redo never drops a step. |
| `BoardHistory.StepKeeps` | `260915GrimPan/engine.js:201-379` | Every step keeps the invariant: sound documents, chained bounded history, a clock above every revision. |
| `BoardHistory.RunKeepsInv` | `260915GrimPan/engine.js:201-379` | The invariant holds after every run of steps on a valid document. |
| `BoardHistory.HistoryStaysBounded` | `260915GrimPan/engine.js:193-196` | After every run at most 40 items are held, within 16 MiB unless at most one is, and redoing drops none. |
| `BoardHistory.TrimIsLongest` | `260915GrimPan/engine.js:193-196` | Trimming keeps as many of the newest steps as 40 steps and 16 MiB allow; the size alone never costs the last one. |
| `BoardHistory.RevisionsRise` | `260915GrimPan/engine.js:197-200` | A rejected or idle step changes nothing; every other step but a load gets a revision above all earlier ones. |
| `BoardHistory.EveryChangeIsNewest` | `260915GrimPan/engine.js:197-200` | After any run, a step that changes the document gives it a revision above every one the document had at any point of the run, also across loads and trimmed history. |
| `BoardHistory.OpenedIsReachable` | `260915GrimPan/engine.js:373-379` | Opening a board in an engine that has shown another one leaves the clock at the greater revision. |
| `BoardHistory.UndoThenRedo` | `260915GrimPan/engine.js:353-365` | One undo reaches the content before the last step, and one redo restores past, future and content. |
| `BoardHistory.UndosThenRedos` | `260915GrimPan/engine.js:353-365` | k undos followed by k redos, at any times, restore past, future and content. |
| `BoardHistory.UndosState` | `260915GrimPan/engine.js:353-365` | k undos reach the content before the last k steps. |
| `BoardBatch.RunKeepsHeader` | `260915GrimPan/engine.js:232-338` | No command, with all nested ones, changes revision, times or id of the draft. |
| `BoardBatch.RunUnder` | `260915GrimPan/engine.js:232-338` | A command that succeeds does the same under another revision, stamp, count and depth within the limits, or fails for a size that is really larger under the other header. |
| `BoardBatch.BatchOrTooLarge` | `260915GrimPan/engine.js:287-290` | If commands succeed in turn, one batch of them within the limits succeeds, or is refused as too large, and then a document of the sequence takes more bytes under the header the batch sees. |
| `BoardBatch.BatchIsSequence` | `260915GrimPan/engine.js:287-290` | If commands succeed in turn and no header they can write, with a revision above the clock, is shorter than the first, one batch of them succeeds with the same content and at most one undo item. |
| `BoardBatchSize.BatchRefused` | `260915GrimPan/engine.js:287-290` | Whatever the clock, every board of exactly the size limit, titled x, whose header takes more bytes than the next one, can be renamed to a and then to bb, while one batch of both is refused as too large. |
| `BoardFull.FullBoard` | `260915GrimPan/engine.js:137-171` | Under every header there is a valid board whose JSON takes exactly the limit of bytes. |
| `BoardText.SizeIsTextLength` | `260915GrimPan/engine.js:147-170` | The bytes counted for a board are those of its JSON text in UTF-8, written field by field as validation builds it, with all nested sources. |
| `BoardText.EscapedLength` | `260915GrimPan/engine.js:170` | A character of a string takes the bytes of its escape, or of its encoding by section 3 of RFC 3629. |
| `BoardBatchSize.AlwaysBatchesIff` | `260915GrimPan/engine.js:287-376` | In all states the engine reaches with a given clock and header, batches of what succeeds in turn are always accepted if and only if the digits of the next clock reading and the stamp take no less room than the present header, while two revisions are left; and always when none is left. |
| `BoardBatchSize.OwnTimesBatch` | `260915GrimPan/engine.js:7-376` | So they always are on boards whose time of update takes no more room than the times the engine writes. |
| `BoardBatchSize.OffsetTimesRefuse` | `260915GrimPan/engine.js:287-376` | For a time of update with microseconds and an offset they are if and only if the clock has eight digits more than the revision. |
| `BoardOutgrown.RenamingOutgrows` | `260915GrimPan/engine.js:340-346` | Whatever the clock, every board of exactly the limit, titled x, whose next header takes more bytes, is renamed to a board that validation refuses as too large. |
| `BoardOutgrown.AlwaysFitsIff` | `260915GrimPan/engine.js:340-376` | In all states the engine reaches with a given clock and header, no command makes a board outgrow the limit if and only if the next header takes no more room than the present one, or no revision is left. |
| `BoardShare.CheckSources` | `260915GrimPan/share.js:77-87` | The loop over the sources stops at the first one that does not verify. |
| `BoardShare.MergeSources` | `260915GrimPan/share.js:181-186` | The loop over the sources brought merges them by digest, in order, or reports the conflict. |
| `BoardChecks.MergeIs` | `260915GrimPan/share.js:181-186` | Merging is refused if and only if two entries of one source disagree in more than where it was found; otherwise the new sources follow those held, in order. |
| `BoardShare.PrepareQuoteCommand` | `260915GrimPan/share.js:177-190` | Preparing validates and verifies both documents, merges, validates the result and gives the command; what it copies and where to is `BoardCopies.QuotationCopies`. |
| `BoardProvenance.VerifiedIsGenuine` | `260915GrimPan/share.js:77-87` | In a verified document every source has the digest of its snapshot, its metadata and all its ancestors. |
| `BoardProvenance.RecoverableResolves` | `260915GrimPan/share.js:63-75` | A source whose flat form and ancestors are held is rebuilt exactly. |
| `BoardProvenance.ForkRecovers` | `260915GrimPan/share.js:163-174` | Whatever input is forked, a successful fork verifies, and resolving its source by digest rebuilds the input as validated, exactly. |
| `BoardProvenance.SessionExtends` | `260915GrimPan/share.js:63-75` | No editing session, with undo and redo, ever loses a source it started with. |
| `BoardProvenance.QuotingRecovers` | `260915GrimPan/share.js:177-190` | A document that accepted a quotation can rebuild every source the quoted document could. |
| `BoardProvenance.LineageRecovers` | `260915GrimPan/share.js:163-190` | Through every chain of forks, quotes and sessions a recoverable source stays recoverable. |
| `BoardProvenance.EveryGenerationResolves` | `260915GrimPan/share.js:63-75` | Any ancestor, as validated when it was first forked, is rebuilt exactly from the last descendant of any chain of forks, quotes and edits; or the error is that this descendant has outgrown the size limit. |
| `BoardQuote.NeverConflicts` | `260915GrimPan/share.js:182-185` | For verified target and source the conflict branch is never taken. |
| `BoardQuote.MergedAreGenuine` | `260915GrimPan/share.js:181-186` | The merged sources verify again. |
| `BoardQuote.QuoteSourcesSucceeds` | `260915GrimPan/engine.js:314-326` | The checks of the engine on the sources of a prepared quotation all pass. |
| `BoardChecks.SourcesMerged` | `260915GrimPan/engine.js:314-326` | Sources are merged into a board exactly when they validate as if alone, are there with their content, disagree with none held, are not too many and bring every source of theirs; each other case has its own error, in this order. |
| `BoardQuote.QuoteRuns` | `260915GrimPan/engine.js:314-329` | Running the prepared command gives exactly the document that preparing validated. |
| `BoardCopies.SelectIs` | `260915GrimPan/share.js:132-144` | The selection is exactly the objects listed, in the order of the source, with the frames they enclose; everything if nothing is said; and an error exactly for ids too many or unknown. |
| `BoardCopies.QuotationCopies` | `260915GrimPan/share.js:145-156` | A prepared quotation holds exactly the selection in the order of the source, each under its new id and moved by the distance given, every point of a path, and otherwise the same; frames likewise. |
| `BoardCopies.QuotePlaces` | `260915GrimPan/share.js:177-190` | Run on the board it was prepared for, it adds these copies at the end and merges the sources; nothing else changes. |
| `BoardCopies.QuoteThenMove` | `260915GrimPan/share.js:145-190` | Quoting at a distance puts the same objects on the board as quoting in place and then moving the copies by that distance. |
| `BoardCopies.ForkCopies` | `260915GrimPan/share.js:163-174` | A fork holds exactly the selection where it was, the reactions if everything is selected, and the agent of its source, under its own id, time, title and author. |
| `BoardQuote.QuoteIsAccepted` | `260915GrimPan/share.js:177-190` | The engine accepts the prepared command if and only if the sources alone fit the size limit, and otherwise refuses it as too large; when accepted, the result verifies again, and one undo restores the target content. |
| `BoardQuoteSize.QuoteFits` | `260915GrimPan/engine.js:314-326` | It accepts the command if no source held already comes with a longer URL. |
| `BoardQuoteSize.QuoteRefused` | `260915GrimPan/engine.js:314-326` | On a board of exactly the limit that holds one source, quoting that source again under a longer URL is prepared and then refused as too large, although it would change nothing. |
| `BoardLinks.LinkRoundTrip` | `260915GrimPan/share.js:9-21` | Decoding gives back the bytes encoded if and only if there is at least one and no more than the limit. |
| `BoardLinks.GroupIsNumber` | `260915GrimPan/share.js:9-13` | Three bytes and the four symbols they are written as are the same number of 24 bits. |
| `BoardLinks.SymbolTable` | `260915GrimPan/share.js:9-13` | The symbols are the capital letters, the small ones, the digits, hyphen and underscore, in this order. |
| `BoardLinks.CanonicalTokens` | `260915GrimPan/share.js:14-21` | A token that decodes is the encoding of its bytes if and only if its spare bits are zero. |
| `BoardLinks.SpareBitsAreDropped` | `260915GrimPan/share.js:14-21` | The token AB decodes to the byte that AA encodes. |
| `BoardSnapshot.ReadBounded` | `260915GrimPan/share.js:22-38` | The two loops give all bytes of the stream, unless they exceed the limit or the stream breaks off. |
| `BoardSnapshot.LinkIsMade` | `260915GrimPan/share.js:89-101` | A link is made exactly for boards that validate and verify, unless the compressed text exceeds the limit. |
| `BoardSnapshot.LinkOpens` | `260915GrimPan/share.js:89-118` | A link opens as the board it was made of, as validated, compressed or not; the one exception is a browser that cannot expand it. |
| `BoardSnapshot.SameLinkSameBoard` | `260915GrimPan/share.js:89-118` | Two boards have the same link if and only if they are the same once validated. |
| `BoardSnapshot.OpenedIsGenuine` | `260915GrimPan/share.js:103-118` | Whatever token is opened, the board accepted is valid, all its sources check out, and it can be shared again. |
| `BoardCanonical.SameTextSameValue` | `260915GrimPan/share.js:46-50` | Two JSON values have the same canonical text if and only if they are equal, whatever the order of keys. |
| `BoardCanonical.StringReadsBack` | `260915GrimPan/share.js:46-50` | A string in the canonical text, read as section 7 of RFC 8259 says, is the string. |
| `BoardCanonical.SameDigestedText` | `260915GrimPan/share.js:52-58` | Leaving out empty reactions and frames confuses no two boards: their digested texts agree if and only if they do. |
| `BoardCanonical.OldTextsStay` | `260915GrimPan/share.js:54-57` | A board from before these collections keeps its digested text when validation adds them empty. |
| `BoardCanonical.DigestsOfBoards` | `260915GrimPan/share.js:52-61` | If the digest confuses no two texts at hand, it confuses no two boards: what the provenance theorems assume. |
| `OutputText.OccursAcross` | `260716AndroidTest/loopprobe.py:597-602` | A pattern occurs in a stream that grew if and only if it did before or occurs in the carry with the new chunk. |
| `OutputText.LinesConcat` | `260716AndroidTest/loopprobe.py:604-611` | Splitting into lines may go on from the open line. |
| `OutputText.FeedSeenAs` | `260716AndroidTest/loopprobe.py:604-614` | After a guarded open line, every line cut from the next chunk is the real line if short, and an ending of it otherwise. |
| `OutputText.ChunksSeenAs` | `260716AndroidTest/loopprobe.py:604-614` | Over any chunks, every line observed is an ending of the real one, and the line itself if short. |
| `OutputText.TailGrows` | `260716AndroidTest/loopprobe.py:862-864` | Extending the tail and cutting it gives the tail of the longer stream. |
| `OutputWatch.OutputObserver.Search` | `260716AndroidTest/loopprobe.py:597-602` | After a chunk the names found are those whose pattern occurs in the lowercased whole stream, and the carry is its end. |
| `OutputWatch.OutputObserver.ObserveLine` | `260716AndroidTest/loopprobe.py:621-627` | A line that reports the watched task adds its outcome, and no other line adds anything. |
| `OutputTask.ReportsExactly` | `260716AndroidTest/loopprobe.py:86-89` | A line reports an outcome for a task if and only if it is made of spaces, the task after its mark, one of the five outcomes or none for an execution, and spaces. |
| `OutputTask.LettersLowered` | `260716AndroidTest/loopprobe.py:597` | Patterns are sought with capital letters made small and every other byte as it is. |
| `OutputTask.EscapeIsDropped` | `260716AndroidTest/loopprobe.py:85-624` | A terminal escape at the start of a text is dropped. |
| `OutputTask.OtherIsKept` | `260716AndroidTest/loopprobe.py:85-624` | Any other first character is kept. |
| `OutputTask.ReturnsOff` | `260716AndroidTest/loopprobe.py:624` | Carriage returns are taken off the end of a line, and only there. |
| `OutputWatch.OutputObserver.TakeLines` | `260716AndroidTest/loopprobe.py:604-614` | Every complete line of the stream has been observed once, in order, up to the length guard. |
| `OutputWatch.OutputObserver.Feed` | `260716AndroidTest/loopprobe.py:597-614` | Feeding a chunk keeps all this true of the longer stream. |
| `OutputWatch.OutputObserver.Finish` | `260716AndroidTest/loopprobe.py:616-619` | The open line is observed if it is not empty. |
| `OutputWatch.HitsOfTable` | `260716AndroidTest/loopprobe.py:629-639` | The hits reported from a table are the patterns of that table that occur. |
| `OutputWatch.OutputCapture.Read` | `260716AndroidTest/loopprobe.py:860-864` | The tail is the end of all output and the byte count is its length. |
| `OutputWatch.Observe` | `260716AndroidTest/loopprobe.py:586-639` | The outcomes are those of the lines the guarded splitting of the chunks sees; hits, tail and truncation speak about the whole output however it is cut; and the outcomes are those of batch line splitting if no line exceeds 16 KiB. |
| `OutputLimit.LinesObservedIffShort` | `260716AndroidTest/loopprobe.py:604-619` | Every chunking of an output is observed as its lines if and only if no line exceeds the limit. |
| `OutputLimit.ObservedExactly` | `260716AndroidTest/loopprobe.py:604-619` | The lists of lines observed over all ways of cutting an output are exactly those with each line as itself or as an ending the guard can leave of it. |
| `OutputLimit.OutcomesAreBatchIff` | `260716AndroidTest/loopprobe.py:604-627` | For one watched task and one decoder, the outcomes equal those of batch line splitting for every chunking if and only if every line reports the same as each ending that may be left of it. |
| `OutputLimit.LetterLineIsHarmless` | `260716AndroidTest/loopprobe.py:612-627` | A line of one letter, however long, meets that condition. |
| `OutputLimit.OutcomesAreBatchIffShort` | `260716AndroidTest/loopprobe.py:604-627` | For all chunkings, watched tasks and decoders at once, the outcomes equal those of batch line splitting if and only if no line exceeds the limit. |
| `OutputReads.ReadExactly` | `260716AndroidTest/loopprobe.py:604-619` | Over all reads of at most so many bytes, the lists of lines observed are exactly those with each line as itself or cut at a place where a read can end beyond the limit, and not longer than the last read allows. |
| `OutputReads.CutPlacesOfProgram` | `260716AndroidTest/loopprobe.py:604-614` | With reads of at most 8192 bytes a line can be cut anywhere beyond 16384 bytes, except from 24577 to 31745. |
| `OutputLimit.ReadOutcomesAreBatchIff` | `260716AndroidTest/loopprobe.py:604-627` | For one task, one decoder and a bound on reads, the outcomes are always those of batch line splitting if and only if they are for full reads and nothing that other reads may leave of a line reports otherwise. |
| `OutputLimit.OverlongLineMisleads` | `260716AndroidTest/loopprobe.py:612-619` | Read in pieces of 8192, 8192 and 1 bytes, a line that mentions a task only at its end is reported as an outcome of that task; batch splitting reports none. |
| `Globs.GlobRegex` | `260716AndroidTest/loopprobe.py:519-541` | The emitted expression accepts exactly the paths the pattern describes, `**` stopping at newlines, and so exactly the described newline-free paths. |
| `Globs.CompiledIsGlob` | `260716AndroidTest/loopprobe.py:519-545` | The compiled pattern and the direct reading of the pattern agree on every path. |
| `Globs.StricterOnLines` | `260716AndroidTest/loopprobe.py:528-534` | What matches a pattern with `**` stopping at newlines also matches it as written. |
| `Globs.AgreesWithoutNewlines` | `260716AndroidTest/loopprobe.py:544-545` | All patterns agree with their expressions on a path if and only if the path has no newline. |
| `Globs.SameDepth` | `260716AndroidTest/loopprobe.py:528-537` | Without `**` a matched path has as many slashes as its pattern. |
| `ProbeSelection.SelectsLeast` | `260716AndroidTest/loopprobe.py:567-583` | The probe selected is a candidate with the least (cost, order, name), there is one if and only if any probe is a candidate, and the names listed are all candidates in that order. |
| `ProbeSelection.CandidatesByGlob` | `260716AndroidTest/loopprobe.py:567-571` | The candidates by path are the probes one of whose patterns describes a changed path. |
| `ProbeSelection.SelectsExplicit` | `260716AndroidTest/loopprobe.py:561-565` | An explicit name selects a probe of that name, and is an error if and only if there is none. |
| `Scheduler.CalculateScore` | `jabda.go:104-117` | The accumulator computes the score: idle CPU truncated toward zero, 5 off per task, the memory bonus or malus, never negative. |
| `Scheduling.MemoryPoints` | `jabda.go:109-113` | More than 1024 MB free is worth ten points over ordinary memory, less than 128 MB twenty less. |
| `Scheduling.IdlePoints` | `jabda.go:105-117` | A node with ordinary memory scores its idle percentage less five points for each running task, down to zero. |
| `Scheduler.ClusterState.FindBestNode` | `jabda.go:119-135` | The node named is healthy, scores above zero and is not outscored, whatever the order of iteration; none is named only if all healthy nodes score zero or the best one has the empty name. |
| `Scheduler.ClusterState.CheckHealth` | `jabda.go:152-179` | Every node gets the status of its silence, and the tasks of exactly the nodes newly dead are pending again; it is reported as dirty if and only if a node got worse. |
| `Scheduling.StatusBySilence` | `jabda.go:152-179` | A node silent for more than five minutes is dead, for more than 30 seconds unknown, and otherwise healthy. |
| `Scheduler.ClusterState.Schedule` | `jabda.go:181-205` | Every pending task is offered once, in some order, and each goes to a healthy node of best positive score at its turn, or to none for want of one; nodes, tasks and the dirty flag are exactly what these picks make of them. |
| `Scheduler.ClusterState.Cleanup` | `jabda.go:207-214` | Exactly the tasks that were to stop and have stopped are removed, and this is reported exactly when there were any. |
| `Scheduler.ClusterState.Tick` | `jabda.go:145-214` | One tick is a health check, a round of assignments and a cleanup on the shared objects; it is reported as dirty if and only if a node got worse, a task was placed or a task was removed, which is if and only if a task changed or a node did more than recover. |
| `Scheduling.TaskAssigned` | `jabda.go:190-204` | Giving the next task to a best node keeps every node that was given one at no less than 5 below every healthy node. |
| `Scheduling.CountsAddUp` | `jabda.go:190-204` | The counts of all nodes together rise by the number of tasks placed. |
| `Scheduling.RoundIsOffered` | `jabda.go:181-205` | In every round of picks, the nodes given a task are at most 5 below every healthy node, the counts rise by exactly the tasks given, and tasks are left only for want of a node or for a nameless one. |
| `Scheduling.LeftPendingExactly` | `jabda.go:119-135` | When a task stays pending, every healthy node scores zero if and only if no healthy node of empty name has a score. |
| `Scheduling.NamelessNodeStarves` | `jabda.go:119-135` | A cluster with one pending task, an idle nameless node and another node with a score: every round there leaves the task pending and changes nothing. |
| `Scheduling.TickKeeps` | `jabda.go:145-214` | Every tick keeps dead nodes free of tasks, and when a task is left pending every healthy node scores zero, exactly unless a checked healthy node of empty name has a score. |
| `Scheduling.SavedExactly` | `jabda.go:145-225` | What is saved is exactly a tick that changes a task or does more to a node than let it recover. |
| `TtlBoard.Board.PurgeExpired` | `CapDiChoan/main.go:48-63` | The shift in place removes the expired front of the queue. |
| `TtlBoard.Board.RebuildSnapshot` | `CapDiChoan/main.go:65-90` | The snapshot is the framed messages, newest first. |
| `TtlBoard.Board.ScheduleNextCleanup` | `CapDiChoan/main.go:92-105` | The timer is due at the first expiry, or at once. |
| `TtlBoard.Board.CleanupCallback` | `CapDiChoan/main.go:107-122` | The callback purges, renders and arms the timer again if needed. |
| `TtlBoard.Board.Push` | `CapDiChoan/main.go:124-146` | A push purges, appends, renders and arms a timer if none is pending. |
| `TtlBoard.PurgedIsLive` | `CapDiChoan/main.go:48-63` | In an ordered queue the front purge removes exactly the expired messages. |
| `TtlBoard.PurgeIsExactIffOrdered` | `CapDiChoan/main.go:48-63` | It does so at all times if and only if the queue is ordered by expiry. |
| `TtlBoard.RunIsExactIffOrderly` | `CapDiChoan/main.go:48-146` | At every point of a run a purge at any time would remove exactly the expired messages, if and only if no push is earlier than the newest message that is still on the board, told from the times of the steps alone. |
| `TtlBoard.TimeOrderIsOrderly` | `CapDiChoan/main.go:48-146` | Runs whose times never decrease meet that condition. |
| `TtlBoard.LatePushOutlives` | `CapDiChoan/main.go:124-146` | Two pushes whose times are out of order, and a third one: the second message stays on the board past its expiry, before the timer is due. |
| `TtlBoard.StepKeeps` | `CapDiChoan/main.go:107-146` | Every step in time order keeps the queue ordered, the snapshot current, and the timer armed if and only if needed and not too late. |
| `TtlBoard.EveryRun` | `CapDiChoan/main.go:107-146` | After every run in time order the board holds exactly the messages pushed and not expired at the last step. |
| `TtlBoard.HeldForTwoMinutes` | `CapDiChoan/main.go:124-146` | In time order a message is on the board if and only if it was pushed less than 120 seconds before the last step. |
| `TtlBoard.ExpiredMeansDue` | `CapDiChoan/main.go:92-105` | Whenever a message has expired, the timer is due. |
| `TtlSnapshot.RenderRead` | `CapDiChoan/main.go:65-90` | A snapshot parses back to the expiry seconds and bodies of all messages, whatever the bodies hold. |
| `TtlSnapshot.FrameText` | `CapDiChoan/main.go:71-85` | A message is framed by its expiry in Unix seconds, its length in bytes and blank lines. |
| `TtlSnapshot.DecimalText` | `CapDiChoan/main.go:82-83` | Numbers are printed with a sign exactly when negative, and without leading zeros. |
| `TtlSnapshot.RenderIsInjective` | `CapDiChoan/main.go:65-90` | Two boards have the same snapshot if and only if they show the same messages. |

## Left out

- Unicode NFKC itself, `make_token_chunks`, the traces printed for the course, and the neural part of the search course.
- Floating point in the number of Grover iterations and in the success printed, more than one marked state (no caller asks for it), sampling and the simulator fallback.
- Editing operations of the sheet other than squaring up, and the lengths of texts in UTF-16 units: text is a sequence of characters.
- Unknown fields and wrong types in board documents and commands beyond the ones named (`unsupported`, `Unsupported`, a missing kind): records are typed here.
- Rounding of coordinates; the order of the ids returned, labels and times in the history list, listeners and events.
- gzip and the parsing of JSON, taken as parameters; the JSON value of a typed document, taken as a parameter of `BoardCanonical.DigestsOfBoards`; JSON numbers with more than one spelling; the URL around a link.
- The default offset, source link and fresh ids of forks and quotes are arguments.
- Which frames lie inside a selection: a field of `Host`.
- BoardBatch.BatchIsSequence: commands that fail in turn are not compared with the batch, because a batch fails as a whole.
- BoardBatchSize.AlwaysBatchesIff: with exactly one revision left, nothing is said of a header that gets shorter.
- BpeWords.OrdersAgreeOnTextIff: the only-if half needs a letter that is in no merge, since nothing else is sure to keep a product apart from what stands before it.
- Normalizing of changed paths by the platform's path type, and finding changed paths.
- Starting, stopping and timing of processes in LoopProbe, and the order of the hits reported.
- Task outcomes of a line of invalid UTF-8 depend on the decoder, which is a parameter.
- Persistence of the cluster, its request handlers and tokens, and conversion of CPU readings too large for an integer.
- HTTP handlers of the message board, its lock, and newline normalization of bodies.
