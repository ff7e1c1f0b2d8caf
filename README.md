# Customer-support plan generator: retrieval, transcript merging and file tally

This project models the three pieces of sequential logic in the course project's `src/` directory.

- **`FewShotGenerator`** (`src/generator.py`, module `Generator`) is pure logic.
  - A zero-shot classifier picks a category label for the user's query.
  - The knowledge base (rows of simulation id, company and full transcript) is narrowed by a keyword rule chosen from the label. The rule tests are Insurance, then Payment, then Flight. The company tag is matched case-insensitively against two literal keywords.
  - If nothing matches, the narrowing widens to the whole table.
  - One row is drawn at random.
  - A window of the drawn transcript is summarised. The window starts at 20% of its length and is at most 1024 characters long.
  - The summary is split on `.` into steps. Fixed sentinel results cover an empty transcript and a summarizer error.
- **`process_transcripts`** (`src/data_loader.py`, modules `Audio` and `DataLoader`) is imperative.
  - It sorts each simulation's audio items in place, stably, by sequence number.
  - It skips unusable items.
  - It merges consecutive utterances of one speaker into `speaker: t1 t2` lines, and joins the lines with newlines.
  - It emits one row per simulation.
- **`inspect_files`** (`src/file_inspector.py`, module `FileInspector`) is imperative. It counts the files a directory walk visits and tallies them by lower-cased `splitext` extension. It also keeps the paths of the first 20 files as a sample.

Supporting modules:

- `Text` holds the Python string operations the core relies on: `strip`, `lower`, `in`, `split` and `join`.
- `Wrappers` holds `Option` and `Result`.

The classifier, the summarizer and the random draw are parameters of the model.

- The classifier returns the ranked labels or an error.
- The summarizer returns a summary or the message of the exception it raised.
- The draw is a function from a non-empty table to an index of it (`ValidSampler`).

`AnyCandidateCanBeDrawn` shows that this covers every outcome of the real draw.

The imperative code is written as methods.

- `Audio.SortItems` is an in-place insertion sort on an array. It is proved equal to the functional stable sort `SortByKey`, which is proved sorted, a permutation and stable.
- `DataLoader.MergeDialogue` is the speaker-grouping loop. It is proved equal to `MergedTranscript`, which is defined through maximal speaker runs (`Blocks`) and the two flush guards (`Closed`, `Flushed`).
- `FileInspector.InspectFiles` is the tally loop. It is proved equal to a declarative count (`Tally`), which is proved to sum to the number of files.

The repository also holds a later draft of the generator, `to delete after/updates/generator.py`. The model follows `src/generator.py`, which differs from that draft in, among other things, the following:

- The draft's `find_best_match_transcript` takes the user query as an extra parameter (line 54) and ranks the candidates by TF-IDF cosine similarity to it (lines 78-97). `src/generator.py` draws a random row of the subset (line 66).
- The draft has an "Order" keyword rule (lines 68-69). `src/generator.py` has no Order branch, so "Order Status" uses the whole table (lines 59-60).
- The draft's window starts at `int(len * 0.15)` (line 122). `src/generator.py` starts it at `int(len * 0.2)` (line 88).
- The draft's no-data reason is "No matching transcripts found in database." (line 140). `src/generator.py` gives "Insufficient data." (line 102).
- The draft's success reason is "Identified as {category}. Retrieved similar case logic." (line 134). `src/generator.py` gives "Identified as {category} based on keyword analysis." (line 96).
- The draft replaces missing `full_transcript` and `company` values with "" when it loads the table (lines 21-22). `src/generator.py` reads the CSV as is (line 16). The NaN behaviour and the AttributeError for a company column without strings, described under "## Left out", therefore exist only in `src/generator.py`.

The step filter of `src/generator.py` (line 95) tests the length of the *unstripped* fragment. A blank fragment of 11 or more characters is therefore kept as an empty step (`BlankStepKept`).

## Model

| member | source | states |
|---|---|---|
| Generator.GetCategory | src/generator.py:41-47 | the category is the classifier's first label; a classifier error, or an empty ranking (the IndexError of `[0]`), is a failure that propagates |
| Generator.RuleTests | src/generator.py:53-60 | a label containing "Insurance" uses the Insurance rule whatever else it contains; the whole table is used exactly when the label contains none of "Insurance", "Payment" and "Flight" |
| Generator.Keywords | src/generator.py:54-58 | each keyword rule tests two keywords, each at least five characters long |
| Generator.Matches | src/generator.py:54-58 | only a row with a company tag can match, and only when there is a keyword to match |
| Generator.KeywordFilter | src/generator.py:54-58 | a row is kept exactly when it is in the table and its (present) company contains one of the keywords, ignoring case; never more rows than the table |
| Generator.Candidates | src/generator.py:53-63 | with a keyword rule and some matching row, the candidates are exactly the matching rows; with no match, or a label without a rule, the whole table; empty only for an empty table |
| Generator.FindBestMatchTranscript | src/generator.py:49-67 | `""` for an empty table; otherwise the transcript of some row; when the label's rule has a matching row, the transcript of a matching row |
| Generator.AnyCandidateCanBeDrawn | src/generator.py:65-66 | every candidate row is the outcome of some valid random draw |
| Generator.OrderStatusRule | src/generator.py:53-60 | "Order Status" has no rule of its own and selects from the whole table |
| Generator.GeneralInquiryRule | src/generator.py:53-60 | "General Inquiry" selects from the whole table |
| Generator.InsuranceClaimRule | src/generator.py:53-54 | "Insurance Claim" selects by the Insurance/Claim keywords |
| Generator.PaymentUpdateRule | src/generator.py:55-56 | "Payment Update" selects by the Credit/Payment keywords, not the Insurance rule |
| Generator.FlightBookingRule | src/generator.py:57-58 | "Flight Booking" selects by the Flight/Airline keywords |
| Generator.InsuranceFirst | src/generator.py:53-54 | a label starting with "Insurance" uses the Insurance rule |
| Generator.PaymentSecond | src/generator.py:53-56 | a label starting with "Payment" and lacking some letter of "Insurance" uses the Payment rule |
| Generator.FlightThird | src/generator.py:53-58 | a label starting with "Flight" and lacking a letter of "Insurance" and one of "Payment" uses the Flight rule |
| Generator.WholeTableWithout | src/generator.py:53-60 | a label lacking a letter of each of "Insurance", "Payment" and "Flight" uses the whole table |
| Generator.LabelRules | src/generator.py:33-39 | of the five candidate labels, in order, the rules are Insurance, Payment, whole table, Flight, whole table |
| Generator.NotContainedWithout | src/generator.py:53-58 | a label lacking some character of a keyword does not contain that keyword |
| Generator.KeywordTagMatches | src/generator.py:54-58 | a company tag equal to one of the keywords matches the rule |
| Generator.TagNotPayment | src/generator.py:56 | a tag with no letter d or p, in either case, matches neither Credit nor Payment |
| Generator.FilterPair | src/generator.py:54-58 | filtering a matching row followed by a non-matching one leaves the first alone |
| Generator.PaymentFilter | src/generator.py:56 | the Payment keywords keep a "Payment" tag and drop an "Insurance" tag |
| Generator.PaymentCandidates | src/generator.py:55-56 | for "Payment Update", that two-row table narrows to the Payment row |
| Generator.PaymentDraw | src/generator.py:55-66 | whatever the draw, the Payment row's transcript is retrieved |
| Generator.PaymentScenario | src/generator.py:69-108 | a query classified as "Payment Update" over that table plans from the Payment row's transcript |
| Generator.Window | src/generator.py:87-89 | the window is the contiguous slice of the transcript from `len/5`, of length 1024 or up to the end, empty only for an empty transcript |
| Generator.SplitSteps | src/generator.py:95 | there are never more steps than `.`-separated fragments |
| Generator.SplitStepsCons | src/generator.py:95 | a leading sentence becomes a step, stripped, exactly when it is longer than 10 characters; the rest of the summary is split on its own |
| Generator.StepsHaveNoPeriod | src/generator.py:95 | no step contains a `.` |
| Generator.StepsComeFromLongFragments | src/generator.py:95 | every step is the strip of a `.`-separated fragment whose unstripped length exceeds 10 |
| Generator.LongFragmentsKeptInOrder | src/generator.py:95 | for every summary, the steps are the stripped fragments longer than 10 characters, each taken once and in summary order: they sit at increasing fragment positions that cover every long fragment |
| Generator.TwoSentenceSteps | src/generator.py:95 | two period-terminated sentences longer than 10 give their two strips, in order; the empty tail after the last `.` is dropped |
| Generator.ShortSentenceDropped | src/generator.py:95 | a first sentence of at most 10 characters is dropped |
| Generator.BlankStepKept | src/generator.py:95 | a blank fragment longer than 10 is kept, and becomes the empty step |
| Generator.TwoPlainSentences | src/generator.py:95 | two period-terminated sentences longer than 10, without a period or padding, come back as the two steps |
| Generator.ThreePlainSentences | src/generator.py:95 | the same for three sentences, in order |
| Generator.ShortThenPlain | src/generator.py:95 | a first sentence of at most 10 characters is dropped and the second kept |
| Generator.TwoStepExample | src/generator.py:95 | "Verify the card. Update billing info." gives ["Verify the card", "Update billing info"] |
| Generator.ThreeStepExample | src/generator.py:95 | "Verify the card. Update billing info. Confirm with customer." gives its three sentences as steps |
| Generator.ShortStepExample | src/generator.py:95 | "Ok. Proceed with the refund process fully." gives only the second sentence |
| Generator.SuccessReason | src/generator.py:96 | the success reason is 41 characters longer than the category and holds it right after "Identified as " |
| Generator.ExtractPlan | src/generator.py:84-102 | empty transcript: the no-data step and "Insufficient data."; summary: its steps and "Identified as … based on keyword analysis."; summarizer error: the extraction-failed step and "Error in local model: " followed by the message; the category is unchanged |
| Generator.GenerateSteps | src/generator.py:69-108 | a plan exactly when classification succeeds, its category the classifier's top label, its body the extraction over the retrieved transcript |
| Generator.SummarizerNotCalledWithoutTranscript | src/generator.py:84-102 | without a transcript, the result does not depend on the summarizer and is the no-data step |
| Generator.EmptyCorpusGivesNoData | src/generator.py:62-102 | an empty knowledge base gives the no-data plan under the classified category |
| Generator.PlanStepsShape | src/generator.py:94-102 | a plan either succeeded (reason from the category, no step contains `.`) or carries one of the two sentinel steps |
| Text.Strip | src/data_loader.py:131 | the strip is the contiguous middle of the string after its leading whitespace, only whitespace follows it, and it neither starts nor ends with whitespace |
| Text.StripEmpty | src/data_loader.py:131-132 | stripping gives "" exactly when the string is all whitespace |
| Text.StripIdempotent | src/data_loader.py:131 | stripping twice is stripping once |
| Text.Lower | src/generator.py:54 | lower-casing keeps the length and folds every character |
| Text.ContainsIffOccurs | src/generator.py:53 | `sub in s` holds exactly when `sub` occurs at some position of `s` |
| Text.Split | src/generator.py:95 | splitting gives at least one part, and no part contains the separator |
| Text.JoinSplit | src/generator.py:95 | joining the parts with the separator gives back the string |
| Text.SplitCount | src/generator.py:95 | there is one more part than there are separators |
| Text.SplitFirst | src/generator.py:95 | a separator-free piece and then the separator: that piece is the first part |
| Audio.InsertPermutes | src/data_loader.py:122 | insertion adds exactly the inserted item |
| Audio.InsertSorted | src/data_loader.py:122 | insertion into a sorted list keeps it sorted |
| Audio.SortSorted | src/data_loader.py:122 | the sort orders items by sequence number, a missing number or a non-object counting as 0 |
| Audio.SortPermutes | src/data_loader.py:122 | the sort neither loses nor adds items |
| Audio.SortStable | src/data_loader.py:122 | for every key, the items with that key keep their relative order |
| Audio.SortOfSorted | src/data_loader.py:122 | sorting a sorted list changes nothing |
| Audio.SortIdempotent | src/data_loader.py:122 | sorting twice is sorting once |
| Audio.InsertInto | src/data_loader.py:122 | one insertion pass leaves the first i+1 array cells equal to the stable insertion of cell i, and the rest untouched |
| Audio.SortItems | src/data_loader.py:122 | the array is sorted in place into `SortByKey` of its old contents |
| DataLoader.UtteranceOf | src/data_loader.py:125-132 | a kept text is non-empty and already stripped |
| DataLoader.SpeakerOf | src/data_loader.py:127 | only a null actor leaves the speaker unset; a missing actor key is a speaker |
| DataLoader.KeptItem | src/data_loader.py:125-132 | an item contributes exactly when it is an object whose text is a string not blank after stripping; a missing actor speaks as "Unknown", a null actor as None |
| DataLoader.UtterancesFromItems | src/data_loader.py:124-132 | there are no more utterances than items, and each is what some item contributes |
| DataLoader.KeptIndices | src/data_loader.py:124-132 | for any filter over items, the kept values sit at increasing item positions, and every item the filter accepts is among them |
| DataLoader.UtterancesInOrder | src/data_loader.py:124-132 | the utterances are exactly those of the items that contribute one, one per such item, in item order |
| DataLoader.BlocksAreRuns | src/data_loader.py:134-140 | the speaker runs are maximal: none is empty, and neighbours differ in speaker |
| DataLoader.BlocksFlatten | src/data_loader.py:134-140 | the runs together are the kept utterances, in order |
| DataLoader.ExtendKeepsRuns | src/data_loader.py:134-140 | adding an utterance keeps the runs maximal |
| DataLoader.ExtendFlatten | src/data_loader.py:134-140 | adding an utterance appends exactly it to the runs' utterances |
| DataLoader.LinesFromSpokenRuns | src/data_loader.py:135-143 | every written line is a run with a speaker; a run whose speaker is None is never written |
| DataLoader.ClosedFromSpokenRuns | src/data_loader.py:135-136 | every line written on a change of speaker is a run whose speaker is not None |
| DataLoader.LinesAtMostRuns | src/data_loader.py:134-143 | at most one line is written per speaker run, in the loop and with the final flush |
| DataLoader.RenderStartsWithSpeaker | src/data_loader.py:136 | a written line begins with its speaker followed by ": " |
| DataLoader.ClosedAllSpoken | src/data_loader.py:135-136 | without None speakers, every run closed by a change of speaker is written, in order, even one whose speaker is "" |
| DataLoader.FinalRunWritten | src/data_loader.py:135-143 | without None speakers, all runs are written in order, except a final run whose speaker is "" |
| DataLoader.AdjacentLinesDiffer | src/data_loader.py:134-138 | without None speakers, neighbouring lines have different speakers |
| DataLoader.NullRunBetween | src/data_loader.py:134-143 | a run with a None actor is never written, so one speaker's runs on either side of it become two adjacent lines with that speaker |
| DataLoader.TranscriptEmpty | src/data_loader.py:134-148 | the transcript is "" exactly when no line is written |
| DataLoader.NoUtteranceNoTranscript | src/data_loader.py:142-148 | when no utterance survives, the transcript is "" |
| DataLoader.TwoSpeakers | src/data_loader.py:134-148 | two kept items of different speakers, the second not "", give two lines joined by a newline; a first speaker "" gives a line starting ": " |
| DataLoader.OneSpeaker | src/data_loader.py:134-143 | two kept items of the same non-empty speaker give one line, the texts joined by a space |
| DataLoader.MergeStep | src/data_loader.py:134-140 | one kept utterance moves the loop variables (open speaker, open block, written lines) from the runs so far to the runs with it added |
| DataLoader.MergeFinish | src/data_loader.py:142-143 | the final flush completes the written lines |
| DataLoader.MergeDialogue | src/data_loader.py:117-148 | the grouping loop returns exactly `MergedTranscript` of the items |
| DataLoader.ProcessSimulation | src/data_loader.py:115-149 | the simulation's items are left sorted, and its row copies id and company and holds the merged transcript of the sorted items |
| DataLoader.ProcessTranscripts | src/data_loader.py:109-151 | one row per simulation, in input order, each the merged transcript of its sorted items; every item list is left sorted in place |
| FileInspector.RFind | src/file_inspector.py:14 | the last index of a character, or -1 when it does not occur |
| FileInspector.SplitExtParts | src/file_inspector.py:14 | root and extension put back together give the name; a non-empty extension is a dot followed by no dot or slash |
| FileInspector.ExtensionKeyShape | src/file_inspector.py:14 | the dictionary key for a file is its extension lower-cased: as long as the extension, and either empty or a dot followed by no further dot |
| FileInspector.NoDotNoExtension | src/file_inspector.py:14 | a name without a dot has extension "" |
| FileInspector.HiddenFileNoExtension | src/file_inspector.py:14 | a name of leading dots and then a dot-free part, like ".bashrc", has extension "" |
| FileInspector.LastSuffixCounts | src/file_inspector.py:14 | only the last suffix counts: "archive.TAR.GZ" is tallied under ".gz" |
| FileInspector.Bump | src/file_inspector.py:15 | counting a key makes it present with its previous count plus one |
| FileInspector.TallySnoc | src/file_inspector.py:15 | counting one more file into the tally is the loop's dictionary update |
| FileInspector.TallySum | src/file_inspector.py:11-15 | the counts add up to the number of files |
| FileInspector.TallySummary | src/file_inspector.py:11-15 | the dictionary's keys are exactly the extensions seen, each has a count of at least 1, and the counts add up to the number of files |
| FileInspector.PathJoinParts | src/file_inspector.py:19 | the joined path ends with the file name and, unless that name is absolute, begins with the directory |
| FileInspector.SampleIsPrefix | src/file_inspector.py:18-19 | the sample holds the joined paths of the first 20 files (all of them when fewer), in visit order |
| FileInspector.InspectFiles | src/file_inspector.py:3-19 | the file count is the number of files visited, the dictionary is the tally of their lower-cased extensions, and the sample is the first 20 paths |

## Left out

- `FewShotGenerator.__init__`: model loading and the CSV read are left out. The knowledge base is a sequence of rows.
- The classifier and summarizer internals are left out: they are opaque function parameters.
- Generator.FindBestMatchTranscript: `subset.sample(1)` is a sampler parameter. Any valid index function stands for the random draw.
- Generator.WindowStart: the float product `int(len * 0.2)` is modelled as `len / 5`. The two agree for every length far below 2^50.
- Text.Lower: only ASCII letters are folded; Unicode case mapping is not modelled. The same holds for the IGNORECASE match.
- Text.Strip: the whitespace set is Python's `str.isspace` set, listed explicitly.
- The regular-expression machinery of `str.contains` is left out. The patterns are literal alternations, so they are modelled as two substring tests.
- Generator.FindBestMatchTranscript: a company column that holds no string at all is not modelled. This happens when every tag is missing, or when every tag is numeric so that the CSV reader types the column as integers. `.str.contains` then raises AttributeError at line 54, 56 or 58 of `src/generator.py`. That is outside the `try`, so `generate_steps` raises as well. The model's company tag is an optional string, and its retrieval is total.
- NaN values in the CSV are left out. A NaN company is `None` and never matches, which is what `na=False` gives when the company column holds at least one string. A column with none fails as described above. A NaN transcript is not modelled: transcripts are strings.
- DataLoader.ProcessTranscripts: it requires the simulations' item lists to be distinct arrays. `load_simulation_data` parses each list from its own JSON file, so lists are never shared between simulations.
- Audio.SortKey: sequence numbers are integers. Other key types are not modelled. Python's sort compares keys with `<`, so the outcome depends on the mix of keys:
  - when every key is a string, the items are sorted as text, so "10" comes before "9";
  - a list of one item is never compared, so even a null key is accepted;
  - a string or null key next to an integer raises TypeError. That integer may be the 0 given for a missing key or a non-dict item. Two null keys raise TypeError too.
- DataLoader.ProcessTranscripts: every simulation's `audio_items` is a list. When `data[audio_key]` is a JSON object, string or null, the `.sort` call at line 122 of `src/data_loader.py` raises AttributeError, and `process_transcripts` raises with it. An item list is an `array<AudioItem>`, which cannot express this.
- DataLoader.SpeakerOf: actors are strings, absent or null. Non-string actor values are not modelled, including their truthiness in the final flush.
- `repair_directory_structure`, `load_simulation_data`, the `__main__` block and all file, zip, JSON and CSV I/O in `src/data_loader.py` are not part of this model.
- FileInspector.InspectFiles: paths follow POSIX `os.path` (`posixpath.join` and `posixpath.splitext`). Windows separators and drive letters, as `ntpath` would handle them, are not modelled.
- FileInspector.InspectFiles: `os.walk` is an input sequence of (directory, file name) pairs in visit order.
- FileInspector.InspectFiles: the printed lines are replaced by the returned sample and counts.
- FileInspector.InspectFiles: the insertion order of the extensions dictionary, which only affects the order of the printed summary, is not modelled.
- `app.py` (the Streamlit UI) and `src/analysis.py` (model and network wrappers) are not part of this model.
