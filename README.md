# Skill-gap, job-matching and assessment core, modelled in Dafny

This project models the core of the backend services of a career-assessment
application. The application:

- asks a user generated multiple-choice questions;
- scores the answers;
- ranks job postings by how close their embedding lies to the user's;
- compares the user's stored proficiency levels with each job's required levels.

The modelled services are:

- `skill_gap_analysis_service.py` (module `SkillGap`):
  - classifies every required skill and knowledge area as Missing, Achieved or Weak, using the ordinal scale `LEVEL_ORDER`;
  - writes the result for the (user, job) pair into the store;
  - runs that comparison for every stored job.

  The store is a class (`SkillGapService`) with maps for users, jobs and skill-match records. Its methods update the records in place.
- `embedding_service.py` (module `Embedding`):
  - the readiness flags of the loaded models, as the class `EmbeddingService`, whose `InitializeAiModels` updates them in place;
  - loading job tables and their embeddings;
  - answer normalisation and scoring of follow-up questions;
  - normalising the stored programming languages;
  - the tolerant JSON reply parser;
  - in `match_user_to_job`:
    - the deduplicated top-three selection along a similarity ranking;
    - the per-job enrichment with its placeholder fallbacks.
- `report_generation_service.py` (module `Report`):
  - the level map and `normalize_level`;
  - the required and user level vectors of a report;
  - the per-difficulty and per-type counting and accuracies of `calculate_test_performance`.
- `openai_service.py` (modules `CodeFence` and `QuestionGen`):
  - `strip_json_codeblock`;
  - the language list;
  - the split of five coding questions across languages;
  - the collection of coding questions;
  - the non-coding split;
  - the MCQ conversion with its fallbacks;
  - the final merge.

Support modules:

- `Wrappers`: `Option` and `Result`.
- `JsonValue`: a JSON value type.
- `PyDict`: insertion-ordered Python dictionaries as sequences of pairs with distinct keys.
- `PyStr`: Python's `strip`, `split`, `join`, `replace`, ASCII case mapping and integer formatting.
- `Distinct`: first occurrences and deduplication of a sequence.

The modules reproduce the Python semantics these services rely on.

Outside effects are modelled as parameters:

- Each language-model reply is a string argument, or `None` where the call raises.
- `json.loads` is a function `string -> Option<Json>`.
- A similarity ranking is `sims` together with an `order` of indices sorted by decreasing similarity.
- The embedding of a text is a function `Json -> seq<real>`.
- The Firestore and SQL stores are maps held by the classes or passed in.

## Model

| member | source | states |
|---|---|---|
| SkillGap.Classify | backend/services/skill_gap_analysis_service.py:51-57 | Missing exactly when the user's level is "Not Provided". Achieved exactly when the user's level ranks at or above the required one on LEVEL_ORDER. Weak exactly when it ranks below. The precondition is the absence of the KeyError that an unknown label raises. |
| SkillGap.ClassifyMonotone | backend/services/skill_gap_analysis_service.py:52-57 | Raising the user's level never gives a worse status (Missing < Weak < Achieved). |
| SkillGap.Analyze | backend/services/skill_gap_analysis_service.py:50-63 | A name is a key of the analysis exactly when it is a requirement of the job. |
| SkillGap.AnalyzeKeys | backend/services/skill_gap_analysis_service.py:50-63 | The analysis has exactly the job's requirement names, in the job's order; names that only the user has are ignored. |
| SkillGap.AnalyzeEntries | backend/services/skill_gap_analysis_service.py:50-63 | Each requirement maps to its required level, the user's level ("Not Provided" when absent) and the classification of the two. |
| SkillGap.AnalyzeDistinct | backend/services/skill_gap_analysis_service.py:59-63 | The analysis is a well-formed dictionary (no name twice). |
| SkillGap.CompareItems | backend/services/skill_gap_analysis_service.py:50-63 | The comparison loop builds exactly the analysis specified by Analyze. |
| SkillGap.Compare | backend/services/skill_gap_analysis_service.py:33-90 | A missing user or job gives the empty analysis titled "N/A". Otherwise the title is the job's title, or "N/A" when it has none, and each analysis has exactly the job's requirement names as keys. |
| SkillGap.Save | backend/services/skill_gap_analysis_service.py:82-90 | When both the user and the job exist, only the pair's record changes, and it becomes the comparison's result. Otherwise the store is unchanged. |
| SkillGap.SaveIdempotent | backend/services/skill_gap_analysis_service.py:82-90 | Comparing and saving the same pair twice leaves the store as after once. |
| SkillGap.SkillGapService.CompareAndSave | backend/services/skill_gap_analysis_service.py:33-90 | Returns the empty analysis with title "N/A" when the user or the job is missing, and writes nothing then. Otherwise it returns both analyses and the job's title ("N/A" when it has none), and overwrites the pair's record with exactly what it returns. |
| SkillGap.JobKeys | backend/services/skill_gap_analysis_service.py:20-24 | One key per stored job, in store order. Each key is the decimal text of its job's index and parses back to that index, so two jobs share a key exactly when they share an index. |
| PyStr.IntToStrRoundTrip | backend/services/skill_gap_analysis_service.py:20 | `int(str(n)) == n` for every integer n, negative ones included. |
| SkillGap.SkillGapService.ComputeSkillGapsForAllJobs | backend/services/skill_gap_analysis_service.py:13-30 | With no jobs: the error "No jobs found in the database." and an unchanged store. Otherwise: one entry per job, in order, with the job's key, the comparison's title and analysis, and the store after the whole batch of saves. |
| SkillGap.SaveAllOverwrites | backend/services/skill_gap_analysis_service.py:19-20 | A batch only adds or overwrites records; every other record of the store is kept. |
| SkillGap.SaveAllWrites | backend/services/skill_gap_analysis_service.py:19-20 | A batch writes a record for (u, j) exactly when u is the user, the user exists, and j is a stored job on the list; the record is the comparison's result. |
| SkillGap.SaveAllIdempotent | backend/services/skill_gap_analysis_service.py:13-30 | Running the batch twice gives the same store as running it once. |
| SkillGap.NoUserNoWrites | backend/services/skill_gap_analysis_service.py:34-36 | For an unknown user the batch writes nothing, and every entry carries title "N/A" and an empty analysis. |
| SkillGap.WeakAndMissingExample | backend/services/skill_gap_analysis_service.py:50-63 | A required Advanced skill held at Intermediate is Weak; a required skill the user lacks is Missing with level "Not Provided". |
| Report.LevelMapIncreasing | backend/services/report_generation_service.py:18-23 | The level labels are distinct and map to 0, 1, 2, 3 in order. |
| Report.LevelOfLabel | backend/services/report_generation_service.py:32 | A known label gives its level; any other text gives 0. |
| Report.NormalizeLevel | backend/services/report_generation_service.py:26-32 | A number is kept as is. A null gives 0. A string gives the level of its stripped text. Every non-number lands in 0..3. |
| Report.PaddedLabel | backend/services/report_generation_service.py:32 | Whitespace around a known label does not change its level. |
| Report.RequiredLevels | backend/services/report_generation_service.py:168-171 | One required level per skill of the job. |
| Report.RequiredLevelsAt | backend/services/report_generation_service.py:171 | The i-th required level is the normalised level of the job's i-th skill. |
| Report.UserLevelLookup | backend/services/report_generation_service.py:172-180 | The user's level is the first truthy value among the skill's own name, its lower-case name and its title-case name; when none is truthy it normalises to 0. |
| Report.UnknownSkillScoresZero | backend/services/report_generation_service.py:172-180 | A skill the user lists under none of the three spellings scores 0. |
| Report.UserLevels | backend/services/report_generation_service.py:172-180 | The user vector has one entry per required level. |
| Report.UserLevelsAt | backend/services/report_generation_service.py:168-180 | Position i of both vectors belongs to the job's i-th skill: the required vector holds that skill's normalised required level, the user vector the normalised level the user has for it. |
| Report.AnswersMap | backend/services/report_generation_service.py:84 | The answers map is a well-formed dictionary. |
| Report.AnswersMapLookup | backend/services/report_generation_service.py:84 | A question id maps to the selected option of its last answer, and is absent when it was never answered. |
| Report.BucketOf | backend/services/report_generation_service.py:94-95 | A missing difficulty or type falls into the bucket "Unknown"; otherwise the stored value is the bucket. |
| Report.QuestionId | backend/services/report_generation_service.py:90 | The id is the question's "id" when that is truthy, and its "question_id" otherwise. |
| Report.Choice | backend/services/report_generation_service.py:103-105 | A whitespace-only answer raises IndexError. Otherwise the choice is the upper-cased first non-space character. |
| Report.Judged | backend/services/report_generation_service.py:103-107 | A falsy answer is wrong. A truthy non-string answer raises AttributeError, as does a non-string correct answer. A whitespace-only answer raises IndexError. It raises in exactly these cases. The answer counts as correct exactly when its choice equals the upper-cased correct answer. |
| Report.Judge | backend/services/report_generation_service.py:90-107 | A question is judged correct exactly when the option stored under its id is a string, its correct answer is a string, and the option's upper-cased first non-space character is the upper-cased answer. |
| Report.Counted | backend/services/report_generation_service.py:100-110 | Counting a question adds one to the bucket's total, and one to its correct count exactly when it was answered correctly. |
| Report.CountKeepsConsistent | backend/services/report_generation_service.py:97-110 | Counting keeps every bucket's correct count at most its total, and adds one question to the sums over buckets. |
| Report.TalliesAddUp | backend/services/report_generation_service.py:89-110 | Both tallies count every question exactly once, the correct counts sum to the number of correct answers, and no bucket counts more correct answers than questions. |
| Report.TalliesOkIff | backend/services/report_generation_service.py:89-110 | Counting succeeds exactly when no question raises while it is judged. |
| Report.BucketTotals | backend/services/report_generation_service.py:94-101 | Each bucket's total is the number of questions with that difficulty (or type). |
| Report.BucketCorrects | backend/services/report_generation_service.py:97-110 | Each bucket's correct count is the number of questions with that difficulty (or type) that were answered correctly. |
| Report.TalliesErrStays | backend/services/report_generation_service.py:89-110 | An exception raised by a question ends the computation with that exception; no later question changes it. |
| Report.Accuracy | backend/services/report_generation_service.py:112-119 | An accuracy lies between 0 and 100. It is 100 when every question was answered correctly, and 0 when none was or the bucket is empty. |
| Report.Accuracies | backend/services/report_generation_service.py:112-119 | One entry per bucket, in the buckets' order: the bucket's key with the accuracy of its tally. |
| Report.CalculateTestPerformance | backend/services/report_generation_service.py:79-121 | Fails exactly when the tallies raise. Otherwise it returns the accuracies of the two tallies. What the tallies hold is stated by the lemmas TalliesAddUp, BucketTotals and BucketCorrects. |
| CodeFence.DropFencesInfix | backend/services/openai_service.py:37-42 | What remains is the slice t[a..e]. The start a is 7 exactly when the text starts with "```json", 3 exactly when it starts with "```" but not "```json", and 0 otherwise. The end e is \|t\| - 3 exactly when the text left after the front fence ends with "```", and \|t\| otherwise. |
| CodeFence.StripJsonCodeblock | backend/services/openai_service.py:34-43 | The result carries no surrounding whitespace and is never longer than the input. `clean_openai_json` in embedding_service.py (lines 438-447) is the same code and is modelled by this function. |
| CodeFence.FencelessTextIsTrimmed | backend/services/openai_service.py:34-43 | Text that neither starts nor ends with a fence is only stripped. |
| CodeFence.JsonFencedRoundTrip | backend/services/openai_service.py:34-43 | A body wrapped in a "```json" fence (with any surrounding whitespace) comes back as the stripped body. |
| CodeFence.PlainFencedRoundTrip | backend/services/openai_service.py:34-43 | Likewise for a body in a plain "```" fence. |
| QuestionGen.ParseLanguages | backend/services/openai_service.py:61-64 | "None" in any case, with any padding, gives no languages. Any other reply gives at least one entry. Every entry is stripped and holds no comma. |
| QuestionGen.ParseLanguagesOfList | backend/services/openai_service.py:64 | A comma-joined list of comma-free names parses back to the stripped names. |
| QuestionGen.NoneMeansNoLanguages | backend/services/openai_service.py:61-62 | A padded "None" in any letter case gives the empty list. |
| QuestionGen.SharesKeys | backend/services/openai_service.py:78 | The quota dictionary has one key per distinct language, in order of first mention. |
| QuestionGen.ShareOf | backend/services/openai_service.py:78-82 | A language's quota is the base count plus the number of times the bump loop reached it. |
| QuestionGen.BumpShare | backend/services/openai_service.py:81-82 | One step of the bump loop adds one to that language's share and changes nothing else. |
| QuestionGen.TotalShares | backend/services/openai_service.py:78-82 | The quota's total is base times the number of distinct languages, plus the number of bumps. |
| QuestionGen.QuotaAsWrittenEntry | backend/services/openai_service.py:74-82 | As written, each distinct language gets total // n plus the number of its mentions among the first total % n list positions, n counting duplicates. |
| QuestionGen.QuotaAsWrittenTotal | backend/services/openai_service.py:74-82 | As written, the quota's keys are the distinct languages, and its total is d * (total // n) + total % n. |
| QuestionGen.DuplicateLanguageShrinksQuota | backend/services/openai_service.py:74-82 | The list ["Python", "Python"] yields a quota of 3 rather than 5. |
| QuestionGen.QuotaEntry | backend/services/openai_service.py:74-82 | With the corrected split, each of the d distinct languages gets total // d, and the first total % d of them get one more. |
| QuestionGen.QuotaSharesTotal | backend/services/openai_service.py:70-82 | With the corrected split, the quota covers the distinct languages and sums to exactly the total. |
| QuestionGen.DistributeQuestions | backend/services/openai_service.py:74-82 | The loop computes the as-written quota. |
| QuestionGen.BumpFirst | backend/services/openai_service.py:81-82 | Bumping the first k listed languages yields the shares with those k bumps. |
| QuestionGen.ExtendChecked | backend/services/openai_service.py:104-106 | As intended: a decoded list is appended, and anything else is skipped. |
| QuestionGen.ExtendAsWritten | backend/services/openai_service.py:104-106 | As written: a list is appended. A dictionary appends its keys and a string its characters. A number, boolean or null raises. |
| QuestionGen.ZeroCountsNotAsked | backend/services/openai_service.py:85-87 | Languages with a quota of 0 are never asked: replies for them have no effect on the corrected gathering. |
| QuestionGen.ZeroCountsNotAskedAsWritten | backend/services/openai_service.py:85-87 | The same for the gathering as written, errors included: replies for languages with a quota of 0 have no effect. |
| QuestionGen.AsWrittenAgreesOnLists | backend/services/openai_service.py:103-106 | When every reply decodes to a list or fails to decode, the code as written and the corrected code collect the same questions. |
| QuestionGen.AsWrittenErrStays | backend/services/openai_service.py:85-108 | Once a reply raises TypeError, the later languages change nothing: the collection ends with that error. |
| QuestionGen.CodingQuestionsCount | backend/services/openai_service.py:85-106 | When every language gets a list of exactly its count, the collection has as many questions as the quota's total. |
| QuestionGen.NumberReplyRaises | backend/services/openai_service.py:105-106 | A reply decoding to a number makes the code as written raise, while the corrected code skips it. |
| QuestionGen.ObjectReplyAddsKeys | backend/services/openai_service.py:105-106 | A reply decoding to an object makes the code as written collect the object's key as a question, while the corrected code skips it. |
| QuestionGen.CollectCodingQuestions | backend/services/openai_service.py:85-108 | The per-language loop as written. It skips languages with count 0 and replies that do not decode, and extends with whatever a reply decodes to. It returns exactly CodingQuestionsAsWritten: the collected questions, or the TypeError of the first reply that cannot be extended. |
| QuestionGen.NonCodingQuestions | backend/services/openai_service.py:122-126 | The non-coding questions are exactly the stripped, non-blank pieces of the reply split at "\|\|" once line breaks become "\|\|". Each is non-empty and stripped. |
| QuestionGen.NonCodingQuestionsOneLine | backend/services/openai_service.py:122-126 | No non-coding question spans a line break. |
| QuestionGen.NonCodingLinesRoundTrip | backend/services/openai_service.py:122-126 | Stripped, non-empty lines without "\|" are recovered exactly from their newline-joined reply. |
| QuestionGen.McqListOfFencedList | backend/services/openai_service.py:146-152 | A fenced reply whose body decodes to a list yields that list. |
| QuestionGen.McqListFallback | backend/services/openai_service.py:148-155 | A reply that does not decode, or decodes to a non-list, yields no MCQs. |
| QuestionGen.NoLanguagesOnlyNonCoding | backend/services/openai_service.py:68-187 | With no languages, the code as written cannot raise: the result holds only the non-coding MCQs, and it is empty when there are no non-coding questions. |
| QuestionGen.FiveCodingQuestions | backend/services/openai_service.py:68-108 | As written, for a language list without duplicates: when every coding reply holds as many questions as asked, exactly five coding questions are collected, without error. |
| QuestionGen.CodingCountAsWritten | backend/services/openai_service.py:68-108 | As written, for any non-empty language list: when every coding reply holds as many questions as asked, the collection succeeds and holds d * (5 // n) + 5 % n questions, with d the distinct and n the listed languages. |
| QuestionGen.FiveCodingQuestionsIntended | backend/services/openai_service.py:68-108 | With the corrected split, duplicates allowed: when every coding reply holds as many questions as asked, exactly five coding questions are collected. |
| QuestionGen.AsWrittenMatchesIntended | backend/services/openai_service.py:68-193 | For a language list without duplicates whose coding replies are all lists or undecodable, the code as written succeeds with exactly the corrected result. |
| QuestionGen.McqList | backend/services/openai_service.py:146-155 | A reply whose cleaned text decodes to a list gives that list. Any non-empty result is the decoded list itself, so an undecodable reply or a non-list gives []. |
| QuestionGen.GenerateQuestions | backend/services/openai_service.py:46-193 | The function as written. When collecting the coding questions raises, it fails with that TypeError. Otherwise it returns {"questions": coding MCQs followed by non-coding MCQs}, following the languages, the as-written quota, the coding loop, the split and both conversions. It asks for each conversion only when there are questions to convert. |
| Embedding.NormalizeOption | backend/services/embedding_service.py:168-172 | A missing or empty option gives "". When the upper-cased stripped option starts with a letter A-Z, only that letter is kept; otherwise the whole upper-cased stripped option is kept. |
| Embedding.NormalizeOptionIdempotent | backend/services/embedding_service.py:168-172 | Normalising twice is the same as normalising once. |
| Embedding.IsCorrect | backend/services/embedding_service.py:208-211 | Correct exactly when the generated question exists and its answer and the selected option normalise to the same text. |
| Embedding.SameLeadingLetterIsCorrect | backend/services/embedding_service.py:208-211 | Options whose stripped text starts with the same letter (in any case) count as correct. |
| Embedding.ResultOf | backend/services/embedding_service.py:213-221 | A result keeps the follow-up's id and selected option. With a generated question it takes that question's text and answer; without one it has no text and no answer. It is correct exactly as IsCorrect decides, so never without a question. |
| Embedding.ScoreFollowUps | backend/services/embedding_service.py:199-221 | One result per follow-up, in order, each scored against its generated question. |
| Embedding.CommaList | backend/services/embedding_service.py:230 | The items are exactly the stripped comma-separated pieces that are not blank. Each is non-empty and stripped. |
| Embedding.ProgLangs | backend/services/embedding_service.py:226-230 | A stored non-string is kept. A string becomes a list of names: exactly the stripped comma-separated pieces that are not blank, each non-empty and stripped. |
| Embedding.ProgLangsOfList | backend/services/embedding_service.py:228-230 | A comma-joined list of clean names comes back as those names. |
| Embedding.BraceSpan | backend/services/embedding_service.py:470 | A found span is a slice of the text that starts with "{" and ends with "}". The search fails only when no "{" precedes a "}". |
| Embedding.Title | backend/services/embedding_service.py:428 | A row's title is its "Title" cell, or "N/A" when the row has no such column. |
| Embedding.Description | backend/services/embedding_service.py:489 | A row's description is its "Full Job Description" cell, or "N/A" when the row has no such column. |
| Embedding.ParseJsonResponse | backend/services/embedding_service.py:449-483 | The result is always a dictionary. A cleaned reply that decodes is used as is: its value when it is a dictionary, {} otherwise. Only a cleaned reply that fails to decode leads to the brace span, whose decoded dictionary is the result; a missing span, one that fails to decode or a non-dictionary gives {}. |
| Embedding.FencedDictParses | backend/services/embedding_service.py:438-463 | A fenced reply whose body decodes to a dictionary parses to that dictionary. |
| Embedding.NonDictGivesEmpty | backend/services/embedding_service.py:459-461 | A reply that decodes to a non-dictionary parses to the empty dictionary. |
| Embedding.Enrich | backend/services/embedding_service.py:489-591 | The description is the original or the model's summary. Skills and knowledge are dictionaries or one-item placeholder lists. When the summary is switched on, the description is not "N/A" and the summary call succeeds, the description is that summary; each of skills and knowledge is its parsed reply, or its error placeholder when its call failed. |
| Embedding.EnrichFallbacks | backend/services/embedding_service.py:577-591 | The placeholder for each fallback: summary disabled, description "N/A", a failed summary call, a failed skills call, a failed knowledge call. |
| Embedding.KeptPositions | backend/services/embedding_service.py:425-433 | min(topN, number of distinct titles) positions are kept, increasing. Each is the first occurrence of its title. |
| Embedding.TopUnique | backend/services/embedding_service.py:424-433 | At most topN indices are kept, each taken from the ranking. |
| Embedding.TopUniqueCount | backend/services/embedding_service.py:419-433 | The number of kept indices is min(top_n, number of distinct titles along the ranking). |
| Embedding.TopUniqueDistinct | backend/services/embedding_service.py:425-431 | Kept jobs have pairwise different titles. |
| Embedding.TopUniqueFirst | backend/services/embedding_service.py:422-433 | Each kept job is the best-ranked job with its title, and the kept jobs follow the ranking's order. |
| Embedding.TopUniqueNoSkip | backend/services/embedding_service.py:427-433 | Every title met along the ranking up to the last kept job is among the kept titles. |
| Embedding.SelectTopUnique | backend/services/embedding_service.py:424-433 | The early-exit loop keeps exactly TopUnique. |
| Embedding.MatchOf | backend/services/embedding_service.py:485-604 | A match reports the job's own index, similarity and title. |
| Embedding.Matches | backend/services/embedding_service.py:419-604 | At most three matches. Each carries the user's test id and a ranked job's index, similarity and title. |
| Embedding.MatchesOf | backend/services/embedding_service.py:485-604 | One match per kept index, in order. |
| Embedding.MatchesTopThree | backend/services/embedding_service.py:419-433 | Exactly min(3, number of similarities, number of distinct titles along the ranking) matches, with pairwise different titles. |
| Embedding.GenerateEmbeddings | backend/services/embedding_service.py:93-117 | One embedding per job, in order, each computed from that job's description. |
| Embedding.LoadedTables | backend/services/embedding_service.py:60-67 | Unreadable and empty files are skipped. No table is kept exactly when every file is unreadable or empty. |
| Embedding.Concat | backend/services/embedding_service.py:69-70 | The rows of the tables one after the other. Each row keeps its own cells, and every column of any table that it lacks holds null (NaN). Non-empty tables give no rows exactly when there are no tables. |
| Embedding.Fill | backend/services/embedding_service.py:70 | A row widened to a set of columns keeps its own cells, holds null in the added columns, and has no other cells. |
| Embedding.EmbeddingService.constructor | backend/services/embedding_service.py:38-41 | At start-up nothing is loaded: no tokenizer, no model, no rows, no embeddings. |
| Embedding.EmbeddingService.EnsureModelsLoaded | backend/services/embedding_service.py:122-125 | Succeeds exactly when the tokenizer and the model are loaded; otherwise it fails with the service's message. |
| Embedding.EmbeddingService.IsInitialized | backend/services/embedding_service.py:611-613 | True exactly when the tokenizer and the model are loaded and the job table has rows. |
| Embedding.EmbeddingService.InitializeAiModels | backend/services/embedding_service.py:43-91 | Both models are then loaded, and the rows are the concatenated non-empty tables. The service is initialised exactly when some file had rows. The embeddings come from the cache when it loads, are otherwise regenerated, and are untouched when there are no rows. |
| Embedding.EmbeddingService.MatchUserToJob | backend/services/embedding_service.py:396-606 | Fails with "No jobs or embeddings available." exactly when there are no rows or no embeddings, including an empty cache beside a non-empty table. Otherwise it returns the matches of the ranking, also when the cache is shorter than the table. |

## Left out

- Network calls are parameters: the language-model calls (including the topics call, whose text only feeds prompts), the embedding model and the cosine similarity. Their outputs are arguments, so nothing is claimed about their content.
- The process-level steps are not modelled: the API-key check at import, the loading of the Hugging Face model (assumed to succeed), and writing the embeddings pickle.
- Database and Firestore access is modelled as maps or as parameters. A stored document that is empty is falsy in the source, which treats it as missing; the model's `users` and `jobs` maps hold only the documents the source treats as found.
- Floats are `real`. The rounding in `similarity_percentage` is not modelled, and neither is the field itself.
- Logging and prints are not modelled.
- `argsort` order among equal similarities: the ranking `order` may be any order sorted by decreasing similarity, so ties may fall either way. numpy's default sort is not stable, so the model does not pin ties down.
- The similarity ranking is not computed; `IsRanking` states what the ranking must satisfy.
- Embedding.EmbeddingService.MatchUserToJob: requires the cache to be no longer than the table. With a longer cache the source may index past the last row and raise IndexError; that case is not modelled.
- Embedding.Concat: a missing cell is represented by null, standing for NaN. The ranking then treats all such titles as one title. That holds in the source when pandas hands back the same NaN object each time (set lookup checks identity first). When it hands back distinct NaN objects, each compares unequal to the others, and that case is not modelled.
- Embedding.SelectTopUnique: requires `topN >= 1` when the ranking is non-empty. The source always meets this, because rows exist there.
- QuestionGen.DistributeQuestions: is stated for any total, not only 5. The source's constant is `TOTAL_CODING_QUESTIONS`.
- Missing fields that make the source raise KeyError are not modelled, namely `question_id` or `selected_option` in an answer and the "Full Job Description" column. Unhashable question ids are not modelled either.
- Exceptions from `read_csv` other than an empty file count as unreadable files. In the source they propagate.
- Python's `upper`, `lower` and `title` are modelled for ASCII letters only. `str()` of a list or dictionary level is not rendered, and such a level normalises to 0.
- The exception messages of a failed summary, skills or knowledge call are not modelled, only which fallback applies.
- The charts and PDF layout of the report, and the other fields of `get_report_data`, are not modelled.
- Report.Tallies: in the source, `setdefault` raises TypeError when a difficulty or question type is unhashable, such as a list or dict value (report_generation_service.py:97-98). The model counts such a value as a bucket like any other.
- QuestionGen.GenerateQuestions: a `call_openai` that fails, or whose reply content is None, raises in the source (openai_service.py:19-31 and 46-187). The model takes every reply as a string.

## Findings

| source | as written | input that shows it | evidently intended | confidence | as-written member | corrected member |
|---|---|---|---|---|---|---|
| backend/services/openai_service.py:105-106 | checks that the accumulator `coding_questions` is a list, which is always true, and extends it with whatever the reply decoded to | a coding reply decoding to `{"question": "..."}` adds the key "question" as a question; one decoding to `7` raises TypeError, which is not caught | extend only when the decoded reply `coding_temp` is a list | not executed | QuestionGen.ExtendAsWritten, QuestionGen.CodingQuestionsAsWritten, used by QuestionGen.CollectCodingQuestions and QuestionGen.GenerateQuestions (shown by QuestionGen.NumberReplyRaises, QuestionGen.ObjectReplyAddsKeys) | QuestionGen.ExtendChecked, QuestionGen.CodingQuestions (QuestionGen.AsWrittenAgreesOnLists, QuestionGen.CodingQuestionsCount, QuestionGen.AsWrittenMatchesIntended) |
| backend/services/openai_service.py:74-82 | divides the five questions by the number of listed languages, duplicates included, then keys the quota by language | the language reply "Python, Python" yields the quota {"Python": 3}, so three coding questions are asked instead of five | divide by the number of distinct languages, so the quota always sums to five | not executed | QuestionGen.QuotaAsWritten, used by QuestionGen.DistributeQuestions and QuestionGen.GenerateQuestions (shown by QuestionGen.DuplicateLanguageShrinksQuota, QuestionGen.QuotaAsWrittenTotal, QuestionGen.CodingCountAsWritten) | QuestionGen.Quota (QuestionGen.QuotaSharesTotal, QuestionGen.QuotaEntry, QuestionGen.FiveCodingQuestionsIntended) |
