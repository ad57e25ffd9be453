# Prospect merge and scoring, modelled in Dafny

The prospect-search agent gathers company records from several adapters:
two mock databases (Apollo and Crunchbase) and a job-postings search.
`merge_results` reconciles the records into one record per company domain.
`compute_confidence` then gives each merged record a score between 0 and 1
against an Ideal Customer Profile (ICP).

The project models these two operations, plus the step of the main flow that
attaches the score to every merged record.

- `records.dfy` (module `Records`) defines the company record.
  - Every optional dictionary key is an `Option` slot: `None` means the key
    is absent.
  - It also defines `KeyError` and the `Result` type that carries a raised
    `KeyError`.
- `merge.dfy` (module `Merge`) holds the merge itself.
  - The method `MergeResults` runs the nested loops of `merge_results`. It
    keeps the insertion-ordered dictionary `combined` as a key list `order`
    and a `map`. One iteration of the inner loop is the method `MergeRecord`.
  - The method is proved equal to `MergeSpec`. `MergeSpec` is a fold
    (`Combine`) of one dictionary step (`Insert`) over the records of all
    sources in processing order.
  - A repeated domain is folded in by `Absorb`. `Absorb` updates the signals,
    unions the sources and replaces the funding stage.
- `merge_properties.dfy` (module `MergeProperties`) proves what the merge
  promises.
  - The fold gives each domain the same record as folding only that domain's
    own records (`CombineGroups`).
  - From there it proves the field policies: first writer wins, signals
    overwritten key by key, source union and last funding stage. It also
    proves the output order and the failure cases.
- `merge_twice.dfy` (module `MergeTwice`) merges a source with itself.
  - For records with distinct domains, merging the source once returns it
    unchanged.
  - Merging it twice returns the same records in the same order. Each record
    keeps every field; only its `source` list is de-duplicated.
  - This needs every record to carry `signals` and `source`;
    `MergeTwiceNeedsSignals` is the counterexample without them.
- `text.dfy` (module `Text`) holds the string operations the scorer uses:
  ASCII `lower()`, the substring test `in`, and `" ".join`.
- `confidence.dfy` (module `Scoring`) is the scorer.
  - The weights 0.4, 0.3, 0.2 and 0.1 are whole tenths. The score is
    therefore computed exactly, as a natural number of tenths
    (`ConfidenceTenths`).
  - `Confidence` divides the score by ten.
- `pipeline.dfy` (module `Pipeline`) is the loop of the main flow that
  attaches `confidence` to each merged record.
- `mock_data.dfy` (module `MockData`) holds the records of the two hard-coded
  adapters. It proves what the merger makes of them and how the merged record
  they share scores.

### Behaviour worth knowing

- **Missing `signals` or `source` on a stored record.** main.py:83-84 index
  `combined[domain]["signals"]` and `combined[domain]["source"]` directly.
  So a repeated domain whose first record lacks either key raises
  `KeyError`. The model returns `Err(KeyError("signals"))` or
  `Err(KeyError("source"))`. `MergeTwiceNeedsSignals` shows it on one
  record merged with itself.
- **Empty domains.** The merge keys on the domain string (main.py:78-80).
  The job-postings adapter gives every record the domain `""`
  (main.py:63-68), so all such records fall into one bucket and merge into
  one record. `EmptyDomainsCollide` proves this.
- **Missing tech stack.** main.py:96 reads `icp["signals"]["tech_stack"]`
  directly. So an ICP without `signals` or `tech_stack` raises `KeyError`.
  `ConfidenceTenths` states this error path.
- **Funding stage.** The comment at main.py:85 says "if missing". The code
  at main.py:86-87 overwrites whenever the incoming record carries a funding
  stage. The model states last-writer-wins.

## Model

| member | source | states |
|---|---|---|
| `Merge.MergeResults` | main.py:74-88 | The nested loops over sources and records return exactly the fold `MergeSpec`: the same output list, or the same `KeyError`, with no partial result. |
| `Merge.AbsorbPolicy` | main.py:83-87 | Folding a later record into a stored one fails iff the stored record lacks `signals` (key "signals") or `source` (key "source"). Otherwise the signals are the key-wise union and the incoming values win. The sources are the union without repetition. The incoming funding stage, when present, replaces the stored one. No other field changes. |
| `Merge.Absorb` | main.py:83-87 | Folding a later record into a stored one fails iff the stored record lacks `signals` or `source`. On success, every field outside signals, source and funding stage is the stored record's. The full policy is `AbsorbPolicy`. |
| `Merge.Insert` | main.py:78-87 | One dictionary step fails iff the record has no domain, or its domain is known and the stored record lacks `signals` or `source`. |
| `Merge.InsertKeeps` | main.py:79-87 | A successful step adds the record's domain to the keys. A new domain goes last, a known one keeps its place, and every other entry is unchanged. |
| `Merge.MergeRecord` | main.py:78-87 | One iteration of the inner loop, which updates the stored record field by field, computes exactly the dictionary step `Insert`, error included. |
| `Merge.InnerStep` | main.py:76-77 | Processing record `j` of the current source is one more dictionary step after the records before it. |
| `Merge.Flatten` | main.py:76-77 | A single source is processed in its own order, and the records processed are at least as many as the last source holds. `FlattenAppend` (concatenation) and `FlattenEmpty` (no records iff every source is empty) state the rest. |
| `Merge.FlattenEmpty` | main.py:76-77 | There is no record to process iff every source is empty. |
| `Merge.MergeSpec` | main.py:74-88 | The merge never returns more records than it was given, and no records give an empty result. Its meaning is stated by the `MergeProperties` lemmas. |
| `Merge.Combined.Values` | main.py:88 | `list(combined.values())` lists one record per key, and holds exactly the stored records. |
| `Merge.Dedup` | main.py:84 | `list(set(xs))` holds each element of `xs` exactly once, and nothing else. |
| `Merge.Combine` | main.py:75-87 | A successful fold yields a well-formed dictionary: each key is listed once, the key list matches the map, and it has no more keys than records. |
| `Merge.CombineSnoc` | main.py:76-77 | Processing one more record is one more dictionary step, unless the fold has already failed. |
| `Merge.CombineErrPersists` | main.py:76-78 | Once a record raises, later records do not change the outcome. |
| `Merge.EarlyExit` | main.py:76-78 | An error raised at record `j` of source `i` is the error of the whole merge. |
| `Merge.FlattenAppend` | main.py:76-77 | The records of two source lists one after the other are the records of their concatenation. |
| `MergeProperties.MergeGroupFirstWins` | main.py:79-87 | Merging one domain's records fails iff the domain repeats and its first record lacks `signals` or `source`, and the error names that key. Otherwise every field except signals, source and funding stage equals the first record's. |
| `MergeProperties.MergeGroupSignals` | main.py:83 | A signal key is present iff some record of the domain carries it. Its value is that of the last record carrying it, so a later false overrides an earlier true. |
| `MergeProperties.MergeGroupSources` | main.py:84 | A domain seen once keeps its `source` verbatim. Otherwise its `source` holds exactly the sources named by its records, each once. |
| `MergeProperties.MergeGroupFundingStage` | main.py:86-87 | The funding stage is present iff some record of the domain carries one, and it is that of the last record carrying one. |
| `MergeProperties.MergeGroupSnoc` | main.py:81-87 | One more record of a domain is one more update of its stored record. |
| `MergeProperties.CombineGroups` | main.py:78-87 | The dictionary has an entry exactly for each domain seen. That entry is the merge of that domain's records alone, in processing order. |
| `MergeProperties.GroupStep` | main.py:78-87 | One more record keeps the dictionary grouped by domain. |
| `MergeProperties.CombineOrder` | main.py:79-80 | The key list holds every domain seen, once, ordered by where each domain was first seen. |
| `MergeProperties.OrderStep` | main.py:79-80 | A new domain is appended after all earlier ones. A known domain keeps its place. |
| `MergeProperties.CombineFails` | main.py:78-84 | The fold fails iff some record lacks a domain, or repeats a domain whose first record lacks `signals` or `source`. The error is the key of the first such record. |
| `MergeProperties.InsertFails` | main.py:78-84 | The last record makes a so-far-successful fold fail exactly in those cases, with that key. |
| `MergeProperties.MergeOneRecordPerDomain` | main.py:75-88 | Uniqueness and order. The output has one record per distinct domain of the input, no domain twice, and every input domain present. The records appear in order of first sighting. |
| `MergeProperties.OneRecordPerKey` | main.py:88 | Records listed one per dictionary key have distinct domains, ordered by first sighting. |
| `MergeProperties.EveryKeyListed` | main.py:88 | Records listed one per dictionary key cover every domain of the input. |
| `MergeProperties.OutputGroups` | main.py:88 | Output record `i` is the merge of the records of the `i`-th key's domain. |
| `MergeProperties.MergeFirstWriterWins` | main.py:79-87 | Company name, domain, revenue, employee count, industry and contacts of each output record are those of the first input record with its domain. |
| `MergeProperties.MergeSignalsOverwrite` | main.py:80-83 | An output record's signals are the key-wise overwrite of its domain's records' signals in processing order. |
| `MergeProperties.MergeSourceUnion` | main.py:80-84 | An output record's `source` is verbatim for a domain seen once. Otherwise it is the union of its domain's sources, without repetition. |
| `MergeProperties.MergeFundingStageLastWins` | main.py:80-87 | An output record's funding stage comes from the last record of its domain that carries one, and is absent only if none does. |
| `MergeProperties.MergeFails` | main.py:76-84 | The merge raises iff some record lacks a domain, or repeats a domain whose first record lacks `signals` or `source`. It raises the `KeyError` of the first such record. |
| `MergeProperties.MissingDomainAborts` | main.py:78 | A record without a `domain` key aborts the whole merge. |
| `MergeProperties.EmptySourceIgnored` | main.py:76-77 | Inserting an empty source anywhere in the source list does not change the result. |
| `MergeProperties.EmptyDomainsCollide` | main.py:63-68 | Records that all carry domain `""` (as the job-postings adapter emits) merge into a single output record. Only the first of them is read as a stored record, so only it must carry `signals` and `source`. |
| `MergeProperties.FlattenSkipsEmpty` | main.py:76-77 | An empty source between two source lists adds no record. |
| `MergeTwice.OnePass` | main.py:76-80 | One pass over records with distinct domains stores each record unchanged, in order. |
| `MergeTwice.InsertNew` | main.py:79-80 | A record with a new domain is appended and stored unchanged. |
| `MergeTwice.InsertAgain` | main.py:81-87 | Meeting a stored record again replaces it by the record folded with itself, and leaves every other entry alone. |
| `MergeTwice.AbsorbSelf` | main.py:83-87 | A record folded with itself keeps every field, its signals and its funding stage. Its `source` list keeps the same members, each once. |
| `MergeTwice.SecondPass` | main.py:76-87 | After the source and the first `j` records of its copy, those `j` domains hold their record folded with itself and the rest are unchanged. |
| `MergeTwice.SecondPassStep` | main.py:76-87 | One more record of the copy folds one more stored record with itself. |
| `MergeTwice.StoredValues` | main.py:88 | The output of a dictionary storing given records for the domains of `s` is those records, in order. |
| `MergeTwice.FlattenOnceTwice` | main.py:76-77 | The sources `[s]` give the records `s`, and `[s, s]` give `s + s`. |
| `MergeTwice.MergeDistinctUnchanged` | main.py:74-88 | Merging one source whose records have distinct domains returns it unchanged. |
| `MergeTwice.MergeTwiceValues` | main.py:74-88 | Merging a source with itself returns each record folded with itself. |
| `MergeTwice.TwiceKeepsFields` | main.py:83-87 | Each record folded with itself equals the original except for the order and repetition of its `source` list. |
| `MergeTwice.MergeTwiceSameAsOnce` | main.py:74-88 | If every record has a distinct domain and carries `signals` and `source`, merging the source with itself gives the records of merging it once. Length, order, signals, funding stage and all other fields are the same, and each `source` list has the same members, each once. |
| `MergeTwice.MergeTwiceNeedsSignals` | main.py:83 | Without `signals`, a record merges alone but merging its source with itself raises `KeyError("signals")`. |
| `MergeProperties.FirstContributor` | main.py:79-80 | The first record of a domain's group is the first input record with that domain. |
| `Text.Lower` | main.py:92 | Lower-casing keeps the length and leaves no ASCII capital. Each capital becomes the small letter at the same place in the alphabet, and every other character is kept. |
| `Text.LowerIgnoresCase` | main.py:92 | Two strings lower-case to the same string iff they are equal once ASCII case is ignored, so the industry test is blind to case. |
| `Text.LowerIdempotent` | main.py:92 | Lower-casing twice is lower-casing once. |
| `Text.LowerEmpty` | main.py:92 | Only the empty string lower-cases to `""`. |
| `Text.IsSubstring` | main.py:92 | A needle is never found in a shorter haystack. `SubstringAt` states the full meaning. |
| `Text.SubstringOfEmpty` | main.py:92 | Only the empty string occurs in `""`. |
| `Text.Join` | main.py:96 | Joining one part gives that part. The joined length is the parts' total length plus one separator between each pair of neighbours. |
| `Text.SubstringAt` | main.py:92 | The substring test `needle in hay` holds iff `needle` occurs at some position of `hay`. |
| `Text.SubstringOfJoin` | main.py:96 | A non-empty needle without spaces occurs in the parts joined with spaces iff it occurs in one of the parts. |
| `Text.SubstringAcrossSpace` | main.py:96 | No occurrence of a space-free needle straddles a joining space. |
| `Scoring.IndustryMatch` | main.py:92-93 | The industry indicator holds only if the ICP lists at least one industry. `IndustryMatchMeaning` states the full meaning. |
| `Scoring.SignalSet` | main.py:94-95 | A signal flag counts only if the record carries `signals` with that key. A missing `signals` field counts as false. |
| `Scoring.FundingSignal` | main.py:94 | The funding indicator holds only if the record's `new_funding` flag is present and true. |
| `Scoring.HiringSignal` | main.py:95 | The hiring indicator holds only if the record's `recent_hiring` flag is present and true. |
| `Scoring.TechMatch` | main.py:96-97 | The tech indicator raises `KeyError` iff the ICP lacks `signals` or `tech_stack`. An empty tech stack gives false. `TechMatchMeaning` states the full meaning. |
| `Scoring.ConfidenceTenths` | main.py:92-98 | The score in tenths is 4·industry + 3·funding + 2·hiring + 1·tech, over 0/1 indicators. It lies in 0..10, is 10 iff all four indicators hold, and is 0 iff none does. It raises `KeyError` ("signals" or "tech_stack") iff the ICP lacks `signals.tech_stack`. |
| `Scoring.Confidence` | main.py:98-99 | The confidence lies in [0, 1] and is 1.0 iff all four indicators hold. It fails exactly when the tech indicator raises. |
| `Scoring.IndustryMatchMeaning` | main.py:92-93 | The industry indicator holds iff some ICP industry, lower-cased, occurs in the record's lower-cased industry. A missing industry reads as `""`. |
| `Scoring.AnyIndustryIn` | main.py:92-93 | `any(...)` over the ICP industries holds iff one of them, lower-cased, occurs in the lower-cased industry. |
| `Scoring.MissingIndustryMatchesOnlyEmpty` | main.py:92 | A record without an industry matches only an empty ICP industry label. |
| `Scoring.TechMatchMeaning` | main.py:96-97 | The tech indicator depends only on the ICP. It holds iff some tech-stack entry contains "AWS" or "Snowflake". |
| `Scoring.ExampleScoresEight` | main.py:91-99 | ICP industry ["Software"] with tech stack ["AWS"], and a record in "Enterprise Software" with `new_funding` true and `recent_hiring` false: the score is 8 tenths. |
| `Pipeline.AttachConfidence` | main.py:119-120 | Each merged record, in order, gets its confidence. The loop fails iff there is a record to score and the ICP lacks `signals.tech_stack`. |
| `MockData.MockMerge` | main.py:14-40 | Merging the Apollo and Crunchbase mock records gives DataIQ, FinWise and AutoAI in that order. DataIQ keeps Apollo's data and gains Crunchbase's funding stage and hiring signal. Its sources are exactly "Apollo" and "Crunchbase", each once, in an order left to `set`. |
| `MockData.MockCombine` | main.py:14-40 | Folding the four mock records stores the merged DataIQ record, then FinWise and AutoAI unchanged. |
| `MockData.MergedDataIQScores` | main.py:91-99 | Any record merged from both DataIQ reports scores 1.0 for a software-on-AWS ICP. Apollo's DataIQ record alone scores 0.8. |
| `MockData.MockApollo` | main.py:14-29 | The two Apollo records have different domains and are both stored unchanged. |
| `MockData.MockAbsorb` | main.py:83-87 | Crunchbase's DataIQ record folded into Apollo's keeps Apollo's data, takes the "Series B" stage, holds both signals, and names both adapters once each in some order. |
| `MockData.MockFlatten` | main.py:76-77 | The records of the two mock sources, in processing order. |
| `MockData.MockValues` | main.py:88 | The final dictionary lists DataIQ, FinWise and AutoAI. |
| `MockData.MockTopScore` | main.py:91-99 | For a software-on-AWS ICP, the merged DataIQ record scores 1.0 and Apollo's DataIQ record alone scores 0.8. |

## Left out

- `load_icp` and `save_output` (main.py:8-10, 103-106) are file I/O and JSON.
  They are not part of this model.
- `fetch_from_serpapi` (main.py:47-71) is a network call through the
  `serpapi` library, with an API key read by `dotenv`. Only its record shape
  (domain `""`, used by `EmptyDomainsCollide`) appears here.
- `main` (main.py:110-125) loads, fetches, saves and prints. Only its
  scoring loop is modelled (`Pipeline.AttachConfidence`).
- Float arithmetic and `round(score, 2)` are replaced by exact tenths. Every
  reachable score is a whole number of tenths, and rounding to two decimals
  only removes float error.
- Python aliasing is not modelled. `combined[domain] = comp` stores the
  adapter's own dictionary, and later updates mutate it in place. The model
  uses values, so the adapters' lists are not shown changing.
- `Merge.Dedup` fixes an order for `list(set(...))`: first occurrences are
  kept. Python leaves the order to the set. Every contract about a
  de-duplicated `source` list states membership and distinctness only, never
  order (`MockData.MergedDataIQ` and `MergeTwice.MergeTwiceSameAsOnce`
  included).
- An explicit `None` value and an absent key are both `None` in the model.
  The code treats them differently in a few places (for example
  `"funding_stage" in comp` is true for a present `None`). Inputs with
  explicit `null` values are not modelled.
- `Text.Lower` lower-cases ASCII letters only. Python's `str.lower()`
  covers all of Unicode.
- Aliasing also shows when one dictionary object occurs twice in the
  inputs. Python's in-place updates between the two occurrences are then
  visible at the second one, while the model folds in the second
  occurrence's original value. For example, with `A` and `B` sharing a
  domain, the sources `[A], [B], [A]` give a signal that both carry `B`'s
  value in Python and `A`'s value in the model. The three adapter lists of
  `main` are built separately, so this cannot happen there.
- `KeyError` carries only the missing key, not the record that raised it.
- `fetch_from_apollo` and `fetch_from_crunchbase` appear only as the
  concrete inputs of `MockData`.
