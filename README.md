# Literature Lookup — a verified model of its core

Literature Lookup is a single-page Streamlit tool over a small bibliography.
The user types a query, and the page lists the matching papers ranked by
relevance. The user ticks the papers that are relevant to them. They can ask a
hosted text-generation service for a comparative overview of the ticked papers,
and they can download the ticked records together with the overview.

This project models the logic behind that page in Dafny and proves what it
promises:

- **Matching and scoring** (`Text`, `Scoring`). The query and every searched
  field are lower-cased. A field is hit when the query occurs in it. The score
  adds 3 for a title hit, 2 for a keyword hit and 1 for an abstract hit.
- **Search** (`StableSort`, `Ranking`). A non-empty query keeps the papers of
  positive score. It then sorts them in place, stably, by descending score. An
  empty query shows the collection unchanged. The in-place sort is an insertion
  sort on an array, proved equal to a functional stable sort.
- **Relevance log** (`Relevance`). This is the session's list of marked paper
  ids. Each shown paper's checkbox updates it: a ticked box appends the id
  unless it is present, and an unticked box filters out every entry for it.
- **Selection and export** (`Selection`). The selection is the collection's
  records whose id is in the log, in collection order. The download record
  pairs it with the current overview.
- **Overview request** (`Overview`). The request takes at most the first
  `MaxPapers` = 5 selected papers. For each one it appends a segment
  "Paper i Title: … Abstract: … ", numbered from 1. The result is embedded in a
  fixed instruction text, and the prompt goes to the service.
- **Session state** (`SessionState`). The fields `log`, `ai_overview` and
  `show_ai` are held in a `Session` class. The event handlers update them in
  place: the checkbox pass, the generate button, and the collapse/expand
  button. Each handler is proved against a pure transition function on a
  `State` value. `Session.Run` strings one page run together: search, checkbox
  pass, optional generation, download record.

The text-generation service is a function parameter `generate: string -> Reply`.
Checkbox states are an input set of ticked ids. The generate button is an input
flag.

Three details of the page's behaviour shape the model:

- The relevance marks are a list kept in insertion order, not an unordered set.
  The model proves that the selection depends only on which ids the list holds.
- A service answer whose first text part is missing is stored as no overview.
  It erases an earlier overview. A failed call, by contrast, stops the run and
  leaves everything as it was.
- An overview whose text is empty counts as absent when the page decides what
  to display.

## Model

| member | source | states |
|---|---|---|
| `Text.Lower` | main.py:27-31 | lower-casing keeps the length and maps each character through the ASCII case map |
| `Text.LowerIdempotent` | main.py:27-31 | a lower-cased string has no upper-case letter, and lower-casing it again changes nothing |
| `Text.Contains` | main.py:29-31 | definition of the executable `q in s` test, characterised by `ContainsIsSubstring` |
| `Text.ContainsIsSubstring` | main.py:29-31 | the executable test used for `q in s` holds exactly when `q` occurs at some position of `s` |
| `Text.DecimalString` | main.py:50 | the rendering of a paper number is a non-empty string of digits without a leading zero |
| `Text.DecimalRoundTrip` | main.py:50 | reading back the rendered number gives the number |
| `Scoring.AnyKeywordContains` | main.py:31 | the keyword scan is true exactly when the lower-cased query occurs in some lower-cased keyword |
| `Scoring.Matches` | main.py:26-32 | a paper matches exactly when the query, ignoring case, occurs in its title, its abstract or one of its keywords |
| `Scoring.Score` | main.py:34-43 | the score is 3, 2 and 1 for title, keyword and abstract hits, added independently; it lies in 0..6 and is positive exactly when the paper matches |
| `Scoring.ScoreIgnoresQueryCase` | main.py:26-43 | matching and scoring give the same answer for a query and its lower-cased form |
| `Scoring.TitleHitOutranks` | main.py:36-42 | a paper with a title hit scores at least as high as any paper without one |
| `StableSort.Insert` | main.py:75 | definition of stable insertion into a list sorted by descending key, characterised by `InsertPermutes`, `InsertKeepsSorted`, `InsertOfKey` and `InsertAt` |
| `StableSort.SortDesc` | main.py:75 | definition of the stable sort by descending key, characterised by `SortDescPermutes`, `SortDescSorted`, `SortDescStable` and `StableOrderUnique` |
| `StableSort.InsertPermutes` | main.py:75 | stable insertion adds exactly the inserted element to the multiset of elements |
| `StableSort.SortDescPermutes` | main.py:75 | the functional stable sort is a permutation of its input |
| `StableSort.SortDescSorted` | main.py:75 | the sort orders by non-increasing key |
| `StableSort.SortDescStable` | main.py:75 | for every key, the elements with that key appear in their original relative order |
| `StableSort.StableOrderUnique` | main.py:75 | two orderings by non-increasing key with equal per-key subsequences are equal, so any stable sort gives the same list |
| `StableSort.InsertLast` | main.py:75 | one pass of adjacent swaps turns a sorted prefix plus the next element into their stable insertion |
| `StableSort.SortByKey` | main.py:75 | the in-place sort of the array leaves exactly the stable descending sort of its old contents |
| `Ranking.Positive` | main.py:74 | the filtered list holds exactly the collection's papers that match the query |
| `Ranking.PositiveOfScore` | main.py:74 | filtering keeps, for every positive score, all papers of that score in collection order, and none of score 0 |
| `Ranking.ScoreKey` | main.py:75 | definition of the sort key, the paper's score for the query |
| `Ranking.Results` | main.py:73-77 | definition of the shown list, characterised by `Search`, `ResultsMatch`, `ResultsPermutation`, `ResultsOrdered`, `ResultsStable` and `ResultsUnique` |
| `Ranking.Search` | main.py:73-77 | with an empty query the collection is shown unchanged; otherwise the filtered papers sorted stably by descending score |
| `Ranking.ResultsMatch` | main.py:73-75 | for a non-empty query a paper is shown exactly when it is in the collection and matches the query |
| `Ranking.ResultsPermutation` | main.py:74-75 | for a non-empty query the shown list is a permutation of the matching papers |
| `Ranking.ResultsOrdered` | main.py:75 | for a non-empty query the shown list is ordered by non-increasing score |
| `Ranking.ResultsStable` | main.py:74-75 | papers of equal score keep collection order; per positive score the shown papers are the collection's papers of that score |
| `Ranking.ResultsUnique` | main.py:73-75 | any list that is ordered by score, stable and filtered is exactly the shown list |
| `Ranking.GraphQueryScores` | main.py:34-43 | the scores of three sample papers for the query "graph" are 3, 2 and 0 |
| `Ranking.GraphQueryExample` | main.py:73-75 | for the query "graph" the title hit comes before the keyword hit, and the paper without a hit is dropped |
| `Relevance.Step` | main.py:107-111 | after one checkbox event the paper is marked exactly when its box is ticked, and every other id is marked exactly as before |
| `Relevance.Sync` | main.py:100-111 | definition of the checkbox pass, characterised by `SyncKeepsNoDup`, `SyncLeavesOthers`, `SyncKeepsUnshownMark` and `SyncAgrees` |
| `Relevance.Unmark` | main.py:111 | the filtered log holds exactly the old ids other than the removed one, and it stays free of duplicates |
| `Relevance.CheckLeavesOne` | main.py:107-108 | a ticked box leaves exactly one entry for the id: the log is unchanged if the id is present, and the id is appended otherwise |
| `Relevance.CheckIdempotent` | main.py:107-108 | ticking an already ticked paper again changes nothing |
| `Relevance.UncheckRemovesAll` | main.py:109-111 | an unticked box removes every entry for the id and keeps every other entry, with its multiplicity and order |
| `Relevance.UncheckAbsent` | main.py:109-111 | unticking a paper without an entry leaves the log unchanged |
| `Relevance.CheckThenUncheck` | main.py:107-111 | ticking then unticking a previously unmarked paper restores the log |
| `Relevance.StepKeepsNoDup` | main.py:107-111 | each checkbox event keeps the log free of duplicate ids |
| `Relevance.SyncKeepsNoDup` | main.py:100-111 | the whole checkbox pass keeps the log free of duplicate ids |
| `Relevance.StepLeavesOthers` | main.py:107-111 | an event for one id leaves the entries of every other id unchanged and in order |
| `Relevance.SyncLeavesOthers` | main.py:100-111 | entries for papers that are not shown are unchanged and in order after the pass |
| `Relevance.SyncKeepsUnshownMark` | main.py:100-111 | a paper that is not shown is marked after the pass exactly when it was marked before |
| `Relevance.SyncAgrees` | main.py:100-111 | after the pass every shown paper is marked exactly when its box is ticked |
| `Selection.Selected` | main.py:130-131 | the selection holds exactly the collection's papers whose id is in the log |
| `Selection.SelectedInOrder` | main.py:131 | the selection is a subsequence of the collection, so it is in collection order |
| `Selection.SelectedIgnoresLogOrder` | main.py:130-131 | logs holding the same ids give the same selection, whatever their order |
| `Selection.SelectedUnique` | main.py:131 | in a collection with unique ids no two selected records share an id |
| `Selection.SaveRecord` | main.py:153-159 | the download record holds exactly the marked papers in collection order, and the current overview |
| `Overview.Truncate` | main.py:46 | the request keeps the first min(n, 5) papers, unchanged and in order |
| `Overview.Segment` | main.py:50 | definition of one paper's numbered segment, characterised by `SegmentCarriesPaper` and `SegmentNumbersDiffer` |
| `Overview.Numbered` | main.py:48-50 | definition of the numbered segments of a list, concatenated, characterised by `NumberedAppend` and `NumberedSplit` |
| `Overview.Segments` | main.py:48-50 | definition of the paper text from numbered paper segments, characterised by `PaperText` and `PromptIncludesSegment` |
| `Overview.NumberedAppend` | main.py:48-50 | the numbered segments of two lists side by side: the second list is numbered on from where the first stops |
| `Overview.NumberedSplit` | main.py:48-50 | the element at position k contributes the segment numbered from the starting number plus k, between the segments before and after it |
| `Overview.PaperText` | main.py:48-50 | the concatenation loop builds the numbered segments of the first 5 papers, numbered from 1 |
| `Overview.Instructions` | main.py:52-61 | the fixed instruction text that opens the prompt |
| `Overview.Prompt` | main.py:52-63 | definition of the prompt from the paper text, characterised by `PromptCarriesText` |
| `Overview.OverviewPrompt` | main.py:45-63 | definition of the prompt sent for a list of papers, characterised by `AiOverview`, `PromptIncludesSegment`, `PromptIncludesPaper` and `PromptIgnoresExcess` |
| `Overview.AiOverview` | main.py:45-70 | the request sends the service exactly the prompt built from the truncated paper list and returns the service's reply |
| `Overview.SegmentCarriesPaper` | main.py:50 | a paper's segment contains its title and its abstract |
| `Overview.PromptCarriesText` | main.py:52-63 | the prompt embeds the paper text whole |
| `Overview.PromptIncludesSegment` | main.py:45-63 | each of the first 5 papers appears in the prompt as the segment numbered by its position from 1 |
| `Overview.PromptIncludesPaper` | main.py:45-63 | the title and the abstract of each of the first 5 papers occur in the prompt |
| `Overview.PromptIgnoresExcess` | main.py:46 | papers past the first 5 do not change the prompt |
| `Overview.SegmentNumbersDiffer` | main.py:50 | segments of the same paper under different numbers differ |
| `SessionState.State` | main.py:20-24 | the session fields `log`, `ai_overview` and `show_ai` as one value; the transitions below are defined on it |
| `SessionState.Initial` | main.py:20-24 | the state of a new session, characterised by `Session.constructor` |
| `SessionState.ViewOf` | main.py:144-149 | definition of what the overview area shows (text with a collapse button, an expand button, or nothing), characterised by `ToggleSwapsView`, `GenerateStoresAnswer`, `GenerateFailureKeepsState` and `GenerateNoTextErases` |
| `SessionState.Generate` | main.py:129-139 | generation leaves the log alone; it warns exactly when no paper is marked; it fails exactly when papers are marked and the service fails; a warning or a failure changes nothing; otherwise the overview is shown |
| `SessionState.Toggle` | main.py:141-142 | toggling flips only the visibility flag |
| `SessionState.GenerateNothingMarked` | main.py:129-139 | with no paper marked, the outcome does not depend on the service, and the state is unchanged |
| `SessionState.GenerateStoresAnswer` | main.py:129-137 | with papers marked and a text answer, the stored overview is that answer to the prompt from the marked papers, shown, and a non-empty answer is displayed expanded |
| `SessionState.GenerateFailureKeepsState` | main.py:129-137 | with papers marked and a failed call, the outcome is a failure and the state, with the earlier overview and its visibility, is unchanged |
| `SessionState.GenerateNoTextErases` | main.py:133-137 | with papers marked and an answer without text, the stored overview becomes none, so the overview area shows nothing |
| `SessionState.OverviewPersists` | main.py:129-142 | collapsing, expanding and checkbox events keep a stored overview; generation keeps one unless the answer has no text |
| `SessionState.ToggleSwapsView` | main.py:141-149 | toggling swaps the expanded and collapsed displays of an existing overview, and shows nothing when there is none |
| `SessionState.ToggleTwice` | main.py:141-142 | toggling twice restores the state |
| `SessionState.Session.constructor` | main.py:20-24 | a new session has an empty log, no overview and the overview hidden |
| `SessionState.Session.OnCheckbox` | main.py:107-111 | one checkbox event updates the log as the transition function says, keeps it duplicate-free, and touches nothing else |
| `SessionState.Session.RenderCheckboxes` | main.py:100-111 | the loop over the shown papers leaves the log that the checkbox pass computes and touches nothing else |
| `SessionState.Session.GenerateOverview` | main.py:129-139 | the generate handler leaves the state and outcome given by the generation transition |
| `SessionState.Session.ToggleAi` | main.py:141-142 | the collapse/expand handler flips the visibility flag and keeps the log duplicate-free |
| `SessionState.Session.Run` | main.py:73-172 | one page run shows the search result, makes every shown paper's mark agree with its box, applies the generate button when pressed, and builds the download record unless generation failed |

## Left out

- Rendering and widgets are not modelled: titles, columns, expanders, markdown, spinner, warning, info and the download button's rendering. Checkbox states are an input set of ticked ids. The button press is an input flag. The query is an input string.
- Streamlit's rerun and widget-state mechanics are not modelled. That includes what happens to the state of a checkbox that was not rendered in a run. The ticked set given to each run stands for it.
- The Gemini client and its `generate_content` call are a function parameter from prompt to reply. The reply is `Answer(text)`, with a text of `None` when the first part carries none, or `Failure` for an error raised by the call or while reading the response. The model name is not modelled. The traversal of the response object is not modelled either.
- Loading the bibliography JSON and serialising the download record are not modelled. The collection is a given sequence of records. The record is a value with `selectedPapers` and `aiOverview`.
- `Text.Lower` maps only the ASCII letters A-Z, because Python's Unicode `str.lower` is not modelled.
- Log entries are the dictionaries `{"paper_id": id}`; the model keeps only the id.
- `show_ai` does not exist until the first successful generation. The model starts it as false. The script never reads it before then, since the overview area is guarded by the overview's presence.
- The `print` after the service call and the commented-out blocks are not modelled.
- The page has no guard against a second overview request while one is running, and its request is synchronous. Concurrency is not modelled.
