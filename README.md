# Assessment dashboard filter — a Dafny model

The dashboard charts daily assessment submissions and lets the user narrow them
with a three-level filter: subject → chapter → topic. This project models the
logic behind that filter. It covers four parts:

- **The static hierarchy** (`Hierarchy.dfy`, and `App.FilterDataLiteral` in `App.dfy`).
  The source keeps it as a nested object literal. Here an object is an ordered sequence of
  key/value entries (`Dict<V>`), so that the order `Object.keys` returns is
  explicit (insertion order for the non-numeric keys the literal uses). Reading a property is `Get`, which returns `None` where JavaScript returns `undefined`.
- **The filter cascade** (`Filter.dfy`). The selection `{subject, chapter, topic}` uses `""`
  to mean "unset".
  - `Updated` and `Cleared` are the state updates that `updateFilter` and `clearFilter`
    hand to the state setter.
  - The class `HierarchicalFilter` holds the three fields. Its methods `UpdateFilter` and
    `ClearFilter` assign them step by step, as the source does, and are proved equal to those updates.
  - `SubjectOptions`, `ChapterOptions` and `TopicOptions` are the three option lists.
- **Score filtering** (`App.dfy`). `FilteredScores` is the page's `filteredScores`: a
  recursive filter over a sequence of `Score` records, using the early-return predicate `Keeps`.
- **Properties.** A change resets every level below it. The cascade invariant holds under
  the comboboxes' `disabled` guards. A selection built from offered options never makes the
  topic list throw. The filtered list is an ordered subsequence of the input. Filtering is
  idempotent and monotone in the selection, and returns the input unchanged when nothing is
  selected. The literal's lookups are worked through, e.g. Algorithms → Backtracking.

Three behaviours of the code worth noting:

- `topicOptions` evaluates `filterData[subject][chapter]` without checking that
  `filterData[subject]` exists. A set chapter under a subject that is not a key therefore
  throws a `TypeError`. The model returns `TypeError` in that case, and does not forbid
  the input with a precondition.
  `Filter.InHierarchyIsSafe` shows that this cannot happen while every set level holds a
  value the comboboxes offered.
- `chapterOptions` is empty both when no subject is set and when the subject is not a key.
- `updateFilter` does not enforce "chapter set ⇒ subject set" itself. Only the `disabled`
  props of the chapter and topic comboboxes maintain it
  (`Filter.DisabledChapterWouldBreakConsistency`).

## Model

| member | source | states |
|---|---|---|
| `Hierarchy.Get` | src/_components/Filter.tsx:42-43 | a property read yields `None` (undefined) exactly when the name is not a key, and otherwise the value of an entry with that key |
| `Hierarchy.GetEntry` | src/_components/Filter.tsx:42-43 | with distinct keys, reading the i-th key yields the i-th value |
| `Hierarchy.Keys` | src/_components/Filter.tsx:36-43 | `Object.keys` gives one key per entry, the i-th key being the i-th entry's key |
| `Filter.Selection.With` | src/_components/Filter.tsx:62 | the copy `{ ...prev, [key]: value }` holds `value` at `key` and the previous value at every other level |
| `Filter.AsOptions` | src/_components/Filter.tsx:36-39 | the `.map` that builds each option list gives one option per name, in order, with value and label both equal to the name |
| `Filter.Updated` | src/_components/Filter.tsx:61-73 | the changed level takes the new value; levels above it keep their values; every level below it becomes `""`, whatever it held before |
| `Filter.Cleared` | src/_components/Filter.tsx:77-89 | clearing a level equals updating it to `""`; that level and every level below it end up `""` |
| `Filter.ClearIdempotent` | src/_components/Filter.tsx:76-90 | clearing a level twice gives the same state as clearing it once |
| `Filter.UpdatePreservesConsistency` | src/_components/Filter.tsx:57-74 | if the combobox for the level is enabled (subject set for chapter, chapter set for topic), an update keeps "chapter set ⇒ subject set" and "topic set ⇒ chapter set" |
| `Filter.ClearPreservesConsistency` | src/_components/Filter.tsx:76-90 | clearing any level keeps the cascade invariant |
| `Filter.DisabledChapterWouldBreakConsistency` | src/_components/Filter.tsx:130-136 | without the `disabled={!subject}` guard, choosing a chapter with no subject set would break the invariant |
| `Filter.SubjectOptions` | src/_components/Filter.tsx:36-39 | the subject list offers the hierarchy's top-level keys in order, each option's value equal to its label |
| `Filter.ChapterOptions` | src/_components/Filter.tsx:41-47 | the chapter list is empty when the subject is `""` or not a key; every option's value equals its label |
| `Filter.ChapterOptionsOfSubject` | src/_components/Filter.tsx:41-47 | for a subject that is a key, the chapter list offers exactly that subject's chapter keys, in order |
| `Filter.TopicOptions` | src/_components/Filter.tsx:49-55 | throws exactly when subject and chapter are set and the subject is not a key; empty when subject or chapter is `""`; value equals label |
| `Filter.TopicOptionsOfChapter` | src/_components/Filter.tsx:49-55 | for a chapter stored under a subject, the topic list is exactly the stored topic list, in order |
| `Filter.TopicOptionsOfMissingChapter` | src/_components/Filter.tsx:49-55 | a chapter that is not a key under a known subject offers no topics |
| `Filter.InHierarchyIsSafe` | src/_components/Filter.tsx:50 | a selection made of offered values satisfies the cascade invariant and the topic list does not throw for it |
| `Filter.UpdatePreservesInHierarchy` | src/_components/Filter.tsx:108-159 | choosing an offered value, or `""`, at any level keeps every set level among the values offered for it |
| `Filter.HierarchicalFilter.constructor` | src/App.tsx:98-102 | the filter state starts with subject, chapter and topic all `""` |
| `Filter.HierarchicalFilter.UpdateFilter` | src/_components/Filter.tsx:57-74 | the new state is `Updated(old state, key, value)`; it keeps the cascade invariant when the level is enabled, and keeps the selection within the offered options |
| `Filter.HierarchicalFilter.ClearFilter` | src/_components/Filter.tsx:76-90 | the new state is `Cleared(old state, key)`; it keeps both the cascade invariant and the offered-options invariant |
| `App.Keeps` | src/App.tsx:105-110 | the early-return filter callback keeps a record exactly when the record's own subject, chapter and topic refine the selection |
| `App.KeepsIff` | src/App.tsx:106-109 | a record is kept iff the subject is unset or equal, and the chapter is unset or equal, and the topic is unset or equal |
| `App.FilteredScores` | src/App.tsx:104-111 | the result is an order-preserving subsequence of the input, no longer than it; a record occurs in it exactly as many times as in the input when the selection keeps it, and not at all otherwise |
| `App.UnsetFilterKeepsAll` | src/App.tsx:106-109 | with all three levels unset the input is returned unchanged |
| `App.SubjectOnly` | src/App.tsx:106 | with only the subject set, the result is exactly the records of that subject, in order, whatever their chapter and topic |
| `App.FilterKeepsKept` | src/App.tsx:105-110 | a list whose every record is kept is returned unchanged |
| `App.FilterIdempotent` | src/App.tsx:105-110 | filtering the filtered list again with the same selection returns it unchanged |
| `App.FilterNarrowing` | src/App.tsx:106-109 | filtering with a wider selection and then a narrower one equals filtering with the narrower one alone |
| `App.FilterMonotone` | src/App.tsx:106-109 | setting more levels gives a subsequence of the result for fewer levels |
| `App.SettingUnsetLevelNarrows` | src/App.tsx:104-111 | in a consistent state, choosing a value at an unset level narrows the view to a subsequence of the current one |
| `App.InitialViewShowsAll` | src/App.tsx:98-102 | the initial selection is consistent and within the hierarchy, and the initial view shows every score in order |
| `App.LiteralWellFormed` | src/App.tsx:12-95 | no subject key repeats in the literal, and no chapter key repeats under any subject |
| `App.SubjectOptionsOfLiteral` | src/App.tsx:12-95 | the subject list offers the five subjects in the literal's order |
| `App.BacktrackingTopics` | src/App.tsx:48-70 | choosing "Algorithms" and then "Backtracking" is a selection within the hierarchy whose topic list is exactly N-Queens, Sudoku Solver, Subset Sum |

## Left out

- Rendering is not modelled: the JSX, the styling classes, and the `Combobox`, `Label` and `Button` widgets (src/_components/Filter.tsx:92-162, src/App.tsx:113-126). Their library source is not part of this model. What the comboboxes pass to `onChange` is therefore taken as an arbitrary string, or as one of the offered values where a lemma says so.
- React plumbing is not modelled: `useState`, `useMemo` dependency tracking, and the scheduling of the functional updates given to `setFilter`. Each update is modelled as applied atomically to the current state.
- The heatmap component (`AssessmentHeatmap`) is not part of this model: the date grid, the colour buckets and the month labels. Its input is only the filtered score list, which is modelled.
- The `sampleScores` data source is not part of this model. Scores are an arbitrary input sequence. Their `date` and `totalAssessments` fields are carried but never inspected by the filter.
- `Hierarchy.Keys` gives keys in insertion order. JavaScript's `Object.keys` lists integer-like keys (such as `"2"`) first, in ascending order. For a hierarchy with such keys, `Keys`, `SubjectOptions` and `ChapterOptions` would order the options differently from the source. The `filterData` literal has no such keys, so its worked examples are exact.
- `Hierarchy.Get` does not model properties inherited from `Object.prototype` (`"constructor"`, `"toString"`, …). In JavaScript such a subject name would read a function rather than `undefined`.
- The "Clear" buttons are shown only while their level is set (src/_components/Filter.tsx:98, 120, 143). `ClearFilter` is modelled for every state, which covers that case.
