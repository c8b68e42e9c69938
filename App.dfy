/** The dashboard page: the static hierarchy it configures the filter with, and the
    score records it narrows down to the current selection before charting them.
 */
module App {
  import opened Hierarchy
  import opened Filter

  /** One day's assessment record. */
  datatype Score = Score(date: string, totalAssessments: int, subject: string, chapter: string, topic: string)

  /** The record's own classification, as a selection with every level set to its field. */
  function Classification(score: Score): Selection {
    Selection(score.subject, score.chapter, score.topic)
  }

  /** The filter predicate: each set level rejects a record whose field differs.
      A record is kept exactly when its own classification refines the selection. */
  predicate Keeps(filter: Selection, score: Score)
    ensures Keeps(filter, score) <==> Refines(Classification(score), filter)
  {
    if filter.subject != "" && score.subject != filter.subject then false
    else if filter.chapter != "" && score.chapter != filter.chapter then false
    else if filter.topic != "" && score.topic != filter.topic then false
    else true
  }

  /** A record is kept iff every level is unset or equals the record's field there. */
  lemma KeepsIff(filter: Selection, score: Score)
    ensures Keeps(filter, score) <==>
              && (filter.subject == "" || score.subject == filter.subject)
              && (filter.chapter == "" || score.chapter == filter.chapter)
              && (filter.topic == "" || score.topic == filter.topic)
  {
  }

  /** `a` is `b` with some elements left out, the rest in their original order. */
  predicate IsSubsequence<T(==)>(a: seq<T>, b: seq<T>)
    decreases |b|
  {
    || a == []
    || (&& b != []
        && ((a[0] == b[0] && IsSubsequence(a[1..], b[1..])) || IsSubsequence(a, b[1..])))
  }

  /** `filteredScores`: the records the selection keeps, in their original order. */
  function FilteredScores(filter: Selection, scores: seq<Score>): (r: seq<Score>)
    ensures |r| <= |scores|
    ensures IsSubsequence(r, scores)
    ensures forall x :: x in r <==> x in scores && Keeps(filter, x)
    ensures forall x :: multiset(r)[x] == if Keeps(filter, x) then multiset(scores)[x] else 0
    decreases |scores|
  {
    if scores == [] then []
    else
      assert scores == [scores[0]] + scores[1..];
      var rest := FilteredScores(filter, scores[1..]);
      if Keeps(filter, scores[0]) then
        assert ([scores[0]] + rest)[1..] == rest;
        [scores[0]] + rest
      else
        rest
  }

  /** With no level set, every record is shown, in its original order. */
  lemma {:induction false} UnsetFilterKeepsAll(scores: seq<Score>)
    ensures FilteredScores(Selection("", "", ""), scores) == scores
    decreases |scores|
  {
    if scores != [] {
      UnsetFilterKeepsAll(scores[1..]);
      assert [scores[0]] + scores[1..] == scores;
    }
  }

  /** Reference definition: the records of one subject, in order. */
  function OfSubject(scores: seq<Score>, subject: string): (r: seq<Score>)
    ensures forall x :: x in r ==> x.subject == subject
    decreases |scores|
  {
    if scores == [] then []
    else if scores[0].subject == subject then [scores[0]] + OfSubject(scores[1..], subject)
    else OfSubject(scores[1..], subject)
  }

  /** With only the subject set, the result is exactly that subject's records,
      whatever chapter and topic they carry. */
  lemma {:induction false} SubjectOnly(scores: seq<Score>, subject: string)
    requires subject != ""
    ensures FilteredScores(Selection(subject, "", ""), scores) == OfSubject(scores, subject)
    decreases |scores|
  {
    if scores != [] {
      SubjectOnly(scores[1..], subject);
    }
  }

  /** Filtering a list all of whose records are kept returns it unchanged. */
  lemma {:induction false} FilterKeepsKept(filter: Selection, scores: seq<Score>)
    requires forall x :: x in scores ==> Keeps(filter, x)
    ensures FilteredScores(filter, scores) == scores
    decreases |scores|
  {
    if scores != [] {
      assert scores[0] in scores;
      FilterKeepsKept(filter, scores[1..]);
      assert [scores[0]] + scores[1..] == scores;
    }
  }

  /** Filtering an already filtered list with the same selection changes nothing. */
  lemma FilterIdempotent(filter: Selection, scores: seq<Score>)
    ensures FilteredScores(filter, FilteredScores(filter, scores)) == FilteredScores(filter, scores)
  {
    FilterKeepsKept(filter, FilteredScores(filter, scores));
  }

  /** `narrow` agrees with `wide` on every level `wide` sets, and may set more. */
  predicate Refines(narrow: Selection, wide: Selection) {
    && (wide.subject == "" || wide.subject == narrow.subject)
    && (wide.chapter == "" || wide.chapter == narrow.chapter)
    && (wide.topic == "" || wide.topic == narrow.topic)
  }

  /** Filtering first with a wider selection and then with a narrower one is the same
      as filtering with the narrower one alone. */
  lemma {:induction false} FilterNarrowing(narrow: Selection, wide: Selection, scores: seq<Score>)
    requires Refines(narrow, wide)
    ensures FilteredScores(narrow, FilteredScores(wide, scores)) == FilteredScores(narrow, scores)
    decreases |scores|
  {
    if scores != [] {
      FilterNarrowing(narrow, wide, scores[1..]);
      KeepsIff(narrow, scores[0]);
      KeepsIff(wide, scores[0]);
    }
  }

  /** Setting more levels shows a subsequence of what fewer levels show. */
  lemma FilterMonotone(narrow: Selection, wide: Selection, scores: seq<Score>)
    requires Refines(narrow, wide)
    ensures IsSubsequence(FilteredScores(narrow, scores), FilteredScores(wide, scores))
  {
    FilterNarrowing(narrow, wide, scores);
  }

  /** Choosing a value at an unset level narrows the view. */
  lemma SettingUnsetLevelNarrows(filter: Selection, key: Key, value: string, scores: seq<Score>)
    requires Consistent(filter)
    requires filter.Get(key) == ""
    ensures IsSubsequence(FilteredScores(Updated(filter, key, value), scores), FilteredScores(filter, scores))
  {
    FilterMonotone(Updated(filter, key, value), filter, scores);
  }

  /** The page's filter state starts with nothing selected, so it shows every record. */
  lemma InitialViewShowsAll(scores: seq<Score>)
    ensures var page := Selection("", "", "");
            FilteredScores(page, scores) == scores && Consistent(page) && InHierarchy(FilterDataLiteral, page)
  {
    UnsetFilterKeepsAll(scores);
  }

  /** `filterData`: the hierarchy the page configures the filter with. */
  const FilterDataLiteral: FilterData := [
    Entry("Programming Fundamentals", [
      Entry("Variables & Data Types", ["Primitive Types", "Type Conversion", "Constants"]),
      Entry("Control Structures", ["if-else", "switch-case", "loops"]),
      Entry("Functions & Recursion", ["Function declaration", "Parameters", "Recursion"]),
      Entry("Arrays and Strings", ["One-dimensional", "Two-dimensional", "String manipulation"]),
      Entry("Object-Oriented Concepts", ["Classes", "Objects", "Inheritance", "Polymorphism", "Encapsulation"])
    ]),
    Entry("Data Structures", [
      Entry("Linear Structures", ["Arrays", "Linked Lists", "Stacks", "Queues"]),
      Entry("Non-Linear Structures", ["Trees", "Heaps", "Graphs"]),
      Entry("Hashing", ["Hash Tables", "Collision Resolution Techniques"]),
      Entry("Algorithms on DS", ["Traversals", "Sorting with DS", "Searching techniques"])
    ]),
    Entry("Algorithms", [
      Entry("Sorting & Searching", ["Bubble Sort", "Merge Sort", "Quick Sort", "Binary Search"]),
      Entry("Greedy Algorithms", ["Activity Selection", "Huffman Coding", "Kruskal\U{2019}s Algorithm"]),
      Entry("Divide and Conquer", ["Merge Sort", "Binary Search", "Closest Pair Problem"]),
      Entry("Dynamic Programming", ["Fibonacci", "Knapsack", "Matrix Chain Multiplication"]),
      Entry("Backtracking", ["N-Queens", "Sudoku Solver", "Subset Sum"])
    ]),
    Entry("Computer Organization & Architecture", [
      Entry("Number Systems & Boolean Algebra", ["Binary", "Octal", "Hex", "Logic Gates"]),
      Entry("CPU Architecture", ["ALU", "Registers", "Instruction Cycle"]),
      Entry("Memory Hierarchy", ["RAM", "Cache", "Virtual Memory"]),
      Entry("Input/Output Organization", ["Interrupts", "DMA", "I/O mapping"]),
      Entry("Pipelining & Parallelism", ["Instruction Pipelining", "Hazards", "Superscalar Architecture"])
    ]),
    Entry("Operating Systems", [
      Entry("Introduction & Structures", ["Kernel", "System Calls", "OS Services"]),
      Entry("Process Management", ["Threads", "Scheduling", "Synchronization"]),
      Entry("Memory Management", ["Paging", "Segmentation", "Virtual Memory"]),
      Entry("File Systems", ["File Allocation", "Directory Structure"]),
      Entry("Deadlocks", ["Detection", "Prevention", "Avoidance"])
    ])
  ]

  /** The literal is a valid object: no subject repeats, and no chapter repeats under a subject. */
  lemma LiteralWellFormed()
    ensures WellFormed(FilterDataLiteral)
  {
    var d := FilterDataLiteral;
    SubjectKeysOfLiteral();
    forall i | 0 <= i < |d|
      ensures Distinct(Keys(d[i].value))
    {
      if i == 0 {
        assert Keys(d[0].value) == ["Variables & Data Types", "Control Structures", "Functions & Recursion",
                                    "Arrays and Strings", "Object-Oriented Concepts"];
      } else if i == 1 {
        assert Keys(d[1].value) == ["Linear Structures", "Non-Linear Structures", "Hashing", "Algorithms on DS"];
      } else if i == 2 {
        AlgorithmsChapterKeys();
      } else if i == 3 {
        assert Keys(d[3].value) == ["Number Systems & Boolean Algebra", "CPU Architecture", "Memory Hierarchy",
                                    "Input/Output Organization", "Pipelining & Parallelism"];
      } else {
        assert Keys(d[4].value) == ["Introduction & Structures", "Process Management", "Memory Management",
                                    "File Systems", "Deadlocks"];
      }
    }
  }

  lemma SubjectKeysOfLiteral()
    ensures Keys(FilterDataLiteral) ==
            ["Programming Fundamentals", "Data Structures", "Algorithms",
             "Computer Organization & Architecture", "Operating Systems"]
  {
  }

  lemma AlgorithmsChapterKeys()
    ensures Keys(FilterDataLiteral[2].value) ==
            ["Sorting & Searching", "Greedy Algorithms", "Divide and Conquer", "Dynamic Programming", "Backtracking"]
  {
  }

  /** The subject list offers the five subjects in the literal's order. */
  lemma SubjectOptionsOfLiteral()
    ensures Values(SubjectOptions(FilterDataLiteral)) ==
            ["Programming Fundamentals", "Data Structures", "Algorithms",
             "Computer Organization & Architecture", "Operating Systems"]
  {
    SubjectKeysOfLiteral();
  }

  /** Choosing "Algorithms" and then "Backtracking" offers exactly the three
      backtracking topics, in the literal's order. */
  lemma BacktrackingTopics()
    ensures var chosen := Updated(Updated(Selection("", "", ""), SubjectKey, "Algorithms"), ChapterKey, "Backtracking");
            && InHierarchy(FilterDataLiteral, chosen)
            && TopicOptions(FilterDataLiteral, chosen.subject, chosen.chapter) ==
               Ok(AsOptions(["N-Queens", "Sudoku Solver", "Subset Sum"]))
  {
    var d := FilterDataLiteral;
    LiteralWellFormed();
    SubjectKeysOfLiteral();
    AlgorithmsChapterKeys();
    assert d[2].key == "Algorithms" && d[2].value[4].key == "Backtracking";
    ChapterOptionsOfSubject(d, 2);
    TopicOptionsOfChapter(d, 2, 4);
  }
}
