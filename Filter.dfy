/** The hierarchical filter component: a selection of subject, chapter and topic,
    where the empty string means "unset", the cascade rule that a change at one
    level resets every level below it, and the option lists offered at each level.
 */
module Filter {
  import opened Hierarchy

  /** The level a change is made at (`"subject" | "chapter" | "topic"`). */
  datatype Key = SubjectKey | ChapterKey | TopicKey

  /** Subject is above chapter, chapter above topic. */
  function Depth(key: Key): nat {
    match key
    case SubjectKey => 0
    case ChapterKey => 1
    case TopicKey => 2
  }

  /** The filter state `{ subject, chapter, topic }`. */
  datatype Selection = Selection(subject: string, chapter: string, topic: string) {

    /** `filter[key]` */
    function Get(key: Key): string {
      match key
      case SubjectKey => subject
      case ChapterKey => chapter
      case TopicKey => topic
    }

    /** `{ ...prev, [key]: value }`: the copy with one field replaced. */
    function With(key: Key, value: string): (r: Selection)
      ensures r.Get(key) == value
      ensures forall other :: other != key ==> r.Get(other) == Get(other)
    {
      match key
      case SubjectKey => this.(subject := value)
      case ChapterKey => this.(chapter := value)
      case TopicKey => this.(topic := value)
    }
  }

  /** The state update that `updateFilter(key, value)` hands to the state setter. */
  function Updated(prev: Selection, key: Key, value: string): (r: Selection)
    ensures r.Get(key) == value
    ensures forall k :: Depth(k) < Depth(key) ==> r.Get(k) == prev.Get(k)
    ensures forall k :: Depth(k) > Depth(key) ==> r.Get(k) == ""
  {
    var updated := prev.With(key, value);
    if key == SubjectKey then updated.(chapter := "", topic := "")
    else if key == ChapterKey then updated.(topic := "")
    else updated
  }

  /** The state update that `clearFilter(key)` hands to the state setter. */
  function Cleared(prev: Selection, key: Key): (r: Selection)
    ensures r == Updated(prev, key, "")
    ensures forall k :: Depth(k) >= Depth(key) ==> r.Get(k) == ""
  {
    var updated := prev.With(key, "");
    if key == SubjectKey then updated.(chapter := "", topic := "")
    else if key == ChapterKey then updated.(topic := "")
    else updated
  }

  /** Clearing a level twice leaves the same state as clearing it once. */
  lemma ClearIdempotent(prev: Selection, key: Key)
    ensures Cleared(Cleared(prev, key), key) == Cleared(prev, key)
  {
  }

  /** The cascade invariant: a lower level is set only when the level above it is. */
  predicate Consistent(sel: Selection) {
    && (sel.chapter != "" ==> sel.subject != "")
    && (sel.topic != "" ==> sel.chapter != "")
  }

  /** Whether the combobox for `key` accepts a choice: chapter is disabled while no
      subject is set, topic while no chapter is set. */
  predicate Enabled(sel: Selection, key: Key) {
    match key
    case SubjectKey => true
    case ChapterKey => sel.subject != ""
    case TopicKey => sel.chapter != ""
  }

  /** Every update an enabled combobox can make keeps the cascade invariant. */
  lemma UpdatePreservesConsistency(sel: Selection, key: Key, value: string)
    requires Consistent(sel)
    requires Enabled(sel, key)
    ensures Consistent(Updated(sel, key, value))
  {
  }

  /** Clearing any level keeps the cascade invariant, whatever the state. */
  lemma ClearPreservesConsistency(sel: Selection, key: Key)
    requires Consistent(sel)
    ensures Consistent(Cleared(sel, key))
  {
  }

  /** The guard is needed: choosing a chapter while no subject is set breaks the invariant. */
  lemma DisabledChapterWouldBreakConsistency()
    ensures var sel := Selection("", "", "");
            Consistent(sel) && !Enabled(sel, ChapterKey) &&
            !Consistent(Updated(sel, ChapterKey, "Backtracking"))
  {
  }

  /** One entry of a combobox list; `caption` is its `label` property. */
  datatype ComboOption = ComboOption(value: string, caption: string)

  /** `names.map((n) => ({ value: n, label: n }))` */
  function AsOptions(names: seq<string>): (r: seq<ComboOption>)
    ensures |r| == |names|
    ensures forall i :: 0 <= i < |r| ==> r[i].value == names[i] && r[i].caption == names[i]
  {
    seq(|names|, i requires 0 <= i < |names| => ComboOption(names[i], names[i]))
  }

  /** The values a list offers, in order. */
  function Values(options: seq<ComboOption>): (r: seq<string>)
    ensures |r| == |options|
    ensures forall i :: 0 <= i < |r| ==> r[i] == options[i].value
  {
    seq(|options|, i requires 0 <= i < |options| => options[i].value)
  }

  /** An option list built from names offers exactly those names, in order. */
  lemma ValuesOfOptions(names: seq<string>)
    ensures Values(AsOptions(names)) == names
  {
  }

  /** `subjectOptions`: one option per top-level key, in order, value equal to caption. */
  function SubjectOptions(d: FilterData): (r: seq<ComboOption>)
    ensures Values(r) == Keys(d)
    ensures forall i :: 0 <= i < |r| ==> r[i].caption == r[i].value
  {
    ValuesOfOptions(Keys(d));
    AsOptions(Keys(d))
  }

  /** `chapterOptions`: empty unless the subject is set and is a key of the hierarchy. */
  function ChapterOptions(d: FilterData, subject: string): (r: seq<ComboOption>)
    ensures subject == "" || subject !in Keys(d) ==> r == []
    ensures forall i :: 0 <= i < |r| ==> r[i].caption == r[i].value
  {
    if subject != "" then
      match Get(d, subject)
      case Some(chapters) => AsOptions(Keys(chapters))
      case None => []
    else []
  }

  /** Outcome of evaluating an expression that may throw. */
  datatype Result<T> = Ok(value: T) | TypeError

  /** `topicOptions`. Its guard reads `filterData[subject][chapter]` without checking
      that `filterData[subject]` exists, so a set chapter under an unknown subject throws. */
  function TopicOptions(d: FilterData, subject: string, chapter: string): (r: Result<seq<ComboOption>>)
    ensures r.TypeError? <==> subject != "" && chapter != "" && subject !in Keys(d)
    ensures subject == "" || chapter == "" ==> r == Ok([])
    ensures r.Ok? ==> forall i :: 0 <= i < |r.value| ==> r.value[i].caption == r.value[i].value
  {
    if subject != "" && chapter != "" then
      match Get(d, subject)
      case None => TypeError
      case Some(chapters) =>
        match Get(chapters, chapter)
        case Some(topics) => Ok(AsOptions(topics))
        case None => Ok([])
    else Ok([])
  }

  /** For the i-th subject of a hierarchy with distinct subject keys, the chapter options are that
      subject's chapter keys in order. */
  lemma ChapterOptionsOfSubject(d: FilterData, i: nat)
    requires Distinct(Keys(d))
    requires i < |d| && d[i].key != ""
    ensures Values(ChapterOptions(d, d[i].key)) == Keys(d[i].value)
  {
    GetEntry(d, i);
    ValuesOfOptions(Keys(d[i].value));
  }

  /** For the j-th chapter of the i-th subject, the topic options are exactly the
      stored topic list, in order. */
  lemma TopicOptionsOfChapter(d: FilterData, i: nat, j: nat)
    requires WellFormed(d)
    requires i < |d| && d[i].key != ""
    requires j < |d[i].value| && d[i].value[j].key != ""
    ensures TopicOptions(d, d[i].key, d[i].value[j].key) == Ok(AsOptions(d[i].value[j].value))
  {
    GetEntry(d, i);
    GetEntry(d[i].value, j);
  }

  /** A chapter that is not a key under a known subject offers no topics. */
  lemma TopicOptionsOfMissingChapter(d: FilterData, i: nat, chapter: string)
    requires i < |d| && d[i].key != "" && chapter != ""
    requires Distinct(Keys(d))
    requires chapter !in Keys(d[i].value)
    ensures TopicOptions(d, d[i].key, chapter) == Ok([])
  {
    GetEntry(d, i);
  }

  /** The options a combobox offers for `key` in state `sel` (none while it would throw). */
  function Offered(d: FilterData, sel: Selection, key: Key): seq<ComboOption> {
    match key
    case SubjectKey => SubjectOptions(d)
    case ChapterKey => ChapterOptions(d, sel.subject)
    case TopicKey =>
      match TopicOptions(d, sel.subject, sel.chapter)
      case Ok(options) => options
      case TypeError => []
  }

  /** Every set level holds one of the values offered for it. */
  predicate InHierarchy(d: FilterData, sel: Selection) {
    && (sel.subject == "" || sel.subject in Values(Offered(d, sel, SubjectKey)))
    && (sel.chapter == "" || sel.chapter in Values(Offered(d, sel, ChapterKey)))
    && (sel.topic == "" || sel.topic in Values(Offered(d, sel, TopicKey)))
  }

  /** A selection made of offered values keeps the cascade invariant and never makes
      the topic list throw. */
  lemma InHierarchyIsSafe(d: FilterData, sel: Selection)
    requires InHierarchy(d, sel)
    ensures Consistent(sel)
    ensures TopicOptions(d, sel.subject, sel.chapter).Ok?
  {
  }

  /** Choosing an offered value (or clearing) at any level keeps the selection in the hierarchy. */
  lemma UpdatePreservesInHierarchy(d: FilterData, sel: Selection, key: Key, value: string)
    requires InHierarchy(d, sel)
    requires value == "" || value in Values(Offered(d, sel, key))
    ensures InHierarchy(d, Updated(sel, key, value))
  {
    var r := Updated(sel, key, value);
    if key == ChapterKey && value != "" {
      assert sel.subject != "";
      assert r.subject == sel.subject;
    }
  }

  /** The state holder: the three selection fields the component reads and updates,
      over the hierarchy it is given. */
  class HierarchicalFilter {
    const filterData: FilterData
    var subject: string
    var chapter: string
    var topic: string

    /** The initial state: nothing selected. */
    constructor (filterData: FilterData)
      ensures this.filterData == filterData
      ensures subject == "" && chapter == "" && topic == ""
    {
      this.filterData := filterData;
      subject, chapter, topic := "", "", "";
    }

    function Current(): Selection
      reads this
    {
      Selection(subject, chapter, topic)
    }

    /** `updateFilter(key, value)`: set one level, then clear the levels below it. */
    method UpdateFilter(key: Key, value: string)
      modifies this
      ensures Current() == Updated(old(Current()), key, value)
      ensures Consistent(old(Current())) && Enabled(old(Current()), key) ==> Consistent(Current())
      ensures InHierarchy(filterData, old(Current())) &&
              (value == "" || value in Values(Offered(filterData, old(Current()), key)))
              ==> InHierarchy(filterData, Current())
    {
      match key {
        case SubjectKey => subject := value;
        case ChapterKey => chapter := value;
        case TopicKey => topic := value;
      }
      if key == SubjectKey {
        chapter := "";
        topic := "";
      } else if key == ChapterKey {
        topic := "";
      }
      if Consistent(old(Current())) && Enabled(old(Current()), key) {
        UpdatePreservesConsistency(old(Current()), key, value);
      }
      if InHierarchy(filterData, old(Current())) &&
         (value == "" || value in Values(Offered(filterData, old(Current()), key))) {
        UpdatePreservesInHierarchy(filterData, old(Current()), key, value);
      }
    }

    /** `clearFilter(key)`: unset one level, then clear the levels below it. */
    method ClearFilter(key: Key)
      modifies this
      ensures Current() == Cleared(old(Current()), key)
      ensures Consistent(old(Current())) ==> Consistent(Current())
      ensures InHierarchy(filterData, old(Current())) ==> InHierarchy(filterData, Current())
    {
      match key {
        case SubjectKey => subject := "";
        case ChapterKey => chapter := "";
        case TopicKey => topic := "";
      }
      if key == SubjectKey {
        chapter := "";
        topic := "";
      } else if key == ChapterKey {
        topic := "";
      }
      if InHierarchy(filterData, old(Current())) {
        UpdatePreservesInHierarchy(filterData, old(Current()), key, "");
      }
    }
  }
}
