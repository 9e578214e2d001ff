/**
 * The assignment list page (components/AssignmentList.tsx): the stored assignments
 * newest first, narrowed by a search string, and the subject chips of each card.
 */
module AssignmentList {
  import opened Types
  import opened Lists

  /** At most this many subject chips are drawn on a card. */
  const MaxChips: nat := 3

  /** `getAssignments().reverse()`: the stored list, last saved first. */
  function DisplayedAssignments(stored: seq<Assignment>): (r: seq<Assignment>)
    ensures |r| == |stored|
    ensures forall k :: 0 <= k < |stored| ==> r[k] == stored[|stored| - 1 - k]
    ensures multiset(r) == multiset(stored)
  {
    ReverseSameElements(stored);
    Reverse(stored)
  }

  /**
   * The search predicate: the filter text occurs at some position of the title, of
   * the scenario or of some subject; the empty filter matches every assignment.
   */
  predicate MatchesFilter(a: Assignment, filter: string)
    ensures filter == "" ==> MatchesFilter(a, filter)
    ensures MatchesFilter(a, filter) <==>
              || (exists i :: 0 <= i <= |a.content.title| && filter <= a.content.title[i..])
              || (exists i :: 0 <= i <= |a.content.scenario| && filter <= a.content.scenario[i..])
              || (exists k, i :: 0 <= k < |a.subjects| && 0 <= i <= |a.subjects[k]| && filter <= a.subjects[k][i..])
  {
    IncludesIffOccurs(a.content.title, filter);
    IncludesIffOccurs(a.content.scenario, filter);
    assert forall k :: 0 <= k < |a.subjects| ==>
             (Includes(a.subjects[k], filter) <==> exists i :: 0 <= i <= |a.subjects[k]| && filter <= a.subjects[k][i..]) by {
      forall k | 0 <= k < |a.subjects| {
        IncludesIffOccurs(a.subjects[k], filter);
      }
    }
    || Includes(a.content.title, filter)
    || Includes(a.content.scenario, filter)
    || exists s :: s in a.subjects && Includes(s, filter)
  }

  /** `filteredAssignments`: the displayed assignments that match, in displayed order. */
  function FilteredAssignments(displayed: seq<Assignment>, filter: string): (r: seq<Assignment>)
    ensures IsSubsequence(r, displayed)
    ensures forall a :: a in r ==> a in displayed && MatchesFilter(a, filter)
    ensures forall a :: a in displayed && MatchesFilter(a, filter) ==> a in r
  {
    Filter(displayed, (a: Assignment) => MatchesFilter(a, filter))
  }

  /** An empty search box hides nothing and keeps the order. */
  lemma EmptyFilterKeepsAll(displayed: seq<Assignment>)
    ensures FilteredAssignments(displayed, "") == displayed
  {
    FilterKeepsAll(displayed, (a: Assignment) => MatchesFilter(a, ""));
  }

  /** The subject chips of one card, and the count shown after "+" when some are hidden. */
  datatype Chips = Chips(shown: seq<string>, hidden: Option<nat>)

  /** `subjects.slice(0, 3)` and, when there are more than three, `+{subjects.length - 3}`. */
  function SubjectChips(subjects: seq<string>): (c: Chips)
    ensures |c.shown| <= MaxChips
    ensures c.shown <= subjects
    ensures |subjects| <= MaxChips ==> c.shown == subjects && c.hidden == None
    ensures |subjects| > MaxChips ==> |c.shown| == MaxChips && c.hidden == Some(|subjects| - MaxChips)
  {
    if |subjects| > MaxChips then Chips(subjects[..MaxChips], Some(|subjects| - MaxChips))
    else Chips(subjects, None)
  }

  /** Shown chips and the hidden count together account for every subject. */
  lemma ChipsAccountForAllSubjects(subjects: seq<string>)
    ensures var c := SubjectChips(subjects);
      |c.shown| + (if c.hidden.Some? then c.hidden.value else 0) == |subjects|
  {
  }
}
