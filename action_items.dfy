/**
  The action-item list of a meeting summary: which items the viewer has ticked
  off (a set of item indices kept in component state), the colour class of
  each priority, and what the card shows.
*/
module ActionItems {

  import opened Js

  datatype ActionItem = ActionItem(task: string, assignee: string, deadline: Option<string>, priority: string)

  /** The ticked set with `index` flipped: added when absent, removed when present. */
  function Toggled(completed: set<int>, index: int): (r: set<int>)
    ensures index in r <==> index !in completed
    ensures forall j :: j != index ==> (j in r <==> j in completed)
  {
    if index in completed then completed - {index} else completed + {index}
  }

  /** Ticking the same item twice restores the set. */
  lemma ToggleTwice(completed: set<int>, index: int)
    ensures Toggled(Toggled(completed, index), index) == completed
  {
  }

  /** Ticks on different items do not interfere: their order does not matter. */
  lemma ToggleCommutes(completed: set<int>, i: int, j: int)
    ensures Toggled(Toggled(completed, i), j) == Toggled(Toggled(completed, j), i)
  {
  }

  /** The component state `completedItems`; `toggleComplete` replaces it with a modified copy. */
  class CompletedItems {
    var completed: set<int>

    constructor ()
      ensures completed == {}
    {
      completed := {};
    }

    method ToggleComplete(index: int)
      modifies this
      ensures completed == Toggled(old(completed), index)
    {
      var newCompleted := completed;
      if index in newCompleted {
        newCompleted := newCompleted - {index};
      } else {
        newCompleted := newCompleted + {index};
      }
      completed := newCompleted;
    }
  }

  const HighColor: string := "bg-red-100 text-red-800 border-red-200 dark:bg-red-900/20 dark:text-red-300 dark:border-red-800"
  const MediumColor: string := "bg-yellow-100 text-yellow-800 border-yellow-200 dark:bg-yellow-900/20 dark:text-yellow-300 dark:border-yellow-800"
  const LowColor: string := "bg-green-100 text-green-800 border-green-200 dark:bg-green-900/20 dark:text-green-300 dark:border-green-800"
  const DefaultColor: string := "bg-gray-100 text-gray-800 border-gray-200 dark:bg-gray-900/20 dark:text-gray-300 dark:border-gray-800"

  /** `getPriorityColor`: exact, case-sensitive matches of the three priorities, gray for anything else. */
  function PriorityColor(priority: string): (r: string)
    ensures r == DefaultColor <==> priority !in {"high", "medium", "low"}
    ensures r in {HighColor, MediumColor, LowColor, DefaultColor}
  {
    if priority == "high" then HighColor
    else if priority == "medium" then MediumColor
    else if priority == "low" then LowColor
    else DefaultColor
  }

  /** Different known priorities get different colours, and the match is case-sensitive. */
  lemma PriorityColorsDistinct()
    ensures PriorityColor("high") != PriorityColor("medium")
    ensures PriorityColor("medium") != PriorityColor("low")
    ensures PriorityColor("high") != PriorityColor("low")
    ensures PriorityColor("High") == DefaultColor
  {
    assert |HighColor| < |LowColor| < |MediumColor|;
  }

  function Upper(s: string): (r: string)
    ensures |r| == |s|
    ensures forall i :: 0 <= i < |s| ==> r[i] == UpperChar(s[i])
  {
    seq(|s|, i requires 0 <= i < |s| => UpperChar(s[i]))
  }

  /** One rendered item. */
  datatype Row = Row(task: string, badge: string, colorClass: string, assignee: string, deadline: Option<string>, completed: bool)

  datatype View = EmptyState | ItemList(rows: seq<Row>)

  function RowOf(item: ActionItem, completed: bool): Row {
    Row(item.task, Upper(item.priority), PriorityColor(item.priority), item.assignee,
        if Truthy(item.deadline) then item.deadline else None, completed)
  }

  /** The card: the empty state without items, else one row per item, ticked exactly when its index is in the set. */
  function Render(actionItems: Option<seq<ActionItem>>, completed: set<int>): (v: View)
    ensures v.EmptyState? <==> actionItems.None? || |actionItems.value| == 0
    ensures v.ItemList? ==> |v.rows| == |actionItems.value|
    ensures v.ItemList? ==> forall i :: 0 <= i < |v.rows| ==>
      (v.rows[i].completed <==> i in completed)
      && v.rows[i].task == actionItems.value[i].task
      && (v.rows[i].deadline.Some? <==> Truthy(actionItems.value[i].deadline))
  {
    if actionItems.None? || |actionItems.value| == 0 then EmptyState
    else
      var items := actionItems.value;
      ItemList(seq(|items|, i requires 0 <= i < |items| => RowOf(items[i], i in completed)))
  }

  /** Ticking one item changes that item's row only. */
  lemma ToggleChangesOneRow(items: seq<ActionItem>, completed: set<int>, index: int, i: nat)
    requires |items| > 0 && i < |items|
    ensures Render(Some(items), Toggled(completed, index)).rows[i].completed
      == (if i == index then i !in completed else i in completed)
  {
  }
}
