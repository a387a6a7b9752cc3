/** The compose/edit form (AddTodoForm.tsx): its two fields, the blank-title
    guard on submit, the item it hands to the App, and the prefill/reset it
    performs whenever the App's edit selection changes. */
module TodoForm {
  import opened TodoModel

  /** The code points `String.prototype.trim` strips: the ECMAScript
      WhiteSpace set (tab, vertical tab, form feed, zero-width no-break space
      and every space separator) and the LineTerminator set. */
  predicate IsTrimmable(c: char) {
    c == '\t' || c == '\U{000B}' || c == '\U{000C}' || c == ' ' || c == '\U{00A0}' ||
    c == '\U{FEFF}' || c == '\U{1680}' || ('\U{2000}' <= c <= '\U{200A}') ||
    c == '\U{202F}' || c == '\U{205F}' || c == '\U{3000}' ||
    c == '\n' || c == '\r' || c == '\U{2028}' || c == '\U{2029}'
  }

  /** `s` with its leading trimmable characters removed. */
  function TrimStart(s: string): (r: string)
    ensures |r| <= |s| && r == s[|s| - |r|..]
    ensures forall i :: 0 <= i < |s| - |r| ==> IsTrimmable(s[i])
    ensures r != [] ==> !IsTrimmable(r[0])
  {
    if s != [] && IsTrimmable(s[0]) then TrimStart(s[1..]) else s
  }

  /** `s` with its trailing trimmable characters removed. */
  function TrimEnd(s: string): (r: string)
    ensures |r| <= |s| && r == s[..|r|]
    ensures forall i :: |r| <= i < |s| ==> IsTrimmable(s[i])
    ensures r != [] ==> !IsTrimmable(r[|r| - 1])
  {
    if s != [] && IsTrimmable(s[|s| - 1]) then TrimEnd(s[..|s| - 1]) else s
  }

  /** `s.trim()`: the middle of `s` left once its leading and trailing
      trimmable characters are cut off; it neither starts nor ends with one. */
  function Trim(s: string): (r: string)
    ensures var k := |s| - |TrimStart(s)|;
      && k + |r| <= |s| && r == s[k..k + |r|]
      && (forall i :: 0 <= i < k ==> IsTrimmable(s[i]))
      && (forall i :: k + |r| <= i < |s| ==> IsTrimmable(s[i]))
    ensures r != [] ==> !IsTrimmable(r[0]) && !IsTrimmable(r[|r| - 1])
  {
    TrimEnd(TrimStart(s))
  }

  /** The submit guard `title.trim() === ''`: it holds exactly when every
      character of the title is trimmable (in particular for the empty title). */
  predicate IsBlank(title: string)
    ensures IsBlank(title) <==> forall i :: 0 <= i < |title| ==> IsTrimmable(title[i])
  {
    Trim(title) == ""
  }

  /** The item handed to the App on submit: the edited item's id, or 0 for a
      new item, with the title as typed (not trimmed) and the checkbox value. */
  function SubmitPayload(editingTodo: Option<Todo>, title: string, isComplete: bool): (t: Todo)
    ensures editingTodo.Some? ==> t.id == editingTodo.value.id
    ensures editingTodo.None? ==> t.id == 0
    ensures t.title == title && t.isComplete == isComplete
  {
    Todo(if editingTodo.Some? then editingTodo.value.id else 0, title, isComplete)
  }

  /** The submit button's caption. */
  function ButtonLabel(editingTodo: Option<Todo>): (caption: string)
    ensures caption == "Update" <==> editingTodo.Some?
    ensures caption == "Add" <==> editingTodo.None?
  {
    if editingTodo.Some? then "Update" else "Add"
  }

  /** Submitting the fields prefilled from an item hands back that very item. */
  lemma PrefilledPayloadIsItem(e: Todo)
    ensures SubmitPayload(Some(e), e.title, e.isComplete) == e
  {
  }

  /** The form's own state: the title input and the completion checkbox. */
  class AddTodoForm {
    var title: string
    var isComplete: bool

    constructor ()
      ensures title == "" && !isComplete
    {
      title := "";
      isComplete := false;
    }

    /** The effect that runs when the App's `editingTodo` changes: prefill
        from the selected item, or reset to empty when the selection clears. */
    method OnEditingTodoChanged(editingTodo: Option<Todo>)
      modifies this
      ensures editingTodo.Some? ==>
        title == editingTodo.value.title && isComplete == editingTodo.value.isComplete
      ensures editingTodo.None? ==> title == "" && !isComplete
    {
      match editingTodo {
        case Some(t) =>
          title := t.title;
          isComplete := t.isComplete;
        case None =>
          title := "";
          isComplete := false;
      }
    }

    /** Typing in the title input. */
    method SetTitle(value: string)
      modifies this
      ensures title == value && isComplete == old(isComplete)
    {
      title := value;
    }

    /** Ticking "Mark as Complete". */
    method SetIsComplete(checked: bool)
      modifies this
      ensures isComplete == checked && title == old(title)
    {
      isComplete := checked;
    }

    /** `handleSubmit`: a blank title submits nothing and leaves the fields as
        they are; otherwise the payload is handed to the App and the fields are
        reset. */
    method HandleSubmit(editingTodo: Option<Todo>) returns (submitted: Option<Todo>)
      modifies this
      ensures IsBlank(old(title)) ==>
        submitted == None && title == old(title) && isComplete == old(isComplete)
      ensures !IsBlank(old(title)) ==>
        && submitted == Some(SubmitPayload(editingTodo, old(title), old(isComplete)))
        && title == "" && !isComplete
    {
      if IsBlank(title) {
        return None;
      }
      submitted := Some(SubmitPayload(editingTodo, title, isComplete));
      title := "";
      isComplete := false;
    }
  }
}
