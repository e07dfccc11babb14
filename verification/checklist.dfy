/**
  The to-do and chore handlers of the dashboard (src/App.jsx:158-161).

  Both lists hold records `{id, text, completed}`; chores also carry
  `assignedTo`, which to-dos lack (`None` here). The handlers build new
  arrays with spread, `map` and `filter`; here they are functions from the
  old list to the new one. `Date.now()`, which supplies a new item's id, is
  a parameter.
*/
module Checklist {
  import opened Wrappers

  datatype Item = Item(id: int, text: string, assignedTo: Option<string>, completed: bool)

  /** The code points `String.prototype.trim` removes: ECMAScript's
      WhiteSpace (tab, vertical tab, form feed, space, no-break space, byte
      order mark and the other space separators) and LineTerminator. */
  predicate IsJsWhitespace(c: char) {
    var u := c as int;
    || u == 0x09 || u == 0x0A || u == 0x0B || u == 0x0C || u == 0x0D || u == 0x20
    || u == 0xA0 || u == 0x1680 || (0x2000 <= u <= 0x200A) || u == 0x2028 || u == 0x2029
    || u == 0x202F || u == 0x205F || u == 0x3000 || u == 0xFEFF
  }

  /** Every character of `s` is whitespace (the empty string included). */
  predicate IsBlank(s: string) {
    forall i :: 0 <= i < |s| ==> IsJsWhitespace(s[i])
  }

  /** `s` without its leading whitespace. */
  function TrimStart(s: string): (r: string)
    ensures |r| <= |s| && r == s[|s| - |r|..]
    ensures forall i :: 0 <= i < |s| - |r| ==> IsJsWhitespace(s[i])
    ensures r == [] || !IsJsWhitespace(r[0])
  {
    if s != [] && IsJsWhitespace(s[0]) then TrimStart(s[1..]) else s
  }

  /** `s` without its trailing whitespace. */
  function TrimEnd(s: string): (r: string)
    ensures |r| <= |s| && r == s[..|r|]
    ensures forall i :: |r| <= i < |s| ==> IsJsWhitespace(s[i])
    ensures r == [] || !IsJsWhitespace(r[|r| - 1])
  {
    if s != [] && IsJsWhitespace(s[|s| - 1]) then TrimEnd(s[..|s| - 1]) else s
  }

  /** `r` is `s[k..]` cut to length, and everything of `s` outside it is whitespace. */
  predicate StripsTo(s: string, k: int, r: string) {
    && 0 <= k <= |s| - |r|
    && r == s[k..k + |r|]
    && (forall i :: 0 <= i < k ==> IsJsWhitespace(s[i]))
    && (forall i :: k + |r| <= i < |s| ==> IsJsWhitespace(s[i]))
  }

  /** `s.trim()`: the part of `s` between its leading and its trailing
      whitespace. */
  function Trim(s: string): (r: string)
    ensures |r| <= |s|
    ensures r != [] ==> !IsJsWhitespace(r[0]) && !IsJsWhitespace(r[|r| - 1])
    ensures exists k :: StripsTo(s, k, r)
  {
    var t := TrimStart(s);
    assert StripsTo(s, |s| - |t|, TrimEnd(t));
    TrimEnd(t)
  }

  /** `!s.trim()` holds exactly for the blank strings. */
  lemma TrimEmptyIffBlank(s: string)
    ensures Trim(s) == [] <==> IsBlank(s)
  {
  }

  /** The form handler shared by `addTodo` and `addChore`: a blank draft
      changes nothing; otherwise a new, not completed item is appended and
      the draft is cleared. */
  function AddEntry(list: seq<Item>, draft: string, id: int, assignedTo: Option<string>): (r: (seq<Item>, string))
    ensures IsBlank(draft) ==> r == (list, draft)
    ensures !IsBlank(draft) ==>
      && r.1 == []
      && |r.0| == |list| + 1
      && r.0[..|list|] == list
      && r.0[|list|].id == id && r.0[|list|].text == draft
      && r.0[|list|].assignedTo == assignedTo && !r.0[|list|].completed
  {
    TrimEmptyIffBlank(draft);
    if Trim(draft) == [] then (list, draft)
    else (list + [Item(id, draft, assignedTo, false)], [])
  }

  /** `addTodo`: returns the new to-do list and the new draft text. */
  function AddTodo(todos: seq<Item>, newTodo: string, id: int): (r: (seq<Item>, string))
    ensures IsBlank(newTodo) ==> r == (todos, newTodo)
    ensures !IsBlank(newTodo) ==>
      && r.1 == []
      && |r.0| == |todos| + 1 && r.0[..|todos|] == todos
      && r.0[|todos|] == Item(id, newTodo, None, false)
  {
    AddEntry(todos, newTodo, id, None)
  }

  /** `addChore`: like `addTodo`, and the new chore is assigned to "Anyone". */
  function AddChore(chores: seq<Item>, newChore: string, id: int): (r: (seq<Item>, string))
    ensures IsBlank(newChore) ==> r == (chores, newChore)
    ensures !IsBlank(newChore) ==>
      && r.1 == []
      && |r.0| == |chores| + 1 && r.0[..|chores|] == chores
      && r.0[|chores|] == Item(id, newChore, Some("Anyone"), false)
  {
    AddEntry(chores, newChore, id, Some("Anyone"))
  }

  /** Some element of `list` carries `id`. */
  predicate HasId(list: seq<Item>, id: int) {
    exists i :: 0 <= i < |list| && list[i].id == id
  }

  /** `toggleItem`: `list.map(item => item.id === id ? {...item, completed: !item.completed} : item)` */
  function ToggleItem(list: seq<Item>, id: int): (r: seq<Item>)
    ensures |r| == |list|
    ensures forall i :: 0 <= i < |list| ==>
      && r[i].id == list[i].id && r[i].text == list[i].text && r[i].assignedTo == list[i].assignedTo
      && (r[i].completed <==> (list[i].completed != (list[i].id == id)))
  {
    if list == [] then []
    else
      var item := list[0];
      [if item.id == id then item.(completed := !item.completed) else item] + ToggleItem(list[1..], id)
  }

  /** `deleteItem`: `list.filter(item => item.id !== id)` */
  function DeleteItem(list: seq<Item>, id: int): (r: seq<Item>)
    ensures |r| <= |list|
    ensures |r| < |list| <==> HasId(list, id)
    ensures forall x :: x in r <==> x in list && x.id != id
  {
    if list == [] then []
    else if list[0].id == id then DeleteItem(list[1..], id)
    else
      assert !HasId(list, id) ==> !HasId(list[1..], id) by {
        if HasId(list[1..], id) {
          var i :| 0 <= i < |list[1..]| && list[1..][i].id == id;
          assert list[i + 1].id == id;
        }
      }
      [list[0]] + DeleteItem(list[1..], id)
  }

  /** Toggling the same id twice gives the list back. */
  lemma ToggleTwice(list: seq<Item>, id: int)
    ensures ToggleItem(ToggleItem(list, id), id) == list
  {
  }

  /** Deletion keeps relative order: it distributes over concatenation. */
  lemma {:induction false} DeleteConcat(a: seq<Item>, b: seq<Item>, id: int)
    ensures DeleteItem(a + b, id) == DeleteItem(a, id) + DeleteItem(b, id)
  {
    if a != [] {
      assert (a + b)[0] == a[0] && (a + b)[1..] == a[1..] + b;
      DeleteConcat(a[1..], b, id);
    } else {
      assert a + b == b;
    }
  }

  /** Deleting an absent id leaves the list as it was. */
  lemma {:induction false} DeleteAbsent(list: seq<Item>, id: int)
    requires !HasId(list, id)
    ensures DeleteItem(list, id) == list
  {
    if list != [] {
      assert list[0].id != id;
      DeleteAbsent(list[1..], id);
      assert list == [list[0]] + list[1..];
    }
  }

  /** Deleting twice is deleting once. */
  lemma DeleteIdempotent(list: seq<Item>, id: int)
    ensures DeleteItem(DeleteItem(list, id), id) == DeleteItem(list, id)
  {
    DeleteAbsent(DeleteItem(list, id), id);
  }

  /** Toggling an item and then deleting it is the same as deleting it. */
  lemma {:induction false} DeleteAfterToggle(list: seq<Item>, id: int)
    ensures DeleteItem(ToggleItem(list, id), id) == DeleteItem(list, id)
  {
    if list != [] {
      DeleteAfterToggle(list[1..], id);
    }
  }

  /** Adding a to-do under a fresh id and deleting that id gives the list back. */
  lemma DeleteUndoesAddTodo(todos: seq<Item>, newTodo: string, id: int)
    requires !HasId(todos, id)
    ensures DeleteItem(AddTodo(todos, newTodo, id).0, id) == todos
  {
    if !IsBlank(newTodo) {
      var added := AddTodo(todos, newTodo, id).0;
      assert added == todos + [Item(id, newTodo, None, false)];
      DeleteConcat(todos, [Item(id, newTodo, None, false)], id);
      DeleteAbsent(todos, id);
    } else {
      DeleteAbsent(todos, id);
    }
  }

  /** Adding a chore under a fresh id and deleting that id gives the list back. */
  lemma DeleteUndoesAddChore(chores: seq<Item>, newChore: string, id: int)
    requires !HasId(chores, id)
    ensures DeleteItem(AddChore(chores, newChore, id).0, id) == chores
  {
    if !IsBlank(newChore) {
      var added := AddChore(chores, newChore, id).0;
      assert added == chores + [Item(id, newChore, Some("Anyone"), false)];
      DeleteConcat(chores, [Item(id, newChore, Some("Anyone"), false)], id);
      DeleteAbsent(chores, id);
    } else {
      DeleteAbsent(chores, id);
    }
  }
}
