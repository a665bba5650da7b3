/**
 * The to-do tools that keep their records in the JSON file todo.json:
 * add, delete and update by id, and listing. The file is a value of type
 * `Option<seq<Todo>>`: None when the file does not exist. Each tool reads the
 * list, changes it, and writes it back; the pure functions `AddSpec`,
 * `DeleteSpec` and `UpdateSpec` say what one call does, and the methods of
 * `TodoStore` are proved to do exactly that.
 */
module JsonTodos {
  import opened Wrappers
  import opened Decimal
  import opened Sequences

  /** One record of the file. `dueDate` holds the time stamp the tool writes. */
  datatype Todo = Todo(id: int, task: string, completed: bool, priority: string, dueDate: string)

  /** The optional-field update: a None field leaves the record's value alone. */
  datatype TodoUpdate = TodoUpdate(task: Option<string>, completed: Option<bool>, priority: Option<string>)

  /** What one tool call leaves in the file, and what it returns. */
  datatype Step<R> = Step(file: Option<seq<Todo>>, out: R)

  const ListNoFile := "The file todo.json was not found."
  const DeleteNoFile := "No todos found. The file does not exist."
  const UpdateNoFile := "No file found . File does not exists"

  function DeleteNotFound(id: string): string { "Todo with id " + id + " not found." }
  function DeleteDone(id: string): string { "Todo with id " + id + " deleted successfully." }
  function UpdateNotFound(id: string): string { "no todo found with " + id }
  function UpdateDone(id: string): string { "todo with " + id + " updated successfully" }

  /** The tools compare ids as strings: the record's integer id, rendered, against the argument. */
  predicate Matches(t: Todo, id: string) {
    IntToString(t.id) == id
  }

  /** The index of the first record at or after `k` that matches `id`, if any. */
  function FirstMatchFrom(todos: seq<Todo>, id: string, k: nat): (r: Option<nat>)
    requires k <= |todos|
    ensures r.None? <==> forall j :: k <= j < |todos| ==> !Matches(todos[j], id)
    ensures r.Some? ==> k <= r.value < |todos| && Matches(todos[r.value], id)
    ensures r.Some? ==> forall j :: k <= j < r.value ==> !Matches(todos[j], id)
    decreases |todos| - k
  {
    if k == |todos| then None
    else if Matches(todos[k], id) then Some(k)
    else FirstMatchFrom(todos, id, k + 1)
  }

  /** The index of the first record that matches `id`, if any. */
  function FirstMatch(todos: seq<Todo>, id: string): (r: Option<nat>)
    ensures r.None? <==> forall j :: 0 <= j < |todos| ==> !Matches(todos[j], id)
    ensures r.Some? ==> r.value < |todos| && Matches(todos[r.value], id)
    ensures r.Some? ==> forall j :: 0 <= j < r.value ==> !Matches(todos[j], id)
  {
    FirstMatchFrom(todos, id, 0)
  }

  /** The first match is pinned down by a matching record with no match before it. */
  lemma FirstMatchAt(todos: seq<Todo>, id: string, i: nat)
    requires i < |todos| && Matches(todos[i], id)
    requires forall j :: 0 <= j < i ==> !Matches(todos[j], id)
    ensures FirstMatch(todos, id) == Some(i)
  {
    var r := FirstMatch(todos, id);
    assert r.Some?;
    assert !(r.value < i);
    assert !(r.value > i);
  }

  /** The record an update produces: the given fields overwritten, the time stamp refreshed. */
  function Patch(t: Todo, data: TodoUpdate, now: string): Todo {
    Todo(t.id,
         if data.task.Some? then data.task.value else t.task,
         if data.completed.Some? then data.completed.value else t.completed,
         if data.priority.Some? then data.priority.value else t.priority,
         now)
  }

  /** add_todo: a missing file counts as an empty list; the new id is the old length plus one. */
  function AddSpec(file: Option<seq<Todo>>, task: string, completed: bool, priority: string, now: string): Step<Todo> {
    var todos := file.GetOr([]);
    var t := Todo(|todos| + 1, task, completed, priority, now);
    Step(Some(todos + [t]), t)
  }

  /** delete_todo: removes the first matching record; writes only on a hit. */
  function DeleteSpec(file: Option<seq<Todo>>, id: string): Step<string> {
    match file
    case None => Step(None, DeleteNoFile)
    case Some(todos) =>
      match FirstMatch(todos, id)
      case None => Step(file, DeleteNotFound(id))
      case Some(i) => Step(Some(todos[..i] + todos[i + 1..]), DeleteDone(id))
  }

  /** update_todo: patches the first matching record; writes only on a hit. */
  function UpdateSpec(file: Option<seq<Todo>>, id: string, data: TodoUpdate, now: string): Step<string> {
    match file
    case None => Step(None, UpdateNoFile)
    case Some(todos) =>
      match FirstMatch(todos, id)
      case None => Step(file, UpdateNotFound(id))
      case Some(i) => Step(Some(todos[i := Patch(todos[i], data, now)]), UpdateDone(id))
  }

  /** The store behind the tools: the current content of todo.json. */
  class TodoStore {
    var file: Option<seq<Todo>>

    constructor (initial: Option<seq<Todo>>)
      ensures file == initial
    {
      file := initial;
    }

    /** list_todos: the stored list, or the error raised for a missing file. */
    method ListTodos() returns (r: Result<seq<Todo>, string>)
      ensures file.None? <==> r.Err?
      ensures r.Err? ==> r.error == ListNoFile
      ensures r.Ok? ==> Some(r.value) == file
    {
      if file.None? {
        return Err(ListNoFile);
      }
      return Ok(file.value);
    }

    method AddTodo(task: string, completed: bool, priority: string, now: string) returns (r: Todo)
      modifies this
      ensures Step(file, r) == AddSpec(old(file), task, completed, priority, now)
    {
      var todos: seq<Todo>;
      if file.None? {
        todos := [];
      } else {
        todos := file.value;
      }
      var newTodo := Todo(|todos| + 1, task, completed, priority, now);
      todos := todos + [newTodo];
      file := Some(todos);
      r := newTodo;
    }

    method DeleteTodo(id: string) returns (msg: string)
      modifies this
      ensures Step(file, msg) == DeleteSpec(old(file), id)
    {
      if file.None? {
        return DeleteNoFile;
      }
      var todos := file.value;
      var todoFound := false;
      var i := 0;
      while i < |todos|
        invariant 0 <= i <= |todos|
        invariant todos == old(file).value
        invariant forall j :: 0 <= j < i ==> !Matches(todos[j], id)
      {
        if IntToString(todos[i].id) == id {
          FirstMatchAt(todos, id, i);
          RemoveFirstMatch(todos, id, i);
          var rest := RemoveValue(todos, todos[i]);
          assert rest == old(file).value[..i] + old(file).value[i + 1..];
          todos := rest;
          todoFound := true;
          break;
        }
        i := i + 1;
      }
      if !todoFound {
        return DeleteNotFound(id);
      }
      file := Some(todos);
      msg := DeleteDone(id);
    }

    method UpdateTodo(id: string, data: TodoUpdate, now: string) returns (msg: string)
      modifies this
      ensures Step(file, msg) == UpdateSpec(old(file), id, data, now)
    {
      if file.None? {
        return UpdateNoFile;
      }
      var todos := file.value;
      var todoFound := false;
      var i := 0;
      while i < |todos|
        invariant 0 <= i <= |todos|
        invariant todos == old(file).value
        invariant forall j :: 0 <= j < i ==> !Matches(todos[j], id)
      {
        if IntToString(todos[i].id) == id {
          FirstMatchAt(todos, id, i);
          var todo := todos[i];
          if data.task.Some? {
            todo := todo.(task := data.task.value);
          }
          if data.completed.Some? {
            todo := todo.(completed := data.completed.value);
          }
          if data.priority.Some? {
            todo := todo.(priority := data.priority.value);
          }
          todo := todo.(dueDate := now);
          todos := todos[i := todo];
          todoFound := true;
          break;
        }
        i := i + 1;
      }
      if !todoFound {
        return UpdateNotFound(id);
      }
      file := Some(todos);
      msg := UpdateDone(id);
    }
  }

  /**
   * Removing by value the record found by id removes exactly the record at
   * that index: every earlier record has another id rendering, so it is a
   * different value.
   */
  lemma RemoveFirstMatch(todos: seq<Todo>, id: string, i: nat)
    requires i < |todos| && Matches(todos[i], id)
    requires forall j :: 0 <= j < i ==> !Matches(todos[j], id)
    ensures RemoveValue(todos, todos[i]) == todos[..i] + todos[i + 1..]
  {
    forall j | 0 <= j < i
      ensures todos[j] != todos[i]
    {
      assert !Matches(todos[j], id);
    }
    RemoveValueAt(todos, i);
  }

  /** A record matches the rendering of an integer exactly when its id is that integer. */
  lemma MatchesIff(t: Todo, k: int)
    ensures Matches(t, IntToString(k)) <==> t.id == k
  {
    IntToStringInjective(t.id, k);
  }

  /** Adding to a missing file or to one holding an empty list stores exactly one record, with id 1. */
  lemma AddToEmpty(file: Option<seq<Todo>>, task: string, completed: bool, priority: string, now: string)
    requires file == None || file == Some([])
    ensures AddSpec(file, task, completed, priority, now) ==
            Step(Some([Todo(1, task, completed, priority, now)]), Todo(1, task, completed, priority, now))
  {
    var t := Todo(1, task, completed, priority, now);
    assert file.GetOr([]) + [t] == [t];
  }

  /** Adding appends one record with id old length + 1 and keeps every existing record in place. */
  lemma AddAppends(file: Option<seq<Todo>>, task: string, completed: bool, priority: string, now: string)
    ensures var before := file.GetOr([]);
            var st := AddSpec(file, task, completed, priority, now);
            && st.file.Some?
            && |st.file.value| == |before| + 1
            && st.file.value[..|before|] == before
            && st.file.value[|before|] == st.out
            && st.out == Todo(|before| + 1, task, completed, priority, now)
  {
    var before := file.GetOr([]);
    var st := AddSpec(file, task, completed, priority, now);
    assert st.file.value[..|before|] == before;
  }

  /**
   * On a hit, delete removes exactly one record, the first whose id renders
   * to the argument, and the others keep their relative order.
   */
  lemma DeleteRemovesFirstMatch(todos: seq<Todo>, id: string, i: nat)
    requires i < |todos| && Matches(todos[i], id)
    requires forall j :: 0 <= j < i ==> !Matches(todos[j], id)
    ensures var st := DeleteSpec(Some(todos), id);
            && st.out == DeleteDone(id)
            && st.file.Some?
            && |st.file.value| == |todos| - 1
            && (forall j :: 0 <= j < i ==> st.file.value[j] == todos[j])
            && (forall j :: i <= j < |todos| - 1 ==> st.file.value[j] == todos[j + 1])
            && multiset(st.file.value) + multiset{todos[i]} == multiset(todos)
  {
    FirstMatchAt(todos, id, i);
    DropIndex(todos, i);
  }

  /** Without a matching record, delete reports "not found" and leaves the file as it was. */
  lemma DeleteMissLeavesFile(todos: seq<Todo>, id: string)
    requires forall j :: 0 <= j < |todos| ==> !Matches(todos[j], id)
    ensures DeleteSpec(Some(todos), id) == Step(Some(todos), DeleteNotFound(id))
  {
  }

  /** On a missing file, delete and update report it and the file stays missing. */
  lemma AbsentFileStaysAbsent(id: string, data: TodoUpdate, now: string)
    ensures DeleteSpec(None, id) == Step(None, DeleteNoFile)
    ensures UpdateSpec(None, id, data, now) == Step(None, UpdateNoFile)
  {
  }

  /**
   * A patch overwrites task, completed and priority only where the update
   * gives a value, always refreshes the time stamp, and never touches the id.
   */
  lemma PatchFields(t: Todo, data: TodoUpdate, now: string)
    ensures var p := Patch(t, data, now);
            && p.id == t.id
            && p.dueDate == now
            && (data.task.None? ==> p.task == t.task)
            && (data.task.Some? ==> p.task == data.task.value)
            && (data.completed.None? ==> p.completed == t.completed)
            && (data.completed.Some? ==> p.completed == data.completed.value)
            && (data.priority.None? ==> p.priority == t.priority)
            && (data.priority.Some? ==> p.priority == data.priority.value)
  {
  }

  /** Applying the same update twice at the same time is the same as applying it once. */
  lemma PatchIdempotent(t: Todo, data: TodoUpdate, now: string)
    ensures Patch(Patch(t, data, now), data, now) == Patch(t, data, now)
  {
  }

  /**
   * On a hit, update changes only the first matching record: the length, the
   * order, every id and every other record stay as they were.
   */
  lemma UpdateChangesFirstMatchOnly(todos: seq<Todo>, id: string, data: TodoUpdate, now: string, i: nat)
    requires i < |todos| && Matches(todos[i], id)
    requires forall j :: 0 <= j < i ==> !Matches(todos[j], id)
    ensures var st := UpdateSpec(Some(todos), id, data, now);
            && st.out == UpdateDone(id)
            && st.file.Some?
            && |st.file.value| == |todos|
            && st.file.value[i] == Patch(todos[i], data, now)
            && (forall j :: 0 <= j < |todos| && j != i ==> st.file.value[j] == todos[j])
            && (forall j :: 0 <= j < |todos| ==> st.file.value[j].id == todos[j].id)
  {
    FirstMatchAt(todos, id, i);
  }

  /** Without a matching record, update reports "no todo found" and does not write. */
  lemma UpdateMissLeavesFile(todos: seq<Todo>, id: string, data: TodoUpdate, now: string)
    requires forall j :: 0 <= j < |todos| ==> !Matches(todos[j], id)
    ensures UpdateSpec(Some(todos), id, data, now) == Step(Some(todos), UpdateNotFound(id))
  {
  }

  /**
   * An id argument with a leading zero, such as "01", names no record: the
   * string comparison never equates it with a rendered integer.
   */
  lemma LeadingZeroIdMatchesNothing(todos: seq<Todo>, id: string, data: TodoUpdate, now: string)
    requires |id| > 1 && id[0] == '0'
    ensures DeleteSpec(Some(todos), id) == Step(Some(todos), DeleteNotFound(id))
    ensures UpdateSpec(Some(todos), id, data, now) == Step(Some(todos), UpdateNotFound(id))
  {
    forall j | 0 <= j < |todos|
      ensures !Matches(todos[j], id)
    {
      NoLeadingZero(todos[j].id);
    }
  }

  /** Adding "buy milk" to a file holding an empty list, then deleting id "1", leaves the empty list again. */
  lemma AddThenDeleteExample(now: string)
    ensures var added := AddSpec(Some([]), "buy milk", false, "", now);
            && added.out == Todo(1, "buy milk", false, "", now)
            && DeleteSpec(added.file, "1") == Step(Some([]), DeleteDone("1"))
  {
    var t := Todo(1, "buy milk", false, "", now);
    assert AddSpec(Some([]), "buy milk", false, "", now) == Step(Some([t]), t) by {
      assert [] + [t] == [t];
    }
    assert Matches(t, "1") by {
      assert IntToString(1) == "1";
    }
    FirstMatchAt([t], "1", 0);
    assert [t][..0] + [t][1..] == [];
  }

  /**
   * Ids are not unique: after two adds and a delete of id "1", a third add
   * reuses id 2, and a later delete of "2" removes only the older record.
   */
  lemma DuplicateIdsAfterDelete(now: string)
    ensures var s1 := AddSpec(None, "a", false, "", now).file;
            var s2 := AddSpec(s1, "b", false, "", now).file;
            var s3 := DeleteSpec(s2, "1").file;
            var s4 := AddSpec(s3, "c", false, "", now).file;
            && s4 == Some([Todo(2, "b", false, "", now), Todo(2, "c", false, "", now)])
            && DeleteSpec(s4, "2").file == Some([Todo(2, "c", false, "", now)])
  {
    var a, b, c := Todo(1, "a", false, "", now), Todo(2, "b", false, "", now), Todo(2, "c", false, "", now);
    assert IntToString(1) == "1";
    assert IntToString(2) == "2";
    var s1 := AddSpec(None, "a", false, "", now).file;
    assert s1.value == [a];
    var s2 := AddSpec(s1, "b", false, "", now).file;
    assert s2.value == [a, b];
    FirstMatchAt([a, b], "1", 0);
    var s3 := DeleteSpec(s2, "1").file;
    assert s3.value == [b];
    var s4 := AddSpec(s3, "c", false, "", now).file;
    assert s4.value == [b, c];
    FirstMatchAt([b, c], "2", 0);
    assert [b, c][..0] + [b, c][1..] == [c];
  }
}
