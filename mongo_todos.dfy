/**
 * The to-do tools over a MongoDB collection of `{_id, title, description}`
 * documents, keyed by title. The collection is an in-memory sequence in
 * collection order; the driver's single-document operations act on the
 * first document whose title matches, and inserts draw ids from a counter
 * that is always above every id in use.
 */
module MongoTodos {
  import opened Wrappers
  import opened Sequences

  type Oid = nat

  /** A stored document. */
  datatype Doc = Doc(oid: Oid, title: string, description: string)

  /** The input record of create_todo. */
  datatype TodoInput = TodoInput(title: string, description: string)

  /** The record the tools hand back: `{id, title, description}`. */
  datatype TodoView = TodoView(id: Oid, title: string, description: string)

  /** The two fields an update may set. */
  datatype Field = Title | Description

  datatype UpdateResult = UpdateResult(success: bool, message: string, updatedDoc: Option<TodoView>)

  datatype DeleteResult = DeleteResult(success: bool, message: string)

  const NoFieldsMessage := "No fields provided to update."
  const UpdatedMessage := "To-Do updated successfully."
  const DeletedMessage := "To-Do deleted successfully."
  /** The text of the TypeError raised by subscripting None. */
  const NoneSubscript := "'NoneType' object is not subscriptable"
  /** The message `except Exception` reports for a caught error. */
  function ErrorMessage(e: string): string { "Error: " + e }

  function NotFoundMessage(title: string): string { "No To-Do found with title '" + title + "'." }
  function FetchMissMessage(title: string): string { "No todo found with title: " + title }

  /** Python truthiness of an optional string: neither None nor empty. */
  predicate Truthy(s: Option<string>) {
    s.Some? && s.value != ""
  }

  /** The `{id, title, description}` projection of a document. */
  function Project(d: Doc): TodoView {
    TodoView(d.oid, d.title, d.description)
  }

  /** The position of the first document with the given title, in collection order. */
  function FindIndex(docs: seq<Doc>, title: string): (r: Option<nat>)
    ensures r.None? <==> forall j :: 0 <= j < |docs| ==> docs[j].title != title
    ensures r.Some? ==> r.value < |docs| && docs[r.value].title == title
    ensures r.Some? ==> forall j :: 0 <= j < r.value ==> docs[j].title != title
  {
    if |docs| == 0 then None
    else if docs[0].title == title then Some(0)
    else match FindIndex(docs[1..], title)
      case None => None
      case Some(k) => Some(k + 1)
  }

  lemma FindIndexAt(docs: seq<Doc>, title: string, i: nat)
    requires i < |docs| && docs[i].title == title
    requires forall j :: 0 <= j < i ==> docs[j].title != title
    ensures FindIndex(docs, title) == Some(i)
  {
    var r := FindIndex(docs, title);
    assert r.Some?;
    assert !(r.value < i);
    assert !(r.value > i);
  }

  /** find_one({"title": title}): the first document with that title. */
  function FindOne(docs: seq<Doc>, title: string): (r: Option<Doc>)
    ensures r.None? <==> forall j :: 0 <= j < |docs| ==> docs[j].title != title
    ensures r.Some? ==> exists i :: 0 <= i < |docs| && docs[i] == r.value && docs[i].title == title &&
                                    forall j :: 0 <= j < i ==> docs[j].title != title
  {
    match FindIndex(docs, title)
    case None => None
    case Some(i) => Some(docs[i])
  }

  /** `$set`: the fields present in `fields` replace the document's, the id is kept. */
  function SetFields(d: Doc, fields: map<Field, string>): Doc {
    Doc(d.oid,
        if Title in fields then fields[Title] else d.title,
        if Description in fields then fields[Description] else d.description)
  }

  /** The update document of update_todo_by_title: only the truthy arguments. */
  function UpdateFields(newTitle: Option<string>, newDescription: Option<string>): (f: map<Field, string>)
    ensures Title in f <==> Truthy(newTitle)
    ensures Description in f <==> Truthy(newDescription)
    ensures Title in f ==> f[Title] == newTitle.value
    ensures Description in f ==> f[Description] == newDescription.value
    ensures f == map[] <==> !Truthy(newTitle) && !Truthy(newDescription)
  {
    var withTitle := if Truthy(newTitle) then map[Title := newTitle.value] else map[];
    if Truthy(newDescription) then withTitle[Description := newDescription.value] else withTitle
  }

  /** fetch_todo_by_title: the projected first document with that title, or the miss message. */
  function FetchTodoByTitle(docs: seq<Doc>, title: string): (r: Result<TodoView, string>)
    ensures r.Err? <==> forall j :: 0 <= j < |docs| ==> docs[j].title != title
    ensures r.Err? ==> r.error == FetchMissMessage(title)
    ensures r.Ok? ==> exists i :: 0 <= i < |docs| && Project(docs[i]) == r.value && docs[i].title == title &&
                                  forall j :: 0 <= j < i ==> docs[j].title != title
  {
    match FindOne(docs, title)
    case None => Err(FetchMissMessage(title))
    case Some(d) => Ok(Project(d))
  }

  /** What update_todo_by_title leaves in the collection and returns. */
  function UpdateByTitleSpec(docs: seq<Doc>, title: string, newTitle: Option<string>,
                             newDescription: Option<string>): (seq<Doc>, UpdateResult)
  {
    var fields := UpdateFields(newTitle, newDescription);
    if fields == map[] then (docs, UpdateResult(false, NoFieldsMessage, None))
    else match FindIndex(docs, title)
      case None => (docs, UpdateResult(false, NotFoundMessage(title), None))
      case Some(i) =>
        var updated := docs[i := SetFields(docs[i], fields)];
        var lookup := if Title in fields then fields[Title] else title;
        match FindOne(updated, lookup)
        case None => (updated, UpdateResult(false, ErrorMessage(NoneSubscript), None))
        case Some(d) => (updated, UpdateResult(true, UpdatedMessage, Some(Project(d))))
  }

  /** What delete_todo_by_title leaves in the collection and returns. */
  function DeleteByTitleSpec(docs: seq<Doc>, title: string): (seq<Doc>, DeleteResult) {
    match FindIndex(docs, title)
    case None => (docs, DeleteResult(false, NotFoundMessage(title)))
    case Some(i) => (docs[..i] + docs[i + 1..], DeleteResult(true, DeletedMessage))
  }

  /** The collection and the driver calls the tools make on it. */
  class Collection {
    var docs: seq<Doc>
    /** The fresh-id supply: the id the next insert gets. */
    var nextOid: Oid

    ghost predicate Valid()
      reads this
    {
      forall j :: 0 <= j < |docs| ==> docs[j].oid < nextOid
    }

    constructor ()
      ensures Valid() && docs == []
    {
      docs := [];
      nextOid := 0;
    }

    /** insert_one: appends the document under an id no stored document has. */
    method InsertOne(title: string, description: string) returns (id: Oid)
      requires Valid()
      modifies this
      ensures Valid() && nextOid == old(nextOid) + 1
      ensures forall j :: 0 <= j < |old(docs)| ==> old(docs)[j].oid != id
      ensures docs == old(docs) + [Doc(id, title, description)]
    {
      id := nextOid;
      docs := docs + [Doc(id, title, description)];
      nextOid := nextOid + 1;
    }

    /** find_one({"title": title}). */
    method FindOneDoc(title: string) returns (d: Option<Doc>)
      ensures d == FindOne(docs, title)
    {
      var i := 0;
      while i < |docs|
        invariant 0 <= i <= |docs|
        invariant forall j :: 0 <= j < i ==> docs[j].title != title
      {
        if docs[i].title == title {
          FindIndexAt(docs, title, i);
          return Some(docs[i]);
        }
        i := i + 1;
      }
      return None;
    }

    /** update_one({"title": title}, {"$set": fields}): returns matched_count. */
    method UpdateOne(title: string, fields: map<Field, string>) returns (matched: nat)
      requires Valid()
      modifies this
      ensures Valid() && nextOid == old(nextOid)
      ensures FindIndex(old(docs), title).None? ==> matched == 0 && docs == old(docs)
      ensures FindIndex(old(docs), title).Some? ==>
                var i := FindIndex(old(docs), title).value;
                matched == 1 && docs == old(docs)[i := SetFields(old(docs)[i], fields)]
    {
      match FindIndex(docs, title)
      case None =>
        matched := 0;
      case Some(i) =>
        docs := docs[i := SetFields(docs[i], fields)];
        matched := 1;
    }

    /** delete_one({"title": title}): returns deleted_count. */
    method DeleteOne(title: string) returns (deleted: nat)
      requires Valid()
      modifies this
      ensures Valid() && nextOid == old(nextOid)
      ensures FindIndex(old(docs), title).None? ==> deleted == 0 && docs == old(docs)
      ensures FindIndex(old(docs), title).Some? ==>
                var i := FindIndex(old(docs), title).value;
                deleted == 1 && docs == old(docs)[..i] + old(docs)[i + 1..]
    {
      match FindIndex(docs, title)
      case None =>
        deleted := 0;
      case Some(i) =>
        docs := docs[..i] + docs[i + 1..];
        deleted := 1;
    }
  }

  /** create_todo: inserts one document and returns it with its new id. */
  method CreateTodo(c: Collection, data: TodoInput) returns (r: TodoView)
    requires c.Valid()
    modifies c
    ensures c.Valid() && c.nextOid == old(c.nextOid) + 1
    ensures forall j :: 0 <= j < |old(c.docs)| ==> old(c.docs)[j].oid != r.id
    ensures c.docs == old(c.docs) + [Doc(r.id, data.title, data.description)]
    ensures r.title == data.title && r.description == data.description
  {
    var id := c.InsertOne(data.title, data.description);
    r := TodoView(id, data.title, data.description);
  }

  /** fetch_todos: every document, projected, in collection order. */
  method FetchTodos(c: Collection) returns (todos: seq<TodoView>)
    ensures |todos| == |c.docs|
    ensures forall j :: 0 <= j < |todos| ==> todos[j] == Project(c.docs[j])
  {
    todos := [];
    var i := 0;
    while i < |c.docs|
      invariant 0 <= i <= |c.docs|
      invariant |todos| == i
      invariant forall j :: 0 <= j < i ==> todos[j] == Project(c.docs[j])
    {
      todos := todos + [TodoView(c.docs[i].oid, c.docs[i].title, c.docs[i].description)];
      i := i + 1;
    }
  }

  /** update_todo_by_title. */
  method UpdateTodoByTitle(c: Collection, title: string, newTitle: Option<string>,
                           newDescription: Option<string>) returns (r: UpdateResult)
    requires c.Valid()
    modifies c
    ensures c.Valid() && c.nextOid == old(c.nextOid)
    ensures (c.docs, r) == UpdateByTitleSpec(old(c.docs), title, newTitle, newDescription)
  {
    var updateFields: map<Field, string> := map[];
    if Truthy(newTitle) {
      updateFields := updateFields[Title := newTitle.value];
    }
    if Truthy(newDescription) {
      updateFields := updateFields[Description := newDescription.value];
    }
    assert updateFields == UpdateFields(newTitle, newDescription);
    if updateFields == map[] {
      return UpdateResult(false, NoFieldsMessage, None);
    }
    var matched := c.UpdateOne(title, updateFields);
    if matched == 0 {
      return UpdateResult(false, NotFoundMessage(title), None);
    }
    var lookup := if Title in updateFields then updateFields[Title] else title;
    var updatedDoc := c.FindOneDoc(lookup);
    if updatedDoc.None? {
      return UpdateResult(false, ErrorMessage(NoneSubscript), None);
    }
    var d := updatedDoc.value;
    r := UpdateResult(true, UpdatedMessage, Some(TodoView(d.oid, d.title, d.description)));
  }

  /** delete_todo_by_title. */
  method DeleteTodoByTitle(c: Collection, title: string) returns (r: DeleteResult)
    requires c.Valid()
    modifies c
    ensures c.Valid() && c.nextOid == old(c.nextOid)
    ensures (c.docs, r) == DeleteByTitleSpec(old(c.docs), title)
  {
    var deleted := c.DeleteOne(title);
    if deleted == 0 {
      return DeleteResult(false, NotFoundMessage(title));
    }
    r := DeleteResult(true, DeletedMessage);
  }

  /** Neither a truthy new title nor a truthy new description: nothing is written. */
  lemma UpdateWithoutFields(docs: seq<Doc>, title: string, newTitle: Option<string>, newDescription: Option<string>)
    requires !Truthy(newTitle) && !Truthy(newDescription)
    ensures UpdateByTitleSpec(docs, title, newTitle, newDescription) ==
            (docs, UpdateResult(false, NoFieldsMessage, None))
  {
  }

  /** No document has the title: the update matches nothing and nothing is written. */
  lemma UpdateMissLeavesCollection(docs: seq<Doc>, title: string, newTitle: Option<string>,
                                   newDescription: Option<string>)
    requires Truthy(newTitle) || Truthy(newDescription)
    requires forall j :: 0 <= j < |docs| ==> docs[j].title != title
    ensures UpdateByTitleSpec(docs, title, newTitle, newDescription) ==
            (docs, UpdateResult(false, NotFoundMessage(title), None))
  {
  }

  /**
   * On a match only the first document with the old title changes: it keeps
   * its id, takes each truthy new field and keeps every other field, and all
   * other documents stay as they were.
   */
  lemma UpdateChangesFirstMatchOnly(docs: seq<Doc>, title: string, newTitle: Option<string>,
                                    newDescription: Option<string>, i: nat)
    requires Truthy(newTitle) || Truthy(newDescription)
    requires i < |docs| && docs[i].title == title
    requires forall j :: 0 <= j < i ==> docs[j].title != title
    ensures var after := UpdateByTitleSpec(docs, title, newTitle, newDescription).0;
            && |after| == |docs|
            && after[i].oid == docs[i].oid
            && after[i].title == (if Truthy(newTitle) then newTitle.value else docs[i].title)
            && after[i].description == (if Truthy(newDescription) then newDescription.value else docs[i].description)
            && forall j :: 0 <= j < |docs| && j != i ==> after[j] == docs[j]
  {
    FindIndexAt(docs, title, i);
  }

  /**
   * An update succeeds exactly when some field is truthy and some document has
   * the title. The document it then returns is the first one, after the
   * write, whose title is the new title if one was given and the old title
   * otherwise; that lookup always finds one, so the error path for a missing
   * document is never taken.
   */
  lemma UpdateResultShape(docs: seq<Doc>, title: string, newTitle: Option<string>, newDescription: Option<string>)
    ensures var (after, r) := UpdateByTitleSpec(docs, title, newTitle, newDescription);
            var lookup := if Truthy(newTitle) then newTitle.value else title;
            && (r.success <==> (Truthy(newTitle) || Truthy(newDescription)) &&
                               exists j :: 0 <= j < |docs| && docs[j].title == title)
            && (r.success ==> r.message == UpdatedMessage && FindOne(after, lookup).Some? &&
                              r.updatedDoc == Some(Project(FindOne(after, lookup).value)))
            && (!r.success ==> r.updatedDoc.None? && after == docs)
            && r.message != ErrorMessage(NoneSubscript)
  {
    var fields := UpdateFields(newTitle, newDescription);
    // the two failure messages differ in their first character
    var prefix := "No To-Do found with title '";
    assert NotFoundMessage(title) == prefix + (title + "'.");
    assert NotFoundMessage(title)[0] == 'N' && ErrorMessage(NoneSubscript)[0] == 'E';
    if fields != map[] && FindIndex(docs, title).Some? {
      var i := FindIndex(docs, title).value;
      var after := docs[i := SetFields(docs[i], fields)];
      var lookup := if Title in fields then fields[Title] else title;
      assert after[i].title == lookup;
      assert FindOne(after, lookup).Some?;
    }
  }

  /**
   * The returned document need not be the one updated: renaming "y" to "x"
   * when an earlier document is already titled "x" returns that earlier one.
   */
  lemma UpdateMayReturnAnotherDoc()
    ensures var docs := [Doc(0, "x", "a"), Doc(1, "y", "b")];
            UpdateByTitleSpec(docs, "y", Some("x"), None) ==
            ([Doc(0, "x", "a"), Doc(1, "x", "b")],
             UpdateResult(true, UpdatedMessage, Some(TodoView(0, "x", "a"))))
  {
    var docs := [Doc(0, "x", "a"), Doc(1, "y", "b")];
    FindIndexAt(docs, "y", 1);
    var after := [Doc(0, "x", "a"), Doc(1, "x", "b")];
    assert docs[1 := SetFields(docs[1], map[Title := "x"])] == after;
    FindIndexAt(after, "x", 0);
  }

  /** Renaming "Buy groceries" to "Buy fruits" returns the renamed document with its description. */
  lemma UpdateRenameExample(oid: Oid)
    ensures var docs := [Doc(oid, "Buy groceries", "Milk, eggs, bread")];
            UpdateByTitleSpec(docs, "Buy groceries", Some("Buy fruits"), None).1 ==
            UpdateResult(true, UpdatedMessage, Some(TodoView(oid, "Buy fruits", "Milk, eggs, bread")))
  {
    var docs := [Doc(oid, "Buy groceries", "Milk, eggs, bread")];
    FindIndexAt(docs, "Buy groceries", 0);
    var after := [Doc(oid, "Buy fruits", "Milk, eggs, bread")];
    assert docs[0 := SetFields(docs[0], map[Title := "Buy fruits"])] == after;
    FindIndexAt(after, "Buy fruits", 0);
  }

  /** Delete removes only the first document with the title and keeps the others in order. */
  lemma DeleteRemovesFirstMatch(docs: seq<Doc>, title: string, i: nat)
    requires i < |docs| && docs[i].title == title
    requires forall j :: 0 <= j < i ==> docs[j].title != title
    ensures var (after, r) := DeleteByTitleSpec(docs, title);
            && r == DeleteResult(true, DeletedMessage)
            && |after| == |docs| - 1
            && (forall j :: 0 <= j < i ==> after[j] == docs[j])
            && (forall j :: i <= j < |docs| - 1 ==> after[j] == docs[j + 1])
            && multiset(after) + multiset{docs[i]} == multiset(docs)
  {
    FindIndexAt(docs, title, i);
    DropIndex(docs, i);
  }

  /** Delete of a title no document has fails and leaves the collection unchanged. */
  lemma DeleteMissLeavesCollection(docs: seq<Doc>, title: string)
    requires forall j :: 0 <= j < |docs| ==> docs[j].title != title
    ensures DeleteByTitleSpec(docs, title) == (docs, DeleteResult(false, NotFoundMessage(title)))
  {
  }

  /** After creating a document under a title no other document has, fetching that title finds it. */
  lemma CreateThenFetch(docs: seq<Doc>, oid: Oid, data: TodoInput)
    requires forall j :: 0 <= j < |docs| ==> docs[j].title != data.title
    ensures FetchTodoByTitle(docs + [Doc(oid, data.title, data.description)], data.title) ==
            Ok(TodoView(oid, data.title, data.description))
  {
    var after := docs + [Doc(oid, data.title, data.description)];
    FindIndexAt(after, data.title, |docs|);
  }
}
