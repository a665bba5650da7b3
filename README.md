# To-do tool stores of an agent-SDK tutorial repository, in Dafny

The repository is a set of tutorial scripts. Each script configures an LLM agent and gives it a few "tools". Two of those tool sets contain state-handling logic that the repository writes itself. This project models those two and proves properties of them.

- **JSON-file to-do list** (`06a_agent_tools_example_todos/main.py`, module `JsonTodos`, file `json_todos.dfy`). `todo.json` holds a list of records `{id, task, completed, priority, due_date}`. The class `TodoStore` holds the file as `Option<seq<Todo>>`, with `None` meaning the file does not exist. `add_todo` gives the new record the id `len + 1` and appends it. `delete_todo` and `update_todo` scan for the first record whose `str(id)` equals the argument string. `delete_todo` removes that record with `list.remove`, and `update_todo` patches it field by field with a fresh time stamp. Both write the list back only on a hit. Ids are not assumed to be unique, because the code never makes them so.
- **Title-keyed document store** (`06_tool_call/06c_mongodb_tool.py`, module `MongoTodos`, file `mongo_todos.dfy`). The collection is a sequence of `{_id, title, description}` documents in collection order (class `Collection`). The driver calls `insert_one`, `find_one`, `update_one` and `delete_one` are methods of that class. The single-document calls act on the first document whose title matches. Inserts take ids from a counter that stays above every stored id. The five tools `create_todo`, `fetch_todos`, `fetch_todo_by_title`, `update_todo_by_title` and `delete_todo_by_title` are built on those calls.

Each state-changing tool is a method. Its `ensures` equates the new state and the returned value with a pure specification function: `AddSpec`, `DeleteSpec`, `UpdateSpec`, `UpdateByTitleSpec` or `DeleteByTitleSpec`. Lemmas then state what those functions do: which record changes, which fields change, and that nothing else changes. `Decimal` (file `decimal.dfy`) models Python's `str(int)`, which the JSON tools use to compare ids, and proves that it is injective by parsing the string back. `Sequences` models Python's `list.remove`, which removes by value, and holds the facts about dropping one element of a sequence that both deletes use. `Wrappers` holds `Option` and `Result`.

Inputs the code reads from its environment are parameters here. `datetime.now().isoformat()` is the string argument `now`. The caller passes the arguments that the Python tools take from defaults or from the agent.

## Model

| member | source | states |
|---|---|---|
| `Decimal.IntToString` | 06a_agent_tools_example_todos/main.py:103 | Definition of Python's `str(int)`: a `-` before the digits of negative numbers, no leading zeros. Its round trip and injectivity are proved by `IntRoundTrip` and `IntToStringInjective`. Its shape is proved by `IntToStringShape` and `NoLeadingZero`. |
| `Decimal.IntToStringShape` | 06a_agent_tools_example_todos/main.py:103 | A non-negative integer renders as digits only. A negative one renders as `-` followed by a numeral that does not start with `0`, as Python's `str` does. |
| `Decimal.IntToStringInjective` | 06a_agent_tools_example_todos/main.py:103 | Two integer ids render to the same `str` exactly when they are equal, so the string comparison of ids is an id comparison. |
| `Decimal.IntRoundTrip` | 06a_agent_tools_example_todos/main.py:103 | Parsing the decimal rendering of any integer, negative ones included, gives the integer back. |
| `Decimal.NoLeadingZero` | 06a_agent_tools_example_todos/main.py:103 | A rendering longer than one character never starts with `0`. |
| `Sequences.RemoveValue` | 06a_agent_tools_example_todos/main.py:104 | Definition of `list.remove(x)`: the first element equal to `x` is dropped and the rest keep their order. Where Python raises `ValueError` for an absent `x`, the model returns the list unchanged. `RemoveValueCount` and `RemoveValueAt` state what that means. |
| `Sequences.RemoveValueCount` | 06a_agent_tools_example_todos/main.py:104 | When `x` is in the list, `list.remove(x)` loses exactly one occurrence of `x` from the multiset of elements. When `x` is absent, Python raises `ValueError`. The model instead returns the list unchanged, and the second clause states that extension. The tools never reach that case, because the removed record is taken from the list itself. |
| `Sequences.RemoveValueAt` | 06a_agent_tools_example_todos/main.py:104 | Removing `s[i]` by value drops exactly index `i` when no earlier element equals `s[i]`. |
| `JsonTodos.Matches` | 06a_agent_tools_example_todos/main.py:103 | Definition of the tools' id test `str(todo["id"]) == id`. `MatchesIff` states that it is an integer comparison. |
| `JsonTodos.FirstMatchFrom` | 06a_agent_tools_example_todos/main.py:102-106 | The scan from position `k` finds the first record at or after `k` whose rendered id equals the argument. It is None exactly when no record from `k` on matches. |
| `JsonTodos.FirstMatch` | 06a_agent_tools_example_todos/main.py:101-106 | The scan's hit is the first record whose rendered id equals the argument. It is None exactly when no record matches. |
| `JsonTodos.RemoveFirstMatch` | 06a_agent_tools_example_todos/main.py:104 | `todos.remove(todo)` removes by value the record found by the scan. That removes exactly the element at the scan's index, because every earlier record has a different id and so is a different value. |
| `JsonTodos.MatchesIff` | 06a_agent_tools_example_todos/main.py:103 | A record matches the argument `str(k)` exactly when its id is `k`. |
| `JsonTodos.Patch` | 06a_agent_tools_example_todos/main.py:155-162 | Definition of the field-by-field update: each given field is overwritten, `due_date` is set to `now`, the id is kept. `PatchFields` and `PatchIdempotent` state its properties. |
| `JsonTodos.AddSpec` | 06a_agent_tools_example_todos/main.py:44-76 | Definition of one `add_todo` call: a missing file reads as `[]`, the new record gets id `len + 1` and is appended and returned. `AddToEmpty` and `AddAppends` state its properties. |
| `JsonTodos.DeleteSpec` | 06a_agent_tools_example_todos/main.py:84-115 | Definition of one `delete_todo` call: missing file, miss and hit, with the three messages, and a write only on a hit. `DeleteRemovesFirstMatch`, `DeleteMissLeavesFile` and `AbsentFileStaysAbsent` state its properties. |
| `JsonTodos.UpdateSpec` | 06a_agent_tools_example_todos/main.py:131-174 | Definition of one `update_todo` call: missing file, miss and hit, with the three messages, and a write only on a hit. `UpdateChangesFirstMatchOnly`, `UpdateMissLeavesFile` and `AbsentFileStaysAbsent` state its properties. |
| `JsonTodos.TodoStore.ListTodos` | 06a_agent_tools_example_todos/main.py:28-40 | With a missing file it gives the error "The file todo.json was not found.". Otherwise it gives exactly the stored list. It changes nothing. |
| `JsonTodos.TodoStore.AddTodo` | 06a_agent_tools_example_todos/main.py:44-76 | The file afterwards and the returned record are those of `AddSpec`: a missing file reads as `[]`, and the new record with id `len + 1` is appended and returned. |
| `JsonTodos.TodoStore.DeleteTodo` | 06a_agent_tools_example_todos/main.py:84-115 | The scan loop with `remove` and `break` leaves the file and returns the message exactly as `DeleteSpec` says, for the missing-file, miss and hit cases. |
| `JsonTodos.TodoStore.UpdateTodo` | 06a_agent_tools_example_todos/main.py:131-174 | The scan loop that patches the record in place leaves the file and returns the message exactly as `UpdateSpec` says, for the missing-file, miss and hit cases. |
| `JsonTodos.AddToEmpty` | 06a_agent_tools_example_todos/main.py:51-70 | Adding to a missing file, or to one holding an empty list, stores exactly `[t]`, where `t` has id 1 and the given task, completed, priority and time stamp, and returns `t`. |
| `JsonTodos.AddAppends` | 06a_agent_tools_example_todos/main.py:61-76 | Adding appends one record at the end with id old length + 1. The existing records stay as the prefix, and the appended record is the one returned. |
| `JsonTodos.DeleteRemovesFirstMatch` | 06a_agent_tools_example_todos/main.py:101-115 | On a hit exactly one record is removed: the first whose id renders to the argument. The list is one shorter, earlier records stay in place, later ones shift down by one, and the multiset loses exactly that record. The success message is returned. |
| `JsonTodos.DeleteMissLeavesFile` | 06a_agent_tools_example_todos/main.py:108-109 | With no matching id the result is "Todo with id {id} not found." and the file is unchanged. |
| `JsonTodos.AbsentFileStaysAbsent` | 06a_agent_tools_example_todos/main.py:92-96 | On a missing file, delete returns "No todos found. The file does not exist." and update (lines 139-142) returns "No file found . File does not exists". The file stays missing in both cases. |
| `JsonTodos.PatchFields` | 06a_agent_tools_example_todos/main.py:155-162 | An update overwrites task, completed and priority only where the update record gives a value. It always sets the time stamp and never changes the id. |
| `JsonTodos.PatchIdempotent` | 06a_agent_tools_example_todos/main.py:155-162 | Applying the same update twice with the same time stamp gives the same record as applying it once. |
| `JsonTodos.UpdateChangesFirstMatchOnly` | 06a_agent_tools_example_todos/main.py:147-174 | On a hit only the first matching record becomes its patched version. Length, order, every id and every other record are unchanged, and the success message is returned. |
| `JsonTodos.UpdateMissLeavesFile` | 06a_agent_tools_example_todos/main.py:167-168 | With no matching id the result is "no todo found with {id}" and nothing is written. |
| `JsonTodos.LeadingZeroIdMatchesNothing` | 06a_agent_tools_example_todos/main.py:103 | An id argument such as "01" matches no record, so delete and update both report not found and leave the file unchanged. |
| `JsonTodos.AddThenDeleteExample` | 06a_agent_tools_example_todos/main.py:61-115 | Adding "buy milk" to a file holding an empty list gives record id 1. Deleting "1" afterwards reports success and leaves the file holding an empty list again. |
| `JsonTodos.DuplicateIdsAfterDelete` | 06a_agent_tools_example_todos/main.py:62 | The sequence add, add, delete "1", add stores two records with id 2. A later delete of "2" removes only the first of them. |
| `MongoTodos.Truthy` | 06_tool_call/06c_mongodb_tool.py:262-265 | Definition of Python truthiness for `new_title` and `new_description`: neither None nor the empty string. `UpdateFields` states how it selects the fields. |
| `MongoTodos.Project` | 06_tool_call/06c_mongodb_tool.py:216-220 | Definition of the returned `{id, title, description}` view of a document. `FetchTodoByTitle`, `FetchTodos` and `UpdateResultShape` state where it is used. |
| `MongoTodos.SetFields` | 06_tool_call/06c_mongodb_tool.py:270-273 | Definition of `$set`: the keys present in the update document replace the document's fields, the id is kept. `UpdateChangesFirstMatchOnly` states its effect on the collection. |
| `MongoTodos.UpdateByTitleSpec` | 06_tool_call/06c_mongodb_tool.py:257-290 | Definition of one `update_todo_by_title` call: the update document, the early exit, `update_one`, the `matched_count == 0` failure and the re-fetch. `UpdateWithoutFields`, `UpdateMissLeavesCollection`, `UpdateChangesFirstMatchOnly` and `UpdateResultShape` state its properties. |
| `MongoTodos.DeleteByTitleSpec` | 06_tool_call/06c_mongodb_tool.py:316-327 | Definition of one `delete_todo_by_title` call: the first document with the title is removed on a match, with the success or not-found result. `DeleteRemovesFirstMatch` and `DeleteMissLeavesCollection` state its properties. |
| `MongoTodos.FindIndex` | 06_tool_call/06c_mongodb_tool.py:211 | The driver's filter `{"title": title}` hits the first document with that title in collection order. It is None exactly when no document has the title. |
| `MongoTodos.FindOne` | 06_tool_call/06c_mongodb_tool.py:211 | `find_one` returns a document with the title, with none before it, and returns None exactly when no document has the title. |
| `MongoTodos.UpdateFields` | 06_tool_call/06c_mongodb_tool.py:261-265 | The update document has a title key exactly when `new_title` is truthy (not None, not empty) and a description key exactly when `new_description` is truthy, each with the given value. It is empty exactly when neither argument is truthy. |
| `MongoTodos.FetchTodoByTitle` | 06_tool_call/06c_mongodb_tool.py:211-220 | Returns the `{id, title, description}` projection of the first document with the title. If there is none it returns "No todo found with title: {title}". |
| `MongoTodos.Collection.InsertOne` | 06_tool_call/06c_mongodb_tool.py:114 | Appends one document under an id that no stored document has. The fresh-id invariant is kept and the id counter advances by one. |
| `MongoTodos.Collection.FindOneDoc` | 06_tool_call/06c_mongodb_tool.py:279 | The lookup loop returns exactly `FindOne` of the collection and changes nothing. |
| `MongoTodos.Collection.UpdateOne` | 06_tool_call/06c_mongodb_tool.py:270-275 | With a match, `$set` is applied to the first matching document only and `matched_count` is 1. Without a match the collection is unchanged and `matched_count` is 0. |
| `MongoTodos.Collection.DeleteOne` | 06_tool_call/06c_mongodb_tool.py:320-322 | With a match, the first matching document is removed and `deleted_count` is 1. Without a match the collection is unchanged and `deleted_count` is 0. |
| `MongoTodos.CreateTodo` | 06_tool_call/06c_mongodb_tool.py:108-119 | Appends exactly one document with the given title and description under a fresh id. Returns `{id, title, description}` with that id. The fresh-id invariant is kept and the id counter advances by one. |
| `MongoTodos.FetchTodos` | 06_tool_call/06c_mongodb_tool.py:161-169 | Returns one projected record per document, in collection order, with the same length as the collection. It changes nothing. |
| `MongoTodos.UpdateTodoByTitle` | 06_tool_call/06c_mongodb_tool.py:261-288 | Building `update_fields` step by step, the early exit, `update_one`, the `matched_count == 0` failure and the re-fetch together leave the collection and produce the result exactly as `UpdateByTitleSpec` says. The fresh-id invariant is kept and the id counter is unchanged. |
| `MongoTodos.DeleteTodoByTitle` | 06_tool_call/06c_mongodb_tool.py:320-325 | The collection and the result are exactly those of `DeleteByTitleSpec`. The fresh-id invariant is kept and the id counter is unchanged. |
| `MongoTodos.UpdateWithoutFields` | 06_tool_call/06c_mongodb_tool.py:261-268 | With neither field truthy the result is success false, "No fields provided to update." and no document. The collection is unchanged. |
| `MongoTodos.UpdateMissLeavesCollection` | 06_tool_call/06c_mongodb_tool.py:270-276 | With a field given but no document with the title, the result is success false, "No To-Do found with title '{title}'." and no document. The collection is unchanged. |
| `MongoTodos.UpdateChangesFirstMatchOnly` | 06_tool_call/06c_mongodb_tool.py:270-273 | On a match only the first document with the old title changes. It keeps its id, takes each truthy new field and keeps the other fields. Every other document is unchanged. |
| `MongoTodos.UpdateResultShape` | 06_tool_call/06c_mongodb_tool.py:275-288 | Success holds exactly when some field is truthy and some document has the title. On success the returned document is the projection of the first document, after the write, titled `new_title` if truthy and the old title otherwise. Within the model, where nothing else writes the collection between `update_one` and `find_one`, that lookup always finds a document, so the error path for a None document is never taken. On failure nothing is written and no document is returned. |
| `MongoTodos.UpdateMayReturnAnotherDoc` | 06_tool_call/06c_mongodb_tool.py:279 | Renaming "y" to "x" when an earlier document is already titled "x" returns that earlier document, not the renamed one. |
| `MongoTodos.UpdateRenameExample` | 06_tool_call/06c_mongodb_tool.py:245-255 | Renaming the only document "Buy groceries" to "Buy fruits" returns success with that document under its new title and its old description. |
| `MongoTodos.DeleteRemovesFirstMatch` | 06_tool_call/06c_mongodb_tool.py:320-325 | On a match only the first document with the title is removed and the others keep their order. The result is success true with "To-Do deleted successfully.". |
| `MongoTodos.DeleteMissLeavesCollection` | 06_tool_call/06c_mongodb_tool.py:322-323 | With no document titled so, the result is success false with "No To-Do found with title '{title}'." and the collection is unchanged. |
| `MongoTodos.CreateThenFetch` | 06_tool_call/06c_mongodb_tool.py:114-119 | If a document is created under a title that no other document has, fetching that title returns exactly the created record. |

## Left out

- JSON encoding and decoding of `todo.json`, and the `json.JSONDecodeError` paths. In the real code these raise "Error decoding todo.json…" or become the "Error deleting todo: …" and "Error updating todo: …" strings, and `add_todo` wraps them in "Failed to add todo: …". The file is modelled only as the list it decodes to.
- Records are modelled with exactly the five fields, and with ids that are integers. A record loaded without an `id` (a `KeyError`), or whose `id` is a string or float, is not modelled, and neither is `str` of such a value.
- `datetime.now().isoformat()` is the parameter `now`. The default arguments of `add_todo` and the optional `TodoUpdate` fields are supplied by the caller.
- The console `print` calls, the `Agent`/`Runner` setup, model configuration and the call to `input`: these configure an external SDK or do I/O.
- The MongoDB connection, the `ping`, and driver exceptions. The generic `except Exception` results of the five tools are modelled only for the one error the code itself can cause on documents that have all three fields: subscripting a None re-fetch. That is proved never to happen when no other client writes between the `update_one` and `find_one` calls.
- Documents are modelled with exactly `_id`, `title` and `description`. A stored document that lacks `title` or `description` makes the real tools raise `KeyError` (06_tool_call/06c_mongodb_tool.py:165-166, 218-219, 285-286). That path is not modelled.
- Concurrency: tool calls run one at a time, and nothing else writes `todo.json` or the collection while a call runs.
- Sequences.RemoveValue: Python's `list.remove` raises `ValueError` when the value is absent. The model returns the list unchanged there. The tools never call it with an absent value (06a_agent_tools_example_todos/main.py:101-104 remove a record taken from the list), so the error is not modelled.
- `ObjectId` generation is modelled as a counter that stays above every stored id. `str(ObjectId)` (24 hex digits) is not modelled: the returned `id` is the id value itself.
- `CreateTodo`: `insert_one` also adds an `_id` key to the caller's dictionary, so the real return value also carries `_id` with the same id. The model returns only `{id, title, description}`.
- `update_one`'s `modified_count` and `upsert` are not modelled, because the code uses neither.
- The other scripts of the repository: the orchestration pipelines, chat-session handlers, web, HTTP and file tools, constant-string tools, and the dataclass and callable tutorials. Their behaviour is that of the agent SDK, the model provider or a UI framework.
