# Todo service and key-value map, modelled in Dafny

The repository holds two small CRUD tools. Each one reads a JSON file, changes the value it read, writes the file back and answers. This project models the change step of both.

- **Todo HTTP service** (`todoapp/website/server.js`), module `TodoServer`. The stored list of `Todo` records is the field `todos` of a `TodoStore`. There is one method per route: `List` (GET /todos), `Create` (POST /todos), `Toggle` (PATCH /todos/:id/toggle) and `Delete` (DELETE /todos/:id). Each returns the HTTP status and the JSON body. The `findIndex` scan is the loop method `FindIndex`. The `filter` is the pure function `Without`. Toggling is specified by the recursive function `ToggleFirst`.
- **Key-value webview** (`key_value_map/vscode_extension/extension.js`), module `KeyValueMap`. The stored object is the `map<string, string>` field `data` of a `KeyValuePanel`. `Handle` is the `onDidReceiveMessage` handler: a chain of independent `if`s on the message kind, then the final reply. Its effect is the pure function `Apply`. `ApplyAll` is a panel's sequence of messages. The webview's `add()` guard is `AddRequest`.
- **Trimming** (module `Text`). `Trim` stands for `String.prototype.trim`, over a fixed ASCII whitespace set `IsWhitespace`.

The clock gives the record id (`Date.now().toString()`) and the creation time (`new Date().toISOString()`). Both are plain parameters of `Create`. Nothing makes ids unique. The model does not assume they are: `SameMillisecondRecords` shows what happens when two records share an id.

The model follows the code as written:
- The code answers a "load" message twice with the whole object: once in its own branch (extension.js:44-46) and once in the final reply (extension.js:53). `Handle` returns both replies.
- The stored object is what `JSON.parse` returns (extension.js:21), so `data[key] = value` is a JavaScript property assignment. For an absent key `"__proto__"` it calls the inherited `Object.prototype.__proto__` setter, which ignores a string, and nothing is stored. `Assignable` and `Apply` model this. A `"__proto__"` that the file already holds is an own property and is updated normally.

## Model

| member | source | states |
|---|---|---|
| Text.TrimStart | todoapp/website/server.js:51 | the result is the suffix of the input left after a run of leading whitespace, and it does not start with whitespace |
| Text.TrimEnd | todoapp/website/server.js:51 | the result is the prefix of the input left before a run of trailing whitespace, and it does not end with whitespace |
| Text.Trim | todoapp/website/server.js:44 | the trimmed string is empty exactly when the input is all whitespace; otherwise it neither starts nor ends with whitespace |
| Text.TrimCharacterised | todoapp/website/server.js:51 | trimming whitespace + core + whitespace gives back the core, whenever the core has no whitespace at either end |
| Text.TrimIdempotent | todoapp/website/server.js:51 | trimming an already trimmed string changes nothing |
| TodoServer.ToggleFirst | todoapp/website/server.js:68 | toggling keeps the length of the list |
| TodoServer.ToggleFirstAt | todoapp/website/server.js:64-68 | toggling flips `done` on the first record with the id and changes no other record, later records with the same id included |
| TodoServer.ToggleAbsent | todoapp/website/server.js:64-67 | toggling an id that no record carries leaves the list unchanged |
| TodoServer.ToggleTwice | todoapp/website/server.js:68 | toggling the same id twice gives back the original list |
| TodoServer.Without | todoapp/website/server.js:77-78 | after the filter, a record is in the list exactly when it was there before and its id differs; the length is unchanged exactly when no record had the id, and then so is the list |
| TodoServer.WithoutAppend | todoapp/website/server.js:77 | the filter distributes over concatenation, so the remaining records keep their order |
| TodoServer.WithoutRemovesId | todoapp/website/server.js:77-80 | after a delete no record carries the id, so a second delete is not found; filtering twice is filtering once |
| TodoServer.SameMillisecondRecords | todoapp/website/server.js:50 | when two appended records share an id and no earlier record carries it, toggle flips only the older one and delete removes both |
| TodoServer.FindIndex | todoapp/website/server.js:64 | returns -1 exactly when no record carries the id; otherwise returns the first index that does |
| TodoServer.TodoStore.constructor | todoapp/website/server.js:15-27 | a missing, empty or unreadable file starts the store with the empty list; a parsed list is taken as it is |
| TodoServer.TodoStore.List | todoapp/website/server.js:36-39 | answers 200 with the whole stored list |
| TodoServer.TodoStore.Create | todoapp/website/server.js:42-58 | a missing or all-whitespace title gives 400 and leaves the list unchanged; otherwise the list grows by exactly one record at the end, with the trimmed title, `done` false and the given id and time, answered with 201 |
| TodoServer.TodoStore.Toggle | todoapp/website/server.js:61-71 | an unknown id gives 404 and leaves the list unchanged; otherwise only the first matching record is flipped and the answer is 200 with that record |
| TodoServer.TodoStore.Delete | todoapp/website/server.js:74-83 | the new list is the old one without the id's records; 204 when something was removed, otherwise 404 and the list unchanged |
| KeyValueMap.Apply | key_value_map/vscode_extension/extension.js:34-51 | "add" and "update" make the key map to the value, add it to the keys and keep every other entry, except that an absent "__proto__" is not stored and the object stays as it was; "delete" removes the key and keeps every other entry, and changes nothing when the key is absent; "load" and any kind the handler does not recognise change nothing |
| KeyValueMap.UpdateIsAdd | key_value_map/vscode_extension/extension.js:48-51 | "update" has the same effect on the object as "add" |
| KeyValueMap.DeleteTwice | key_value_map/vscode_extension/extension.js:40 | deleting a key a second time changes nothing more |
| KeyValueMap.KeysUntouched | key_value_map/vscode_extension/extension.js:31-54 | over a series of messages, a key that no "add", "update" or "delete" among them names is neither added, removed nor changed; loads and unrecognised kinds may name it |
| KeyValueMap.AddSurvives | key_value_map/vscode_extension/extension.js:31-54 | a value added for a key is still what later loads return while no later "add", "update" or "delete" names that key; an absent "__proto__" was never stored and stays absent |
| KeyValueMap.AddRequest | key_value_map/vscode_extension/extension.js:90-95 | the webview sends nothing exactly when the key field is all whitespace; otherwise it sends "add" with the trimmed key, which is non-empty, and the trimmed value |
| KeyValueMap.KeyValuePanel.constructor | key_value_map/vscode_extension/extension.js:17-22 | with no stored file the object starts empty; otherwise it starts as stored |
| KeyValueMap.KeyValuePanel.Handle | key_value_map/vscode_extension/extension.js:31-54 | the object changes as `Apply` says, with "add" and "update" going through the same property assignment; whatever the message, every reply carries the whole current object; "load" gets two replies and every other message one |

## Left out

- Reading and writing the backing files and JSON (de)serialisation (server.js:15-31, extension.js:17-27). The stored value is a field that persists between calls. `StoredTodos` and the constructor's optional map say what a read can find.
- Re-reading the file on every request (server.js:37, 48, 63, 76; extension.js:32, 53). The model keeps the last written value in a field instead. With one writer, each request sees the same value either way.
- A backing file that holds well-formed JSON of the wrong shape (records with missing fields, non-string values). The model assumes well-formed records.
- A key-value backing file that does not parse. `loadData` then throws, and that exception is not modelled.
- TodoServer.TodoStore.Create: a truthy title that is not a string (a non-zero number, `true`, an object, an array) makes `title.trim()` throw, which gives a server error rather than a 400; the model does not cover it. A falsy one (null, false, 0) is answered 400 like a missing title, which is what `None` of the `Option<string>` title stands for.
- Text.IsWhitespace: only the ASCII whitespace characters count as whitespace. JavaScript's `trim` also strips the Unicode space separators, line terminators and the byte-order mark. Every lemma holds for any whitespace predicate.
- The clock. `Date.now()` and `toISOString()` are the `id` and `createdAt` parameters of `Create`.
- The Express setup, CORS, body parsing, `app.listen` and the health-check route (server.js:6-11, 85-92). These are library calls with no logic of their own.
- The todo webview client (`todoapp/vscode_extension/extension.js`). It only issues HTTP calls and renders HTML.
- HTML and DOM rendering in `getHTML`, and the webview's `load()` and `remove(key)`. These two only post the "load" and "delete" messages that `Handle` models.
- Concurrent requests or panels racing on one backing file. Each tool handles one message at a time, and the race is not modelled.
