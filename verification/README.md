# AutoMCP expert tools, modelled in Dafny

AutoMCP is a small tool server for the VerifAI Assistant. Its expert tools read and rewrite `experts.json`, the assistant's list of expert records, in its data directory. This project models the decision logic of those tools:

- **Data directory resolution** (`_resolve_base_path` and start-up). The `--path` flag wins over the `VERIFAI_ASSISTANT_DIR` environment variable. Python truthiness makes an empty string count as absent.
- **`create_expert`**. The tool checks the configuration, the file and the required `name` and `prompt`, then builds a fixed-shape record: type `user`, state `enabled`, no trigger apps. A name already in the list only adds a warning. Without `confirm` it returns a preview. With `confirm` it writes a backup of the loaded list and appends the record.
- **`update_expert`**. The tool resolves exactly one target: by `id` when one is given, otherwise by `name`. Finding nothing and finding several records are reported separately. It refuses a call that asks for no change, and a `new_state` other than `enabled` or `disabled`. It overwrites only the supplied fields. It previews, or on confirm backs up the list and replaces that one record.

The file system is a value. `Store.ExpertStore` holds the state of `experts.json` (absent, unreadable or a loaded list) and the backup files beside it, keyed by file name (`experts.json.bak.<stamp>`). A confirmed write goes through `Persist`:
1. It writes the backup of the document as loaded.
2. It replaces the experts file whole, as a temporary file renamed over the target would.

The step that fails, if any, is a parameter (`Fault`). Whichever step fails, the experts file keeps its old contents. Inputs from outside are also parameters:
- the environment value,
- the generated uuid,
- the backup timestamp.

Tool results are the `Store.Outcome` datatype, not the Portuguese message texts.

Modules:
- `wrappers.dfy`: `Option`.
- `config.dfy`: truthiness and base-path resolution.
- `records.dfy`: expert records, the matching comprehensions, target resolution, field overwrite, and lemmas relating lookups to append and replace.
- `store.dfy`: the `ExpertStore` class with the two tools, and a client of the update tool.

Behaviours of the code worth knowing:
- Required inputs are tested with Python truthiness: an absent value and "" are refused, but a name of one space is accepted.
- An `id` that several records share is reported as `Ambiguous`, just as a shared name is.
- The id shown in a create preview is not the id a later confirming call writes. Each call draws a new uuid, so in the model each call takes its own `newId`.
- Checks run in the code's order. For example, a bad `new_state` aimed at a missing record reports `NotFound`.

## Model

| member | source | states |
|---|---|---|
| `Config.Truthy` | automcp.py:20-21 | Python truthiness of an optional string: false exactly for an absent value and for "" (as the tests at lines 20, 21, 83 and 164 use it) |
| `Config.Or` | automcp.py:20 | Python's `or`: the first operand when it is truthy, otherwise the second; truthy exactly when either operand is |
| `Config.ConfiguredDefault` | automcp.py:243 | the stored default is the flag when it is non-empty, otherwise the environment value as it is (possibly absent or "") |
| `Config.ResolveBasePath` | automcp.py:19-21 | a directory exactly when the stored default or the environment value is non-empty; never the empty path; the default wins, the environment value is used only when the default is empty or absent |
| `Config.FlagWinsOverEnvironment` | automcp.py:243 | start-up followed by resolution yields the flag when non-empty, else the environment value when non-empty, else no directory |
| `Records.NewExpert` | automcp.py:94-101 | the created record carries the given id, name and prompt, type "user", state "enabled" and no trigger apps |
| `Records.MissingInputs` | automcp.py:83-92 | lists "nome" exactly when the name is absent or empty and "prompt" exactly when the prompt is, in that order and nothing else |
| `Records.Matches` | automcp.py:176-178 | exactly the indices of the records whose id (or name) equals the key, strictly ascending |
| `Records.HasDuplicateName` | automcp.py:110-111 | true exactly when some stored record already has the given name |
| `Records.Selects` | automcp.py:175-178 | with a non-empty id a record is selected exactly when its id equals it, whatever the name; otherwise exactly when a non-empty name is given and the record's name equals it |
| `Records.Resolve` | automcp.py:173-189 | NoMatch exactly when no record is selected; Unique(i) only for the single selected index; Several with all selected indices (at least two, ascending); a non-empty id is the only criterion, the name is used otherwise |
| `Records.Apply` | automcp.py:195-203 | the updated record keeps id, type and triggerApps; each of name, prompt and state takes the supplied value when given and keeps the old one otherwise |
| `Records.NoChange` | automcp.py:192 | no change is requested exactly when new name, prompt and state are all absent (an empty string is a change) |
| `Records.ValidState` | automcp.py:201 | a state is allowed exactly when it is "enabled" or "disabled" |
| `Records.BadState` | automcp.py:200-202 | a call is refused for its state exactly when it supplies a state outside "enabled" and "disabled" |
| `Records.NoMatchesWhenAbsent` | automcp.py:176-178 | a key no record carries yields no matches |
| `Records.MatchesAfterAppend` | automcp.py:127 | appending a record adds its index to a key's matches exactly when it carries the key; earlier matches stay |
| `Records.MatchesAfterReplace` | automcp.py:224 | replacing one record by one with the same key field leaves every match list for that key unchanged |
| `Records.CreatedIsUniqueById` | automcp.py:94-101 | a record appended with an id no other record has is afterwards the unique target of an update by that id, at the last index |
| `Records.UpdatedStaysUniqueById` | automcp.py:218-228 | after an update by id, the same id still selects exactly the updated index |
| `Records.CreatedNameIsDuplicate` | automcp.py:110-111 | after a create, the same name counts as a duplicate for the next create |
| `Store.BackupName` | automcp.py:122-123 | the backup file name is "experts.json.bak." followed by the stamp, so the stamp can be read back from it |
| `Store.BackupNamesDistinct` | automcp.py:122-123 | two backups share a file name exactly when they share a stamp, so a second write within the same stamp overwrites the first backup |
| `Store.ExpertStore.constructor` | automcp.py:243 | the stored default path is the flag, or else the environment value |
| `Store.ExpertStore.Persist` | automcp.py:121-131 | succeeds exactly without a fault; the backup named after the stamp holds the pre-call document unless the backup step fails; the experts file is the new document on success and untouched on any failure |
| `Store.ExpertStore.CreateExpert` | automcp.py:65-135 | errors in the source's order (configuration, missing file, missing inputs, unreadable file); unconfirmed: a preview of the fixed-shape record with the duplicate-name warning and no change to the file or the backups; confirmed: the backup holds the old list and the file is the old list plus the record, a duplicate name never blocking; a failed write leaves the file as it was |
| `Store.ExpertStore.UpdateExpert` | automcp.py:139-231 | errors in the source's order (configuration, missing file, no id or name, unreadable file, not found, ambiguous with the selected indices, no change, invalid state); unconfirmed: old and new record and nothing written; confirmed: the backup holds the old list and only the target index is replaced by the overwritten record, which keeps its id |
| `Store.PreviewThenConfirm` | automcp.py:205-228 | when an update preview is shown, the confirming call with the same arguments replaces the previewed old record, at its index, by the previewed new record, leaves every other record as it was, and backs up the document both calls saw |

## Left out

- `get_experts` (automcp.py:24-61) is not modelled. It only loads the file and formats it as text.
- JSON loading and serialisation are not modelled. A file that fails to load is the opaque `Unreadable` state.
- Records have exactly six fields. Extra keys, which `dict(old)` would carry over, are not modelled, and neither are non-string values.
- A key missing from a record is represented as "". Every lookup compares against a non-empty value, so both behave alike.
- A document that loads but is not a list of expert objects is not modelled. Its fate depends on what it holds:
  - A number, `null`, a boolean, a non-empty object or string, or a list holding non-objects makes the duplicate and match scans raise outside the tools' error handling.
  - An empty object or empty string scans as an empty list. `update_expert` then reports that nothing was found. `create_expert` previews, and on confirm it writes the backup, then fails at the append with a write error.
- The message texts and the JSON layout of previews are not modelled. Outcomes carry the records and flags they show.
- `uuid.uuid4()` and `datetime.now()` are parameters (`newId`, `stamp`). Uniqueness of a generated id is assumed only where a lemma states it as a hypothesis.
- The `.json.tmp` file is not modelled: neither the orphan left by a failed rename nor a partial backup left by a failed backup write.
- Argument parsing, `--test` and `mcp.run()` in `main` are process entry and transport. Only line 243 is modelled, by the constructor.
- `automcp/probe_client.py` is not part of this model. It is an asynchronous stdio client that starts the server and prints results.
- Concurrent writers are not modelled. Each call loads the file once and runs to completion.
- Folder, chat and history operations, and the query layer (ordering, pagination, search), are not part of this model. No code for them is in the modelled source.
