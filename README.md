# Resource management domain, modelled in Dafny

This project models the small domain-driven "resources" application of the
`intro-domain-driven` tutorial. A *resource* (a corpus or a lexicon) has an
id, a name and a type, and only its name can change. Resources live in a
repository, which is either in memory or a JSON file. A use case renames a
resource through whichever repository it is given. A command bus routes each
command to the handler registered for its type, and `bootstrap_app` wires an
`UpdateName` handler over a JSON-file repository.

Modules, one per source file:

- `Wrappers` (`wrappers.dfy`): `Option`, `Result` and `Outcome`, plus Python's
  `KeyError`. Exceptions that the source lets propagate become `Failure` or
  `Fail` values.
- `Domain` (`resource.py`): the UUID as a 128-bit number, `ResourceType`,
  `ResourceRecord` (a resource's value, which is what a deep copy holds) and
  the `Resource` class.
- `UuidText`: `str(uuid)` and `UUID(text)`, which are the key encoding of the
  JSON file.
- `MemResources` (`mem_resources.py`): the in-memory repository.
- `JsonFileResources` (`json_file_resources.py`): the JSON-file repository.
  It holds an insertion-ordered table (a Python dict) and the encoding and
  decoding of the file's object. A `Disk` class stands for the file system;
  each of its files holds a JSON object, so no key appears twice in it.
- `Repositories` (`repositories/resources.py`): the `ResourceRepository`
  interface, as a datatype over the two implementations.
- `UpdatingNameUseCase` (`updating_name.py`): the `UpdateName` command and the
  `UpdatingName` use case.
- `Main` (`main.py`): `CommandBus`, `dispatch`, `AppContext` and
  `bootstrap_app`.

Repositories store `ResourceRecord` values, never `Resource` objects, and
`get` returns a freshly allocated `Resource`. This is how the model captures
the source's `copy.deepcopy` on both `save` and `get`.

## Model

| member | source | states |
|---|---|---|
| `Domain.ResourceType.Value` | intro-domain-driven/resources/domain/entites/resource.py:5-7 | each member's string value is "corpus" or "lexicon" |
| `Domain.ParseResourceType` | intro-domain-driven/resources/domain/entites/resource.py:5-7 | `ResourceType(s)` succeeds exactly for "corpus" and "lexicon", and returns the member whose value is `s` |
| `Domain.ResourceTypeRoundTrip` | intro-domain-driven/resources/domain/entites/resource.py:5-7 | value and lookup are inverse, so the two members have distinct values |
| `Domain.Resource.constructor` | intro-domain-driven/resources/domain/entites/resource.py:11-32 | the new object holds exactly the given id, name and type; id and type are constants because the class has no setter for them |
| `Domain.Resource.SetName` | intro-domain-driven/resources/domain/entites/resource.py:34-36 | any name is accepted; afterwards `name` is the new name and id and type are unchanged |
| `MemResources.InMemoryResourceRepository.constructor` | intro-domain-driven/resources/application/repositories/mem/mem_resources.py:9-10 | a new repository holds no resources |
| `MemResources.InMemoryResourceRepository.Save` | intro-domain-driven/resources/application/repositories/mem/mem_resources.py:12-13 | a copy of the resource is filed under its id, overwriting any earlier one; every other id keeps its resource; each resource stays filed under its own id |
| `MemResources.InMemoryResourceRepository.Get` | intro-domain-driven/resources/application/repositories/mem/mem_resources.py:15-16 | KeyError exactly when the id is absent; otherwise a fresh object equal to the stored resource; the store is not changed |
| `MemResources.CopiesAreIsolated` | intro-domain-driven/resources/application/repositories/mem/mem_resources.py:12-16 | renaming the saved object, or the object `get` returned, leaves the stored resource as it was saved |
| `UuidText.Format` | intro-domain-driven/resources/infrastructure/repositories/json_file_resources.py:33 | `str(id)` is 36 characters with hyphens at 8, 13, 18 and 23, and `UUID(str(id))` gives back `id` |
| `UuidText.Parse` | intro-domain-driven/resources/infrastructure/repositories/json_file_resources.py:19 | `UUID(text)` succeeds exactly when 32 hex digits remain after the hyphens are removed |
| `UuidText.HexRoundTrip` | intro-domain-driven/resources/infrastructure/repositories/json_file_resources.py:19 | reading back the hex digits of a number below 16^k gives the number |
| `UuidText.FormatInjective` | intro-domain-driven/resources/infrastructure/repositories/json_file_resources.py:32-35 | distinct ids have distinct text keys |
| `JsonFileResources.Table.Put` | intro-domain-driven/resources/infrastructure/repositories/json_file_resources.py:29 | `d[id] = r` sets that entry; a known id keeps its place in the order and a new id is appended; the table stays well formed |
| `JsonFileResources.DecodeEntry` | intro-domain-driven/resources/infrastructure/repositories/json_file_resources.py:19-22 | an item decodes exactly when its key is a UUID, it has "name" and "type", and the type is a member's value; the first failing check decides the error (a bad key, then a missing "name", then a missing "type", then an unknown type value); a decoded resource carries the key's id, the name and the type |
| `JsonFileResources.EncodeEntry` | intro-domain-driven/resources/infrastructure/repositories/json_file_resources.py:33 | the item written for a resource holds exactly "name" and "type", and decoding it gives back that resource |
| `JsonFileResources.Encode` | intro-domain-driven/resources/infrastructure/repositories/json_file_resources.py:32-35 | `to_disk` has one item per stored resource, in the dict's order, keyed by `str(id)` and holding its name and type value, and no two items share a key |
| `JsonFileResources.EncodedKeysDistinct` | intro-domain-driven/resources/infrastructure/repositories/json_file_resources.py:32-35 | items keyed by the text of distinct ids have distinct keys |
| `JsonFileResources.LoadItems` | intro-domain-driven/resources/infrastructure/repositories/json_file_resources.py:18-23 | the loop keeps the table well formed and never removes an id |
| `JsonFileResources.LoadSucceedsIffAllDecode` | intro-domain-driven/resources/infrastructure/repositories/json_file_resources.py:18-23 | the load runs to the end exactly when every item decodes |
| `JsonFileResources.LoadStopsAtFirstError` | intro-domain-driven/resources/infrastructure/repositories/json_file_resources.py:18-23 | the error reported is the error of the first item that fails |
| `JsonFileResources.LoadKeepsPrefixOnError` | intro-domain-driven/resources/infrastructure/repositories/json_file_resources.py:18-23 | when item `k` is the first that fails, the table is the one loading the items before `k` gives, with no error: those stay and nothing after `k` is read |
| `JsonFileResources.LoadAddsOnlyDecodedIds` | intro-domain-driven/resources/infrastructure/repositories/json_file_resources.py:18-23 | after a load, full or stopped by an error, every id in the table was there before or is the id of an item that decodes |
| `JsonFileResources.LoadKeepsUntouched` | intro-domain-driven/resources/infrastructure/repositories/json_file_resources.py:18-23 | after a load, full or stopped by an error, an id that no item decodes to keeps its earlier resource |
| `JsonFileResources.LoadLastWins` | intro-domain-driven/resources/infrastructure/repositories/json_file_resources.py:18-23 | each item the loop reaches inserts or overwrites its own entry, so an id ends up holding the last item decoded to it, even when a later item stops the load |
| `JsonFileResources.EncodeDecodeRoundTrip` | intro-domain-driven/resources/infrastructure/repositories/json_file_resources.py:17-35 | loading what `write_to_path` wrote, into an empty repository, gives back the same table with the same order and no error |
| `JsonFileResources.JsonFileResourceRepository.constructor` | intro-domain-driven/resources/infrastructure/repositories/json_file_resources.py:12-14 | the path is stored and the table starts empty |
| `JsonFileResources.JsonFileResourceRepository.LoadFromPath` | intro-domain-driven/resources/infrastructure/repositories/json_file_resources.py:17-23 | reads the file at the stored path and ignores its argument; a missing file fails before anything changes; otherwise the table and the outcome are those of `LoadItems`, so items before a bad one stay loaded |
| `JsonFileResources.JsonFileResourceRepository.Get` | intro-domain-driven/resources/infrastructure/repositories/json_file_resources.py:25-26 | KeyError exactly when the id is absent; otherwise a fresh object equal to the stored resource |
| `JsonFileResources.JsonFileResourceRepository.Save` | intro-domain-driven/resources/infrastructure/repositories/json_file_resources.py:28-29 | the table becomes the old table with a copy of the resource put under its id |
| `JsonFileResources.JsonFileResourceRepository.WriteToPath` | intro-domain-driven/resources/infrastructure/repositories/json_file_resources.py:31-38 | a given path becomes the stored path, and with no path the old one is kept; the file at the stored path then holds `Encode` of the unchanged table; no other file changes |
| `JsonFileResources.Open` | intro-domain-driven/resources/infrastructure/repositories/json_file_resources.py:12-15 | a missing file or a bad item makes construction fail with that error; otherwise a fresh repository on that path holding the table loaded into an empty one |
| `JsonFileResources.ReopenAfterWrite` | intro-domain-driven/tests/integration/test_json_file_resources.py:27-32 | writing to a path and opening a new repository there always succeeds and gives the same table |
| `Repositories.Repository.Get` | intro-domain-driven/resources/application/repositories/resources.py:8-10 | either implementation's `get`: KeyError exactly for an absent id, otherwise a fresh copy of the stored resource |
| `Repositories.Repository.Save` | intro-domain-driven/resources/application/repositories/resources.py:12-14 | either implementation's `save`: the resources become the old ones with this id overwritten; a JSON-file repository keeps its path and its table becomes the old table with the resource put, so a known id keeps its place in the order |
| `UpdatingNameUseCase.ApplyUpdate` | intro-domain-driven/resources/application/use_cases/updating_name.py:15-20 | KeyError exactly when the id is absent; otherwise the same ids, the named resource renamed with its id and type kept, and every other resource unchanged |
| `UpdatingNameUseCase.ApplyUpdateIdempotent` | intro-domain-driven/resources/application/use_cases/updating_name.py:15-20 | executing the same command twice gives the same state as executing it once |
| `UpdatingNameUseCase.UpdatingName.constructor` | intro-domain-driven/resources/application/use_cases/updating_name.py:12-13 | the use case keeps the repository it is given |
| `UpdatingNameUseCase.UpdatingName.Execute` | intro-domain-driven/resources/application/use_cases/updating_name.py:15-20 | get, set_name, save: the repository's resources become `ApplyUpdate` of the old ones; an unknown id fails with KeyError and leaves the repository object entirely unchanged, the JSON table's order included; a rename keeps the JSON-file repository's path and the order of its ids |
| `Main.CommandBus.constructor` | intro-domain-driven/resources/main.py:13-14 | a new bus has no handlers |
| `Main.CommandBus.Register` | intro-domain-driven/resources/main.py:16-17 | the type maps to the handler, replacing any earlier one, and other types keep their handlers |
| `Main.CommandBus.HandlerFor` | intro-domain-driven/resources/main.py:20 | the handler registered for exactly this type, or KeyError when there is none; the registry is unchanged |
| `Main.Dispatch` | intro-domain-driven/resources/main.py:19-21 | may change only the repository of the handler registered for the command's type; with no handler it fails with KeyError and nothing changes; otherwise that repository changes as one `execute` of the command makes it (its resources become `ApplyUpdate` of the old ones, and a JSON-file repository keeps its path and the order of its ids), and is left unchanged when `execute` fails; the registry is unchanged |
| `Main.AppContext.constructor` | intro-domain-driven/resources/main.py:24-27 | the context keeps the command bus it is given |
| `Main.BootstrapApp` | intro-domain-driven/resources/main.py:30-41 | on success the context and its bus are fresh, and the bus routes exactly `UpdateName`, to a fresh `UpdatingName` over a fresh JSON-file repository on that path, whose table, order included, is the one loaded from the file; a load error propagates |
| `Main.RenameWriteAndReload` | intro-domain-driven/tests/integration/test_json_file_resources.py:17-34 | opening, renaming, writing to a second file and reopening there yields a resource with the new name |

## Left out

- File text and the `json` module are not modelled. A file holds the object `json.loads` would return for it, as its items in document order with distinct keys. Invalid JSON, a top-level value that is not an object, an item whose value is not an object (the `TypeError` that `data["name"]` raises on it), and non-string values under "name" or "type" are not modelled.
- `write_text` failing (for example on a missing directory) is not modelled: writing always succeeds.
- UuidText.Parse: it covers the 32-hex-digit forms with hyphens anywhere. The `urn:`/`uuid:` prefixes, braces, signs, underscores, whitespace, the `0x`/`0X` prefixes and non-ASCII decimal digits, which Python's `UUID()` also tolerates, are not modelled.
- The pydantic `UUID4` check on `UpdateName.id` is library validation and is left out. An id is any 128-bit number.
- `Resource(type="lexicon")` with a plain string, which the domain test uses, is not modelled. The type is always a `ResourceType` member.
- Python dict order in the in-memory repository and in the command bus cannot be observed, so both are plain maps. Only the JSON-file repository keeps the order, because `write_to_path` writes in it.
- Main.Dispatch: handlers are `UpdatingName` objects and commands are `UpdateName` values, the only pair the application has. `CommandBus` itself is generic in its handler type. Python's duck-typed call of `execute` on any handler class is not modelled.
- `bootstrap_app`'s conversion of a `str` to a `Path` is left out, because paths are strings here. The `list_resources` query side (`JsonFileListResources`, `ListResources`) is not part of this model.
- The CLI scripts `intro-domain-driven/examples/app.py` and `app_cqrs.py`, and the `read-json-in-rust` and `snapshot-testing-in-python` projects, are I/O, printing and benchmarking code. They are not part of this model.
