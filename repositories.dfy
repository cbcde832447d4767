/** `ResourceRepository`: the interface the use case is written against,
    with `get` and `save`. Its two implementations are the in-memory and the
    JSON-file repository; a value of `Repository` is one of them, and its
    methods forward to it. */
module Repositories {
  import opened Wrappers
  import opened Domain
  import MemResources
  import JsonFileResources

  datatype Repository =
    | InMemory(mem: MemResources.InMemoryResourceRepository)
    | JsonFile(json: JsonFileResources.JsonFileResourceRepository)
  {
    /** The object whose state the repository is. */
    function Object(): object {
      match this
      case InMemory(m) => m
      case JsonFile(j) => j
    }

    ghost predicate Valid()
      reads Object()
    {
      match this
      case InMemory(m) => m.Valid()
      case JsonFile(j) => j.Valid()
    }

    /** The resources held, by id. */
    ghost function Resources(): map<Uuid, ResourceRecord>
      reads Object()
    {
      match this
      case InMemory(m) => m.resources
      case JsonFile(j) => j.table.entries
    }

    /** `get`: a fresh copy of the resource filed under `id`, or KeyError. */
    method Get(id: Uuid) returns (r: Result<Resource, KeyError<Uuid>>)
      requires Valid()
      ensures r.Failure? <==> id !in Resources()
      ensures r.Failure? ==> r.error == KeyError(id)
      ensures r.Success? ==> fresh(r.value) && r.value.Snapshot() == Resources()[id]
    {
      match this
      case InMemory(m) => r := m.Get(id);
      case JsonFile(j) => r := j.Get(id);
    }

    /** `save`: file a copy of `resource` under its id; other ids keep their
        resources. A JSON-file repository keeps its path. */
    method Save(resource: Resource)
      requires Valid()
      modifies Object()
      ensures Valid()
      ensures Resources() == old(Resources())[resource.id := resource.Snapshot()]
      ensures JsonFile? ==> json.path == old(json.path)
      ensures JsonFile? ==> json.table == old(json.table).Put(resource.Snapshot())
    {
      match this
      case InMemory(m) => m.Save(resource);
      case JsonFile(j) => j.Save(resource);
    }
  }
}
