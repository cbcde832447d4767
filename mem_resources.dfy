/** The in-memory repository: a dict from id to resource. Both `save` and
    `get` deep-copy, so the repository holds values that no caller can
    reach and change; here it holds `ResourceRecord` values. */
module MemResources {
  import opened Wrappers
  import opened Domain

  class InMemoryResourceRepository {
    var resources: map<Uuid, ResourceRecord>

    /** Every resource is filed under its own id. */
    ghost predicate Valid()
      reads this
    {
      forall id :: id in resources ==> resources[id].id == id
    }

    /** A new repository holds no resources. */
    constructor ()
      ensures Valid() && resources == map[]
    {
      resources := map[];
    }

    /** Insert or overwrite the entry for `resource.id`; no other entry changes. */
    method Save(resource: Resource)
      requires Valid()
      modifies this
      ensures Valid()
      ensures resources == old(resources)[resource.id := resource.Snapshot()]
    {
      resources := resources[resource.id := resource.Snapshot()];
    }

    /** A fresh copy of the stored resource, or KeyError for an unknown id.
        The store is not changed. */
    method Get(id: Uuid) returns (r: Result<Resource, KeyError<Uuid>>)
      requires Valid()
      ensures r.Failure? <==> id !in resources
      ensures r.Failure? ==> r.error == KeyError(id)
      ensures r.Success? ==> fresh(r.value) && r.value.Snapshot() == resources[id]
    {
      if id !in resources {
        return Failure(KeyError(id));
      }
      var stored := resources[id];
      var copy := new Resource(stored.id, stored.name, stored.kind);
      return Success(copy);
    }
  }

  /** Renaming an object after saving it, or renaming the object `get`
      returned, leaves what the repository holds as it was. */
  method CopiesAreIsolated(repo: InMemoryResourceRepository, resource: Resource, name: string)
    requires repo.Valid()
    modifies repo, resource
    ensures repo.Valid()
    ensures repo.resources == old(repo.resources)[resource.id := old(resource.Snapshot())]
  {
    repo.Save(resource);
    resource.SetName(name);
    var fetched := repo.Get(resource.id);
    fetched.value.SetName(name);
  }
}
