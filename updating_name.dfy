/** The use case that renames a resource: fetch it from the repository,
    set its name, save it back. */
module UpdatingNameUseCase {
  import opened Wrappers
  import opened Domain
  import opened Repositories

  /** The command: which resource, and its new name. */
  datatype UpdateName = UpdateName(id: Uuid, name: string)

  /** What one `execute` does to the repository's resources: KeyError when
      the id is unknown, otherwise the resource under that id renamed. */
  function ApplyUpdate(t: map<Uuid, ResourceRecord>, input: UpdateName)
    : (r: Result<map<Uuid, ResourceRecord>, KeyError<Uuid>>)
    ensures r.Failure? <==> input.id !in t
    ensures r.Failure? ==> r.error == KeyError(input.id)
    ensures r.Success? ==>
      && r.value.Keys == t.Keys
      && r.value[input.id].name == input.name
      && r.value[input.id].id == t[input.id].id
      && r.value[input.id].kind == t[input.id].kind
      && forall id :: id in t && id != input.id ==> r.value[id] == t[id]
  {
    if input.id !in t then Failure(KeyError(input.id))
    else Success(t[input.id := t[input.id].(name := input.name)])
  }

  /** Executing the same command a second time changes nothing more. */
  lemma ApplyUpdateIdempotent(t: map<Uuid, ResourceRecord>, input: UpdateName)
    ensures ApplyUpdate(t, input).Success? ==>
      ApplyUpdate(ApplyUpdate(t, input).value, input) == ApplyUpdate(t, input)
  {
    if input.id in t {
      var once := ApplyUpdate(t, input).value;
      assert once[input.id].(name := input.name) == once[input.id];
      assert once[input.id := once[input.id].(name := input.name)] == once;
    }
  }

  class UpdatingName {
    const repo: Repository

    constructor (repo: Repository)
      ensures this.repo == repo
    {
      this.repo := repo;
    }

    /** get, then set_name, then save. An unknown id raises KeyError out of
        `get`, before anything is changed. */
    method Execute(input: UpdateName) returns (outcome: Outcome<KeyError<Uuid>>)
      requires repo.Valid()
      modifies repo.Object()
      ensures repo.Valid()
      ensures repo.JsonFile? ==> repo.json.path == old(repo.json.path)
      ensures repo.JsonFile? ==> repo.json.table.order == old(repo.json.table.order)
      ensures match ApplyUpdate(old(repo.Resources()), input)
        case Success(t) => outcome == Pass && repo.Resources() == t
        case Failure(e) => outcome == Fail(e) && repo.Resources() == old(repo.Resources())
      ensures outcome.Fail? ==> unchanged(repo.Object())
    {
      var fetched := repo.Get(input.id);
      if fetched.Failure? {
        return Fail(fetched.error);
      }
      var resource := fetched.value;
      resource.SetName(input.name);
      repo.Save(resource);
      return Pass;
    }
  }
}
