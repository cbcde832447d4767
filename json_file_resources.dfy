/** The JSON-file repository: the same id-to-resource table as the in-memory
    one, loaded from a file whose top-level object maps `str(id)` to
    `{"name": ..., "type": ...}` and written back in that form.

    File text and the `json` module are abstracted: a file holds the JSON
    object `json.loads` would return for it, as its items in document order. */
module JsonFileResources {
  import opened Wrappers
  import opened Domain
  import UuidText

  type Path = string

  /** The object stored for one resource, restricted to string values. */
  type Fields = map<string, string>

  /** A JSON object: its `(key, value)` items in document order. */
  type JsonObject = seq<(string, Fields)>

  predicate DistinctKeys(doc: JsonObject) {
    forall i, j :: 0 <= i < j < |doc| ==> doc[i].0 != doc[j].0
  }

  /** A Python dict from id to resource. A dict remembers insertion order, and
      `write_to_path` writes its entries in that order. */
  datatype Table = Table(order: seq<Uuid>, entries: map<Uuid, ResourceRecord>) {

    /** `order` lists each key once; every resource is filed under its own id. */
    ghost predicate Valid() {
      && (forall i, j :: 0 <= i < j < |order| ==> order[i] != order[j])
      && (forall id :: id in entries <==> id in order)
      && (forall id :: id in entries ==> entries[id].id == id)
    }

    /** `d[r.id] = r`: a known key keeps its place and gets the new value,
        a new key goes to the end. */
    function Put(r: ResourceRecord): (t: Table)
      requires Valid()
      ensures t.Valid()
      ensures t.entries == entries[r.id := r]
      ensures t.order == if r.id in entries then order else order + [r.id]
    {
      if r.id in entries then Table(order, entries[r.id := r])
      else Table(order + [r.id], entries[r.id := r])
    }
  }

  const EmptyTable := Table([], map[])

  datatype LoadError =
    | FileNotFound(path: Path)
    | InvalidUuid(text: string)
    | MissingKey(key: string)
    | InvalidType(value: string)

  /** One item of `to_disk`: `str(res.id): {"name": res.name, "type": res.type.value}`.
      It holds exactly the two keys the loader reads, and decoding it gives
      back the resource. */
  function EncodeEntry(r: ResourceRecord): (e: (string, Fields))
    ensures e.1.Keys == {"name", "type"}
    ensures DecodeEntry(e.0, e.1) == Success(r)
  {
    ResourceTypeRoundTrip(r.kind, r.kind.Value());
    (UuidText.Format(r.id), map["name" := r.name, "type" := r.kind.Value()])
  }

  /** One turn of `load_from_path`'s loop without the insertion: `UUID(id)`,
      then `data["name"]`, then `data["type"]` and `ResourceType(...)`; the
      first that fails decides the error. */
  function DecodeEntry(key: string, fields: Fields): (r: Result<ResourceRecord, LoadError>)
    ensures UuidText.Parse(key).None? ==> r == Failure(InvalidUuid(key))
    ensures UuidText.Parse(key).Some? && "name" !in fields ==> r == Failure(MissingKey("name"))
    ensures UuidText.Parse(key).Some? && "name" in fields && "type" !in fields ==>
      r == Failure(MissingKey("type"))
    ensures UuidText.Parse(key).Some? && "name" in fields && "type" in fields ==>
      ParseResourceType(fields["type"]).None? ==> r == Failure(InvalidType(fields["type"]))
    ensures r.Success? <==>
      UuidText.Parse(key).Some? && "name" in fields && "type" in fields
      && ParseResourceType(fields["type"]).Some?
    ensures r.Success? ==>
      UuidText.Parse(key) == Some(r.value.id) && r.value.name == fields["name"]
      && r.value.kind.Value() == fields["type"]
  {
    match UuidText.Parse(key)
    case None => Failure(InvalidUuid(key))
    case Some(id) =>
      if "name" !in fields then Failure(MissingKey("name"))
      else if "type" !in fields then Failure(MissingKey("type"))
      else
        match ParseResourceType(fields["type"])
        case None => Failure(InvalidType(fields["type"]))
        case Some(kind) => Success(ResourceRecord(id, fields["name"], kind))
  }

  /** `to_disk`: one item per stored resource, in the dict's order, keyed
      by `str(id)` and holding that resource's name and type value. No two
      items share a key, so the dict comprehension drops nothing. */
  function Encode(t: Table): (doc: JsonObject)
    requires t.Valid()
    ensures |doc| == |t.order|
    ensures forall i :: 0 <= i < |doc| ==> doc[i] == EncodeEntry(t.entries[t.order[i]])
    ensures DistinctKeys(doc)
  {
    var doc := seq(|t.order|, i requires 0 <= i < |t.order| => EncodeEntry(t.entries[t.order[i]]));
    EncodedKeysDistinct(t.order, doc);
    doc
  }

  lemma EncodedKeysDistinct(order: seq<Uuid>, doc: JsonObject)
    requires forall i, j :: 0 <= i < j < |order| ==> order[i] != order[j]
    requires |doc| == |order|
    requires forall i :: 0 <= i < |doc| ==> doc[i].0 == UuidText.Format(order[i])
    ensures DistinctKeys(doc)
  {
    forall i, j | 0 <= i < j < |doc| ensures doc[i].0 != doc[j].0 {
      if doc[i].0 == doc[j].0 {
        UuidText.FormatInjective(order[i], order[j]);
      }
    }
  }

  /** Where `load_from_path`'s loop ends: the table after the items it got
      through, and the error that stopped it, if one did. */
  datatype Loaded = Loaded(table: Table, error: Option<LoadError>)

  /** `load_from_path` from table `t` over `items`: each item is decoded and
      put into the table in turn; the first item that fails to decode stops
      the loop, and what was put before it stays. */
  function LoadItems(t: Table, items: JsonObject): (r: Loaded)
    requires t.Valid()
    ensures r.table.Valid()
    ensures t.entries.Keys <= r.table.entries.Keys
    decreases |items|
  {
    if items == [] then Loaded(t, None)
    else
      match DecodeEntry(items[0].0, items[0].1)
      case Failure(e) => Loaded(t, Some(e))
      case Success(rec) => LoadItems(t.Put(rec), items[1..])
  }

  /** The load runs to the end exactly when every item decodes. */
  lemma {:induction false} LoadSucceedsIffAllDecode(t: Table, items: JsonObject)
    requires t.Valid()
    ensures LoadItems(t, items).error.None? <==>
      forall i :: 0 <= i < |items| ==> DecodeEntry(items[i].0, items[i].1).Success?
    decreases |items|
  {
    if items != [] && DecodeEntry(items[0].0, items[0].1).Success? {
      var rec := DecodeEntry(items[0].0, items[0].1).value;
      assert forall i :: 1 <= i < |items| ==> items[1..][i - 1] == items[i];
      LoadSucceedsIffAllDecode(t.Put(rec), items[1..]);
    }
  }

  /** The error `LoadItems` reports is that of the first item that fails. */
  lemma {:induction false} LoadStopsAtFirstError(t: Table, items: JsonObject, k: nat)
    requires t.Valid()
    requires k < |items| && DecodeEntry(items[k].0, items[k].1).Failure?
    requires forall i :: 0 <= i < k ==> DecodeEntry(items[i].0, items[i].1).Success?
    ensures LoadItems(t, items).error == Some(DecodeEntry(items[k].0, items[k].1).error)
    decreases k
  {
    if k > 0 {
      var rec := DecodeEntry(items[0].0, items[0].1).value;
      assert items[1..][k - 1] == items[k];
      LoadStopsAtFirstError(t.Put(rec), items[1..], k - 1);
    }
  }

  /** When the loop stops at an error, the table is what loading the items
      before it gives: those stay put, and nothing after the error is read. */
  lemma {:induction false} LoadKeepsPrefixOnError(t: Table, items: JsonObject, k: nat)
    requires t.Valid()
    requires k < |items| && DecodeEntry(items[k].0, items[k].1).Failure?
    requires forall i :: 0 <= i < k ==> DecodeEntry(items[i].0, items[i].1).Success?
    ensures LoadItems(t, items[..k]).error.None?
    ensures LoadItems(t, items).table == LoadItems(t, items[..k]).table
    decreases k
  {
    if k == 0 {
      assert items[..k] == [];
    } else {
      var rec := DecodeEntry(items[0].0, items[0].1).value;
      assert items[..k][0] == items[0];
      assert items[..k][1..] == items[1..][..k - 1];
      assert items[1..][k - 1] == items[k];
      assert forall i :: 0 <= i < k - 1 ==> items[1..][i] == items[i + 1];
      LoadKeepsPrefixOnError(t.Put(rec), items[1..], k - 1);
    }
  }

  /** The ids the items of `items` that decode stand for. */
  ghost function DecodedIds(items: JsonObject): set<Uuid> {
    set i | 0 <= i < |items| && DecodeEntry(items[i].0, items[i].1).Success?
      :: DecodeEntry(items[i].0, items[i].1).value.id
  }

  /** A load adds no id but those of items that decode. */
  lemma {:induction false} LoadAddsOnlyDecodedIds(t: Table, items: JsonObject)
    requires t.Valid()
    ensures LoadItems(t, items).table.entries.Keys <= t.entries.Keys + DecodedIds(items)
    decreases |items|
  {
    if items != [] && DecodeEntry(items[0].0, items[0].1).Success? {
      var rec := DecodeEntry(items[0].0, items[0].1).value;
      assert rec.id in DecodedIds(items);
      forall id | id in DecodedIds(items[1..]) ensures id in DecodedIds(items) {
        var i :| 0 <= i < |items[1..]| && DecodeEntry(items[1..][i].0, items[1..][i].1).Success?
          && DecodeEntry(items[1..][i].0, items[1..][i].1).value.id == id;
        assert items[1..][i] == items[i + 1];
      }
      LoadAddsOnlyDecodedIds(t.Put(rec), items[1..]);
    }
  }

  /** A load, whether it runs to the end or stops at an error, leaves alone
      the resource of an id no item decodes to. */
  lemma {:induction false} LoadKeepsUntouched(t: Table, items: JsonObject, id: Uuid)
    requires t.Valid() && id in t.entries
    requires forall j :: 0 <= j < |items| && DecodeEntry(items[j].0, items[j].1).Success? ==>
      DecodeEntry(items[j].0, items[j].1).value.id != id
    ensures LoadItems(t, items).table.entries[id] == t.entries[id]
    decreases |items|
  {
    if items != [] && DecodeEntry(items[0].0, items[0].1).Success? {
      var rec := DecodeEntry(items[0].0, items[0].1).value;
      assert forall j :: 1 <= j < |items| ==> items[1..][j - 1] == items[j];
      LoadKeepsUntouched(t.Put(rec), items[1..], id);
    }
  }

  /** Once the loop has reached item `k`, its id holds the resource of the
      last item that decodes to it: each item inserts or overwrites its own
      entry, and an error later on takes nothing back. */
  lemma {:induction false} LoadLastWins(t: Table, items: JsonObject, k: nat)
    requires t.Valid() && k < |items|
    requires forall j :: 0 <= j <= k ==> DecodeEntry(items[j].0, items[j].1).Success?
    requires forall j :: k < j < |items| && DecodeEntry(items[j].0, items[j].1).Success? ==>
      DecodeEntry(items[j].0, items[j].1).value.id != DecodeEntry(items[k].0, items[k].1).value.id
    ensures var rec := DecodeEntry(items[k].0, items[k].1).value;
      rec.id in LoadItems(t, items).table.entries && LoadItems(t, items).table.entries[rec.id] == rec
    decreases k
  {
    var first := DecodeEntry(items[0].0, items[0].1).value;
    assert forall j :: 1 <= j < |items| ==> items[1..][j - 1] == items[j];
    if k == 0 {
      LoadKeepsUntouched(t.Put(first), items[1..], first.id);
    } else {
      LoadLastWins(t.Put(first), items[1..], k - 1);
    }
  }

  /** The first `k` resources of `t`, in `t`'s order. */
  function Prefix(t: Table, k: nat): (p: Table)
    requires t.Valid() && k <= |t.order|
    ensures p.Valid()
  {
    Table(t.order[..k], map id | id in t.order[..k] :: t.entries[id])
  }

  lemma PrefixStep(t: Table, k: nat)
    requires t.Valid() && k < |t.order|
    ensures Prefix(t, k).Put(t.entries[t.order[k]]) == Prefix(t, k + 1)
  {
    var id := t.order[k];
    assert id !in t.order[..k];
    assert t.order[..k] + [id] == t.order[..k + 1];
  }

  /** Loading item `k` of the encoding puts resource `k` back after the
      first `k`. */
  lemma LoadEncodedStep(t: Table, k: nat)
    requires t.Valid() && k < |t.order|
    ensures LoadItems(Prefix(t, k), Encode(t)[k..]) == LoadItems(Prefix(t, k + 1), Encode(t)[k + 1..])
  {
    var doc := Encode(t);
    var rec := t.entries[t.order[k]];
    var item := EncodeEntry(rec);
    assert doc[k..][0] == item;
    assert DecodeEntry(item.0, item.1) == Success(rec);
    PrefixStep(t, k);
    assert doc[k..][1..] == doc[k + 1..];
  }

  lemma {:induction false} LoadEncodedSuffix(t: Table, k: nat)
    requires t.Valid() && k <= |t.order|
    ensures LoadItems(Prefix(t, k), Encode(t)[k..]) == Loaded(t, None)
    decreases |t.order| - k
  {
    if k == |t.order| {
      assert Encode(t)[k..] == [];
      assert t.order[..k] == t.order;
      assert Prefix(t, k).entries == t.entries;
    } else {
      LoadEncodedStep(t, k);
      LoadEncodedSuffix(t, k + 1);
    }
  }

  /** Reading back what `write_to_path` wrote into an empty repository gives
      the same table, order included: encoding loses nothing. */
  lemma EncodeDecodeRoundTrip(t: Table)
    requires t.Valid()
    ensures LoadItems(EmptyTable, Encode(t)) == Loaded(t, None)
  {
    LoadEncodedSuffix(t, 0);
    assert Prefix(t, 0) == EmptyTable;
  }

  /** The file system the repository reads and writes: what each path holds. */
  class Disk {
    var files: map<Path, JsonObject>

    /** Each file holds a JSON object, which names a key at most once. */
    ghost predicate Valid()
      reads this
    {
      forall p :: p in files ==> DistinctKeys(files[p])
    }

    constructor (files: map<Path, JsonObject>)
      requires forall p :: p in files ==> DistinctKeys(files[p])
      ensures Valid() && this.files == files
    {
      this.files := files;
    }
  }

  class JsonFileResourceRepository {
    var path: Path
    var table: Table

    ghost predicate Valid()
      reads this
    {
      table.Valid()
    }

    /** `__init__` up to the call of `load_from_path`; `Open` makes that call. */
    constructor (path: Path)
      ensures Valid() && this.path == path && table == EmptyTable
    {
      this.path := path;
      table := EmptyTable;
    }

    /** Reads the file at the stored path; the `path` argument is not used.
        A missing file raises before anything is loaded; a bad item stops
        the loop and leaves the items before it loaded. */
    method LoadFromPath(path: Path, disk: Disk) returns (outcome: Outcome<LoadError>)
      requires Valid() && disk.Valid()
      modifies this`table
      ensures Valid()
      ensures this.path !in disk.files ==> outcome == Fail(FileNotFound(this.path)) && table == old(table)
      ensures this.path in disk.files ==>
        var loaded := LoadItems(old(table), disk.files[this.path]);
        && table == loaded.table
        && outcome == if loaded.error.None? then Pass else Fail(loaded.error.value)
    {
      if this.path !in disk.files {
        return Fail(FileNotFound(this.path));
      }
      var items := disk.files[this.path];
      var i := 0;
      while i < |items|
        invariant 0 <= i <= |items|
        invariant table.Valid()
        invariant LoadItems(old(table), items) == LoadItems(table, items[i..])
      {
        assert items[i..][1..] == items[i + 1..];
        var decoded := DecodeEntry(items[i].0, items[i].1);
        if decoded.Failure? {
          return Fail(decoded.error);
        }
        table := table.Put(decoded.value);
        i := i + 1;
      }
      assert items[i..] == [];
      return Pass;
    }

    /** A fresh copy of the stored resource, or KeyError for an unknown id. */
    method Get(id: Uuid) returns (r: Result<Resource, KeyError<Uuid>>)
      requires Valid()
      ensures r.Failure? <==> id !in table.entries
      ensures r.Failure? ==> r.error == KeyError(id)
      ensures r.Success? ==> fresh(r.value) && r.value.Snapshot() == table.entries[id]
    {
      if id !in table.entries {
        return Failure(KeyError(id));
      }
      var stored := table.entries[id];
      var copy := new Resource(stored.id, stored.name, stored.kind);
      return Success(copy);
    }

    /** Insert or overwrite a copy of `resource` under its id. */
    method Save(resource: Resource)
      requires Valid()
      modifies this`table
      ensures Valid()
      ensures table == old(table).Put(resource.Snapshot())
    {
      table := table.Put(resource.Snapshot());
    }

    /** Writes `to_disk` to the given path, which becomes the stored path,
        or to the stored path when none is given. */
    method WriteToPath(path: Option<Path>, disk: Disk)
      requires Valid() && disk.Valid()
      modifies this`path, disk
      ensures Valid() && disk.Valid()
      ensures this.path == if path.Some? then path.value else old(this.path)
      ensures disk.files == old(disk.files)[this.path := Encode(table)]
    {
      var toDisk := Encode(table);
      if path.Some? {
        this.path := path.value;
      }
      disk.files := disk.files[this.path := toDisk];
    }
  }

  /** `JsonFileResourceRepository(path)`: a new repository loaded from the
      file at `path`; an error while loading propagates and no repository
      is made. */
  method Open(path: Path, disk: Disk) returns (r: Result<JsonFileResourceRepository, LoadError>)
    requires disk.Valid()
    ensures path !in disk.files ==> r == Failure(FileNotFound(path))
    ensures path in disk.files ==>
      var loaded := LoadItems(EmptyTable, disk.files[path]);
      && (r.Success? <==> loaded.error.None?)
      && (r.Failure? ==> r.error == loaded.error.value)
      && (r.Success? ==> fresh(r.value) && r.value.Valid() && r.value.path == path && r.value.table == loaded.table)
  {
    var repo := new JsonFileResourceRepository(path);
    var outcome := repo.LoadFromPath(path, disk);
    if outcome.Fail? {
      return Failure(outcome.error);
    }
    return Success(repo);
  }

  /** Writing the repository to a path and opening a new repository on that
      path gives back the same resources in the same order. */
  method ReopenAfterWrite(repo: JsonFileResourceRepository, target: Path, disk: Disk)
    returns (copy: Result<JsonFileResourceRepository, LoadError>)
    requires repo.Valid() && disk.Valid()
    modifies repo`path, disk
    ensures disk.Valid()
    ensures copy.Success? && copy.value.table == repo.table && copy.value.path == target
  {
    repo.WriteToPath(Some(target), disk);
    EncodeDecodeRoundTrip(repo.table);
    copy := Open(target, disk);
  }
}
