/** The domain entity: a resource (a corpus or a lexicon) with a fixed id and
    type and a name that can be changed. */
module Domain {
  import opened Wrappers

  /** A UUID is a 128-bit number. */
  type Uuid = u: nat | u < 0x1_0000_0000_0000_0000_0000_0000_0000_0000

  /** The two kinds of resource; as a `str` enum each member has a string value. */
  datatype ResourceType = Corpus | Lexicon {

    /** `ResourceType.value`, which is what the JSON file stores. */
    function Value(): (s: string)
      ensures s == "corpus" || s == "lexicon"
    {
      match this
      case Corpus => "corpus"
      case Lexicon => "lexicon"
    }
  }

  /** `ResourceType(s)`: the member whose value is `s`; any other string
      raises ValueError, here `None`. */
  function ParseResourceType(s: string): (r: Option<ResourceType>)
    ensures r.Some? <==> s == "corpus" || s == "lexicon"
    ensures r.Some? ==> r.value.Value() == s
  {
    if s == "corpus" then Some(Corpus)
    else if s == "lexicon" then Some(Lexicon)
    else None
  }

  /** Value and lookup are inverse: the enum has exactly the two members
      and their string values are distinct. */
  lemma ResourceTypeRoundTrip(t: ResourceType, s: string)
    ensures ParseResourceType(t.Value()) == Some(t)
    ensures ParseResourceType(s) == Some(t) <==> s == t.Value()
  {
  }

  /** The value of a resource at one moment: what `copy.deepcopy` captures
      and what a repository keeps. */
  datatype ResourceRecord = ResourceRecord(id: Uuid, name: string, kind: ResourceType)

  /** The entity. `id` and the type have no setter, so they are constants;
      the name is the only field that changes. */
  class Resource {
    const id: Uuid
    var name: string
    const kind: ResourceType

    constructor (id: Uuid, name: string, kind: ResourceType)
      ensures this.id == id && this.name == name && this.kind == kind
    {
      this.id := id;
      this.name := name;
      this.kind := kind;
    }

    /** The record a deep copy of this object holds. */
    function Snapshot(): ResourceRecord
      reads this
    {
      ResourceRecord(id, name, kind)
    }

    /** Accepts any name: nothing is validated. */
    method SetName(name: string)
      modifies this
      ensures this.name == name
      ensures Snapshot() == old(Snapshot()).(name := name)
    {
      this.name := name;
    }
  }
}
