/**
 * The profile document: `Profiles` (the root), `Profile` and `Parameter`,
 * and the value each object denotes. No operation replaces a vector of the
 * document, so the sequences of objects are fixed at construction (`const`)
 * and only the objects' other fields change.
 */
module ProfileModel {
  import opened Wrappers
  import opened Primitives

  /** The content of one `Parameter`. */
  datatype ParameterValue = ParameterValue(providerNo: I8, shortName: string, edifactNo: Option<U16>)

  /** The content of one `Profile`. */
  datatype ProfileValue = ProfileValue(name: string, parameters: seq<ParameterValue>)

  /** The content of a whole `Profiles` document. */
  datatype Document = Document(docName: string, meAddress: string, profiles: seq<ProfileValue>)

  /** One remappable unit. */
  class Parameter {
    var providerNo: I8
    var shortName: string
    var edifactNo: Option<U16>

    constructor (providerNo: I8, shortName: string, edifactNo: Option<U16>)
      ensures Value() == ParameterValue(providerNo, shortName, edifactNo)
    {
      this.providerNo := providerNo;
      this.shortName := shortName;
      this.edifactNo := edifactNo;
    }

    ghost function Value(): ParameterValue
      reads this
    {
      ParameterValue(providerNo, shortName, edifactNo)
    }

    /** `set_provider`: overwrite the provider number, nothing else. */
    method SetProvider(id: I8)
      modifies this
      ensures Value() == old(Value()).(providerNo := id)
    {
      providerNo := id;
    }

    /** `set_short_name`: overwrite the short name, nothing else. */
    method SetShortName(newName: string)
      modifies this
      ensures Value() == old(Value()).(shortName := newName)
    {
      shortName := newName;
    }
  }

  /** The values of a sequence of parameter objects, position by position. */
  ghost function ParameterValues(ps: seq<Parameter>): (r: seq<ParameterValue>)
    reads ps
    ensures |r| == |ps|
    ensures forall j | 0 <= j < |ps| :: r[j] == ps[j].Value()
  {
    seq(|ps|, j reads ps requires 0 <= j < |ps| => ps[j].Value())
  }

  /** One named group of parameters. */
  class Profile {
    var name: string
    const parameters: seq<Parameter>

    constructor (name: string, parameters: seq<Parameter>)
      ensures this.name == name && this.parameters == parameters
    {
      this.name := name;
      this.parameters := parameters;
    }

    ghost function Value(): ProfileValue
      reads this, parameters
    {
      ProfileValue(name, ParameterValues(parameters))
    }

    /** `append_name`: extend the name; the parameters are not touched. */
    method AppendName(s: string)
      modifies this
      ensures Value() == old(Value()).(name := old(name) + s)
    {
      name := name + s;
    }
  }

  /** The parameter objects held by a sequence of profiles. */
  ghost function Owned(prs: seq<Profile>): set<Parameter> {
    set i, j | 0 <= i < |prs| && 0 <= j < |prs[i].parameters| :: prs[i].parameters[j]
  }

  /** No parameter object sits at two positions of the profiles (the Rust value tree never aliases). */
  ghost predicate Exclusive(prs: seq<Profile>) {
    forall i, j, i', j' |
      && 0 <= i < |prs| && 0 <= j < |prs[i].parameters|
      && 0 <= i' < |prs| && 0 <= j' < |prs[i'].parameters|
      && prs[i].parameters[j] == prs[i'].parameters[j']
      :: i == i' && j == j'
  }

  /** The values of a sequence of profile objects, position by position. */
  ghost function ProfileValues(prs: seq<Profile>): (r: seq<ProfileValue>)
    reads prs, Owned(prs)
    ensures |r| == |prs|
    ensures forall i | 0 <= i < |prs| :: r[i] == prs[i].Value()
  {
    seq(|prs|, i reads prs, Owned(prs) requires 0 <= i < |prs| => prs[i].Value())
  }

  /** The document root. */
  class Profiles {
    var docName: string
    var meAddress: string
    const profiles: seq<Profile>

    constructor (docName: string, meAddress: string, profiles: seq<Profile>)
      requires Exclusive(profiles)
      ensures this.docName == docName && this.meAddress == meAddress && this.profiles == profiles
      ensures Valid()
    {
      this.docName := docName;
      this.meAddress := meAddress;
      this.profiles := profiles;
    }

    /**
     * Ownership: the document owns its parameters, so no parameter object
     * sits at two positions (the Rust value tree never aliases).
     */
    ghost predicate Valid() {
      Exclusive(profiles)
    }

    ghost function Value(): Document
      reads this, profiles, Owned(profiles)
    {
      Document(docName, meAddress, ProfileValues(profiles))
    }
  }
}
