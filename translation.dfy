/**
 * `update_profiles`: the two-stage remapping. Every parameter of every
 * profile, in order, gets the provider number; its short name is looked up
 * in the source table (name -> code), falling back to the code "-1", and
 * that code is looked up in the target table (code -> name); only a hit in
 * the second lookup overwrites the short name. Each miss is reported and
 * the walk goes on.
 */
module Translation {
  import opened Wrappers
  import opened Primitives
  import opened ProfileModel

  /** The code looked up in the target table when the source table has no entry. */
  const Sentinel: string := "-1"

  /** Stage one: the canonical code of a short name, or the sentinel on a miss. */
  function CanonicalCode(shortName: string, sourceMap: map<string, string>): string {
    if shortName in sourceMap then sourceMap[shortName] else Sentinel
  }

  /** One parameter after translation. */
  function UpdatedParameter(p: ParameterValue, sourceMap: map<string, string>, targetMap: map<string, string>,
                            provider: I8): ParameterValue
  {
    var code := CanonicalCode(p.shortName, sourceMap);
    p.(providerNo := provider, shortName := if code in targetMap then targetMap[code] else p.shortName)
  }

  /** One profile after translation: each of its parameters translated in place. */
  function UpdatedProfile(pr: ProfileValue, sourceMap: map<string, string>, targetMap: map<string, string>,
                          provider: I8): ProfileValue
  {
    pr.(parameters := seq(|pr.parameters|, j requires 0 <= j < |pr.parameters| =>
                            UpdatedParameter(pr.parameters[j], sourceMap, targetMap, provider)))
  }

  /** The document after translation. */
  function UpdatedDocument(d: Document, sourceMap: map<string, string>, targetMap: map<string, string>,
                           provider: I8): Document
  {
    d.(profiles := seq(|d.profiles|, i requires 0 <= i < |d.profiles| =>
                         UpdatedProfile(d.profiles[i], sourceMap, targetMap, provider)))
  }

  /** The two messages printed on a miss (their text is not modelled, only what they identify). */
  datatype Diagnostic =
    | SourceMiss(shortName: string)                             // not found in source translation
    | TargetMiss(code: string, shortName: string, profile: string) // no match found in target translation

  /** The messages printed while translating one parameter of the named profile. */
  function ParameterDiagnostics(profile: string, p: ParameterValue, sourceMap: map<string, string>,
                                targetMap: map<string, string>): seq<Diagnostic>
  {
    var code := CanonicalCode(p.shortName, sourceMap);
    (if p.shortName in sourceMap then [] else [SourceMiss(p.shortName)])
    + (if code in targetMap then [] else [TargetMiss(code, p.shortName, profile)])
  }

  /** The messages for the parameters of one profile, in order. */
  function ParametersDiagnostics(profile: string, ps: seq<ParameterValue>, sourceMap: map<string, string>,
                                 targetMap: map<string, string>): seq<Diagnostic>
  {
    if ps == [] then []
    else ParametersDiagnostics(profile, ps[..|ps| - 1], sourceMap, targetMap)
         + ParameterDiagnostics(profile, ps[|ps| - 1], sourceMap, targetMap)
  }

  /** The messages for a sequence of profiles, in traversal order. */
  function ProfilesDiagnostics(prs: seq<ProfileValue>, sourceMap: map<string, string>,
                               targetMap: map<string, string>): seq<Diagnostic>
  {
    if prs == [] then []
    else ProfilesDiagnostics(prs[..|prs| - 1], sourceMap, targetMap)
         + ParametersDiagnostics(prs[|prs| - 1].name, prs[|prs| - 1].parameters, sourceMap, targetMap)
  }

  /** One more parameter walked: its messages follow those of the parameters before it. */
  lemma ParametersDiagnosticsStep(profile: string, ps: seq<ParameterValue>, j: nat,
                                  sourceMap: map<string, string>, targetMap: map<string, string>)
    requires j < |ps|
    ensures ParametersDiagnostics(profile, ps[..j + 1], sourceMap, targetMap)
            == ParametersDiagnostics(profile, ps[..j], sourceMap, targetMap)
               + ParameterDiagnostics(profile, ps[j], sourceMap, targetMap)
  {
    assert ps[..j + 1][..j] == ps[..j];
  }

  /** One more profile walked: its messages follow those of the profiles before it. */
  lemma ProfilesDiagnosticsStep(prs: seq<ProfileValue>, i: nat, sourceMap: map<string, string>,
                                targetMap: map<string, string>)
    requires i < |prs|
    ensures ProfilesDiagnostics(prs[..i + 1], sourceMap, targetMap)
            == ProfilesDiagnostics(prs[..i], sourceMap, targetMap)
               + ParametersDiagnostics(prs[i].name, prs[i].parameters, sourceMap, targetMap)
  {
    assert prs[..i + 1][..i] == prs[..i];
  }

  /** A parameter both of whose lookups hit. */
  predicate Resolves(p: ParameterValue, sourceMap: map<string, string>, targetMap: map<string, string>) {
    p.shortName in sourceMap && sourceMap[p.shortName] in targetMap
  }

  /**
   * The loop body of `update_profiles` for one parameter: stamp the
   * provider, resolve the short name to a code (or the sentinel), and
   * rename only when the code is in the target table.
   */
  method UpdateParameter(parameter: Parameter, profileName: string, sourceMap: map<string, string>,
                         targetMap: map<string, string>, provider: I8)
    returns (diagnostics: seq<Diagnostic>)
    modifies parameter
    ensures parameter.Value() == UpdatedParameter(old(parameter.Value()), sourceMap, targetMap, provider)
    ensures diagnostics == ParameterDiagnostics(profileName, old(parameter.Value()), sourceMap, targetMap)
  {
    diagnostics := [];
    parameter.SetProvider(provider);
    var foundEdi := Sentinel;
    if parameter.shortName in sourceMap {
      foundEdi := sourceMap[parameter.shortName];
    } else {
      diagnostics := diagnostics + [SourceMiss(parameter.shortName)];
    }
    if foundEdi in targetMap {
      parameter.SetShortName(targetMap[foundEdi]);
    } else {
      diagnostics := diagnostics + [TargetMiss(foundEdi, parameter.shortName, profileName)];
    }
  }

  /** No parameter object sits at two positions of one profile. */
  ghost predicate DistinctParameters(profile: Profile) {
    forall j, j' | 0 <= j < j' < |profile.parameters| :: profile.parameters[j] != profile.parameters[j']
  }

  /** The inner loop of `update_profiles`: every parameter of one profile, in order. */
  method UpdateProfile(profile: Profile, sourceMap: map<string, string>, targetMap: map<string, string>,
                       provider: I8)
    returns (diagnostics: seq<Diagnostic>)
    requires DistinctParameters(profile)
    modifies profile.parameters
    ensures forall j | 0 <= j < |profile.parameters| ::
              profile.parameters[j].Value()
              == UpdatedParameter(old(profile.parameters[j].Value()), sourceMap, targetMap, provider)
    ensures diagnostics == ParametersDiagnostics(profile.name, old(ParameterValues(profile.parameters)),
                                                 sourceMap, targetMap)
  {
    ghost var before := ParameterValues(profile.parameters);
    var params := profile.parameters;
    diagnostics := [];
    var j := 0;
    while j < |params|
      invariant 0 <= j <= |params|
      invariant forall j' | 0 <= j' < |params| ::
                  params[j'].Value()
                  == if j' < j then UpdatedParameter(before[j'], sourceMap, targetMap, provider)
                     else before[j']
      invariant diagnostics == ParametersDiagnostics(profile.name, before[..j], sourceMap, targetMap)
    {
      var more := UpdateParameter(params[j], profile.name, sourceMap, targetMap, provider);
      diagnostics := diagnostics + more;
      ParametersDiagnosticsStep(profile.name, before, j, sourceMap, targetMap);
      j := j + 1;
    }
    assert before[..j] == before;
  }

  /** Ownership gives each profile distinct parameter objects. */
  lemma ValidProfileDistinct(profiles: Profiles, i: int)
    requires profiles.Valid() && 0 <= i < |profiles.profiles|
    ensures DistinctParameters(profiles.profiles[i])
  {
  }

  /** Ownership keeps the parameter objects of two different profiles apart. */
  lemma ValidProfilesSeparate(profiles: Profiles, i: int, k: int)
    requires profiles.Valid() && 0 <= i < |profiles.profiles| && 0 <= k < |profiles.profiles| && i != k
    ensures forall j | 0 <= j < |profiles.profiles[k].parameters| ::
              profiles.profiles[k].parameters[j] !in profiles.profiles[i].parameters
  {
  }

  /**
   * One pass of the outer loop of `update_profiles`: the parameters of
   * profile `i` are translated and, because parameters are owned by one
   * profile only, those of every other profile are left as they were.
   */
  method UpdateProfileAt(profiles: Profiles, i: nat, sourceMap: map<string, string>,
                         targetMap: map<string, string>, provider: I8)
    returns (diagnostics: seq<Diagnostic>)
    requires profiles.Valid() && i < |profiles.profiles|
    modifies profiles.profiles[i].parameters
    ensures forall k, j | 0 <= k < |profiles.profiles| && 0 <= j < |profiles.profiles[k].parameters| ::
              profiles.profiles[k].parameters[j].Value()
              == if k == i then UpdatedParameter(old(profiles.profiles[k].parameters[j].Value()),
                                                 sourceMap, targetMap, provider)
                 else old(profiles.profiles[k].parameters[j].Value())
    ensures diagnostics == ParametersDiagnostics(profiles.profiles[i].name,
                                                 old(ParameterValues(profiles.profiles[i].parameters)),
                                                 sourceMap, targetMap)
  {
    ValidProfileDistinct(profiles, i);
    diagnostics := UpdateProfile(profiles.profiles[i], sourceMap, targetMap, provider);
    forall k | 0 <= k < |profiles.profiles| && k != i {
      ValidProfilesSeparate(profiles, i, k);
    }
  }

  /** A document whose parameters all carry their translated values is the translated document. */
  lemma TranslatedDocument(profiles: Profiles, before: Document, sourceMap: map<string, string>,
                           targetMap: map<string, string>, provider: I8)
    requires profiles.docName == before.docName && profiles.meAddress == before.meAddress
    requires |profiles.profiles| == |before.profiles|
    requires forall k | 0 <= k < |profiles.profiles| ::
               profiles.profiles[k].name == before.profiles[k].name
               && |profiles.profiles[k].parameters| == |before.profiles[k].parameters|
    requires forall k, j | 0 <= k < |profiles.profiles| && 0 <= j < |profiles.profiles[k].parameters| ::
               profiles.profiles[k].parameters[j].Value()
               == UpdatedParameter(before.profiles[k].parameters[j], sourceMap, targetMap, provider)
    ensures profiles.Value() == UpdatedDocument(before, sourceMap, targetMap, provider)
  {
    var prs := profiles.profiles;
    forall k | 0 <= k < |prs|
      ensures prs[k].Value() == UpdatedProfile(before.profiles[k], sourceMap, targetMap, provider)
    {
      assert prs[k].Value().parameters
             == UpdatedProfile(before.profiles[k], sourceMap, targetMap, provider).parameters;
    }
  }

  /**
   * `update_profiles`. The object tree is changed in place (only parameter
   * objects are written); the printed messages are returned in the order
   * they are printed.
   */
  method UpdateProfiles(profiles: Profiles, sourceMap: map<string, string>, targetMap: map<string, string>,
                        provider: I8)
    returns (diagnostics: seq<Diagnostic>)
    requires profiles.Valid()
    modifies Owned(profiles.profiles)
    ensures profiles.Value() == UpdatedDocument(old(profiles.Value()), sourceMap, targetMap, provider)
    ensures diagnostics == ProfilesDiagnostics(old(profiles.Value()).profiles, sourceMap, targetMap)
  {
    ghost var before := profiles.Value();
    ghost var values := before.profiles;
    var prs := profiles.profiles;
    diagnostics := [];
    var i := 0;
    while i < |prs|
      invariant 0 <= i <= |prs|
      invariant forall k, j | 0 <= k < |prs| && 0 <= j < |prs[k].parameters| ::
                  prs[k].parameters[j].Value()
                  == if k < i then UpdatedParameter(values[k].parameters[j], sourceMap, targetMap, provider)
                     else values[k].parameters[j]
      invariant diagnostics == ProfilesDiagnostics(values[..i], sourceMap, targetMap)
    {
      assert ParameterValues(prs[i].parameters) == values[i].parameters;
      var more := UpdateProfileAt(profiles, i, sourceMap, targetMap, provider);
      diagnostics := diagnostics + more;
      ProfilesDiagnosticsStep(values, i, sourceMap, targetMap);
      i := i + 1;
    }
    assert values[..i] == values;
    TranslatedDocument(profiles, before, sourceMap, targetMap, provider);
  }

  /**
   * Translation keeps the shape of the document: the same profiles with the
   * same names, the same parameters in the same order, the document's own
   * fields and each `edifactNo`; only `providerNo` and `shortName` can differ.
   */
  lemma UpdatePreservesStructure(d: Document, sourceMap: map<string, string>, targetMap: map<string, string>,
                                 provider: I8)
    ensures var r := UpdatedDocument(d, sourceMap, targetMap, provider);
      && r.docName == d.docName && r.meAddress == d.meAddress
      && |r.profiles| == |d.profiles|
      && forall k | 0 <= k < |d.profiles| ::
           && r.profiles[k].name == d.profiles[k].name
           && |r.profiles[k].parameters| == |d.profiles[k].parameters|
           && forall j | 0 <= j < |d.profiles[k].parameters| ::
                r.profiles[k].parameters[j]
                == d.profiles[k].parameters[j].(providerNo := r.profiles[k].parameters[j].providerNo,
                                                shortName := r.profiles[k].parameters[j].shortName)
  {
  }

  /** Every parameter carries the chosen provider afterwards, whatever it held before. */
  lemma ProviderStamped(d: Document, sourceMap: map<string, string>, targetMap: map<string, string>, provider: I8)
    ensures var r := UpdatedDocument(d, sourceMap, targetMap, provider);
      forall k, j | 0 <= k < |r.profiles| && 0 <= j < |r.profiles[k].parameters| ::
        r.profiles[k].parameters[j].providerNo == provider
  {
  }

  /**
   * The new short name of the parameter at profile `k`, position `j`, case
   * by case: both lookups hit, the code has no target entry, or the name has
   * no source entry and the sentinel is looked up instead.
   */
  lemma NameTranslation(d: Document, sourceMap: map<string, string>, targetMap: map<string, string>,
                        provider: I8, k: int, j: int)
    requires 0 <= k < |d.profiles| && 0 <= j < |d.profiles[k].parameters|
    ensures var p := d.profiles[k].parameters[j];
      var q := UpdatedDocument(d, sourceMap, targetMap, provider).profiles[k].parameters[j];
      && (p.shortName in sourceMap && sourceMap[p.shortName] in targetMap ==>
            q.shortName == targetMap[sourceMap[p.shortName]])
      && (p.shortName in sourceMap && sourceMap[p.shortName] !in targetMap ==> q.shortName == p.shortName)
      && (p.shortName !in sourceMap && Sentinel in targetMap ==> q.shortName == targetMap[Sentinel])
      && (p.shortName !in sourceMap && Sentinel !in targetMap ==> q.shortName == p.shortName)
  {
  }

  /**
   * The sentinel is an ordinary key: a name the source table does not know
   * is still renamed when the target table has a "-1" entry, and the miss is
   * reported all the same.
   */
  lemma SentinelCanMatch()
    ensures var p := ParameterValue(3, "UNKNOWN", None);
      && UpdatedParameter(p, map[], map[Sentinel := "X"], 5) == ParameterValue(5, "X", None)
      && ParameterDiagnostics("P", p, map[], map[Sentinel := "X"]) == [SourceMiss("UNKNOWN")]
  {
  }

  /** One parameter is silent exactly when both of its lookups hit. */
  lemma ParameterSilentIffResolves(profile: string, p: ParameterValue, sourceMap: map<string, string>,
                                   targetMap: map<string, string>)
    ensures ParameterDiagnostics(profile, p, sourceMap, targetMap) == [] <==> Resolves(p, sourceMap, targetMap)
  {
  }

  /** A profile's walk is silent exactly when every one of its parameters resolves. */
  lemma {:induction false} ParametersSilentIffResolve(profile: string, ps: seq<ParameterValue>,
                                                      sourceMap: map<string, string>, targetMap: map<string, string>)
    ensures ParametersDiagnostics(profile, ps, sourceMap, targetMap) == []
            <==> forall j | 0 <= j < |ps| :: Resolves(ps[j], sourceMap, targetMap)
  {
    if ps != [] {
      var init := ps[..|ps| - 1];
      ParametersSilentIffResolve(profile, init, sourceMap, targetMap);
      ParameterSilentIffResolves(profile, ps[|ps| - 1], sourceMap, targetMap);
      assert forall j | 0 <= j < |init| :: init[j] == ps[j];
    }
  }

  /** `update_profiles` prints nothing exactly when every parameter of every profile resolves. */
  lemma {:induction false} NoDiagnosticsIffAllResolved(prs: seq<ProfileValue>, sourceMap: map<string, string>,
                                                      targetMap: map<string, string>)
    ensures ProfilesDiagnostics(prs, sourceMap, targetMap) == []
            <==> forall k, j | 0 <= k < |prs| && 0 <= j < |prs[k].parameters| ::
                   Resolves(prs[k].parameters[j], sourceMap, targetMap)
  {
    if prs != [] {
      var init := prs[..|prs| - 1];
      var last := prs[|prs| - 1];
      NoDiagnosticsIffAllResolved(init, sourceMap, targetMap);
      ParametersSilentIffResolve(last.name, last.parameters, sourceMap, targetMap);
      assert forall k | 0 <= k < |init| :: init[k] == prs[k];
    }
  }
}
