/**
 * The part of `main` that is not terminal UI: load the source and target
 * translation files, load the provider, and hand the source table's
 * name -> code map, the target table's code -> name map and the provider to
 * `update_profiles`. The files arrive already read (`None` when they cannot
 * be opened) and the profile document already parsed.
 */
module Pipeline {
  import opened Wrappers
  import opened Primitives
  import opened ProfileModel
  import opened Translation
  import opened ParameterMaps
  import opened Provider

  /** Why a run stops before the document is translated. */
  datatype Fault =
    | SourceTable(fault: LoadFault)   // `load_parameter_maps` panics on the source file
    | TargetTable(fault: LoadFault)   // `load_parameter_maps` panics on the target file
    | BadProvider(kind: IntErrorKind) // `target_provider.unwrap()` panics

  /** What `update_profiles` is called with. */
  datatype Settings = Settings(sourceMap: map<string, string>, targetMap: map<string, string>, provider: I8)

  /** The settings of a run, or the first fault on the way to them, in the order `main` meets them. */
  function Configure(sourceFile: Option<seq<string>>, targetFile: Option<seq<string>>,
                     providerFile: Option<string>): Result<Settings, Fault>
  {
    if sourceFile.None? then Failure(SourceTable(CannotOpen))
    else if BuildTables(sourceFile.value).Failure? then Failure(SourceTable(BuildTables(sourceFile.value).error))
    else if targetFile.None? then Failure(TargetTable(CannotOpen))
    else if BuildTables(targetFile.value).Failure? then Failure(TargetTable(BuildTables(targetFile.value).error))
    else if LoadProvider(providerFile).Failure? then Failure(BadProvider(LoadProvider(providerFile).error))
    else Success(Settings(BuildTables(sourceFile.value).value.nameEdi, BuildTables(targetFile.value).value.ediName,
                          LoadProvider(providerFile).value))
  }

  /** A well-formed file: every line has a comma. */
  predicate Loadable(file: Option<seq<string>>) {
    file.Some? && forall l | 0 <= l < |file.value| :: WellFormed(file.value[l])
  }

  /**
   * A run reaches `update_profiles` exactly when both translation files
   * can be opened and have a comma on every line, and the provider text
   * parses as an `i8`.
   */
  lemma ConfigureSucceedsIff(sourceFile: Option<seq<string>>, targetFile: Option<seq<string>>,
                             providerFile: Option<string>)
    ensures Configure(sourceFile, targetFile, providerFile).Success?
            <==> Loadable(sourceFile) && Loadable(targetFile) && LoadProvider(providerFile).Success?
  {
    if sourceFile.Some? {
      FailsOnFirstLineWithoutComma(sourceFile.value);
    }
    if targetFile.Some? {
      FailsOnFirstLineWithoutComma(targetFile.value);
    }
  }

  /**
   * Lines 79, 95, 110 and 115-118 of `main`: load both tables and the
   * provider, stop at the first fault, otherwise translate the document.
   */
  method Convert(profiles: Profiles, sourceFile: Option<seq<string>>, targetFile: Option<seq<string>>,
                 providerFile: Option<string>)
    returns (r: Result<seq<Diagnostic>, Fault>)
    requires profiles.Valid()
    modifies Owned(profiles.profiles)
    ensures r.Failure? <==> Configure(sourceFile, targetFile, providerFile).Failure?
    ensures r.Failure? ==> r.error == Configure(sourceFile, targetFile, providerFile).error
                           && profiles.Value() == old(profiles.Value())
    ensures r.Success? ==>
              var settings := Configure(sourceFile, targetFile, providerFile).value;
              && profiles.Value()
                 == UpdatedDocument(old(profiles.Value()), settings.sourceMap, settings.targetMap, settings.provider)
              && r.value == ProfilesDiagnostics(old(profiles.Value()).profiles, settings.sourceMap, settings.targetMap)
  {
    ghost var before := profiles.Value();
    var source := LoadParameterMaps(sourceFile);
    if source.Failure? {
      return Failure(SourceTable(source.error));
    }
    var target := LoadParameterMaps(targetFile);
    if target.Failure? {
      return Failure(TargetTable(target.error));
    }
    var provider := LoadProvider(providerFile);
    if provider.Failure? {
      return Failure(BadProvider(provider.error));
    }
    var settings := Settings(source.value.nameEdi, target.value.ediName, provider.value);
    assert Configure(sourceFile, targetFile, providerFile) == Success(settings);
    assert profiles.Value() == before;
    var diagnostics := UpdateProfiles(profiles, settings.sourceMap, settings.targetMap, settings.provider);
    assert diagnostics == ProfilesDiagnostics(before.profiles, settings.sourceMap, settings.targetMap);
    return Success(diagnostics);
  }

  /**
   * Using one file with distinct codes and distinct names as both source
   * and target leaves every name the file knows as it was.
   */
  lemma SameTableKeepsKnownNames(lines: seq<string>, p: ParameterValue, provider: I8)
    requires forall l | 0 <= l < |lines| :: WellFormed(lines[l])
    requires forall l, l' | 0 <= l < l' < |lines| :: Code(lines[l]) != Code(lines[l'])
    requires forall l, l' | 0 <= l < l' < |lines| :: Name(lines[l]) != Name(lines[l'])
    requires exists l | 0 <= l < |lines| :: Name(lines[l]) == p.shortName
    ensures BuildTables(lines).Success?
    ensures var t := BuildTables(lines).value;
      && Resolves(p, t.nameEdi, t.ediName)
      && UpdatedParameter(p, t.nameEdi, t.ediName, provider) == p.(providerNo := provider)
  {
    DistinctLinesGiveInverseTables(lines);
    LastWriteWinsByName(lines);
  }

  /** Loading one more well-formed line inserts it into both maps. */
  lemma AppendLine(lines: seq<string>, line: string)
    requires BuildTables(lines).Success? && WellFormed(line)
    ensures BuildTables(lines + [line])
            == Success(Tables(BuildTables(lines).value.ediName[Code(line) := Name(line)],
                              BuildTables(lines).value.nameEdi[Name(line) := Code(line)]))
  {
    assert (lines + [line])[..|lines|] == lines;
  }

  /** A file of two lines "a,b" and "c,d" with comma-free tokens: both lines are inserted, the second last. */
  lemma TwoLineTables(a: string, b: string, c: string, d: string)
    requires Comma !in a && Comma !in b && Comma !in c && Comma !in d
    ensures BuildTables([a + [Comma] + b, c + [Comma] + d])
            == Success(Tables(map[a := b][c := d], map[b := a][d := c]))
  {
    var first, second := a + [Comma] + b, c + [Comma] + d;
    assert first == a + [Comma] + b + [];
    assert second == c + [Comma] + d + [];
    FirstTwoTokens(a, b, []);
    FirstTwoTokens(c, d, []);
    AppendLine([], first);
    assert [] + [first] == [first];
    AppendLine([first], second);
    assert [first] + [second] == [first, second];
  }

  /** The tables of the source file "1,FOO", "2,BAR". */
  lemma ExampleSourceTables()
    ensures BuildTables(["1,FOO", "2,BAR"])
            == Success(Tables(map["1" := "FOO", "2" := "BAR"], map["FOO" := "1", "BAR" := "2"]))
  {
    assert "1" + [Comma] + "FOO" == "1,FOO";
    assert "2" + [Comma] + "BAR" == "2,BAR";
    TwoLineTables("1", "FOO", "2", "BAR");
  }

  /** The tables of the target file "1,BAZ". */
  lemma ExampleTargetTables()
    ensures BuildTables(["1,BAZ"]) == Success(Tables(map["1" := "BAZ"], map["BAZ" := "1"]))
  {
    assert WellFormed("1,BAZ") && Code("1,BAZ") == "1" && Name("1,BAZ") == "BAZ" by {
      assert "1,BAZ" == "1" + [Comma] + "BAZ" + "";
      FirstTwoTokens("1", "BAZ", "");
    }
    AppendLine([], "1,BAZ");
    assert [] + ["1,BAZ"] == ["1,BAZ"];
  }

  /** The run with source "1,FOO", "2,BAR", target "1,BAZ" and provider text "7" gets as far as translating. */
  lemma ExampleSettings()
    ensures Configure(Some(["1,FOO", "2,BAR"]), Some(["1,BAZ"]), Some("7"))
            == Success(Settings(map["FOO" := "1", "BAR" := "2"], map["1" := "BAZ"], 7))
  {
    ExampleSourceTables();
    ExampleTargetTables();
    NoTrimming();
  }

  /**
   * What that run does to two parameters: FOO becomes BAZ; BAR has code 2,
   * which the target lacks, so it keeps its name and one miss is reported.
   */
  lemma ExampleTranslation()
    ensures UpdatedParameter(ParameterValue(0, "FOO", Some(12)), map["FOO" := "1", "BAR" := "2"], map["1" := "BAZ"], 7)
            == ParameterValue(7, "BAZ", Some(12))
    ensures UpdatedParameter(ParameterValue(0, "BAR", None), map["FOO" := "1", "BAR" := "2"], map["1" := "BAZ"], 7)
            == ParameterValue(7, "BAR", None)
    ensures ParameterDiagnostics("P", ParameterValue(0, "BAR", None), map["FOO" := "1", "BAR" := "2"],
                                 map["1" := "BAZ"])
            == [TargetMiss("2", "BAR", "P")]
  {
  }
}
