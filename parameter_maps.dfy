/**
 * `load_parameter_maps`: every line of a translation file is split on ','
 * and its first two tokens are entered into two hash maps, code -> name
 * (`edi_name`) and name -> code (`name_edi`); a line without a comma
 * (the empty line included) panics when the second token is indexed.
 */
module ParameterMaps {
  import opened Wrappers

  const Comma: char := ','

  /**
   * `str::split` on one separator character: the pieces between the
   * separators, in order. There is always at least one piece (the empty
   * text gives [""]), and more than one exactly when the separator occurs.
   */
  function Split(s: string, sep: char): (tokens: seq<string>)
    ensures |tokens| >= 1
    ensures forall t | t in tokens :: sep !in t
    ensures sep in s <==> |tokens| >= 2
  {
    if s == [] then [""]
    else
      var rest := Split(s[1..], sep);
      assert s == [s[0]] + s[1..];
      if s[0] == sep then [""] + rest
      else [[s[0]] + rest[0]] + rest[1..]
  }

  /** The inverse of Split: the pieces glued back together with the separator. */
  function Join(tokens: seq<string>, sep: char): string
    requires |tokens| >= 1
  {
    if |tokens| == 1 then tokens[0] else tokens[0] + [sep] + Join(tokens[1..], sep)
  }

  lemma {:induction false} JoinSplit(s: string, sep: char)
    ensures Join(Split(s, sep), sep) == s
  {
    if s != [] {
      JoinSplit(s[1..], sep);
      assert s == [s[0]] + s[1..];
      if s[0] == sep {
        JoinSplitAtSeparator(s[1..], sep);
      } else {
        JoinSplitAtChar(s[0], s[1..], sep);
      }
    }
  }

  /** The step of JoinSplit when the text starts with the separator. */
  lemma JoinSplitAtSeparator(tail: string, sep: char)
    requires Join(Split(tail, sep), sep) == tail
    ensures Join(Split([sep] + tail, sep), sep) == [sep] + tail
  {
    var s, rest := [sep] + tail, Split(tail, sep);
    assert s[1..] == tail;
    var tokens := [""] + rest;
    assert Split(s, sep) == tokens;
    assert tokens[1..] == rest;
  }

  /** The step of JoinSplit when the text starts with another character. */
  lemma JoinSplitAtChar(c: char, tail: string, sep: char)
    requires c != sep
    requires Join(Split(tail, sep), sep) == tail
    ensures Join(Split([c] + tail, sep), sep) == [c] + tail
  {
    var s, rest := [c] + tail, Split(tail, sep);
    assert s[1..] == tail;
    assert Split(s, sep) == [[c] + rest[0]] + rest[1..];
    JoinExtendFirst(c, rest, sep);
  }

  /** Putting a character in front of the first token puts it in front of the joined text. */
  lemma JoinExtendFirst(c: char, tokens: seq<string>, sep: char)
    requires |tokens| >= 1
    ensures Join([[c] + tokens[0]] + tokens[1..], sep) == [c] + Join(tokens, sep)
  {
    var extended := [[c] + tokens[0]] + tokens[1..];
    if |tokens| > 1 {
      assert extended[1..] == tokens[1..];
    }
  }

  /** A text without the separator is a single piece. */
  lemma {:induction false} SplitWithoutSeparator(a: string, sep: char)
    requires sep !in a
    ensures Split(a, sep) == [a]
  {
    if a != [] {
      SplitWithoutSeparator(a[1..], sep);
      assert [a[0]] + a[1..] == a;
    }
  }

  /** The piece before the first separator is split off first. */
  lemma {:induction false} SplitAtFirstSeparator(a: string, b: string, sep: char)
    requires sep !in a
    ensures Split(a + [sep] + b, sep) == [a] + Split(b, sep)
  {
    var s := a + [sep] + b;
    if a == [] {
      assert s[1..] == b;
    } else {
      assert s[1..] == a[1..] + [sep] + b;
      SplitAtFirstSeparator(a[1..], b, sep);
      assert [a[0]] + a[1..] == a;
    }
  }

  /** Splitting what Join glued together gives the pieces back. */
  lemma {:induction false} SplitJoin(tokens: seq<string>, sep: char)
    requires |tokens| >= 1
    requires forall t | t in tokens :: sep !in t
    ensures Split(Join(tokens, sep), sep) == tokens
  {
    if |tokens| == 1 {
      SplitWithoutSeparator(tokens[0], sep);
    } else {
      SplitJoin(tokens[1..], sep);
      SplitAtFirstSeparator(tokens[0], Join(tokens[1..], sep), sep);
    }
  }

  /** A line `tokens[1]` can be taken from: one with a comma. */
  predicate WellFormed(line: string) {
    Comma in line
  }

  /** `tokens[0]`: the canonical code. */
  function Code(line: string): string
    requires WellFormed(line)
  {
    Split(line, Comma)[0]
  }

  /** `tokens[1]`: the name; tokens after the second are ignored. */
  function Name(line: string): string
    requires WellFormed(line)
  {
    Split(line, Comma)[1]
  }

  /** The two maps `load_parameter_maps` returns. */
  datatype Tables = Tables(ediName: map<string, string>, nameEdi: map<string, string>)

  /** Why loading a translation file stops the program. */
  datatype LoadFault =
    | CannotOpen             // `File::open(..).expect(..)`
    | MissingComma(line: nat) // `tokens[1]` out of bounds on this (0-based) line

  /** The tables after inserting the lines in order, or the first line that panics. */
  function BuildTables(lines: seq<string>): Result<Tables, LoadFault>
    decreases |lines|
  {
    if lines == [] then Success(Tables(map[], map[]))
    else
      match BuildTables(lines[..|lines| - 1])
      case Failure(e) => Failure(e)
      case Success(t) =>
        var line := lines[|lines| - 1];
        if !WellFormed(line) then Failure(MissingComma(|lines| - 1))
        else Success(Tables(t.ediName[Code(line) := Name(line)], t.nameEdi[Name(line) := Code(line)]))
  }

  /** Once a prefix of the file has failed, the rest of the file does not matter. */
  lemma {:induction false} FailureIsFinal(lines: seq<string>, k: nat)
    requires k <= |lines|
    requires BuildTables(lines[..k]).Failure?
    ensures BuildTables(lines) == BuildTables(lines[..k])
  {
    if k < |lines| {
      assert lines[..|lines| - 1][..k] == lines[..k];
      FailureIsFinal(lines[..|lines| - 1], k);
    } else {
      assert lines[..k] == lines;
    }
  }

  /**
   * `load_parameter_maps`. `None` is a file that cannot be opened; otherwise
   * the file is its lines, already read.
   */
  method LoadParameterMaps(file: Option<seq<string>>) returns (r: Result<Tables, LoadFault>)
    ensures file.None? ==> r == Failure(CannotOpen)
    ensures file.Some? ==> r == BuildTables(file.value)
  {
    if file.None? {
      return Failure(CannotOpen);
    }
    var lines := file.value;
    var ediName: map<string, string> := map[];
    var nameEdi: map<string, string> := map[];
    var k := 0;
    while k < |lines|
      invariant 0 <= k <= |lines|
      invariant BuildTables(lines[..k]) == Success(Tables(ediName, nameEdi))
    {
      var tokens := Split(lines[k], Comma);
      assert lines[..k + 1][..k] == lines[..k];
      if |tokens| < 2 {
        FailureIsFinal(lines, k + 1);
        return Failure(MissingComma(k));
      }
      ediName := ediName[tokens[0] := tokens[1]];
      nameEdi := nameEdi[tokens[1] := tokens[0]];
      k := k + 1;
    }
    assert lines[..k] == lines;
    r := Success(Tables(ediName, nameEdi));
  }

  /**
   * Loading fails exactly when some line has no comma, and the failure
   * names the first such line.
   */
  lemma {:induction false} FailsOnFirstLineWithoutComma(lines: seq<string>)
    ensures BuildTables(lines).Failure? <==> exists l | 0 <= l < |lines| :: !WellFormed(lines[l])
    ensures BuildTables(lines).Failure? ==>
              && BuildTables(lines).error.MissingComma?
              && BuildTables(lines).error.line < |lines|
              && !WellFormed(lines[BuildTables(lines).error.line])
              && forall l | 0 <= l < BuildTables(lines).error.line :: WellFormed(lines[l])
  {
    if lines != [] {
      var init := lines[..|lines| - 1];
      FailsOnFirstLineWithoutComma(init);
      assert forall l | 0 <= l < |init| :: init[l] == lines[l];
      if BuildTables(init).Failure? {
        var l :| 0 <= l < |init| && !WellFormed(init[l]);
        assert init[l] == lines[l];
      }
      if exists l | 0 <= l < |lines| :: !WellFormed(lines[l]) {
        var l :| 0 <= l < |lines| && !WellFormed(lines[l]);
        if l < |init| {
          assert init[l] == lines[l];
        }
      }
    }
  }

  /** Inserting key/value pairs in order into an empty map; a later pair overwrites an earlier one. */
  function InsertAll(pairs: seq<(string, string)>): map<string, string> {
    if pairs == [] then map[]
    else InsertAll(pairs[..|pairs| - 1])[pairs[|pairs| - 1].0 := pairs[|pairs| - 1].1]
  }

  /**
   * Last write wins: the keys are exactly the first components, and each
   * key holds the second component of the last pair with that key.
   */
  lemma {:induction false} InsertAllLastWins(pairs: seq<(string, string)>)
    ensures forall k :: k in InsertAll(pairs) <==> exists i | 0 <= i < |pairs| :: pairs[i].0 == k
    ensures forall i | 0 <= i < |pairs| && (forall i' | i < i' < |pairs| :: pairs[i'].0 != pairs[i].0) ::
              InsertAll(pairs)[pairs[i].0] == pairs[i].1
  {
    if pairs != [] {
      var n := |pairs| - 1;
      var init := pairs[..n];
      InsertAllLastWins(init);
      forall k ensures k in InsertAll(pairs) <==> exists i | 0 <= i < |pairs| :: pairs[i].0 == k {
        if k in InsertAll(init) {
          var i :| 0 <= i < n && init[i].0 == k;
          assert pairs[i].0 == k;
        }
        if exists i | 0 <= i < |pairs| :: pairs[i].0 == k {
          var i :| 0 <= i < |pairs| && pairs[i].0 == k;
          if i < n {
            assert init[i].0 == k;
          }
        }
      }
      forall i | 0 <= i < |pairs| && (forall i' | i < i' < |pairs| :: pairs[i'].0 != pairs[i].0)
        ensures InsertAll(pairs)[pairs[i].0] == pairs[i].1
      {
        if i < n {
          assert init[i] == pairs[i];
          assert forall i' | i < i' < n :: init[i'] == pairs[i'];
        }
      }
    }
  }

  /** Inserting pairs whose keys are all new adds one entry per pair. */
  lemma {:induction false} InsertAllDistinctSize(pairs: seq<(string, string)>)
    requires forall i, i' | 0 <= i < i' < |pairs| :: pairs[i].0 != pairs[i'].0
    ensures |InsertAll(pairs)| == |pairs|
  {
    if pairs != [] {
      var n := |pairs| - 1;
      var init := pairs[..n];
      InsertAllDistinctSize(init);
      InsertAllLastWins(init);
      assert pairs[n].0 !in InsertAll(init);
    }
  }

  /** (code, name) of each line, in file order. */
  function CodeNamePairs(lines: seq<string>): (pairs: seq<(string, string)>)
    requires forall l | 0 <= l < |lines| :: WellFormed(lines[l])
    ensures |pairs| == |lines|
    ensures forall l | 0 <= l < |lines| :: pairs[l] == (Code(lines[l]), Name(lines[l]))
  {
    seq(|lines|, l requires 0 <= l < |lines| => (Code(lines[l]), Name(lines[l])))
  }

  /** (name, code) of each line, in file order. */
  function NameCodePairs(lines: seq<string>): (pairs: seq<(string, string)>)
    requires forall l | 0 <= l < |lines| :: WellFormed(lines[l])
    ensures |pairs| == |lines|
    ensures forall l | 0 <= l < |lines| :: pairs[l] == (Name(lines[l]), Code(lines[l]))
  {
    seq(|lines|, l requires 0 <= l < |lines| => (Name(lines[l]), Code(lines[l])))
  }

  /** A file whose every line has a comma loads; each map is the in-order insertion of its pairs. */
  lemma {:induction false} WellFormedFileLoads(lines: seq<string>)
    requires forall l | 0 <= l < |lines| :: WellFormed(lines[l])
    ensures BuildTables(lines) == Success(Tables(InsertAll(CodeNamePairs(lines)), InsertAll(NameCodePairs(lines))))
  {
    if lines != [] {
      var n := |lines| - 1;
      var init := lines[..n];
      WellFormedFileLoads(init);
      assert CodeNamePairs(lines)[..n] == CodeNamePairs(init);
      assert NameCodePairs(lines)[..n] == NameCodePairs(init);
    }
  }

  /**
   * Last write wins in `edi_name`: a code is a key exactly when some line
   * has it as first token, and its value is the name on the last such line.
   */
  lemma LastWriteWinsByCode(lines: seq<string>)
    requires forall l | 0 <= l < |lines| :: WellFormed(lines[l])
    ensures BuildTables(lines).Success?
    ensures forall c :: c in BuildTables(lines).value.ediName <==> exists l | 0 <= l < |lines| :: Code(lines[l]) == c
    ensures forall l | 0 <= l < |lines| && (forall l' | l < l' < |lines| :: Code(lines[l']) != Code(lines[l])) ::
              BuildTables(lines).value.ediName[Code(lines[l])] == Name(lines[l])
  {
    WellFormedFileLoads(lines);
    var pairs := CodeNamePairs(lines);
    var t := BuildTables(lines).value;
    InsertAllLastWins(pairs);
    forall c ensures c in t.ediName <==> exists l | 0 <= l < |lines| :: Code(lines[l]) == c {
      if c in t.ediName {
        var i :| 0 <= i < |pairs| && pairs[i].0 == c;
        assert Code(lines[i]) == c;
      }
    }
  }

  /**
   * Last write wins in `name_edi`: a name is a key exactly when some line
   * has it as second token, and its value is the code on the last such line.
   */
  lemma LastWriteWinsByName(lines: seq<string>)
    requires forall l | 0 <= l < |lines| :: WellFormed(lines[l])
    ensures BuildTables(lines).Success?
    ensures forall m :: m in BuildTables(lines).value.nameEdi <==> exists l | 0 <= l < |lines| :: Name(lines[l]) == m
    ensures forall l | 0 <= l < |lines| && (forall l' | l < l' < |lines| :: Name(lines[l']) != Name(lines[l])) ::
              BuildTables(lines).value.nameEdi[Name(lines[l])] == Code(lines[l])
  {
    WellFormedFileLoads(lines);
    var pairs := NameCodePairs(lines);
    var t := BuildTables(lines).value;
    InsertAllLastWins(pairs);
    forall m ensures m in t.nameEdi <==> exists l | 0 <= l < |lines| :: Name(lines[l]) == m {
      if m in t.nameEdi {
        var i :| 0 <= i < |pairs| && pairs[i].0 == m;
        assert Name(lines[i]) == m;
      }
    }
  }

  /** Pairs with distinct keys, whose swaps also have distinct keys, insert into mutually inverse maps. */
  lemma InsertAllInverse(pairs: seq<(string, string)>, swapped: seq<(string, string)>)
    requires |swapped| == |pairs|
    requires forall i | 0 <= i < |pairs| :: swapped[i] == (pairs[i].1, pairs[i].0)
    requires forall i, i' | 0 <= i < i' < |pairs| :: pairs[i].0 != pairs[i'].0
    requires forall i, i' | 0 <= i < i' < |pairs| :: pairs[i].1 != pairs[i'].1
    ensures forall k | k in InsertAll(pairs) ::
              InsertAll(pairs)[k] in InsertAll(swapped) && InsertAll(swapped)[InsertAll(pairs)[k]] == k
  {
    InsertAllLastWins(pairs);
    InsertAllLastWins(swapped);
    forall k | k in InsertAll(pairs)
      ensures InsertAll(pairs)[k] in InsertAll(swapped) && InsertAll(swapped)[InsertAll(pairs)[k]] == k
    {
      var i :| 0 <= i < |pairs| && pairs[i].0 == k;
      assert InsertAll(pairs)[k] == pairs[i].1;
      assert swapped[i].0 == pairs[i].1;
      assert InsertAll(swapped)[swapped[i].0] == swapped[i].1;
    }
  }

  /**
   * With all codes distinct and all names distinct, the two maps are
   * inverse to each other and each has one entry per line.
   */
  lemma DistinctLinesGiveInverseTables(lines: seq<string>)
    requires forall l | 0 <= l < |lines| :: WellFormed(lines[l])
    requires forall l, l' | 0 <= l < l' < |lines| :: Code(lines[l]) != Code(lines[l'])
    requires forall l, l' | 0 <= l < l' < |lines| :: Name(lines[l]) != Name(lines[l'])
    ensures BuildTables(lines).Success?
    ensures |BuildTables(lines).value.ediName| == |lines| == |BuildTables(lines).value.nameEdi|
    ensures forall c | c in BuildTables(lines).value.ediName ::
              && BuildTables(lines).value.ediName[c] in BuildTables(lines).value.nameEdi
              && BuildTables(lines).value.nameEdi[BuildTables(lines).value.ediName[c]] == c
    ensures forall m | m in BuildTables(lines).value.nameEdi ::
              && BuildTables(lines).value.nameEdi[m] in BuildTables(lines).value.ediName
              && BuildTables(lines).value.ediName[BuildTables(lines).value.nameEdi[m]] == m
  {
    WellFormedFileLoads(lines);
    var codeName, nameCode := CodeNamePairs(lines), NameCodePairs(lines);
    InsertAllDistinctSize(codeName);
    InsertAllDistinctSize(nameCode);
    InsertAllInverse(codeName, nameCode);
    InsertAllInverse(nameCode, codeName);
  }

  /**
   * Tokens after the second are ignored: on a line "a,b" or "a,b,...",
   * with a and b free of commas, the code is a and the name is b.
   */
  lemma FirstTwoTokens(a: string, b: string, tail: string)
    requires Comma !in a && Comma !in b
    requires tail == [] || tail[0] == Comma
    ensures WellFormed(a + [Comma] + b + tail)
    ensures Code(a + [Comma] + b + tail) == a && Name(a + [Comma] + b + tail) == b
  {
    var rest := b + tail;
    var restTokens := Split(rest, Comma);
    if tail == [] {
      assert rest == b;
      SplitWithoutSeparator(b, Comma);
    } else {
      assert rest == b + [Comma] + tail[1..];
      SplitAtFirstSeparator(b, tail[1..], Comma);
    }
    assert restTokens[0] == b;
    var line := a + [Comma] + b + tail;
    assert line == a + [Comma] + rest;
    SplitAtFirstSeparator(a, rest, Comma);
    assert Split(line, Comma) == [a] + restTokens;
  }

  /** An empty line has no second token, so it stops the load. */
  lemma EmptyLineFails(lines: seq<string>, k: nat)
    requires k < |lines| && lines[k] == ""
    ensures BuildTables(lines).Failure?
  {
    FailsOnFirstLineWithoutComma(lines);
  }
}
