/**
 * Short command lines worked through the scan of `parseArguments`, token by
 * token with the lemmas of `ScanProperties`, including the corner cases the
 * code decides in ways that are easy to miss.
 */
module ScanExamples {
  import opened Arguments
  import opened ScanProperties

  /** The scan goes on from wherever one pass of the loop body leaves it. */
  lemma Advance(tokens: seq<string>, i: nat, acc: Parsed)
    requires i < |tokens|
    ensures ParseFrom(tokens, i, acc) == ParseFrom(tokens, Step(tokens, i, acc).1, Step(tokens, i, acc).0)
  {
  }

  /** `install --key=value`: the command, and the value stored under the key. */
  lemma CommandThenAssigned(command: string, key: string, value: string)
    requires !StartsWithDash(command) && '=' !in key
    ensures Parse([command, "--" + key + "=" + value]) == Parsed([command], map[key := Str(value)])
  {
    var t := [command, "--" + key + "=" + value];
    var acc := Parsed([command], map[]);
    PlainArgument(t, 0, Parsed([], map[]));
    assert [] + [command] == [command];
    Advance(t, 0, Parsed([], map[]));
    LongWithEquals(t, 1, acc, key, value);
    Advance(t, 1, acc);
  }

  /** `install --key value`: the same outcome as `install --key=value` when the value does not start with `-`. */
  lemma CommandThenSpaced(command: string, key: string, value: string)
    requires !StartsWithDash(command) && '=' !in key && !StartsWithDash(value)
    ensures Parse([command, "--" + key, value]) == Parsed([command], map[key := Str(value)])
  {
    var t := [command, "--" + key, value];
    var acc := Parsed([command], map[]);
    PlainArgument(t, 0, Parsed([], map[]));
    assert [] + [command] == [command];
    Advance(t, 0, Parsed([], map[]));
    LongWithoutEquals(t, 1, acc, key);
    Advance(t, 1, acc);
  }

  /**
   * `--key install`: a long option written before the command swallows it as
   * its value, so no command is left.
   */
  lemma CommandSwallowed(key: string, command: string)
    requires '=' !in key && !StartsWithDash(command)
    ensures Parse(["--" + key, command]) == Parsed([], map[key := Str(command)])
  {
    var t := ["--" + key, command];
    LongWithoutEquals(t, 0, Parsed([], map[]), key);
    Advance(t, 0, Parsed([], map[]));
  }

  /** `--key=value --key`: a bare flag does not overwrite the value the key already holds. */
  lemma BareFlagKeepsValue(key: string, value: string)
    requires '=' !in key
    ensures Parse(["--" + key + "=" + value, "--" + key]) == Parsed([], map[key := Str(value)])
  {
    var t := ["--" + key + "=" + value, "--" + key];
    var acc := Parsed([], map[key := Str(value)]);
    LongWithEquals(t, 0, Parsed([], map[]), key, value);
    Advance(t, 0, Parsed([], map[]));
    LongWithoutEquals(t, 1, acc, key);
    Advance(t, 1, acc);
  }

  /** `-c value`: a group of one character takes the next token as its value. */
  lemma ShortTakesValue(c: char, value: string)
    requires c != '-' && !StartsWithDash(value)
    ensures Parse([['-', c], value]) == Parsed([], map[[c] := Str(value)])
  {
    var t := [['-', c], value];
    ShortGroup(t, 0, Parsed([], map[]), [c]);
    Advance(t, 0, Parsed([], map[]));
  }

  /** `-cd value`: a group of two characters sets both and leaves the next token positional. */
  lemma PairLeavesValue(c: char, d: char, value: string)
    requires c != '-' && d != '=' && !StartsWithDash(value)
    ensures Parse([['-', c, d], value]) == Parsed([value], map[[c] := True, [d] := True])
  {
    var t := [['-', c, d], value];
    var acc := Parsed([], map[[c] := True, [d] := True]);
    ShortGroup(t, 0, Parsed([], map[]), [c, d]);
    assert SetFlags(map[], [c, d]) == acc.options by {
      var m: map<string, OptValue> := map[[c] := True];
      assert [c, d][1..] == [d] && [d][1..] == [];
      assert SetFlags(map[], [c, d]) == SetFlags(m, [d]);
      assert SetFlags(m, [d]) == m[[d] := KeptOrTrue(m, [d])];
    }
    Advance(t, 0, Parsed([], map[]));
    PlainArgument(t, 1, acc);
    Advance(t, 1, acc);
  }
}
