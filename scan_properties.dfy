/**
 * What the scan of `parseArguments` promises, proved about `Arguments.Parse`:
 * how each token form is read, that every token has exactly one role, that
 * the positionals are exactly the positional-role tokens in order, and that a
 * list without flags is passed through unchanged.
 */
module ScanProperties {
  import opened Arguments

  // ---------------------------------------------------------------------
  // One token at a time: each lemma reads a token form in its own terms
  // (key and value as pieces of the token) rather than by string positions.
  // ---------------------------------------------------------------------

  /** `--key=value`: the key ends at the first `=`, the value is the rest, verbatim and possibly empty, and it overwrites. */
  lemma LongWithEquals(tokens: seq<string>, i: nat, acc: Parsed, key: string, value: string)
    requires i < |tokens| && tokens[i] == "--" + key + "=" + value
    requires '=' !in key
    ensures Step(tokens, i, acc) == (acc.(options := acc.options[key := Str(value)]), i + 1)
  {
    var arg := tokens[i];
    var e := |key| + 2;
    assert arg[..2] == "--";
    assert arg[e] == '=';
    assert arg[..e] == "--" + key;
    assert arg[2..e] == key;
    assert arg[e + 1..] == value;
  }

  /**
   * `--key` without `=`: a following non-flag token becomes the value and is
   * skipped; otherwise an earlier value of `key` is kept, else `true`.
   */
  lemma LongWithoutEquals(tokens: seq<string>, i: nat, acc: Parsed, key: string)
    requires i < |tokens| && tokens[i] == "--" + key
    requires '=' !in key
    ensures NextIsValue(tokens, i) ==>
      Step(tokens, i, acc) == (acc.(options := acc.options[key := Str(tokens[i + 1])]), i + 2)
    ensures !NextIsValue(tokens, i) ==>
      Step(tokens, i, acc) == (acc.(options := acc.options[key := KeptOrTrue(acc.options, key)]), i + 1)
  {
    var arg := tokens[i];
    assert arg[..2] == "--";
    assert '=' !in arg by {
      forall k | 0 <= k < |arg| ensures arg[k] != '=' {
        if k >= 2 { assert arg[k] == key[k - 2]; }
      }
    }
    assert arg[2..] == key;
  }

  /** `-k=value` (with `k` not a dash): the key is `k`, the value everything after the `=`. */
  lemma ShortWithEquals(tokens: seq<string>, i: nat, acc: Parsed, c: char, value: string)
    requires i < |tokens| && tokens[i] == ['-', c, '='] + value
    requires c != '-'
    ensures Step(tokens, i, acc) == (acc.(options := acc.options[[c] := Str(value)]), i + 1)
  {
    var arg := tokens[i];
    assert arg[..2] == ['-', c];
    assert arg[1..2] == [c];
    assert arg[3..] == value;
  }

  /**
   * `-abc`: every character is set to `true` unless it already holds a value.
   * A group of exactly one character followed by a non-flag token takes that
   * token as its value; a longer group never takes the next token.
   */
  lemma ShortGroup(tokens: seq<string>, i: nat, acc: Parsed, group: string)
    requires i < |tokens| && tokens[i] == ['-'] + group
    requires group == [] || group[0] != '-'
    requires |group| < 2 || group[1] != '='
    ensures |group| == 1 && NextIsValue(tokens, i) ==>
      Step(tokens, i, acc) == (acc.(options := acc.options[group := Str(tokens[i + 1])]), i + 2)
    ensures !(|group| == 1 && NextIsValue(tokens, i)) ==>
      Step(tokens, i, acc) == (acc.(options := SetFlags(acc.options, group)), i + 1)
  {
    var arg := tokens[i];
    assert arg[1..] == group;
    assert !IsLong(arg) by {
      if |arg| >= 2 { assert arg[..2][1] == group[0]; }
    }
    if |group| == 1 && NextIsValue(tokens, i) {
      var flagged := SetFlags(acc.options, group);
      SetFlagsMarks(acc.options, group);
      assert FlagKeys(group) == {group} by {
        assert group == [group[0]];
      }
      assert flagged[group := Str(tokens[i + 1])] == acc.options[group := Str(tokens[i + 1])];
    }
  }

  /** A token that does not start with `-` (the empty token included) is appended to the positionals. */
  lemma PlainArgument(tokens: seq<string>, i: nat, acc: Parsed)
    requires i < |tokens| && !StartsWithDash(tokens[i])
    ensures Step(tokens, i, acc) == (acc.(positional := acc.positional + [tokens[i]]), i + 1)
  {
    assert !IsLong(tokens[i]) by {
      if |tokens[i]| >= 2 { assert tokens[i][..2][0] == tokens[i][0]; }
    }
  }

  // ---------------------------------------------------------------------
  // The whole scan
  // ---------------------------------------------------------------------

  /** One step of `PositionalTokens` along the roles the scan gives from index `i`. */
  lemma PositionalTokensStep(tokens: seq<string>, i: nat)
    requires i < |tokens|
    ensures PositionalTokens(tokens[i..], RolesFrom(tokens, i)) ==
      if !StartsWithDash(tokens[i]) then [tokens[i]] + PositionalTokens(tokens[i + 1..], RolesFrom(tokens, i + 1))
      else if Consumes(tokens, i) then PositionalTokens(tokens[i + 2..], RolesFrom(tokens, i + 2))
      else PositionalTokens(tokens[i + 1..], RolesFrom(tokens, i + 1))
  {
    var rest, roles := tokens[i..], RolesFrom(tokens, i);
    assert rest[1..] == tokens[i + 1..];
    if StartsWithDash(tokens[i]) && Consumes(tokens, i) {
      assert rest[1..][1..] == tokens[i + 2..];
      assert roles[1..][1..] == RolesFrom(tokens, i + 2);
    }
  }

  /** The positionals the scan collects from index `i` on are the positional-role tokens from there. */
  lemma {:induction false} ParseFromPositionals(tokens: seq<string>, i: nat, acc: Parsed)
    requires i <= |tokens|
    ensures ParseFrom(tokens, i, acc).positional == acc.positional + PositionalTokens(tokens[i..], RolesFrom(tokens, i))
    decreases |tokens| - i
  {
    if i == |tokens| {
      assert tokens[i..] == [];
    } else {
      var (acc', next) := Step(tokens, i, acc);
      StepAdvance(tokens, i, acc);
      ParseFromPositionals(tokens, next, acc');
      PositionalTokensStep(tokens, i);
    }
  }

  /** The positionals of a scan are exactly the tokens whose role is `Positional`, in encounter order. */
  lemma ParsePositionals(tokens: seq<string>)
    ensures Parse(tokens).positional == PositionalTokens(tokens, Roles(tokens))
  {
    ParseFromPositionals(tokens, 0, Parsed([], map[]));
    assert tokens[0..] == tokens;
  }

  /**
   * From any index `i`, the role the scan gives token `k` in closed form: a
   * token starting with `-` is an option group; any other token is a value
   * exactly when the token before it lies in the scanned part and swallows its
   * successor, and a positional otherwise. No token has any other role.
   */
  lemma {:induction false} RolesFromLocal(tokens: seq<string>, i: nat, k: nat)
    requires i <= k < |tokens|
    ensures RolesFrom(tokens, i)[k - i] ==
      if StartsWithDash(tokens[k]) then OptionGroup
      else if k > i && Consumes(tokens, k - 1) then OptionValue
      else Positional
    decreases |tokens| - i
  {
    var roles := RolesFrom(tokens, i);
    if k == i {
    } else if !StartsWithDash(tokens[i]) {
      RolesFromLocal(tokens, i + 1, k);
      assert roles[1..] == RolesFrom(tokens, i + 1);
    } else if Consumes(tokens, i) {
      if k > i + 1 {
        RolesFromLocal(tokens, i + 2, k);
        assert roles[2..] == RolesFrom(tokens, i + 2);
      }
    } else {
      RolesFromLocal(tokens, i + 1, k);
      assert roles[1..] == RolesFrom(tokens, i + 1);
    }
  }

  /**
   * Corollaries of `RolesFromLocal`: a positional never starts with `-`, a
   * token starting with `-` is always an option group, and a value never
   * starts with `-` and follows the value-taking option group it belongs to.
   */
  lemma RolesFromClassify(tokens: seq<string>, i: nat, k: nat)
    requires i <= k < |tokens|
    ensures RolesFrom(tokens, i)[k - i] == Positional ==> !StartsWithDash(tokens[k])
    ensures StartsWithDash(tokens[k]) ==> RolesFrom(tokens, i)[k - i] == OptionGroup
    ensures RolesFrom(tokens, i)[k - i] == OptionValue ==>
      k > i && RolesFrom(tokens, i)[k - i - 1] == OptionGroup && Consumes(tokens, k - 1)
  {
    RolesFromLocal(tokens, i, k);
    if k > i {
      RolesFromLocal(tokens, i, k - 1);
    }
  }

  /**
   * Every token of the whole list has exactly one role, `RoleAt(tokens, k)`,
   * and the three facts of `RolesFromClassify` hold at every index.
   */
  lemma RolesClassify(tokens: seq<string>)
    ensures |Roles(tokens)| == |tokens|
    ensures forall k :: 0 <= k < |tokens| ==> Roles(tokens)[k] == RoleAt(tokens, k)
    ensures forall k :: 0 <= k < |tokens| && Roles(tokens)[k] == Positional ==> !StartsWithDash(tokens[k])
    ensures forall k :: 0 <= k < |tokens| && StartsWithDash(tokens[k]) ==> Roles(tokens)[k] == OptionGroup
    ensures forall k :: 0 <= k < |tokens| && Roles(tokens)[k] == OptionValue ==>
      k > 0 && Roles(tokens)[k - 1] == OptionGroup && Consumes(tokens, k - 1)
  {
    forall k | 0 <= k < |tokens|
      ensures Roles(tokens)[k] == Positional ==> !StartsWithDash(tokens[k])
      ensures StartsWithDash(tokens[k]) ==> Roles(tokens)[k] == OptionGroup
      ensures Roles(tokens)[k] == OptionValue ==> k > 0 && Roles(tokens)[k - 1] == OptionGroup && Consumes(tokens, k - 1)
    {
      RolesFromClassify(tokens, 0, k);
    }
    forall k | 0 <= k < |tokens| ensures Roles(tokens)[k] == RoleAt(tokens, k) {
      RolesFromLocal(tokens, 0, k);
    }
  }

  /** Only when every role is `Positional` are all tokens kept. */
  lemma {:induction false} PositionalTokensAll(tokens: seq<string>, roles: seq<Role>)
    requires |roles| == |tokens|
    ensures |PositionalTokens(tokens, roles)| <= |tokens|
    ensures |PositionalTokens(tokens, roles)| == |tokens| ==> forall k :: 0 <= k < |roles| ==> roles[k] == Positional
    ensures (forall k :: 0 <= k < |roles| ==> roles[k] == Positional) ==> PositionalTokens(tokens, roles) == tokens
  {
    if tokens != [] {
      PositionalTokensAll(tokens[1..], roles[1..]);
      if |PositionalTokens(tokens, roles)| == |tokens| {
        forall k | 0 <= k < |roles| ensures roles[k] == Positional {
          if k > 0 { assert roles[k] == roles[1..][k - 1]; }
        }
      }
      if forall k :: 0 <= k < |roles| ==> roles[k] == Positional {
        assert forall k :: 0 <= k < |roles[1..]| ==> roles[1..][k] == Positional by {
          forall k | 0 <= k < |roles[1..]| ensures roles[1..][k] == Positional {
            assert roles[1..][k] == roles[k + 1];
          }
        }
        assert tokens == [tokens[0]] + tokens[1..];
      }
    }
  }

  /** From index `i` on, a list without flags adds every token to the positionals and no option. */
  lemma {:induction false} NoFlagsFrom(tokens: seq<string>, i: nat, acc: Parsed)
    requires i <= |tokens|
    requires forall k :: i <= k < |tokens| ==> !StartsWithDash(tokens[k])
    ensures ParseFrom(tokens, i, acc) == Parsed(acc.positional + tokens[i..], acc.options)
    decreases |tokens| - i
  {
    if i == |tokens| {
      assert tokens[i..] == [];
    } else {
      PlainArgument(tokens, i, acc);
      NoFlagsFrom(tokens, i + 1, acc.(positional := acc.positional + [tokens[i]]));
      assert tokens[i..] == [tokens[i]] + tokens[i + 1..];
    }
  }

  /**
   * The positionals equal the input exactly when no token starts with `-`,
   * and then the option map is empty; the empty command line is the smallest
   * such case and parses to no positionals and no options.
   */
  lemma NoFlagsPassThrough(tokens: seq<string>)
    ensures NoFlags(tokens) <==> Parse(tokens).positional == tokens
    ensures NoFlags(tokens) ==> Parse(tokens).options == map[]
  {
    if NoFlags(tokens) {
      NoFlagsFrom(tokens, 0, Parsed([], map[]));
      assert tokens[0..] == tokens;
    }
    if Parse(tokens).positional == tokens {
      ParsePositionals(tokens);
      RolesClassify(tokens);
      PositionalTokensAll(tokens, Roles(tokens));
    }
  }

  /** A first token that does not start with `-` is the first positional. */
  lemma FirstTokenPlain(tokens: seq<string>)
    requires |tokens| > 0 && !StartsWithDash(tokens[0])
    ensures |Parse(tokens).positional| > 0 && Parse(tokens).positional[0] == tokens[0]
  {
    ParsePositionals(tokens);
    assert Roles(tokens)[0] == Positional;
  }
}
