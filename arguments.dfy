/**
 * The command-line scan of `Application::parseArguments` as pure functions.
 *
 * The scan reads the tokens that follow the script name from left to right.
 * A token is a positional argument, an option group (`--key`, `--key=value`,
 * `-k=value`, `-abc`), or the value of the option group just before it.
 * `Step` is one pass of the loop body, `ParseFrom` the rest of the loop and
 * `Parse` the whole scan; the method `App.Application.ParseArguments` runs the
 * same scan in place and is proved to agree with `Parse`.
 */
module Arguments {

  /** A stored option value: PHP's boolean `true` or a string. */
  datatype OptValue = True | Str(text: string)

  /** The outcome of a scan: the positional arguments in order and the option map. */
  datatype Parsed = Parsed(positional: seq<string>, options: map<string, OptValue>)

  /** `substr($t, 0, 1) === '-'`. */
  predicate StartsWithDash(t: string) {
    |t| > 0 && t[0] == '-'
  }

  /** `substr($t, 0, 2) === '--'`. */
  predicate IsLong(t: string) {
    |t| >= 2 && t[0] == '-' && t[1] == '-'
  }

  /**
   * `$i + 1 < $j && $argv[$i + 1][0] !== '-'`: there is a next token and it is
   * not a flag. An empty next token reads as "" there, so it counts as a value.
   */
  predicate NextIsValue(tokens: seq<string>, i: nat) {
    i + 1 < |tokens| && !StartsWithDash(tokens[i + 1])
  }

  /**
   * The two token forms that may take the following token as their value:
   * a long option without `=`, and a short group of exactly one character.
   */
  predicate TakesNext(t: string) {
    (IsLong(t) && '=' !in t) || (|t| == 2 && t[0] == '-' && t[1] != '-')
  }

  /** Token `i` is an option that swallows token `i + 1` as its value. */
  predicate Consumes(tokens: seq<string>, i: nat)
    requires i < |tokens|
  {
    TakesNext(tokens[i]) && NextIsValue(tokens, i)
  }

  /** `strpos($s, $c)`: the first position of `c` in `s`, or `|s|` where PHP returns false. */
  function FirstIndex(s: string, c: char): (k: nat)
    ensures k <= |s|
    ensures k < |s| ==> s[k] == c
    ensures c !in s[..k]
  {
    if s == [] then 0
    else if s[0] == c then 0
    else
      var k' := FirstIndex(s[1..], c);
      assert s[..1 + k'] == [s[0]] + s[1..][..k'];
      1 + k'
  }

  /** `isset($out[$key]) ? $out[$key] : true`: an earlier value is kept, otherwise `true`. */
  function KeptOrTrue(out: map<string, OptValue>, key: string): (v: OptValue)
    ensures key in out ==> v == out[key]
    ensures key !in out ==> v == True
  {
    if key in out then out[key] else True
  }

  /** The one-character keys of a short group `-abc`. */
  function FlagKeys(chars: string): set<string> {
    set k | 0 <= k < |chars| :: [chars[k]]
  }

  /**
   * The `foreach ($chars as $char)` of a short group: every character becomes a
   * key, set to `true` unless the key already holds a value (see `SetFlagsMarks`).
   */
  function SetFlags(out: map<string, OptValue>, chars: string): (flagged: map<string, OptValue>)
    decreases |chars|
  {
    if chars == [] then out
    else SetFlags(out[[chars[0]] := KeptOrTrue(out, [chars[0]])], chars[1..])
  }

  /** The keys of a short group are its characters: `SetFlags` adds them and keeps every earlier value. */
  lemma {:induction false} SetFlagsMarks(out: map<string, OptValue>, chars: string)
    ensures SetFlags(out, chars).Keys == out.Keys + FlagKeys(chars)
    ensures forall key :: key in out ==> SetFlags(out, chars)[key] == out[key]
    ensures forall key :: key in SetFlags(out, chars) && key !in out ==> SetFlags(out, chars)[key] == True
    decreases |chars|
  {
    if chars != [] {
      var out' := out[[chars[0]] := KeptOrTrue(out, [chars[0]])];
      SetFlagsMarks(out', chars[1..]);
      assert FlagKeys(chars) == {[chars[0]]} + FlagKeys(chars[1..]) by {
        forall key | key in FlagKeys(chars) ensures key in {[chars[0]]} + FlagKeys(chars[1..]) {
          var k :| 0 <= k < |chars| && key == [chars[k]];
          if k > 0 { assert key == [chars[1..][k - 1]]; }
        }
        forall key | key in FlagKeys(chars[1..]) ensures key in FlagKeys(chars) {
          var k :| 0 <= k < |chars[1..]| && key == [chars[1..][k]];
          assert key == [chars[k + 1]];
        }
      }
    }
  }

  /**
   * One pass of the loop body on token `i`: the updated parse and the index of
   * the next token to read (see `StepAdvance`).
   */
  function Step(tokens: seq<string>, i: nat, acc: Parsed): (r: (Parsed, nat))
    requires i < |tokens|
    ensures i + 1 <= r.1 <= i + 2 && r.1 <= |tokens|
  {
    var arg := tokens[i];
    var out := acc.options;
    if IsLong(arg) then
      var eqPos := FirstIndex(arg, '=');
      if eqPos == |arg| then
        // --foo, --foo value
        var key := arg[2..];
        if NextIsValue(tokens, i) then (acc.(options := out[key := Str(tokens[i + 1])]), i + 2)
        else (acc.(options := out[key := KeptOrTrue(out, key)]), i + 1)
      else
        // --bar=baz
        assert arg[0] != '=' && arg[1] != '=' by { assert arg[..2] == "--"; }
        (acc.(options := out[arg[2..eqPos] := Str(arg[eqPos + 1..])]), i + 1)
    else if StartsWithDash(arg) then
      if |arg| >= 3 && arg[2] == '=' then
        // -k=value
        (acc.(options := out[arg[1..2] := Str(arg[3..])]), i + 1)
      else
        // -abc, -a value
        var chars := arg[1..];
        var flagged := SetFlags(out, chars);
        if |chars| == 1 && NextIsValue(tokens, i) then (acc.(options := flagged[chars := Str(tokens[i + 1])]), i + 2)
        else (acc.(options := flagged), i + 1)
    else
      // plain argument
      (acc.(positional := acc.positional + [arg]), i + 1)
  }

  /**
   * The index grows by two exactly when token `i` swallows its successor, and
   * only a token that does not start with `-` reaches the positionals.
   */
  lemma StepAdvance(tokens: seq<string>, i: nat, acc: Parsed)
    requires i < |tokens|
    ensures Step(tokens, i, acc).1 == if Consumes(tokens, i) then i + 2 else i + 1
    ensures Step(tokens, i, acc).0.positional ==
      if StartsWithDash(tokens[i]) then acc.positional else acc.positional + [tokens[i]]
  {
    var arg := tokens[i];
    if IsLong(arg) {
      assert arg[..2] == "--";
      assert StartsWithDash(arg);
    }
  }

  // The branches of the loop body, one lemma each, in the terms the loop body
  // of `parseArguments` uses: how the rest of the scan goes on after token `i`.
  // They let the in-place scan follow `ParseFrom` branch by branch.

  lemma TurnLongFlag(tokens: seq<string>, i: nat, acc: Parsed)
    requires i < |tokens| && IsLong(tokens[i]) && FirstIndex(tokens[i], '=') == |tokens[i]|
    ensures var key := tokens[i][2..];
      ParseFrom(tokens, i, acc) ==
        if NextIsValue(tokens, i) then ParseFrom(tokens, i + 2, acc.(options := acc.options[key := Str(tokens[i + 1])]))
        else ParseFrom(tokens, i + 1, acc.(options := acc.options[key := KeptOrTrue(acc.options, key)]))
  {
  }

  lemma TurnLongAssign(tokens: seq<string>, i: nat, acc: Parsed)
    requires i < |tokens| && IsLong(tokens[i]) && FirstIndex(tokens[i], '=') < |tokens[i]|
    ensures var arg, eqPos := tokens[i], FirstIndex(tokens[i], '=');
      2 <= eqPos && ParseFrom(tokens, i, acc) == ParseFrom(tokens, i + 1, acc.(options := acc.options[arg[2..eqPos] := Str(arg[eqPos + 1..])]))
  {
    assert tokens[i][..2] == "--";
  }

  lemma TurnShortAssign(tokens: seq<string>, i: nat, acc: Parsed)
    requires i < |tokens| && !IsLong(tokens[i]) && StartsWithDash(tokens[i])
    requires |tokens[i]| >= 3 && tokens[i][2] == '='
    ensures ParseFrom(tokens, i, acc) == ParseFrom(tokens, i + 1, acc.(options := acc.options[tokens[i][1..2] := Str(tokens[i][3..])]))
  {
  }

  lemma TurnShortGroup(tokens: seq<string>, i: nat, acc: Parsed)
    requires i < |tokens| && !IsLong(tokens[i]) && StartsWithDash(tokens[i])
    requires !(|tokens[i]| >= 3 && tokens[i][2] == '=')
    ensures var chars := tokens[i][1..];
      var flagged := SetFlags(acc.options, chars);
      ParseFrom(tokens, i, acc) ==
        if |chars| == 1 && NextIsValue(tokens, i) then ParseFrom(tokens, i + 2, acc.(options := flagged[chars := Str(tokens[i + 1])]))
        else ParseFrom(tokens, i + 1, acc.(options := flagged))
  {
  }

  lemma TurnPlain(tokens: seq<string>, i: nat, acc: Parsed)
    requires i < |tokens| && !IsLong(tokens[i]) && !StartsWithDash(tokens[i])
    ensures ParseFrom(tokens, i, acc) == ParseFrom(tokens, i + 1, acc.(positional := acc.positional + [tokens[i]]))
  {
  }

  /** The loop of `parseArguments` from index `i` on, with the parse so far in `acc`. */
  function ParseFrom(tokens: seq<string>, i: nat, acc: Parsed): Parsed
    requires i <= |tokens|
    decreases |tokens| - i, 1
  {
    if i == |tokens| then acc
    else
      Continue(tokens, i, acc)
  }

  /** The rest of the loop once token `i` is known to exist: one pass, then the loop again. */
  function Continue(tokens: seq<string>, i: nat, acc: Parsed): Parsed
    requires i < |tokens|
    decreases |tokens| - i, 0
  {
    var r := Step(tokens, i, acc);
    ParseFrom(tokens, r.1, r.0)
  }

  /** The whole scan of the tokens after the script name, from an empty parse. */
  function Parse(tokens: seq<string>): Parsed {
    ParseFrom(tokens, 0, Parsed([], map[]))
  }

  /** What the scan makes of one token. */
  datatype Role = Positional | OptionGroup | OptionValue

  /** The role of every token from index `i` on, in order: each token gets exactly one. */
  function RolesFrom(tokens: seq<string>, i: nat): (roles: seq<Role>)
    requires i <= |tokens|
    ensures |roles| == |tokens| - i
    decreases |tokens| - i
  {
    if i == |tokens| then []
    else if !StartsWithDash(tokens[i]) then [Positional] + RolesFrom(tokens, i + 1)
    else if Consumes(tokens, i) then [OptionGroup, OptionValue] + RolesFrom(tokens, i + 2)
    else [OptionGroup] + RolesFrom(tokens, i + 1)
  }

  /**
   * The role of token `k` read off its neighbourhood alone: a token starting
   * with `-` is an option group; any other token is the value of the token
   * before it when that one swallows its successor, and a positional otherwise.
   */
  function RoleAt(tokens: seq<string>, k: nat): Role
    requires k < |tokens|
  {
    if StartsWithDash(tokens[k]) then OptionGroup
    else if k > 0 && Consumes(tokens, k - 1) then OptionValue
    else Positional
  }

  function Roles(tokens: seq<string>): seq<Role> {
    RolesFrom(tokens, 0)
  }

  /** The tokens whose role is `Positional`, in order. */
  function PositionalTokens(tokens: seq<string>, roles: seq<Role>): (r: seq<string>)
    requires |roles| == |tokens|
  {
    if tokens == [] then []
    else (if roles[0] == Positional then [tokens[0]] else []) + PositionalTokens(tokens[1..], roles[1..])
  }

  /** No token of the list starts with `-`. */
  predicate NoFlags(tokens: seq<string>) {
    forall k :: 0 <= k < |tokens| ==> !StartsWithDash(tokens[k])
  }
}
