/**
 * The `Application` object of the installer: the state `parseArguments`
 * fills in, the lookups that read it, the install-command gate and the
 * target-directory resolution. Copying the configuration files (filesystem
 * and HTTP) is not part of this model; `Execute` stops at the decision to
 * show usage or to install into a given directory.
 */
module App {
  import opened Wrappers
  import opened Arguments
  import Platform

  /** `str_pad` reads the version as a string: `true` prints as "1", a string as itself. */
  function VersionText(v: OptValue): (s: string)
    ensures v == True ==> s == "1"
    ensures v.Str? ==> s == v.text
  {
    match v
    case True => "1"
    case Str(text) => text
  }

  /** The default version of `getTargetDir`, the integer 8, which `str_pad` reads as "8". */
  const DefaultVersion: OptValue := Str("8")

  /** `$argv` after `array_shift` has removed the script name. */
  function Tokens(argv: seq<string>): (tokens: seq<string>)
    ensures argv != [] ==> argv == [argv[0]] + tokens
    ensures argv == [] ==> tokens == []
  {
    if argv == [] then [] else argv[1..]
  }

  /**
   * The `foreach ($chars as $char)` of a short group `-abc`: marks every
   * character as a key in `out`, keeping earlier values, and also returns
   * the key of the last character, which `parseArguments` reads afterwards.
   */
  method MarkFlags(out: map<string, OptValue>, chars: string) returns (flagged: map<string, OptValue>, key: string)
    ensures flagged == SetFlags(out, chars)
    ensures chars != [] ==> key == [chars[|chars| - 1]]
  {
    flagged, key := out, "";
    var n := 0;
    while n < |chars|
      invariant n <= |chars|
      invariant SetFlags(flagged, chars[n..]) == SetFlags(out, chars)
      invariant n > 0 ==> key == [chars[n - 1]]
    {
      key := [chars[n]];
      var value := if key in flagged then flagged[key] else True;
      assert chars[n..][1..] == chars[n + 1..];
      flagged := flagged[key := value];
      n := n + 1;
    }
    assert chars[n..] == [];
  }

  /** What `execute` goes on to do once the arguments are read. */
  datatype Outcome =
    | Usage                       // `validateCommands` prints the usage text and exits
    | Install(targetDir: string)  // `installConfigFiles` copies into this directory

  class Application {
    var calledScript: Option<string>
    var args: seq<string>
    var options: map<string, OptValue>

    constructor ()
      ensures calledScript == None && args == [] && options == map[]
    {
      calledScript := None;
      args := [];
      options := map[];
    }

    /**
     * `parseArguments`: shifts the script name off `argv` into `calledScript`,
     * appends the positional arguments to `args` and replaces `options` by the
     * option map the scan builds.
     */
    method ParseArguments(argv: seq<string>)
      modifies this
      ensures calledScript == if argv == [] then None else Some(argv[0])
      ensures args == old(args) + Parse(Tokens(argv)).positional
      ensures options == Parse(Tokens(argv)).options
    {
      var rest := argv;
      if rest == [] {
        calledScript := None;
      } else {
        calledScript := Some(rest[0]);
        rest := rest[1..];
      }
      var out: map<string, OptValue> := map[];
      ghost var added: seq<string> := [];
      var i, j := 0, |rest|;
      while i < j
        invariant calledScript == if argv == [] then None else Some(argv[0])
        invariant rest == Tokens(argv) && j == |rest|
        invariant i <= j
        invariant args == old(args) + added
        invariant ParseFrom(rest, i, Parsed(added, out)) == Parse(rest)
        decreases j - i
      {
        ghost var before, at := Parsed(added, out), i;
        var arg := rest[i];
        if IsLong(arg) {
          var eqPos := FirstIndex(arg, '=');
          if eqPos == |arg| {
            // --foo, --foo value
            var key := arg[2..];
            var value;
            if i + 1 < j && !StartsWithDash(rest[i + 1]) {
              value := Str(rest[i + 1]);
              i := i + 1;
            } else {
              value := if key in out then out[key] else True;
            }
            out := out[key := value];
            TurnLongFlag(rest, at, before);
          } else {
            // --bar=baz
            assert arg[0] != '=' && arg[1] != '=' by { assert arg[..2] == "--"; }
            var key := arg[2..eqPos];
            var value := arg[eqPos + 1..];
            out := out[key := Str(value)];
            TurnLongAssign(rest, at, before);
          }
        } else if StartsWithDash(arg) {
          if |arg| >= 3 && arg[2] == '=' {
            // -k=value
            var key := arg[1..2];
            var value := arg[3..];
            out := out[key := Str(value)];
            TurnShortAssign(rest, at, before);
          } else {
            // -abc
            var chars := arg[1..];
            var key;
            out, key := MarkFlags(out, chars);
            // -a a-value
            if |chars| == 1 && i + 1 < j && !StartsWithDash(rest[i + 1]) {
              assert key == chars;
              out := out[key := Str(rest[i + 1])];
              i := i + 1;
            }
            TurnShortGroup(rest, at, before);
          }
        } else {
          // plain-arg
          args := args + [arg];
          added := added + [arg];
          TurnPlain(rest, at, before);
        }
        i := i + 1;
      }
      options := out;
    }

    /** `getOption`: the stored value of `key` when there is one, else `default`. */
    function GetOption(key: string, default: OptValue): (v: OptValue)
      reads this
      ensures key in options ==> v == options[key]
      ensures key !in options ==> v == default
    {
      if key in options then options[key] else default
    }

    /** `getArgument`: the positional argument at `offset` when there is one, else `default`. */
    function GetArgument(offset: int, default: Option<string>): (a: Option<string>)
      reads this
      ensures 0 <= offset < |args| ==> a == Some(args[offset])
      ensures !(0 <= offset < |args|) ==> a == default
    {
      if 0 <= offset < |args| then Some(args[offset]) else default
    }

    /**
     * The test of `validateCommands`: the usage text is shown exactly when
     * there is no first positional argument or it is not `install`.
     */
    function ShowsUsage(): (usage: bool)
      reads this
      ensures usage <==> |args| == 0 || args[0] != "install"
    {
      GetArgument(0, None) != Some("install")
    }

    /** The version `getTargetDir` uses: option `ide-version`, else option `i`, else 8, read as a string. */
    function IdeVersion(): (version: string)
      reads this
      ensures "ide-version" in options ==> version == VersionText(options["ide-version"])
      ensures "ide-version" !in options && "i" in options ==> version == VersionText(options["i"])
      ensures "ide-version" !in options && "i" !in options ==> version == "8"
    {
      VersionText(GetOption("ide-version", GetOption("i", DefaultVersion)))
    }

    /**
     * `getTargetDir`: the settings directory of the chosen version on `host`.
     * Its last component is `WebIde` followed by the version, right-padded
     * with `0` to two characters.
     */
    function TargetDir(host: Platform.Host): (dir: string)
      reads this
      ensures var folder := Platform.FolderName(IdeVersion());
        |dir| > |folder| && dir[|dir| - |folder|..] == folder
      ensures Platform.OsOf(host.uname) == Platform.Linux ==> dir[..3] == "~/."
    {
      Platform.ConfigPath(host, Platform.FolderName(IdeVersion()))
    }

    /**
     * `execute` up to the file copy: read the arguments, then either show the
     * usage text or install into the target directory.
     */
    method Execute(argv: seq<string>, host: Platform.Host) returns (outcome: Outcome)
      modifies this
      ensures calledScript == if argv == [] then None else Some(argv[0])
      ensures args == old(args) + Parse(Tokens(argv)).positional
      ensures options == Parse(Tokens(argv)).options
      ensures outcome == if ShowsUsage() then Usage else Install(TargetDir(host))
    {
      ParseArguments(argv);
      if ShowsUsage() {
        return Usage;
      }
      outcome := Install(TargetDir(host));
    }
  }
}
