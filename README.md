# PhpStorm config installer: argument scan and target directory

This project models the `Application` class of the SMS PhpStorm config
installer (`main.php`), a command-line script run as
`phpstorm-config-installer install [--ide-version|-i VERSION]`. It reads its
command line, refuses to go on unless the first positional argument is
`install`, and then works out the PhpStorm settings directory to copy the
configuration files into.

The model covers:

- **The argument scan of `parseArguments`.** After the script name, each
  token is one of the following:
  - a long option: `--key`, `--key value` or `--key=value`;
  - a short assignment: `-k=value`;
  - a short group: `-abc`, where a group of one character may take a value (`-a value`);
  - a plain argument.

  The scan runs in three layers:
  - `Arguments` states the scan as pure functions. `Step` is one pass of the
    loop body, `ParseFrom` the rest of the loop and `Parse` the whole scan.
  - `App.Application.ParseArguments` is the in-place loop over the object's
    fields `calledScript`, `args` and `options`. It is proved to produce
    exactly what `Parse` produces.
  - `ScanProperties` proves what the scan promises:
    - how each token form is read;
    - that every token gets exactly one role (positional, option group, or value of the option just before it), determined by the token and the one before it;
    - that the positionals are exactly the positional-role tokens, in order;
    - that a command line without flags passes through unchanged.
- **Worked command lines.** `ScanExamples` goes through short command lines
  with any key and value, including the quirks:
  - `--ide-version install` swallows the command;
  - a bare `--key` keeps a value set earlier;
  - `-ab value` leaves `value` positional.
- **`getOption`, `getArgument` and the test of `validateCommands`.** These are
  read-only functions of the object.
- **`getTargetDir`.** The version lookup (`ide-version`, then `i`, then 8),
  the folder name `WebIde` followed by the version right-padded with `0` to
  two characters (`str_pad` with its default right padding), the host family
  test on the `php_uname()` string (a case-insensitive ASCII prefix test) and
  the path for each family.
- **`execute`.** It stops at the decision to show the usage text or to
  install into the target directory.

In these points the code does something other than a reader of the
installer's documentation might expect, and the model follows the code:

- `str_pad` pads on the right, so version `8` gives `WebIde80` (the folder
  PhpStorm 8 uses), not `WebIde08`.
- On Linux the path is the literal string `~/.WebIdeNN`. The code does not
  expand `~`.
- `--ide-version=` stores the empty string. `isset` is true for it, so the
  folder is `WebIde00` and the default 8 is not used.
- A long option or a one-character group followed by an empty token takes
  the empty token as its value. Reading `$argv[$i + 1][0]` on an empty
  string gives `""`, which is not `-`.
- A lone `-` sets nothing and takes no value. `str_split("")` returns an
  empty array, as in PHP 8.2 and later.

The values PHP stores are modelled as follows:

- An option value is either `true` or a string (`OptValue`).
- The integer default `8` is the string `"8"`. It is only ever read by
  `str_pad`, which turns it into that string.
- The host string, `HOMEDRIVE`, `HOMEPATH` and `HOME` are fields of a `Host`
  parameter. An unset variable reads as the empty string, as PHP's string
  concatenation does.

## Model

| member | source | states |
|---|---|---|
| Arguments.FirstIndex | main.php:294-297 | `strpos`: the position of the first `=`, or the length when there is none (PHP's `false`); no `=` occurs before it |
| Arguments.KeptOrTrue | main.php:309 | a key that already holds a value keeps it; otherwise the value is `true` |
| Arguments.SetFlags | main.php:342-347 | the `foreach` over a short group as a function: each character in turn becomes a key, set to `true` unless it already holds a value (its properties are `SetFlagsMarks`) |
| Arguments.SetFlagsMarks | main.php:340-347 | a short group adds exactly its characters as keys, keeps every earlier value and sets each new key to `true` |
| Arguments.Step | main.php:289-362 | one pass of the loop body on token `i`: the updated parse and the index of the next token, which is one or two further on and never past the end |
| Arguments.ParseFrom | main.php:287-363 | the `for` loop from index `i` on, starting from the parse so far (its properties are the `ScanProperties` lemmas) |
| Arguments.Continue | main.php:287-363 | the rest of the `for` loop once token `i` exists: one pass of the body, then the loop again from the index the pass returns |
| Arguments.Parse | main.php:285-363 | the whole scan of the tokens after the script name, from no positionals and an empty option map |
| Arguments.StepAdvance | main.php:287-363 | one pass moves on by two tokens exactly when the token swallows its successor, else by one; only a token not starting with `-` is appended to the positionals |
| Arguments.RolesFrom | main.php:287-363 | each token from index `i` gets exactly one role, along the scan's own index jumps |
| Arguments.RoleAt | main.php:292-361 | the role of a token read off the token and the one before it: option group when it starts with `-`, else value when the token before swallows it, else positional (`RolesClassify` proves the scan agrees) |
| ScanProperties.LongWithEquals | main.php:315-321 | `--key=value` stores the value after the first `=` under the key before it, overwriting, and moves on by one |
| ScanProperties.LongWithoutEquals | main.php:297-313 | `--key` takes a following token that does not start with `-` as its value and skips it; otherwise it keeps an earlier value, else stores `true` |
| ScanProperties.ShortWithEquals | main.php:329-335 | `-k=value` stores everything after the `=` under the one-character key |
| ScanProperties.ShortGroup | main.php:337-355 | `-abc` marks every character; only a group of one character takes the next non-flag token as its value |
| ScanProperties.PlainArgument | main.php:357-361 | a token not starting with `-`, the empty token included, is appended to the positionals |
| ScanProperties.ParseFromPositionals | main.php:287-363 | from any index, the positionals collected are the positional-role tokens from there on, in order |
| ScanProperties.ParsePositionals | main.php:287-363 | the positionals of the whole scan are exactly the tokens whose role is positional, in encounter order |
| ScanProperties.RolesFromLocal | main.php:292-361 | from any index, every token's role in closed form: a token starting with `-` is an option group; any other token is a value exactly when the scanned token before it swallows its successor, and a positional otherwise |
| ScanProperties.RolesFromClassify | main.php:292-327 | from any index: a positional never starts with `-`; a token starting with `-` is always an option group; a value follows the option group that consumes it |
| ScanProperties.RolesClassify | main.php:292-361 | over the whole command line, every token's role is exactly `RoleAt`, and the three facts of `RolesFromClassify` hold at every index |
| ScanProperties.PositionalTokensAll | main.php:357-361 | all tokens are kept exactly when every role is positional |
| ScanProperties.NoFlagsFrom | main.php:287-363 | from any index, a list without flags adds every token to the positionals and no option |
| ScanProperties.NoFlagsPassThrough | main.php:287-363 | the positionals equal the input exactly when no token starts with `-`, and then the option map is empty |
| ScanProperties.FirstTokenPlain | main.php:357-361 | a first token not starting with `-` is the first positional |
| ScanExamples.CommandThenAssigned | main.php:315-321 | `install --key=value` keeps the command and stores the value |
| ScanExamples.CommandThenSpaced | main.php:301-306 | `install --key value` has the same outcome as `install --key=value` |
| ScanExamples.CommandSwallowed | main.php:302-305 | `--key install` takes the command as the option's value, so no positional is left |
| ScanExamples.BareFlagKeepsValue | main.php:309 | `--key=value --key` leaves `value` under the key |
| ScanExamples.ShortTakesValue | main.php:349-354 | `-c value` stores `value` under `c` |
| ScanExamples.PairLeavesValue | main.php:340-354 | `-cd value` sets `c` and `d` to `true` and leaves `value` positional |
| Platform.LowerAscii | main.php:131 | the case folding of the `i` flag: ASCII upper case to lower case, every other character unchanged |
| Platform.StartsWithIgnoringCase | main.php:131-136 | `preg_match('#^…#i')`: the host string is at least as long as the prefix, and its first characters lower-cased equal the prefix lower-cased |
| Platform.OsOf | main.php:131-145 | the Windows branch exactly when the first seven characters lower-cased are `windows`; the Linux branch exactly when that fails and the first five lower-cased are `linux`; the last branch otherwise |
| Platform.StrPadRight | main.php:128 | `str_pad` pads on the right: the string is kept as a prefix, and pad characters fill up to the width |
| Platform.FolderName | main.php:128 | `WebIde` followed by the version when it has two or more characters, by the version and `0` when it has one, by `00` when it is empty |
| Platform.ConfigPath | main.php:129-147 | the Windows, Linux and other paths for the host family, each ending in the folder name |
| Platform.OsOfIgnoresCase | main.php:131-136 | the host family does not change when the host string is lower-cased |
| Platform.ExactPrefixMatches | main.php:131-136 | a host string that starts with the prefix exactly also matches ignoring case |
| Platform.WindowsHosts | main.php:131-135 | every host string starting with `Windows` takes the Windows branch |
| Platform.LinuxHosts | main.php:136-140 | every host string starting with `Linux` takes the Linux branch |
| Platform.OsOfIgnoresCaseExamples | main.php:131-140 | `WINDOWS` takes the Windows branch and `linux` the Linux branch |
| Platform.OsOfOtherExamples | main.php:141-145 | `Darwin`, `Win` and the empty string take the last branch |
| Platform.FolderNameExamples | main.php:128 | version `8` gives `WebIde80`, the same folder as `80`; `1` gives `WebIde10`; the empty version gives `WebIde00` |
| App.VersionText | main.php:128 | `str_pad` reads `true` as `"1"` and a string as itself |
| App.Tokens | main.php:283-284 | the command line after `array_shift` has removed the script name |
| App.MarkFlags | main.php:340-347 | the `foreach` over a short group computes `SetFlagsMarks`'s map and leaves the last character as the key |
| App.Application.constructor | main.php:27-41 | no script name, no arguments, no options |
| App.Application.ParseArguments | main.php:281-366 | records the script name, appends exactly the scan's positionals to `args` and replaces `options` by the scan's option map |
| App.Application.GetOption | main.php:173-181 | the stored value when the key is set, else the default |
| App.Application.GetArgument | main.php:191-199 | the positional argument at the offset when there is one, else the default |
| App.Application.ShowsUsage | main.php:155-163 | the usage text is shown exactly when there is no first positional or it is not `install` |
| App.Application.IdeVersion | main.php:126 | option `ide-version` wins over option `i`, which wins over the default 8 |
| App.Application.TargetDir | main.php:124-148 | the path ends in the padded folder name; on Linux it starts with the literal `~/.` |
| App.Application.Execute | main.php:48-57 | parses the command line, then shows usage exactly when `ShowsUsage` holds, else installs into `TargetDir` |

## Left out

- installConfigFiles and loadConfigFromGitHub are not modelled. They check, create and write directories and files and download from a fixed URL, which is filesystem and network I/O. `Execute` returns the directory it would install into.
- usage, out, error and registerException are not modelled: they print text, install the exception handler and exit. Showing the usage text is the `Usage` outcome.
- App.Application.ParseArguments: takes the command line as a parameter instead of reading `$_SERVER['argv']`, and does not model the warning PHP emits when it reads the first character of an empty next token.
- App.Application.GetArgument: takes an integer offset. PHP's conversion of a string offset to an array key is not modelled.
- PHP converts an option key that is a decimal integer string (such as `1` from `-1`) to an integer array key. Storing and looking up convert alike, so the model keeps string keys.
- Before PHP 8.2, `str_split("")` returned one empty string. A lone `-` would then set the empty key and could take a value. The model follows PHP 8.2 and later.
- Strings are sequences of characters. PHP's byte strings and multi-byte input are not distinguished.
- The host string of `php_uname()`, `getenv` and `$_SERVER['HOME']` are read from the machine; here they are the fields of a `Host` parameter.
