/**
 * The pure parts of `Application::getTargetDir`: the PhpStorm settings folder
 * name built with `str_pad`, the host family read from `php_uname()`, and the
 * per-family settings path. The host string and the environment variables are
 * parameters; an unset variable reads as the empty string, as PHP's string
 * concatenation of `false` or `null` does.
 */
module Platform {

  /** What `getTargetDir` reads from the machine it runs on. */
  datatype Host = Host(
    uname: string,      // php_uname()
    homeDrive: string,  // getenv('HOMEDRIVE')
    homePath: string,   // getenv('HOMEPATH')
    home: string        // $_SERVER['HOME']
  )

  /** The three branches of `getTargetDir`; `Other` is every host that is neither Windows nor Linux, macOS among them. */
  datatype OsFamily = Windows | Linux | Other

  /** ASCII upper case folded to lower case: what PCRE's `i` flag does without the `u` modifier. */
  function LowerAscii(c: char): (l: char)
    ensures 'A' <= c <= 'Z' ==> l as int == c as int + 32
    ensures !('A' <= c <= 'Z') ==> l == c
    ensures !('A' <= l <= 'Z')
  {
    if 'A' <= c <= 'Z' then (c as int + 32) as char else c
  }

  function LowerString(s: string): (l: string)
    ensures |l| == |s|
    ensures forall k :: 0 <= k < |s| ==> l[k] == LowerAscii(s[k])
  {
    seq(|s|, k requires 0 <= k < |s| => LowerAscii(s[k]))
  }

  /** `preg_match('#^prefix#i', s)`: `s` begins with `prefix`, ignoring ASCII case. */
  predicate StartsWithIgnoringCase(s: string, prefix: string)
    ensures StartsWithIgnoringCase(s, prefix) <==>
      |prefix| <= |s| && LowerString(s[..|prefix|]) == LowerString(prefix)
  {
    var matches := |prefix| <= |s| && forall k :: 0 <= k < |prefix| ==> LowerAscii(s[k]) == LowerAscii(prefix[k]);
    assert matches <==> |prefix| <= |s| && LowerString(s[..|prefix|]) == LowerString(prefix) by {
      if |prefix| <= |s| && LowerString(s[..|prefix|]) == LowerString(prefix) {
        forall k | 0 <= k < |prefix| ensures LowerAscii(s[k]) == LowerAscii(prefix[k]) {
          assert LowerString(s[..|prefix|])[k] == LowerString(prefix)[k];
        }
      }
    }
    matches
  }

  /** The family the branches of `getTargetDir` tell apart; anything not Windows or Linux takes the last branch, the macOS path. */
  function OsOf(uname: string): (family: OsFamily)
    ensures family == Windows <==> 7 <= |uname| && LowerString(uname[..7]) == "windows"
    ensures family == Linux <==> family != Windows && 5 <= |uname| && LowerString(uname[..5]) == "linux"
  {
    assert LowerString("Windows") == "windows";
    assert LowerString("Linux") == "linux";
    if StartsWithIgnoringCase(uname, "Windows") then Windows
    else if StartsWithIgnoringCase(uname, "Linux") then Linux
    else Other
  }

  /**
   * `str_pad($s, $width, $pad)` with the default `STR_PAD_RIGHT`: `s` itself
   * when it is already `width` long, else `s` followed by as many `pad`
   * characters as it lacks.
   */
  function StrPadRight(s: string, width: nat, pad: char): (r: string)
    ensures |r| == if |s| >= width then |s| else width
    ensures r[..|s|] == s
    ensures forall k :: |s| <= k < |r| ==> r[k] == pad
    decreases width - |s|
  {
    if |s| >= width then s
    else
      var r := StrPadRight(s + [pad], width, pad);
      assert r[..|s|] == r[..|s| + 1][..|s|];
      r
  }

  /** `'WebIde' . str_pad($version, 2, 0)`. */
  function FolderName(version: string): (name: string)
    ensures |version| >= 2 ==> name == "WebIde" + version
    ensures |version| == 1 ==> name == "WebIde" + version + "0"
    ensures |version| == 0 ==> name == "WebIde00"
  {
    var padded := StrPadRight(version, 2, '0');
    assert |version| >= 2 ==> padded == version by {
      if |version| >= 2 { assert padded == padded[..|version|]; }
    }
    assert |version| == 1 ==> padded == version + "0" by {
      if |version| == 1 { assert padded == [padded[0], padded[1]]; }
    }
    assert |version| == 0 ==> padded == "00" by {
      if |version| == 0 { assert padded == [padded[0], padded[1]]; }
    }
    "WebIde" + padded
  }

  /**
   * The settings directory for `folder` on `host`:
   * `HOMEDRIVE HOMEPATH \.folder` on Windows, the literal `~/.folder` on Linux,
   * `HOME/Library/Preferences/folder` otherwise. In every case the folder is
   * the last path component.
   */
  function ConfigPath(host: Host, folder: string): (path: string)
    ensures OsOf(host.uname) == Windows ==> path == host.homeDrive + host.homePath + "\\." + folder
    ensures OsOf(host.uname) == Linux ==> path == "~/." + folder
    ensures OsOf(host.uname) == Other ==> path == host.home + "/Library/Preferences/" + folder
    ensures |path| > |folder| && path[|path| - |folder|..] == folder
  {
    match OsOf(host.uname)
    case Windows => host.homeDrive + host.homePath + "\\." + folder
    case Linux => "~/." + folder
    case Other => host.home + "/Library/Preferences/" + folder
  }

  /** The host family does not depend on the case of the host string. */
  lemma OsOfIgnoresCase(uname: string)
    ensures OsOf(LowerString(uname)) == OsOf(uname)
  {
    var l := LowerString(uname);
    forall c: char ensures LowerAscii(LowerAscii(c)) == LowerAscii(c) { }
    assert StartsWithIgnoringCase(l, "Windows") == StartsWithIgnoringCase(uname, "Windows");
    assert StartsWithIgnoringCase(l, "Linux") == StartsWithIgnoringCase(uname, "Linux");
  }

  /** A host string that begins with `prefix` exactly also begins with it ignoring case. */
  lemma ExactPrefixMatches(s: string, prefix: string)
    requires |prefix| <= |s| && s[..|prefix|] == prefix
    ensures StartsWithIgnoringCase(s, prefix)
  {
    forall k | 0 <= k < |prefix| ensures LowerAscii(s[k]) == LowerAscii(prefix[k]) {
      assert s[k] == s[..|prefix|][k];
    }
  }

  /** A host string that begins with `Windows`, as on every Windows machine, takes the Windows branch. */
  lemma WindowsHosts(uname: string)
    requires 7 <= |uname| && uname[..7] == "Windows"
    ensures OsOf(uname) == Windows
  {
    ExactPrefixMatches(uname, "Windows");
  }

  /** A host string that begins with `Linux` takes the Linux branch. */
  lemma LinuxHosts(uname: string)
    requires 5 <= |uname| && uname[..5] == "Linux"
    ensures OsOf(uname) == Linux
  {
    assert uname[0] == "Linux"[0];
    assert !StartsWithIgnoringCase(uname, "Windows") by {
      assert LowerAscii(uname[0]) != LowerAscii("Windows"[0]);
    }
    ExactPrefixMatches(uname, "Linux");
  }

  /** The test ignores case: upper-case `WINDOWS` and lower-case `linux` match. */
  lemma OsOfIgnoresCaseExamples()
    ensures OsOf("WINDOWS") == Windows
    ensures OsOf("linux") == Linux
  {
    assert StartsWithIgnoringCase("WINDOWS", "Windows");
    assert !StartsWithIgnoringCase("linux", "Windows") by {
      assert LowerAscii("linux"[0]) != LowerAscii("Windows"[0]);
    }
    assert StartsWithIgnoringCase("linux", "Linux");
  }

  /**
   * Every other host takes the last branch: macOS (`Darwin`), a host string
   * that is only a prefix of `Windows`, and an empty one.
   */
  lemma OsOfOtherExamples()
    ensures OsOf("Darwin") == Other
    ensures OsOf("Win") == Other
    ensures OsOf("") == Other
  {
    var darwin := "Darwin";
    assert LowerAscii(darwin[0]) != LowerAscii("Windows"[0]);
    assert LowerAscii(darwin[0]) != LowerAscii("Linux"[0]);
  }

  /**
   * Right padding: version "8" names the folder `WebIde80`, the same folder as
   * version "80", and an empty version names `WebIde00`.
   */
  lemma FolderNameExamples()
    ensures FolderName("8") == "WebIde80"
    ensures FolderName("8") == FolderName("80")
    ensures FolderName("10") == "WebIde10"
    ensures FolderName("1") == "WebIde10"
    ensures FolderName("2016.1") == "WebIde2016.1"
    ensures FolderName("") == "WebIde00"
  {
  }
}
