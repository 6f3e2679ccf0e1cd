/**
 * The Node.js requirement: whether a `node` of at least a given major
 * version is installed, the shell commands that install the pinned
 * release, and the one-line description shown with them.
 *
 * Process creation is abstracted: the launch, the output stream and the
 * wait are inputs, and the Version class's parser is the parameter
 * `parseMajor` (None where the Version constructor throws).
 */
module NodeRequirement {
  import opened Results
  import opened JavaText
  import opened DSSession

  /** The Node.js release every remediation command installs. */
  const NodejsVersion: string := "14.17.0"

  // ---------------------------------------------------------------------
  // getCommands
  // ---------------------------------------------------------------------

  /** The base name of the Node.js build of release `v` for `target`, such as "linux-x64". */
  function Build(v: string, target: string): string
  {
    "node-v" + v + "-" + target
  }

  /** Linux outside Cloud Shell: download, extract, put on PATH. */
  function LinuxCommands(v: string): seq<string>
  {
    ["wget https://nodejs.org/dist/v" + v + "/" + Build(v, "linux-x64") + ".tar.xz",
     "tax -xvf " + Build(v, "linux-x64") + ".tar.xz",
     "export PATH=\"`pwd`\"/" + Build(v, "linux-x64") + "/bin:$PATH"]
  }

  function WindowsCommands(v: string): seq<string>
  {
    ["powershell wget https://nodejs.org/dist/v" + v + "/" + Build(v, "win-x64") + ".zip -OutFile " + Build(v, "win-x64") + ".zip",
     "powershell Expand-Archive -Path " + Build(v, "win-x64") + ".zip -DestinationPath .\\",
     "set PATH=%CD%\\" + Build(v, "win-x64") + ";%PATH%"]
  }

  function MacOSCommands(v: string): seq<string>
  {
    ["curl -L -O https://nodejs.org/dist/v" + v + "/" + Build(v, "darwin-x64") + ".tar.gz",
     "tax -xvf " + Build(v, "darwin-x64") + ".tar.xz",
     "export PATH=\"`pwd`\"/" + Build(v, "darwin-x64") + "/bin:$PATH"]
  }

  /** The remediation commands for `platform`, in the order they must be run. */
  function GetCommands(platform: Platform, ociCloudShell: bool): (r: seq<string>)
    ensures 1 <= |r| <= 3
  {
    match platform
    case Linux =>
      if ociCloudShell then ["nvm install " + NodejsVersion + " --latest-npm"] else LinuxCommands(NodejsVersion)
    case Windows => WindowsCommands(NodejsVersion)
    case MacOS => MacOSCommands(NodejsVersion)
  }

  /** In Oracle Cloud Shell, Linux needs one nvm command and nothing else. */
  lemma CloudShellUsesNvm()
    ensures GetCommands(Linux, true) == ["nvm install 14.17.0 --latest-npm"]
  {
    assert "nvm install " + "14.17.0" + " --latest-npm" == "nvm install 14.17.0 --latest-npm";
  }

  /**
   * Elsewhere on Linux: download the tarball, extract that same tarball,
   * then put the extracted bin directory on PATH.
   */
  lemma LinuxDownloadExtractExport()
    ensures |GetCommands(Linux, false)| == 3
    ensures StartsWith(GetCommands(Linux, false)[0], "wget https://nodejs.org/dist/v")
    ensures EndsWith(GetCommands(Linux, false)[0], "/" + Build(NodejsVersion, "linux-x64") + ".tar.xz")
    ensures StartsWith(GetCommands(Linux, false)[1], "tax -xvf ")
    ensures EndsWith(GetCommands(Linux, false)[1], " " + Build(NodejsVersion, "linux-x64") + ".tar.xz")
    ensures StartsWith(GetCommands(Linux, false)[2], "export PATH=")
    ensures Contains(GetCommands(Linux, false)[2], "/" + Build(NodejsVersion, "linux-x64") + "/bin:")
  {
    LinuxCommandsInOrder(NodejsVersion);
  }

  lemma LinuxCommandsInOrder(v: string)
    ensures |LinuxCommands(v)| == 3
    ensures StartsWith(LinuxCommands(v)[0], "wget https://nodejs.org/dist/v")
    ensures EndsWith(LinuxCommands(v)[0], "/" + Build(v, "linux-x64") + ".tar.xz")
    ensures StartsWith(LinuxCommands(v)[1], "tax -xvf ")
    ensures EndsWith(LinuxCommands(v)[1], " " + Build(v, "linux-x64") + ".tar.xz")
    ensures StartsWith(LinuxCommands(v)[2], "export PATH=")
    ensures Contains(LinuxCommands(v)[2], "/" + Build(v, "linux-x64") + "/bin:")
  {
    var b := Build(v, "linux-x64");
    LinuxDownload(v, b);
    LinuxExtract(b);
    LinuxExport(b);
  }

  lemma LinuxDownload(v: string, b: string)
    ensures StartsWith("wget https://nodejs.org/dist/v" + v + "/" + b + ".tar.xz", "wget https://nodejs.org/dist/v")
    ensures EndsWith("wget https://nodejs.org/dist/v" + v + "/" + b + ".tar.xz", "/" + b + ".tar.xz")
  {
  }

  lemma LinuxExtract(b: string)
    ensures StartsWith("tax -xvf " + b + ".tar.xz", "tax -xvf ")
    ensures EndsWith("tax -xvf " + b + ".tar.xz", " " + b + ".tar.xz")
  {
  }

  lemma LinuxExport(b: string)
    ensures StartsWith("export PATH=\"`pwd`\"/" + b + "/bin:$PATH", "export PATH=")
    ensures Contains("export PATH=\"`pwd`\"/" + b + "/bin:$PATH", "/" + b + "/bin:")
  {
    var pwd := "export PATH=\"`pwd`\"";
    var s := "export PATH=\"`pwd`\"/" + b + "/bin:$PATH";
    assert s == pwd + ("/" + b + "/bin:") + "$PATH";
    ContainsInfix(pwd, "/" + b + "/bin:", "$PATH");
    assert s == "export PATH=" + ("\"`pwd`\"/" + b + "/bin:$PATH");
    Affixes("export PATH=", "\"`pwd`\"/" + b + "/bin:$PATH");
  }

  /** Windows and MacOS ignore the Cloud Shell flag and always give three commands. */
  lemma CloudShellFlagOnlyMattersOnLinux(platform: Platform, ociCloudShell: bool)
    requires platform != Linux
    ensures GetCommands(platform, ociCloudShell) == GetCommands(platform, !ociCloudShell)
    ensures |GetCommands(platform, ociCloudShell)| == 3
  {
  }

  /**
   * On MacOS the archive extracted is not the one downloaded: the download
   * is the `.tar.gz` and the extraction names the `.tar.xz`.
   */
  lemma MacOSExtractsAnotherArchive()
    ensures EndsWith(GetCommands(MacOS, false)[0], Build(NodejsVersion, "darwin-x64") + ".tar.gz")
    ensures EndsWith(GetCommands(MacOS, false)[1], Build(NodejsVersion, "darwin-x64") + ".tar.xz")
    ensures !EndsWith(GetCommands(MacOS, false)[0], ".tar.xz")
  {
  }

  /** Every command of every table names the pinned release. */
  lemma EveryCommandNamesTheRelease(platform: Platform, ociCloudShell: bool, i: int)
    requires 0 <= i < |GetCommands(platform, ociCloudShell)|
    ensures Contains(GetCommands(platform, ociCloudShell)[i], NodejsVersion)
  {
    var v := NodejsVersion;
    match platform
    case Linux =>
      if ociCloudShell {
        ContainsInfix("nvm install ", v, " --latest-npm");
      } else {
        LinuxCommandsNameRelease(v, i);
      }
    case Windows => WindowsCommandsNameRelease(v, i);
    case MacOS => MacOSCommandsNameRelease(v, i);
  }

  lemma BuildNamesRelease(p: string, v: string, target: string, q: string)
    ensures Contains(p + Build(v, target) + q, v)
  {
    ContainsInfix(p + "node-v", v, "-" + target + q);
    assert p + Build(v, target) + q == p + "node-v" + v + ("-" + target + q);
  }

  lemma LinuxCommandsNameRelease(v: string, i: int)
    requires 0 <= i < 3
    ensures Contains(LinuxCommands(v)[i], v)
  {
    if i == 0 {
      BuildNamesRelease("wget https://nodejs.org/dist/v" + v + "/", v, "linux-x64", ".tar.xz");
    } else if i == 1 {
      BuildNamesRelease("tax -xvf ", v, "linux-x64", ".tar.xz");
    } else {
      BuildNamesRelease("export PATH=\"`pwd`\"/", v, "linux-x64", "/bin:$PATH");
    }
  }

  lemma WindowsCommandsNameRelease(v: string, i: int)
    requires 0 <= i < 3
    ensures Contains(WindowsCommands(v)[i], v)
  {
    var b := Build(v, "win-x64");
    if i == 0 {
      var p := "powershell wget https://nodejs.org/dist/v" + v + "/";
      BuildNamesRelease(p, v, "win-x64", ".zip -OutFile " + b + ".zip");
      assert WindowsCommands(v)[0] == p + b + (".zip -OutFile " + b + ".zip");
    } else if i == 1 {
      BuildNamesRelease("powershell Expand-Archive -Path ", v, "win-x64", ".zip -DestinationPath .\\");
    } else {
      BuildNamesRelease("set PATH=%CD%\\", v, "win-x64", ";%PATH%");
    }
  }

  lemma MacOSCommandsNameRelease(v: string, i: int)
    requires 0 <= i < 3
    ensures Contains(MacOSCommands(v)[i], v)
  {
    if i == 0 {
      BuildNamesRelease("curl -L -O https://nodejs.org/dist/v" + v + "/", v, "darwin-x64", ".tar.gz");
    } else if i == 1 {
      BuildNamesRelease("tax -xvf ", v, "darwin-x64", ".tar.xz");
    } else {
      BuildNamesRelease("export PATH=\"`pwd`\"/", v, "darwin-x64", "/bin:$PATH");
    }
  }

  // ---------------------------------------------------------------------
  // getDescription
  // ---------------------------------------------------------------------

  const DescriptionHead: string := "To install Node version "
  const DescriptionTail: string := ", please follow these instructions:"

  /** The line shown above the commands; it names the required major version. */
  function GetDescription(majorVersion: int): (r: string)
    ensures |r| == |DescriptionHead| + |IntToString(majorVersion)| + |DescriptionTail|
    ensures StartsWith(r, DescriptionHead)
    ensures EndsWith(r, DescriptionTail)
    ensures r[|DescriptionHead|..|r| - |DescriptionTail|] == IntToString(majorVersion)
  {
    var r := DescriptionHead + IntToString(majorVersion) + DescriptionTail;
    assert r[|DescriptionHead|..|r| - |DescriptionTail|] == IntToString(majorVersion);
    r
  }

  /** The description determines the version it was built for. */
  lemma DescriptionIdentifiesVersion(a: int, b: int)
    requires GetDescription(a) == GetDescription(b)
    ensures a == b
  {
    IntToStringInjective(a, b);
  }

  // ---------------------------------------------------------------------
  // isPresent: the decision over what the process did
  // ---------------------------------------------------------------------

  /** What running `node -v` came to, as isPresent observes it. */
  datatype ProcessRun =
    | LaunchFailed                          // ProcessBuilder.start threw IOException
    | ReadFailed                            // reading the output threw IOException
    | Interrupted                           // waitFor threw InterruptedException
    | Exited(code: int, output: string)     // the exit value and the whole captured output

  /** The exceptions that leave isPresent uncaught. */
  datatype Escape =
    | NonZeroExit(code: int, reported: string)  // the RuntimeException; `reported` is the output its message quotes
    | EmptyOutput                               // substring(1) of an empty output
    | MalformedVersion                          // the Version constructor rejected the text

  /** isPresent either returns a boolean or lets an exception escape. */
  datatype Presence = Returned(present: bool) | Threw(escape: Escape)

  /** The text handed to the Version parser: the output without its first character, trimmed. */
  function VersionText(output: string): (r: string)
    requires |output| > 0
    ensures |r| < |output|
    ensures r == [] || (!IsSpace(r[0]) && !IsSpace(r[|r| - 1]))
  {
    Trim(output[1..])
  }

  /** isPresent's result for a run of `node -v`, against the required `majorVersion`. */
  function PresenceOf(majorVersion: int, run: ProcessRun, parseMajor: string -> Option<int>): (r: Presence)
    ensures r.Returned? && r.present <==>
              run.Exited? && run.code == 0 && |run.output| > 0 &&
              parseMajor(VersionText(run.output)).Some? &&
              parseMajor(VersionText(run.output)).value >= majorVersion
    ensures r.Threw? <==> run.Exited? && (run.code != 0 || |run.output| == 0 || parseMajor(VersionText(run.output)).None?)
  {
    match run
    case LaunchFailed => Returned(false)
    case ReadFailed => Returned(false)
    case Interrupted => Returned(false)
    case Exited(code, output) =>
      if code != 0 then Threw(NonZeroExit(code, ""))
      else if |output| == 0 then Threw(EmptyOutput)
      else
        match parseMajor(VersionText(output))
        case None => Threw(MalformedVersion)
        case Some(major) => Returned(major >= majorVersion)
  }

  /** A failed launch, a failed read or an interrupted wait all read as "not installed". */
  lemma CaughtFailuresReadAsAbsent(majorVersion: int, run: ProcessRun, parseMajor: string -> Option<int>)
    requires run.LaunchFailed? || run.ReadFailed? || run.Interrupted?
    ensures PresenceOf(majorVersion, run, parseMajor) == Returned(false)
  {
  }

  /**
   * A non-zero exit is not caught: the RuntimeException escapes, and the
   * output its message quotes is empty, the stream having been drained.
   */
  lemma NonZeroExitEscapes(majorVersion: int, code: int, output: string, parseMajor: string -> Option<int>)
    requires code != 0
    ensures PresenceOf(majorVersion, Exited(code, output), parseMajor) == Threw(NonZeroExit(code, ""))
  {
  }

  /** A clean exit with no output escapes from `substring(1)`. */
  lemma EmptyOutputEscapes(majorVersion: int, parseMajor: string -> Option<int>)
    ensures PresenceOf(majorVersion, Exited(0, ""), parseMajor) == Threw(EmptyOutput)
  {
  }

  /** A clean exit whose version text does not parse escapes from the Version constructor. */
  lemma MalformedVersionEscapes(majorVersion: int, output: string, parseMajor: string -> Option<int>)
    requires |output| > 0 && parseMajor(VersionText(output)).None?
    ensures PresenceOf(majorVersion, Exited(0, output), parseMajor) == Threw(MalformedVersion)
  {
  }

  /** On a clean exit with output, the answer is the comparison of major versions. */
  lemma PresentIffMajorAtLeast(majorVersion: int, output: string, major: int, parseMajor: string -> Option<int>)
    requires |output| > 0 && parseMajor(VersionText(output)) == Some(major)
    ensures PresenceOf(majorVersion, Exited(0, output), parseMajor) == Returned(major >= majorVersion)
  {
  }

  /** A node that satisfies a requirement satisfies every lower one. */
  lemma PresenceMonotone(higher: int, lower: int, run: ProcessRun, parseMajor: string -> Option<int>)
    requires lower <= higher
    requires PresenceOf(higher, run, parseMajor) == Returned(true)
    ensures PresenceOf(lower, run, parseMajor) == Returned(true)
  {
  }

  /** Whatever the first character of the output is, it is dropped unread. */
  lemma FirstCharacterIgnored(majorVersion: int, c: char, d: char, rest: string, parseMajor: string -> Option<int>)
    ensures PresenceOf(majorVersion, Exited(0, [c] + rest), parseMajor) ==
            PresenceOf(majorVersion, Exited(0, [d] + rest), parseMajor)
  {
  }

  /** `node -v` printing "v16.3.0" and a newline satisfies a requirement of 14. */
  lemma NewerNodeIsPresent(parseMajor: string -> Option<int>)
    requires parseMajor("16.3.0") == Some(16)
    ensures PresenceOf(14, Exited(0, "v16.3.0\n"), parseMajor) == Returned(true)
  {
    assert "v16.3.0\n"[1..] == [] + "16.3.0" + "\n";
    TrimStripsPadding([], "16.3.0", "\n");
  }

  /** `node -v` printing "v14.17.0" and a newline does not satisfy a requirement of 16. */
  lemma OlderNodeIsAbsent(parseMajor: string -> Option<int>)
    requires parseMajor("14.17.0") == Some(14)
    ensures PresenceOf(16, Exited(0, "v14.17.0\n"), parseMajor) == Returned(false)
  {
    assert "v14.17.0\n"[1..] == [] + "14.17.0" + "\n";
    TrimStripsPadding([], "14.17.0", "\n");
  }

  // ---------------------------------------------------------------------
  // getProcessOutput: the chunked read loop
  // ---------------------------------------------------------------------

  /** One underlying read of the process's output stream. */
  datatype ReadStep = Chunk(data: string) | IoError

  /** What getProcessOutput makes of a stream: its characters in order, or the IOException. */
  function Collected(script: seq<ReadStep>): (r: Result<string, ()>)
    ensures r.Success? <==> forall i :: 0 <= i < |script| ==> script[i].Chunk?
    ensures r.Success? && script != [] ==> StartsWith(r.value, script[0].data)
  {
    if script == [] then Success([])
    else match script[0]
      case IoError => Failure(())
      case Chunk(d) => Prefixed(d, Collected(script[1..]))
  }

  function Prefixed(p: string, r: Result<string, ()>): Result<string, ()>
  {
    match r
    case Success(s) => Success(p + s)
    case Failure(e) => Failure(e)
  }

  /** A stream with no read error collects to the concatenation of its chunks. */
  lemma {:induction false} CollectedConcatenates(script: seq<ReadStep>, out: string)
    requires forall i :: 0 <= i < |script| ==> script[i].Chunk?
    ensures Collected(script).Success?
    ensures Collected(script + [Chunk(out)]) == Success(Collected(script).value + out)
  {
    if script != [] {
      assert (script + [Chunk(out)])[1..] == script[1..] + [Chunk(out)];
      CollectedConcatenates(script[1..], out);
      var d, x := script[0].data, Collected(script[1..]).value;
      assert d + (x + out) == d + x + out;
    } else {
      assert script + [Chunk(out)] == [Chunk(out)];
      assert [Chunk(out)][1..] == [];
      assert out + [] == out == [] + out;
    }
  }

  /** How chunks are cut does not change what is collected. */
  lemma CollectedSplit(d: string, n: nat, rest: seq<ReadStep>)
    requires n <= |d|
    ensures Collected([Chunk(d)] + rest) == Prefixed(d[..n], Collected(Remaining(d, n, rest)))
  {
    assert ([Chunk(d)] + rest)[1..] == rest;
    if n == |d| {
      assert d[..n] == d;
    } else {
      assert Remaining(d, n, rest)[1..] == rest;
      match Collected(rest)
      case Success(s) => assert d[..n] + (d[n..] + s) == d + s;
      case Failure(_) =>
    }
  }

  /** The stream after a read took `n` characters of chunk `d`, `rest` following it. */
  function Remaining(d: string, n: nat, rest: seq<ReadStep>): seq<ReadStep>
    requires n <= |d|
  {
    if n == |d| then rest else [Chunk(d[n..])] + rest
  }

  lemma PrefixedTwice(a: string, b: string, r: Result<string, ()>)
    ensures Prefixed(a, Prefixed(b, r)) == Prefixed(a + b, r)
  {
    match r
    case Success(s) => assert a + (b + s) == a + b + s;
    case Failure(_) =>
  }

  /** Reads still to come, weighted so that every read that delivers something lowers it. */
  function Weight(script: seq<ReadStep>): nat
  {
    if script == [] then 0
    else (match script[0] case Chunk(d) => |d| + 1 case IoError => 1) + Weight(script[1..])
  }

  /**
   * The process's output stream behind its Reader: `script` lists what the
   * stream still has to deliver; once it is empty the stream is at its end
   * and every read reports -1.
   */
  class Reader {
    var script: seq<ReadStep>

    constructor (script: seq<ReadStep>)
      ensures this.script == script
    {
      this.script := script;
    }

    /**
     * Reader.read(char[]): at most `buf.Length` characters of the next
     * chunk go to the front of `buf` and their number is returned; -1 at
     * the end of the stream; `failed` stands for the IOException.
     */
    method Read(buf: array<char>) returns (len: int, failed: bool)
      requires buf.Length > 0
      modifies this, buf
      ensures failed <==> old(script) != [] && old(script)[0].IoError?
      ensures failed ==> script == old(script)
      ensures !failed && old(script) == [] ==> len == -1 && script == []
      ensures !failed && old(script) != [] ==>
                var d := old(script)[0].data;
                && 0 <= len <= |d| && len <= buf.Length
                && (len == |d| || len == buf.Length)
                && buf[..len] == d[..len]
                && script == Remaining(d, len, old(script)[1..])
                && Weight(script) < Weight(old(script))
    {
      if script == [] {
        len, failed := -1, false;
        return;
      }
      match script[0]
      case IoError =>
        len, failed := 0, true;
      case Chunk(d) =>
        len := if |d| < buf.Length then |d| else buf.Length;
        failed := false;
        forall i | 0 <= i < len {
          buf[i] := d[i];
        }
        var rest := script[1..];
        assert Weight(script) == |d| + 1 + Weight(rest);
        script := Remaining(d, len, rest);
        if len < |d| {
          assert script[1..] == rest;
        }
    }
  }

  /**
   * getProcessOutput: read the stream in 4096-character chunks until a
   * read returns a negative length, appending exactly the characters each
   * read delivered; an IOException from a read escapes.
   */
  method GetProcessOutput(r: Reader) returns (res: Result<string, ()>)
    modifies r
    ensures res == Collected(old(r.script))
    ensures res.Success? ==> r.script == []
  {
    var sb: string := [];
    var chars := new char[4 * 1024];
    assert Prefixed(sb, Collected(r.script)) == Collected(r.script) by {
      if Collected(r.script).Success? { assert sb + Collected(r.script).value == Collected(r.script).value; }
    }
    while true
      invariant Collected(old(r.script)) == Prefixed(sb, Collected(r.script))
      decreases Weight(r.script)
    {
      ghost var before := r.script;
      var len, failed := r.Read(chars);
      if failed {
        return Failure(());
      }
      if len < 0 {
        break;
      }
      CollectedSplit(before[0].data, len, before[1..]);
      PrefixedTwice(sb, chars[..len], Collected(r.script));
      sb := sb + chars[..len];
    }
    assert sb + [] == sb;
    return Success(sb);
  }

  // ---------------------------------------------------------------------
  // isPresent: the steps in order
  // ---------------------------------------------------------------------

  /** How waitFor ended. */
  datatype Wait = InterruptedWait | ExitValue(code: int)

  /** The run isPresent observes when the launch, the stream and the wait go as given. */
  function Observed(launched: bool, script: seq<ReadStep>, wait: Wait): ProcessRun
  {
    if !launched then LaunchFailed
    else match Collected(script)
      case Failure(_) => ReadFailed
      case Success(output) =>
        match wait
        case InterruptedWait => Interrupted
        case ExitValue(code) => Exited(code, output)
  }

  /**
   * isPresent: start `node -v`, read its output, wait for it, and compare
   * the major version; on a non-zero exit the output stream is read a
   * second time for the exception message.
   */
  method IsPresent(majorVersion: int, launched: bool, stdout: Reader, wait: Wait, parseMajor: string -> Option<int>)
    returns (r: Presence)
    modifies stdout
    ensures r == PresenceOf(majorVersion, Observed(launched, old(stdout.script), wait), parseMajor)
  {
    if !launched {
      return Returned(false);
    }
    ghost var stream := stdout.script;
    var sb := GetProcessOutput(stdout);
    if sb.Failure? {
      assert Observed(launched, stream, wait) == ReadFailed;
      return Returned(false);
    }
    match wait
    case InterruptedWait =>
      assert Observed(launched, stream, wait) == Interrupted;
      return Returned(false);
    case ExitValue(a) =>
      ghost var run := Exited(a, sb.value);
      assert Observed(launched, stream, wait) == run;
      if a != 0 {
        var again := GetProcessOutput(stdout);
        if again.Failure? {
          return Returned(false);
        }
        assert again.value == [];
        assert PresenceOf(majorVersion, run, parseMajor) == Threw(NonZeroExit(a, []));
        return Threw(NonZeroExit(a, again.value));
      }
      if |sb.value| == 0 {
        assert PresenceOf(majorVersion, run, parseMajor) == Threw(EmptyOutput);
        return Threw(EmptyOutput);
      }
      var version := parseMajor(VersionText(sb.value));
      if version.None? {
        assert PresenceOf(majorVersion, run, parseMajor) == Threw(MalformedVersion);
        return Threw(MalformedVersion);
      }
      assert PresenceOf(majorVersion, run, parseMajor) == Returned(version.value >= majorVersion);
      return Returned(version.value >= majorVersion);
  }
}
