# Node.js requirement check and console line layout, in Dafny

This project models two pieces of the `dragon` command-line tool.

- **`NodeRequirement`** decides whether a `node` of at least a required major version is installed. It runs `node -v`, reads the output, waits for the process, drops the output's first character (the `v`), trims the rest and compares the major version. When `node` is missing or too old, the caller shows a one-line description and a platform-specific list of shell commands that install Node.js 14.17.0.
- **`Console`** provides the text of the `"> section ...... message"` line that `printBounded` prints, padded to 80 columns. It also covers `Style.toString`, which emits an ANSI escape only when colours are enabled, and the format that `getDurationSince` uses for times under one second.

Modules:

- `Results`: `Option` and `Result`.
- `JavaText`: the `java.lang` behaviour the core depends on. This covers `String.trim`, `Integer.toString` (what `"…" + int` prints), the `%0Nd` conversion (with ASCII digits) and substring predicates.
- `DSSession`: `Platform`, with the three cases the remediation switch names.
- `NodeRequirement`: the command tables, the description, the presence decision `PresenceOf`, the output stream `Reader`, the read loop `GetProcessOutput` and the step-by-step `IsPresent`.
- `Console`: `PrintBounded` and its specification `BoundedLine`, `Style`, and `SubSecondDuration`.

Inputs that come from the operating system are parameters:

- `IsPresent` takes whether the launch succeeded, a `Reader` whose `script` lists what the output stream delivers read by read, and how `waitFor` ended.
- The parser of the `Version` class (not part of this model) is a parameter `parseMajor: string -> Option<int>`. `None` stands for the constructor throwing.
- `Style.toString` takes the `ENABLE_COLORS` switch as an argument.
- The sub-second duration takes the elapsed milliseconds as an argument.

Three behaviours of `isPresent` are easy to misread; the model follows the code:

- A non-zero exit of `node -v` is not turned into `false`. The `RuntimeException` thrown at `NodeRequirement.java:24` is outside the `catch` of `IOException | InterruptedException`, so it escapes (`Threw(NonZeroExit(..))`).
- An empty output makes `substring(1)` throw, and that exception escapes too (`Threw(EmptyOutput)`). So does a version text that the `Version` constructor rejects (`Threw(MalformedVersion)`).
- The exception message reads the output stream a second time, after it has been drained. `IsPresent` performs that second read, and the model shows that it yields `""`. So the message never contains the process output (`NonZeroExitEscapes`).

The command tables are copied as written, including the `tax -xvf` commands and the MacOS table that downloads a `.tar.gz` but extracts a `.tar.xz` (`MacOSExtractsAnotherArchive`).

## Model

| member | source | states |
|---|---|---|
| `NodeRequirement.GetCommands` | src/main/java/com/oracle/dragon/stacks/requirements/NodeRequirement.java:34-67 | every platform gets between one and three commands, never none |
| `NodeRequirement.CloudShellUsesNvm` | src/main/java/com/oracle/dragon/stacks/requirements/NodeRequirement.java:40-43 | Linux in Cloud Shell gets exactly `["nvm install 14.17.0 --latest-npm"]` |
| `NodeRequirement.LinuxDownloadExtractExport` | src/main/java/com/oracle/dragon/stacks/requirements/NodeRequirement.java:45-49 | Linux outside Cloud Shell gets three commands in order: a `wget` of the linux-x64 `.tar.xz`, a `tax -xvf` of that same archive, an `export PATH=` naming its `bin` directory |
| `NodeRequirement.CloudShellFlagOnlyMattersOnLinux` | src/main/java/com/oracle/dragon/stacks/requirements/NodeRequirement.java:51-63 | on Windows and MacOS the Cloud Shell flag does not change the result, which always has three commands |
| `NodeRequirement.MacOSExtractsAnotherArchive` | src/main/java/com/oracle/dragon/stacks/requirements/NodeRequirement.java:58-63 | on MacOS the download ends in `darwin-x64.tar.gz` while the extraction names `darwin-x64.tar.xz` |
| `NodeRequirement.EveryCommandNamesTheRelease` | src/main/java/com/oracle/dragon/stacks/requirements/NodeRequirement.java:36-63 | every command of every table contains the pinned release `14.17.0` |
| `NodeRequirement.GetDescription` | src/main/java/com/oracle/dragon/stacks/requirements/NodeRequirement.java:69-72 | the description is the fixed head, then the decimal text of the major version, then the fixed tail |
| `NodeRequirement.DescriptionIdentifiesVersion` | src/main/java/com/oracle/dragon/stacks/requirements/NodeRequirement.java:71 | two requirements with the same description require the same major version |
| `NodeRequirement.VersionText` | src/main/java/com/oracle/dragon/stacks/requirements/NodeRequirement.java:27 | the text handed to `Version` is shorter than the output, since the first character is dropped, and has no space at either end |
| `NodeRequirement.PresenceOf` | src/main/java/com/oracle/dragon/stacks/requirements/NodeRequirement.java:15-32 | `true` exactly on a zero exit with non-empty output whose trimmed tail parses to a major of at least the threshold; an exception escapes exactly on a non-zero exit, an empty output or an unparsable version |
| `NodeRequirement.CaughtFailuresReadAsAbsent` | src/main/java/com/oracle/dragon/stacks/requirements/NodeRequirement.java:19-31 | a failed launch, a failed read or an interrupted wait gives `false` |
| `NodeRequirement.NonZeroExitEscapes` | src/main/java/com/oracle/dragon/stacks/requirements/NodeRequirement.java:22-25 | a non-zero exit lets the RuntimeException escape rather than returning `false`, and its message quotes an empty output |
| `NodeRequirement.EmptyOutputEscapes` | src/main/java/com/oracle/dragon/stacks/requirements/NodeRequirement.java:27 | an exit value of 0 with empty output lets the exception from `substring(1)` escape (`EmptyOutput`) |
| `NodeRequirement.MalformedVersionEscapes` | src/main/java/com/oracle/dragon/stacks/requirements/NodeRequirement.java:27 | an exit value of 0 whose trimmed version text does not parse lets the `Version` constructor's exception escape (`MalformedVersion`) |
| `NodeRequirement.PresentIffMajorAtLeast` | src/main/java/com/oracle/dragon/stacks/requirements/NodeRequirement.java:27 | on a zero exit with parsed major `m`, the result is `m >= majorVersion` |
| `NodeRequirement.PresenceMonotone` | src/main/java/com/oracle/dragon/stacks/requirements/NodeRequirement.java:27 | a run that satisfies a threshold satisfies every lower threshold |
| `NodeRequirement.FirstCharacterIgnored` | src/main/java/com/oracle/dragon/stacks/requirements/NodeRequirement.java:27 | the outcome does not depend on the output's first character |
| `NodeRequirement.NewerNodeIsPresent` | src/main/java/com/oracle/dragon/stacks/requirements/NodeRequirement.java:20-27 | output `"v16.3.0\n"` with exit 0 satisfies a threshold of 14 |
| `NodeRequirement.OlderNodeIsAbsent` | src/main/java/com/oracle/dragon/stacks/requirements/NodeRequirement.java:20-27 | output `"v14.17.0\n"` with exit 0 does not satisfy a threshold of 16 |
| `NodeRequirement.Collected` | src/main/java/com/oracle/dragon/stacks/requirements/NodeRequirement.java:74-83 | reading the stream succeeds exactly when no read fails, and the text then begins with the first chunk |
| `NodeRequirement.CollectedConcatenates` | src/main/java/com/oracle/dragon/stacks/requirements/NodeRequirement.java:79-81 | on a stream without read errors, one more chunk appends exactly its text to what is collected |
| `NodeRequirement.CollectedSplit` | src/main/java/com/oracle/dragon/stacks/requirements/NodeRequirement.java:79-81 | how a chunk is cut between reads does not change what is collected |
| `NodeRequirement.Reader.Read` | src/main/java/com/oracle/dragon/stacks/requirements/NodeRequirement.java:79 | a read delivers at most the buffer's length from the next chunk into the front of the buffer and returns that count; it returns -1 at end of stream and fails on an I/O error |
| `NodeRequirement.GetProcessOutput` | src/main/java/com/oracle/dragon/stacks/requirements/NodeRequirement.java:74-83 | the result is every character of the stream in order, appended `len` at a time until a read returns a negative length, or the IOException; on success the stream is drained |
| `NodeRequirement.IsPresent` | src/main/java/com/oracle/dragon/stacks/requirements/NodeRequirement.java:15-32 | the steps launch, read, wait, the exit check with a second read, and the parse-and-compare give exactly `PresenceOf` of the observed run |
| `JavaText.Trim` | src/main/java/com/oracle/dragon/stacks/requirements/NodeRequirement.java:27 | the trimmed text neither starts nor ends with a character up to U+0020 |
| `JavaText.TrimStripsPadding` | src/main/java/com/oracle/dragon/stacks/requirements/NodeRequirement.java:27 | trimming text that has spaces on either side gives back the text, when the text itself has no space at either end |
| `JavaText.TrimIdempotent` | src/main/java/com/oracle/dragon/stacks/requirements/NodeRequirement.java:27 | trimming twice is trimming once |
| `JavaText.DecimalRoundTrip` | src/main/java/com/oracle/dragon/stacks/requirements/NodeRequirement.java:71 | the decimal digits printed for a natural number denote that number |
| `JavaText.IntToStringInjective` | src/main/java/com/oracle/dragon/stacks/requirements/NodeRequirement.java:71 | distinct integers print as distinct strings |
| `JavaText.IntToString` | src/main/java/com/oracle/dragon/stacks/requirements/NodeRequirement.java:71 | a non-negative number prints as digits denoting it, zero as a single `0` and no other number with a leading zero; a negative one prints as `-` followed by such digits denoting its magnitude |
| `JavaText.FormatZeroPadded` | src/main/java/com/oracle/dragon/util/Console.java:124 | the text is exactly max(`width`, sign plus digits of |`n`|) characters long; it is digits denoting `n`, after a `-` when `n` is negative |
| `JavaText.ThreeDigits` | src/main/java/com/oracle/dragon/util/Console.java:124 | `%03d` of 0..999 is exactly three digits denoting the number |
| `JavaText.NegativeZeroPadded` | src/main/java/com/oracle/dragon/util/Console.java:124 | `%0Nd` of a negative number starts with the sign and is N characters long, or longer when the digits do not fit |
| `Console.PaddingAt` | src/main/java/com/oracle/dragon/util/Console.java:72-78 | padding character `i` is a space at the two ends and a dot elsewhere, the rule the loop applies at step `i` |
| `Console.PaddingShape` | src/main/java/com/oracle/dragon/util/Console.java:72-78 | padding of `n >= 1` columns starts and ends with a space and holds dots in between; one column is a single space |
| `Console.PaddingLength` | src/main/java/com/oracle/dragon/util/Console.java:68-72 | the padding is `max(0, 78 - |section| - |msg|)` characters long |
| `Console.BoundedLineFillsWidth` | src/main/java/com/oracle/dragon/util/Console.java:68-80 | when `|section| + |msg| <= 78` the line is exactly `MAX_COLUMNS` = 80 characters long |
| `Console.BoundedLineFrame` | src/main/java/com/oracle/dragon/util/Console.java:70-80 | the line starts with `"> " + section` and ends with `msg` |
| `Console.NoPaddingWhenFull` | src/main/java/com/oracle/dragon/util/Console.java:69-72 | when `|section| + |msg| >= 78` the line is `"> " + section + msg`, with no padding |
| `Console.BoundedLine` | src/main/java/com/oracle/dragon/util/Console.java:68-80 | the line starts with `"> " + section` and ends with `msg`; it is 80 characters long when `|section| + |msg| <= 78`, and otherwise `|section| + |msg| + 2` |
| `Console.Padding` | src/main/java/com/oracle/dragon/util/Console.java:72-78 | `n` padding characters for a positive `n`, none otherwise, as many as the loop runs |
| `Console.PrintBounded` | src/main/java/com/oracle/dragon/util/Console.java:67-83 | the loop's line is `"> " + section`, then the padding, then `msg` |
| `Console.PatternIsSgr` | src/main/java/com/oracle/dragon/util/Console.java:27-55 | every style's pattern is ESC, `[`, digits and semicolons, then `m` |
| `Console.StyleToString` | src/main/java/com/oracle/dragon/util/Console.java:61-64 | with colours enabled the text is the style's own pattern, a well-formed SGR escape; with colours disabled it is empty |
| `Console.StyleToStringSwitch` | src/main/java/com/oracle/dragon/util/Console.java:61-64 | a style prints a non-empty text exactly when colours are enabled; that text is `Pattern(style)`, and otherwise it is `""` |
| `Console.PatternInjective` | src/main/java/com/oracle/dragon/util/Console.java:28-53 | no two styles share a pattern, so the enabled text identifies the style |
| `Console.SubSecondDuration` | src/main/java/com/oracle/dragon/util/Console.java:123-124 | the text starts with `"0."` and ends with `"s"`; it is six characters long for a non-negative time, and its third character is `-` for a negative one |
| `Console.SubSecondDurationDigits` | src/main/java/com/oracle/dragon/util/Console.java:123-124 | for 0..999 ms the text is `"0."`, three digits that spell the milliseconds, then `"s"` |
| `Console.SubSecondDurationNegative` | src/main/java/com/oracle/dragon/util/Console.java:123-124 | a negative elapsed time yields a text starting with `"0.-"` |

## Left out

- JavaText.FormatZeroPadded and Console.SubSecondDuration assume a default locale whose zero digit is `'0'`. `String.format` rewrites digits for the default format locale, so a locale with non-ASCII digits (Persian, for one) prints other characters. The model always produces ASCII digits.
- The `"No command"` fallback of `getCommands` (`NodeRequirement.java:66`) is not modelled. `Platform` has only the three cases the switch handles, so no platform reaches that line. The `DSSession` class that declares the enum is not part of this model.
- Process creation (`ProcessBuilder`, `start`, `waitFor`, `exitValue`) is replaced by the `launched` flag, the `Reader` and the `Wait` value. The `ProcessBuilder.toString()` text at the head of the exception message is not modelled. The exit value and the re-read output are kept in `NonZeroExit`.
- The `Version` class is not part of this model. `parseMajor` stands for `new Version(s).getMajor()`, and no parsing rule is assumed. The scenario lemmas take the parse results they need as preconditions.
- `Reader.Read`: character decoding by `InputStreamReader` and buffering by `BufferedReader` are not modelled. The stream delivers characters directly, one scripted chunk per read. A scripted empty chunk makes a read return 0, which a real reader with a non-empty buffer does not do.
- Java `char` is a UTF-16 code unit, while Dafny's `char` is a Unicode scalar value. Surrogate pairs are not modelled.
- `Console.PaddingCount`: the 32-bit `int` overflow of `section.length() + msg.length() + 3` is not modelled. Strings that long cannot occur together in practice.
- `print`, `println`, `printBoundedln` and the flush of `System.out` are terminal output. The model builds the text only.
- `printGradient` interpolates colours with `double` arithmetic and casts, which is floating point.
- The `>= 1000` ms branch of `getDurationSince` depends on `java.time.Duration.toString` and regular-expression replacement, both library code. Reading the wall clock is replaced by the elapsed milliseconds parameter.
- `ENABLE_COLORS` is global mutable state. The model passes it as an argument instead.
- The `Color` class is a plain record of three integers, used only by `printGradient`.
