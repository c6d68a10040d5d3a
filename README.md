# gauge-maven-plugin: the `execute` goal, modelled in Dafny

The plugin's `execute` goal runs Gauge specifications during Maven's test phase.
It builds the command line

    gauge [--tags <expr>] [--parallel [-n <nodes>]] [<flag> ...] [<specsDir>]

from five goal parameters. It launches the command as a child process and fails
the build when the process exits with a non-zero code, is interrupted while being
waited for, or cannot be started.

The model has four modules.

- `JavaLang` (`java_lang.dfy`) covers what the goal takes from the Java platform.
  A nullable reference is an `Option`. Java's `int` is the `int32` newtype.
  `Integer.toString` is `IntegerToString`. The parser `ParseInteger` is proved to be
  its inverse on its outputs.
- `CommandLine` (`command_line.dfy`) defines the configuration record and the pure
  specification `GaugeCommand`. That function concatenates the executable and four
  optional segments. The lemmas there state presence, absence, adjacency, ordering
  and length of every segment.
- `ExecutionOutcome` (`execution_outcome.dfy`) maps the end of the process to an
  outcome. `GaugeSpecsOutcome` models `executeGaugeSpecs` and `MojoOutcome` models
  `execute`. Exceptions become values of an `Outcome` datatype.
- `GaugeMojo` (`gauge_mojo.dfy`) is the imperative part. `StringList` stands for the
  `ArrayList<String>` being built. `GaugeExecutionMojo` holds the parameters. Its
  helpers append to the list in place, and each helper's contract says exactly what
  it appends. `CreateGaugeCommand` is proved to produce `GaugeCommand` of the
  configuration. `Execute` is proved to succeed exactly when `gauge` exits with 0.

Two facts about the code are easy to get wrong:

- Blank tags are passed on. Line 145 of `GaugeExecutionMojo.java` tests only
  `isEmpty()`, so a tag expression of spaces is emitted after `--tags`
  (`BlankTagsArePassedOn`).
- `--tags` can also sit at index 1 when no tags are set, if `inParallel` is not
  true and the first pass-through flag is `--tags` (or, with no flags, the specs
  directory is `--tags`). `TagsAtIndexOne`, `TagsFollowExecutable` and
  `TagsFlagPresence` state the exact facts.

## Model

| member | source | states |
|---|---|---|
| `JavaLang.IntegerToString` | src/main/java/com/thoughtworks/gauge/maven/GaugeExecutionMojo.java:133 | `Integer.toString` of the node count is an optional `-` (present exactly for negative values) followed by at least one decimal digit, with no leading zero (zero prints as `0`) |
| `JavaLang.ParseIntegerToString` | src/main/java/com/thoughtworks/gauge/maven/GaugeExecutionMojo.java:133 | parsing the printed node count gives back the node count (round trip) |
| `JavaLang.IntegerToStringInjective` | src/main/java/com/thoughtworks/gauge/maven/GaugeExecutionMojo.java:133 | two node counts print the same exactly when they are equal |
| `CommandLine.TagsSegment` | src/main/java/com/thoughtworks/gauge/maven/GaugeExecutionMojo.java:144-149 | what `addTags` appends is non-empty exactly when the expression is non-null and non-empty, and is then `--tags` followed by the expression verbatim |
| `CommandLine.ParallelSegment` | src/main/java/com/thoughtworks/gauge/maven/GaugeExecutionMojo.java:128-136 | what `addParallelFlags` appends holds `--parallel` exactly when `inParallel` is true, first; and `-n` exactly when besides that nodes ≠ 0, followed by the printed count |
| `CommandLine.SpecsDirSegment` | src/main/java/com/thoughtworks/gauge/maven/GaugeExecutionMojo.java:138-142 | what `addSpecsDir` appends is at most one token, present exactly when a specs dir is set, and is then its path |
| `CommandLine.GaugeCommand` | src/main/java/com/thoughtworks/gauge/maven/GaugeExecutionMojo.java:112-120 | the command starts with `gauge`, and every token in it is one the goal adds, the printed node count, or a token the user supplied |
| `CommandLine.CommandLayout` | src/main/java/com/thoughtworks/gauge/maven/GaugeExecutionMojo.java:112-120 | the command is `gauge`, then the tags segment, the parallel segment, the pass-through flags and the specs-dir segment, at the given offsets and in that order |
| `CommandLine.CommandLength` | src/main/java/com/thoughtworks/gauge/maven/GaugeExecutionMojo.java:112-149 | length = 1 + 2·[tags non-empty] + [parallel] + 2·[parallel and nodes ≠ 0] + number of flags + [specsDir set] |
| `CommandLine.BareCommand` | src/main/java/com/thoughtworks/gauge/maven/GaugeExecutionMojo.java:112-120 | the command is exactly `["gauge"]` if and only if no tags, no parallelism, no flags and no specs dir are configured |
| `CommandLine.TagsFollowExecutable` | src/main/java/com/thoughtworks/gauge/maven/GaugeExecutionMojo.java:144-149 | with a non-empty tag expression, `--tags` is at index 1 and the expression, verbatim, at index 2 |
| `CommandLine.TagsAtIndexOne` | src/main/java/com/thoughtworks/gauge/maven/GaugeExecutionMojo.java:112-149 | index 1 holds `--tags` if and only if the tag expression is non-empty, or `inParallel` is not true and the first user token after `gauge` (first flag, else the specs dir) is `--tags` |
| `CommandLine.TagsFlagPresence` | src/main/java/com/thoughtworks/gauge/maven/GaugeExecutionMojo.java:144-149 | `--tags` occurs in the command if and only if the tag expression is non-empty or a user-supplied token is `--tags` |
| `CommandLine.NodeCountIsNotAnOption` | src/main/java/com/thoughtworks/gauge/maven/GaugeExecutionMojo.java:130-133 | the printed node count is never `--tags`, `--parallel` or `-n` |
| `CommandLine.ParallelFlagsPresence` | src/main/java/com/thoughtworks/gauge/maven/GaugeExecutionMojo.java:128-136 | `--parallel` occurs if and only if `inParallel` is true or the user wrote it; `-n` occurs if and only if `inParallel` is true with nodes ≠ 0 or the user wrote it |
| `CommandLine.NodesIgnoredWhenSequential` | src/main/java/com/thoughtworks/gauge/maven/GaugeExecutionMojo.java:128-136 | when `inParallel` is null or false, the node count does not change the command, which has no parallel segment |
| `CommandLine.ParallelWithoutNodes` | src/main/java/com/thoughtworks/gauge/maven/GaugeExecutionMojo.java:129-134 | in parallel with nodes = 0, `--parallel` follows the tags and is directly followed by the flags and the specs dir, with no `-n` |
| `CommandLine.ParallelWithNodes` | src/main/java/com/thoughtworks/gauge/maven/GaugeExecutionMojo.java:130-133 | in parallel with nodes ≠ 0 (negative included), `--parallel`, `-n` and the printed count are adjacent and in that order, right after the tags |
| `CommandLine.FlagsVerbatim` | src/main/java/com/thoughtworks/gauge/maven/GaugeExecutionMojo.java:116-126 | the pass-through flags appear verbatim and in order after everything the goal adds for tags and parallelism, with at most one token after them |
| `CommandLine.LastToken` | src/main/java/com/thoughtworks/gauge/maven/GaugeExecutionMojo.java:138-142 | the last token is the specs dir when set; otherwise the last flag, or with no flags the command ends with the parallel or tags segment |
| `CommandLine.DefaultConfigCommand` | src/main/java/com/thoughtworks/gauge/maven/GaugeExecutionMojo.java:112-120 | with every parameter absent or default the command is `["gauge"]` |
| `CommandLine.BlankTagsArePassedOn` | src/main/java/com/thoughtworks/gauge/maven/GaugeExecutionMojo.java:144-149 | a tag expression of blanks is emitted unchanged after `--tags` |
| `CommandLine.FullConfigCommand` | src/main/java/com/thoughtworks/gauge/maven/GaugeExecutionMojo.java:112-149 | tags `a & b`, parallel with 4 nodes, flag `--verbose` and dir `/proj/specs` give the full eight-token command |
| `ExecutionOutcome.GaugeSpecsOutcome` | src/main/java/com/thoughtworks/gauge/maven/GaugeExecutionMojo.java:89-104 | the run succeeds exactly when the process exits with 0; a failure has no cause exactly when the process exited with a non-zero code |
| `ExecutionOutcome.MojoOutcome` | src/main/java/com/thoughtworks/gauge/maven/GaugeExecutionMojo.java:78-87 | a failure is re-raised with the message `Failed to execute gauge specs. ` followed by the failure's own message, and the failure as its cause; success stays success |
| `ExecutionOutcome.GaugeSpecsOutcomeKeepsCause` | src/main/java/com/thoughtworks/gauge/maven/GaugeExecutionMojo.java:95-102 | two process results give the same outcome if and only if they are equal or both are non-zero exits, so the I/O error or interruption is kept |
| `ExecutionOutcome.ExecuteOutcome` | src/main/java/com/thoughtworks/gauge/maven/GaugeExecutionMojo.java:78-104 | end to end: the goal passes exactly on exit code 0; a non-zero exit fails with no deeper cause; for a launch I/O error or an interruption, that exception is the failure's cause |
| `GaugeMojo.GaugeExecutionMojo.constructor` | src/main/java/com/thoughtworks/gauge/maven/GaugeExecutionMojo.java:51-76 | the goal's configuration is the five parameters it was given |
| `GaugeMojo.GaugeExecutionMojo.CreateGaugeCommand` | src/main/java/com/thoughtworks/gauge/maven/GaugeExecutionMojo.java:112-120 | the freshly built list holds exactly `GaugeCommand` of the configuration |
| `GaugeMojo.GaugeExecutionMojo.AddAdditionalFlags` | src/main/java/com/thoughtworks/gauge/maven/GaugeExecutionMojo.java:122-126 | appends the pass-through flags in order and leaves the earlier tokens unchanged |
| `GaugeMojo.GaugeExecutionMojo.AddParallelFlags` | src/main/java/com/thoughtworks/gauge/maven/GaugeExecutionMojo.java:128-136 | appends the parallel segment and leaves the earlier tokens unchanged |
| `GaugeMojo.GaugeExecutionMojo.AddSpecsDir` | src/main/java/com/thoughtworks/gauge/maven/GaugeExecutionMojo.java:138-142 | appends the specs dir when it is set, nothing otherwise, and leaves the earlier tokens unchanged |
| `GaugeMojo.GaugeExecutionMojo.AddTags` | src/main/java/com/thoughtworks/gauge/maven/GaugeExecutionMojo.java:144-149 | appends `--tags` and the expression when the expression is non-empty, nothing otherwise, and leaves the earlier tokens unchanged |
| `GaugeMojo.GaugeExecutionMojo.ExecuteGaugeSpecs` | src/main/java/com/thoughtworks/gauge/maven/GaugeExecutionMojo.java:89-104 | launches exactly the built command and succeeds if and only if it exits with 0 |
| `GaugeMojo.GaugeExecutionMojo.Execute` | src/main/java/com/thoughtworks/gauge/maven/GaugeExecutionMojo.java:78-87 | the goal succeeds if and only if the launched command exits with 0; any failure is re-raised with the fixed prefix |

## Left out

- Starting the process and waiting for it (`ProcessBuilder.start`, `Process.waitFor`) are operating-system I/O. They are the parameter `start`, which returns a `ProcessResult`.
- Relaying the child's output and error streams (`Util.InheritIO`) runs concurrently in the background. `Util` is not part of this model.
- The child is not killed when the wait is interrupted. The model has no notion of processes, so a possible orphan is not represented.
- `File.getAbsolutePath` depends on the file system. `specsDir` is given already resolved to an absolute path.
- Maven's parameter binding (`@Mojo`, `@Parameter`, `AbstractMojo`) is left out. The parameters are constructor arguments, and `execute` never changes them, so they are `const` fields.
- `flags` is a raw `List` in the source, so it could hold non-strings or `null` elements. `addAll` copies them unchanged. `ProcessBuilder.start` then throws `ArrayStoreException` or `NullPointerException`. Neither is caught at lines 98-101, so it leaves `execute` unwrapped, not as a `MojoExecutionException`. The model takes a sequence of strings, so it cannot express this path, and `ProcessResult` has no case for it. A `null` list is the empty sequence.
- The class `GaugeExecutionFailedException` is not part of this model. The model keeps only its cause (`GaugeExecutionFailure`), and its `getMessage` is the parameter `messageOf`.
- `Cause` keeps only the wrapped exception's message, not that exception's own cause. The `IOException` from a failed launch usually wraps the operating-system error, and that deeper link of the chain is not represented.
- The getters `getSpecsDir` and `getTags` only return fields.
