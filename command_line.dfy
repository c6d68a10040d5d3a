/** The `gauge` command line the Maven goal launches, as a pure function of the
    goal's configuration:

      gauge [--tags <expr>] [--parallel [-n <nodes>]] [<flag> ...] [<specsDir>]

    and the facts about it that callers rely on. */
module CommandLine {
  import opened JavaLang

  const Gauge := "gauge"
  const TagsFlag := "--tags"
  const ParallelFlag := "--parallel"
  const NodesFlag := "-n"

  /** The goal's five parameters. `specsDir` is already the absolute path of
      the directory; a `null` flag list is the empty sequence. */
  datatype Config = Config(
    specsDir: Option<string>,
    tags: Option<string>,
    inParallel: Option<bool>,
    nodes: int32,
    flags: seq<string>)

  /** Tags are passed on when set and not the empty string (no trimming). */
  predicate TagsEnabled(c: Config) {
    c.tags.Some? && c.tags.value != ""
  }

  predicate ParallelEnabled(c: Config) {
    c.inParallel == Some(true)
  }

  predicate NodesEnabled(c: Config) {
    ParallelEnabled(c) && c.nodes != 0
  }

  /** What `addTags` appends: the flag and the expression, verbatim, exactly
      when the expression is non-null and non-empty. */
  function TagsSegment(c: Config): (seg: seq<string>)
    ensures seg != [] <==> c.tags.Some? && c.tags.value != ""
    ensures seg != [] ==> seg == [TagsFlag, c.tags.value]
  {
    if TagsEnabled(c) then [TagsFlag, c.tags.value] else []
  }

  /** What `addParallelFlags` appends: `--parallel` exactly when `inParallel`
      is true, first; `-n` and the printed count exactly when besides that
      the node count is non-zero. */
  function ParallelSegment(c: Config): (seg: seq<string>)
    ensures ParallelFlag in seg <==> c.inParallel == Some(true)
    ensures NodesFlag in seg <==> c.inParallel == Some(true) && c.nodes != 0
    ensures seg != [] ==> seg[0] == ParallelFlag
    ensures NodesFlag in seg ==> seg[1..] == [NodesFlag, IntegerToString(c.nodes)]
  {
    if !ParallelEnabled(c) then []
    else if c.nodes == 0 then [ParallelFlag]
    else [ParallelFlag, NodesFlag, IntegerToString(c.nodes)]
  }

  /** What `addSpecsDir` appends: the directory's path, only when one is set. */
  function SpecsDirSegment(c: Config): (seg: seq<string>)
    ensures |seg| <= 1
    ensures seg != [] <==> c.specsDir.Some?
    ensures c.specsDir.Some? ==> seg[0] == c.specsDir.value
  {
    match c.specsDir
    case None => []
    case Some(dir) => [dir]
  }

  /** The command: the executable, then the four optional segments in order.
      It starts with `gauge`, and every other token is one the goal adds,
      the printed node count, or a token the user supplied. */
  function GaugeCommand(c: Config): (cmd: seq<string>)
    ensures 0 < |cmd| && cmd[0] == Gauge
    ensures forall tok :: tok in cmd ==>
              tok in {Gauge, TagsFlag, ParallelFlag, NodesFlag, IntegerToString(c.nodes)} ||
              tok in UserTokens(c)
  {
    [Gauge] + TagsSegment(c) + ParallelSegment(c) + c.flags + SpecsDirSegment(c)
  }

  /** The tokens whose text comes from the user rather than from the goal:
      the tag expression, the pass-through flags and the specs directory. */
  function UserTokens(c: Config): seq<string> {
    (if TagsEnabled(c) then [c.tags.value] else []) + c.flags + SpecsDirSegment(c)
  }

  function Count(b: bool): nat {
    if b then 1 else 0
  }

  /** The command is the concatenation of its segments, in this order and
      nothing else: the executable first, then the tags, the parallel flags,
      the pass-through flags and the specs directory. */
  lemma CommandLayout(c: Config)
    ensures var cmd := GaugeCommand(c);
            var t := 1 + |TagsSegment(c)|;
            var p := t + |ParallelSegment(c)|;
            var f := p + |c.flags|;
            f + |SpecsDirSegment(c)| == |cmd| &&
            cmd[0] == Gauge &&
            cmd[1..t] == TagsSegment(c) &&
            cmd[t..p] == ParallelSegment(c) &&
            cmd[p..f] == c.flags &&
            cmd[f..] == SpecsDirSegment(c)
  {
  }

  /** Each helper only appends, so the length is the sum of what each adds. */
  lemma CommandLength(c: Config)
    ensures |GaugeCommand(c)| ==
      1 + 2 * Count(TagsEnabled(c)) + Count(ParallelEnabled(c)) + 2 * Count(NodesEnabled(c))
        + |c.flags| + Count(c.specsDir.Some?)
  {
  }

  /** With nothing to pass on, the command is the bare executable, and only then. */
  lemma BareCommand(c: Config)
    ensures GaugeCommand(c) == [Gauge] <==>
      !TagsEnabled(c) && !ParallelEnabled(c) && c.flags == [] && c.specsDir.None?
  {
  }

  /** A non-empty tag expression is passed verbatim right after the executable. */
  lemma TagsFollowExecutable(c: Config)
    requires TagsEnabled(c)
    ensures |GaugeCommand(c)| >= 3
    ensures GaugeCommand(c)[1] == TagsFlag && GaugeCommand(c)[2] == c.tags.value
  {
  }

  /** `--tags` sits at index 1 exactly when the goal puts it there, or when no
      parallel flag comes first and the first user token after the executable
      is `--tags` (the first pass-through flag, or the specs directory when
      there are no flags). */
  lemma TagsAtIndexOne(c: Config)
    ensures |GaugeCommand(c)| > 1 && GaugeCommand(c)[1] == TagsFlag <==>
      TagsEnabled(c) ||
      (!ParallelEnabled(c) &&
       ((c.flags != [] && c.flags[0] == TagsFlag) ||
        (c.flags == [] && c.specsDir == Some(TagsFlag))))
  {
  }

  /** The printed node count never looks like one of the goal's own options. */
  lemma NodeCountIsNotAnOption(n: int32)
    ensures IntegerToString(n) != TagsFlag
    ensures IntegerToString(n) != ParallelFlag
    ensures IntegerToString(n) != NodesFlag
  {
  }

  /** `--tags` is emitted by the goal exactly when the tag expression is
      non-empty; otherwise it appears only if the user wrote it. */
  lemma TagsFlagPresence(c: Config)
    ensures TagsFlag in GaugeCommand(c) <==> TagsEnabled(c) || TagsFlag in UserTokens(c)
  {
  }

  /** `--parallel` is emitted exactly when `inParallel` is true, and `-n`
      exactly when besides that the node count is non-zero; otherwise they
      appear only if the user wrote them. */
  lemma ParallelFlagsPresence(c: Config)
    ensures ParallelFlag in GaugeCommand(c) <==> ParallelEnabled(c) || ParallelFlag in UserTokens(c)
    ensures NodesFlag in GaugeCommand(c) <==> NodesEnabled(c) || NodesFlag in UserTokens(c)
  {
  }

  /** When not running in parallel the node count has no effect at all. */
  lemma NodesIgnoredWhenSequential(c: Config, k: int32)
    requires !ParallelEnabled(c)
    ensures GaugeCommand(c.(nodes := k)) == GaugeCommand(c)
    ensures GaugeCommand(c) == [Gauge] + TagsSegment(c) + c.flags + SpecsDirSegment(c)
  {
  }

  /** In parallel with a zero node count, `--parallel` comes right after the
      tags and is followed directly by the pass-through flags. */
  lemma ParallelWithoutNodes(c: Config)
    requires ParallelEnabled(c) && c.nodes == 0
    ensures var cmd, t := GaugeCommand(c), 1 + |TagsSegment(c)|;
            t < |cmd| && cmd[t] == ParallelFlag && cmd[t + 1..] == c.flags + SpecsDirSegment(c)
  {
  }

  /** In parallel with a non-zero node count (negative ones included),
      `--parallel`, `-n` and the printed count are adjacent, in that order,
      right after the tags. */
  lemma ParallelWithNodes(c: Config)
    requires NodesEnabled(c)
    ensures var cmd, t := GaugeCommand(c), 1 + |TagsSegment(c)|;
            t + 3 <= |cmd| && cmd[t..t + 3] == [ParallelFlag, NodesFlag, IntegerToString(c.nodes)]
  {
  }

  /** The pass-through flags come verbatim and in order, after every token the
      goal adds for tags and parallelism, and at most the specs directory
      follows them. */
  lemma FlagsVerbatim(c: Config)
    ensures var cmd, p := GaugeCommand(c), 1 + |TagsSegment(c)| + |ParallelSegment(c)|;
            p + |c.flags| <= |cmd| <= p + |c.flags| + 1 &&
            cmd[p..p + |c.flags|] == c.flags &&
            cmd[..p] == [Gauge] + TagsSegment(c) + ParallelSegment(c)
  {
  }

  /** The last token is the specs directory when one is set; otherwise the
      last pass-through flag, or, with no flags, the last goal-added token. */
  lemma LastToken(c: Config)
    ensures var cmd := GaugeCommand(c);
            match c.specsDir
            case Some(dir) => cmd[|cmd| - 1] == dir
            case None =>
              if c.flags != [] then cmd[|cmd| - 1] == c.flags[|c.flags| - 1]
              else cmd == [Gauge] + TagsSegment(c) + ParallelSegment(c)
  {
  }

  /** All parameters at their defaults: the bare executable. */
  lemma DefaultConfigCommand()
    ensures GaugeCommand(Config(None, None, None, 0, [])) == ["gauge"]
  {
  }

  /** A tag expression of blanks is not empty, so it is passed on unchanged. */
  lemma BlankTagsArePassedOn()
    ensures GaugeCommand(Config(None, Some("  "), None, 0, [])) == ["gauge", "--tags", "  "]
  {
  }

  /** Every parameter set. */
  lemma FullConfigCommand()
    ensures GaugeCommand(Config(Some("/proj/specs"), Some("a & b"), Some(true), 4, ["--verbose"]))
         == ["gauge", "--tags", "a & b", "--parallel", "-n", "4", "--verbose", "/proj/specs"]
  {
  }
}
