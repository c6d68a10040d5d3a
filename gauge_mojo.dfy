/** The Maven goal itself: it builds the command in a growing list, one helper
    per segment, then launches it and maps the result to the build's outcome. */
module GaugeMojo {
  import opened JavaLang
  import opened CommandLine
  import opened ExecutionOutcome

  /** The `ArrayList<String>` the command is built in. */
  class StringList {
    var elements: seq<string>

    constructor ()
      ensures elements == []
    {
      elements := [];
    }

    method Add(s: string)
      modifies this
      ensures elements == old(elements) + [s]
    {
      elements := elements + [s];
    }

    method AddAll(xs: seq<string>)
      modifies this
      ensures elements == old(elements) + xs
    {
      elements := elements + xs;
    }
  }

  class GaugeExecutionMojo {
    // The goal's parameters, set by Maven before `execute` and never changed by it.
    const specsDir: Option<string>
    const tags: Option<string>
    const inParallel: Option<bool>
    const nodes: int32
    const flags: seq<string>

    constructor (specsDir: Option<string>, tags: Option<string>, inParallel: Option<bool>,
                 nodes: int32, flags: seq<string>)
      ensures Configuration() == Config(specsDir, tags, inParallel, nodes, flags)
    {
      this.specsDir := specsDir;
      this.tags := tags;
      this.inParallel := inParallel;
      this.nodes := nodes;
      this.flags := flags;
    }

    function Configuration(): Config {
      Config(specsDir, tags, inParallel, nodes, flags)
    }

    /** The fresh list holds exactly the command the configuration calls for. */
    method CreateGaugeCommand() returns (command: StringList)
      ensures fresh(command)
      ensures command.elements == GaugeCommand(Configuration())
    {
      command := new StringList();
      command.Add(Gauge);
      AddTags(command);
      AddParallelFlags(command);
      AddAdditionalFlags(command);
      AddSpecsDir(command);
    }

    method AddAdditionalFlags(command: StringList)
      modifies command
      ensures command.elements == old(command.elements) + Configuration().flags
    {
      command.AddAll(flags);
    }

    method AddParallelFlags(command: StringList)
      modifies command
      ensures command.elements == old(command.elements) + ParallelSegment(Configuration())
    {
      if inParallel.Some? && inParallel.value {
        command.Add(ParallelFlag);
        if nodes != 0 {
          command.Add(NodesFlag);
          command.Add(IntegerToString(nodes));
        }
      }
    }

    method AddSpecsDir(command: StringList)
      modifies command
      ensures command.elements == old(command.elements) + SpecsDirSegment(Configuration())
    {
      if specsDir.Some? {
        command.Add(specsDir.value);
      }
    }

    method AddTags(command: StringList)
      modifies command
      ensures command.elements == old(command.elements) + TagsSegment(Configuration())
    {
      if tags.Some? && tags.value != "" {
        command.Add(TagsFlag);
        command.Add(tags.value);
      }
    }

    /** Launches the command (`start` stands for spawning the process and
        waiting for it) and maps what happened to success or failure. */
    method ExecuteGaugeSpecs(start: seq<string> -> ProcessResult)
      returns (outcome: Outcome<GaugeExecutionFailure>)
      ensures outcome == GaugeSpecsOutcome(start(GaugeCommand(Configuration())))
      ensures outcome.Pass? <==> start(GaugeCommand(Configuration())) == Exited(0)
    {
      var command := CreateGaugeCommand();
      var result := start(command.elements);
      outcome := GaugeSpecsOutcome(result);
    }

    /** The goal's entry point: a failure is re-thrown for Maven. */
    method Execute(start: seq<string> -> ProcessResult, messageOf: GaugeExecutionFailure -> string)
      returns (outcome: Outcome<MojoExecutionFailure>)
      ensures outcome == MojoOutcome(GaugeSpecsOutcome(start(GaugeCommand(Configuration()))), messageOf)
      ensures outcome.Pass? <==> start(GaugeCommand(Configuration())) == Exited(0)
    {
      var specsOutcome := ExecuteGaugeSpecs(start);
      outcome := MojoOutcome(specsOutcome, messageOf);
    }
  }
}
