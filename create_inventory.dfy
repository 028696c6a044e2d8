/**
 * One run of the script on a list of instance records: the projection, then
 * the inventory listing written line by line, then the agent configuration.
 */
module CreateInventory {
  import opened Wrappers
  import opened Text
  import opened Records
  import opened Inventory
  import opened AgentYml

  /** The exceptions a run can end with once the records are read. */
  datatype Error =
    | MissingAddress(record: nat)  // record `record` has no networkInterfaces[0].accessConfigs[0]
    | NoInstances                  // instances[0] of an empty list

  /**
   * What a run does: for each file, the content the run leaves in it, or
   * None when the run never opens it; and the exception that ends the run.
   */
  datatype Outcome = Outcome(inventory: Option<string>, agentYml: Option<string>, error: Option<Error>)

  /**
   * The run as a function of its input. The projection fails before any
   * file is opened; on an empty list the inventory has been opened (and so
   * truncated) and its first header written when instances[0] fails, and
   * leaving the `with` block closes the file with that header in it; the
   * agent configuration is only opened once the listing is complete.
   */
  function Generate(input: seq<InstanceRecord>): (r: Outcome)
    ensures r.error == None <==> |input| > 0 && forall k :: 0 <= k < |input| ==> HasAddress(input[k])
    ensures r.error == None ==> r.inventory.Some? && r.agentYml.Some?
    ensures r.error == Some(NoInstances) <==> input == []
    ensures input == [] ==> r.inventory == Some(Unlines([ControlHeader])) && r.agentYml == None
    ensures r.error.Some? && r.error.value.MissingAddress? ==>
              var k := r.error.value.record;
              && k < |input| && !HasAddress(input[k])
              && (forall j :: 0 <= j < k ==> HasAddress(input[j]))
              && r.inventory == None && r.agentYml == None
  {
    match Project(input)
    case Failure(k) => Outcome(None, None, Some(MissingAddress(k)))
    case Success(instances) =>
      if |instances| == 0 then Outcome(Some(Unlines([ControlHeader])), None, Some(NoInstances))
      else
        var ips := Ips(instances);
        Outcome(Some(RenderInventory(ips)), Some(RenderAgentYml(ips[0])), None)
  }

  /** The addresses of the records, in order, for an input that has them all. */
  function Addresses(input: seq<InstanceRecord>): (ips: seq<string>)
    requires forall k :: 0 <= k < |input| ==> HasAddress(input[k])
    ensures |ips| == |input|
    ensures forall k :: 0 <= k < |input| ==> ips[k] == NatIP(input[k])
  {
    seq(|input|, k requires 0 <= k < |input| => NatIP(input[k]))
  }

  lemma GeneratedFrom(input: seq<InstanceRecord>)
    requires Generate(input).error == None
    ensures Generate(input).inventory == Some(RenderInventory(Addresses(input)))
    ensures Generate(input).agentYml == Some(RenderAgentYml(NatIP(input[0])))
  {
    assert Ips(Project(input).value) == Addresses(input);
  }

  /**
   * When no address holds a newline, a successful run writes a listing of
   * exactly n + 8 newline-terminated lines: the control header and the first address, an empty line, the
   * agents header and every address in input order, an empty line, and the
   * nodes group naming the two others.
   */
  lemma InventoryLayout(input: seq<InstanceRecord>)
    requires Generate(input).error == None
    requires forall k :: 0 <= k < |input| ==> '\n' !in NatIP(input[k])
    ensures var ls := SplitLines(Generate(input).inventory.value);
      && ls == InventoryLines(Addresses(input))
      && |ls| == |input| + 8
      && ls[0] == ControlHeader && ls[1] == NatIP(input[0]) && ls[2] == "" && ls[3] == AgentsHeader
      && (forall k :: 0 <= k < |input| ==> ls[4 + k] == NatIP(input[k]))
      && ls[|input| + 4..] == ["", NodesHeader, ControlGroup, AgentsGroup]
  {
    GeneratedFrom(input);
    var ips := Addresses(input);
    InventoryText(ips);
    var ls := InventoryLines(ips);
    forall k | 0 <= k < |input| ensures ls[4 + k] == NatIP(input[k]) {
      assert ls[4 + k] == ls[4..4 + |ips|][k];
    }
  }

  /**
   * Read with `Group`, a successful run's listing puts the first instance
   * alone in the control-service group, every instance in input order in
   * the agents group, and the two groups under `nodes`. The addresses must
   * be non-empty lines, none of them the nodes header, and the first not
   * the agents header.
   */
  lemma InventoryGroups(input: seq<InstanceRecord>)
    requires Generate(input).error == None
    requires forall k :: 0 <= k < |input| ==>
               NatIP(input[k]) != "" && '\n' !in NatIP(input[k]) && NatIP(input[k]) != NodesHeader
    requires NatIP(input[0]) != AgentsHeader
    ensures var ls := SplitLines(Generate(input).inventory.value);
      && Group(ls, ControlHeader) == [NatIP(input[0])]
      && Group(ls, AgentsHeader) == Addresses(input)
      && Group(ls, NodesHeader) == [ControlGroup, AgentsGroup]
  {
    GeneratedFrom(input);
    var ips := Addresses(input);
    InventoryText(ips);
    ControlGroupIsFirst(ips);
    AgentsGroupIsAll(ips);
    NodesGroupIsChildren(ips);
  }

  /**
   * A successful run's agent configuration is the template filled with the
   * first instance's address, and reads back as the fixed lines with that
   * address as the hostname.
   */
  lemma AgentYmlContent(input: seq<InstanceRecord>)
    requires Generate(input).error == None
    requires '\n' !in NatIP(input[0])
    ensures Format(AgentYmlTemplate(), NatIP(input[0]), false) == Generate(input).agentYml
    ensures SplitLines(Generate(input).agentYml.value) == AgentYmlLines(NatIP(input[0]))
  {
    GeneratedFrom(input);
    AgentYmlText(NatIP(input[0]));
  }

  /** The names are read but never written: inputs that differ only in names give the same run. */
  lemma NamesDoNotMatter(a: seq<InstanceRecord>, b: seq<InstanceRecord>)
    requires |a| == |b|
    requires forall k :: 0 <= k < |a| ==> a[k].networkInterfaces == b[k].networkInterfaces
    ensures Generate(a) == Generate(b)
  {
    ProjectIgnoresNames(a, b);
  }

  /** A run whose projection yields `instances` does what it does with their addresses. */
  lemma GenerateFromInstances(input: seq<InstanceRecord>, instances: seq<Instance>)
    requires Project(input) == Success(instances)
    ensures instances == [] ==> Generate(input) == Outcome(Some(Unlines([ControlHeader])), None, Some(NoInstances))
    ensures instances != [] ==>
              Generate(input)
              == Outcome(Some(RenderInventory(Ips(instances))), Some(RenderAgentYml(instances[0].ip)), None)
  {
  }

  function Record(name: string, natIP: string): InstanceRecord
  {
    InstanceRecord([NetworkInterface([AccessConfig(natIP)])], name)
  }

  /**
   * Two instances, the first at `ip1` and the second at `ip2` (say 10.0.0.1
   * and 10.0.0.2): the first is the control node and is listed again,
   * before the second, among the agents; it is also the hostname.
   */
  lemma TwoInstanceScenario(name1: string, ip1: string, name2: string, ip2: string)
    requires '\n' !in ip1 && '\n' !in ip2
    ensures var o := Generate([Record(name1, ip1), Record(name2, ip2)]);
      && o.error == None
      && SplitLines(o.inventory.value)
         == [ControlHeader, ip1, "", AgentsHeader, ip1, ip2, "", NodesHeader, ControlGroup, AgentsGroup]
      && SplitLines(o.agentYml.value) == AgentYmlLines(ip1)
  {
    var input := [Record(name1, ip1), Record(name2, ip2)];
    ScenarioSucceeds(name1, ip1, name2, ip2);
    InventoryLayout(input);
    AgentYmlContent(input);
    ScenarioLines(ip1, ip2);
  }

  lemma ScenarioSucceeds(name1: string, ip1: string, name2: string, ip2: string)
    ensures var input := [Record(name1, ip1), Record(name2, ip2)];
      Generate(input).error == None && Addresses(input) == [ip1, ip2]
  {
    var input := [Record(name1, ip1), Record(name2, ip2)];
    assert HasAddress(input[0]) && HasAddress(input[1]);
  }

  lemma ScenarioLines(ip1: string, ip2: string)
    ensures InventoryLines([ip1, ip2])
         == [ControlHeader, ip1, "", AgentsHeader, ip1, ip2, "", NodesHeader, ControlGroup, AgentsGroup]
  {
  }

  /** The two files as they stand on disk; None for a file that does not exist. */
  datatype Disk = Disk(inventory: Option<string>, agentYml: Option<string>)

  /** A file a run opens with mode 'w' ends up with what the run wrote; any other keeps its content. */
  function Overwrite(before: Option<string>, written: Option<string>): (after: Option<string>)
    ensures after.Some? <==> before.Some? || written.Some?
    ensures written.Some? ==> after == written
    ensures written.None? ==> after == before
  {
    if written.Some? then written else before
  }

  /**
   * The disk after a run: a run that fails on a record without an address
   * leaves it as it was; one on an empty list truncates the listing to its
   * first header and leaves the configuration alone; a successful run
   * replaces both files.
   */
  function AfterRun(input: seq<InstanceRecord>, d: Disk): (after: Disk)
    ensures Generate(input).error.Some? && Generate(input).error.value.MissingAddress? ==> after == d
    ensures input == [] ==> after == Disk(Some(Unlines([ControlHeader])), d.agentYml)
    ensures Generate(input).error == None ==> after.inventory.Some? && after.agentYml.Some?
  {
    var o := Generate(input);
    Disk(Overwrite(d.inventory, o.inventory), Overwrite(d.agentYml, o.agentYml))
  }

  /** A rerun on the same input leaves the disk as the first run left it. */
  lemma RerunIsIdempotent(input: seq<InstanceRecord>, d: Disk)
    ensures AfterRun(input, AfterRun(input, d)) == AfterRun(input, d)
  {
  }

  /** After a successful run the two files depend on the input alone, not on what they held before. */
  lemma SuccessfulRunOverwritesBoth(input: seq<InstanceRecord>, d1: Disk, d2: Disk)
    requires Generate(input).error == None
    ensures AfterRun(input, d1) == AfterRun(input, d2)
    ensures AfterRun(input, d1).inventory.Some? && AfterRun(input, d1).agentYml.Some?
  {
  }

  /**
   * A file as the script sees it: `open(path, 'w')` creates or truncates it,
   * `write` appends to it, and leaving the `with` block closes it.
   */
  class OutputFile {
    var onDisk: bool
    var content: string
    var isOpen: bool

    /** The file on disk. */
    function State(): Option<string>
      reads this
    {
      if onDisk then Some(content) else None
    }

    constructor (initial: Option<string>)
      ensures State() == initial && !isOpen
    {
      onDisk := initial.Some?;
      content := if initial.Some? then initial.value else "";
      isOpen := false;
    }

    method OpenForWriting()
      modifies this
      ensures isOpen && onDisk && content == ""
    {
      onDisk, content, isOpen := true, "", true;
    }

    method Write(s: string)
      requires isOpen && onDisk
      modifies this`content
      ensures content == old(content) + s
    {
      content := content + s;
    }

    method Close()
      modifies this`isOpen
      ensures !isOpen
    {
      isOpen := false;
    }
  }

  /** The loop of the listing: one line per instance, its address, in order. */
  method WriteAddresses(out: OutputFile, instances: seq<Instance>)
    requires out.isOpen && out.onDisk
    modifies out`content
    ensures out.content == old(out.content) + Unlines(Ips(instances))
  {
    ghost var start := out.content;
    for i := 0 to |instances|
      invariant out.isOpen && out.onDisk
      invariant out.content == start + Unlines(Ips(instances[..i]))
    {
      out.Write(instances[i].ip + "\n");
      assert Ips(instances[..i + 1]) == Ips(instances[..i]) + [instances[i].ip];
      UnlinesSnoc(Ips(instances[..i]), instances[i].ip);
    }
    assert instances[..|instances|] == instances;
  }

  /** The `write` calls of the listing, one after the other, make up its text. */
  lemma InventoryWrites(ips: seq<string>)
    requires |ips| > 0
    ensures "" + (ControlHeader + "\n") + (ips[0] + "\n") + "\n" + (AgentsHeader + "\n") + Unlines(ips)
            + "\n" + (NodesHeader + "\n") + (ControlGroup + "\n") + (AgentsGroup + "\n")
         == RenderInventory(ips)
  {
    WritesAroundBlock(ControlHeader, ips[0], AgentsHeader, Unlines(ips), NodesHeader, ControlGroup, AgentsGroup);
    RenderInventoryParts(ips);
  }

  /**
   * The `with` block that writes the listing: open the file for writing,
   * write the control header, then instances[0]'s address (which fails on
   * an empty list), then the agents header and one line per instance, then
   * the nodes group; the file is closed however the block ends.
   */
  method WriteInventory(out: OutputFile, instances: seq<Instance>) returns (error: Option<Error>)
    requires !out.isOpen
    modifies out
    ensures error == if instances == [] then Some(NoInstances) else None
    ensures instances == [] ==> out.State() == Some(Unlines([ControlHeader]))
    ensures instances != [] ==> out.State() == Some(RenderInventory(Ips(instances)))
    ensures !out.isOpen
  {
    out.OpenForWriting();
    out.Write(ControlHeader + "\n");
    if |instances| == 0 {
      assert Unlines([ControlHeader]) == ControlHeader + "\n";
      assert "" + (ControlHeader + "\n") == ControlHeader + "\n";
      out.Close();
      return Some(NoInstances);
    }
    out.Write(instances[0].ip + "\n");
    out.Write("\n");
    out.Write(AgentsHeader + "\n");
    WriteAddresses(out, instances);
    out.Write("\n");
    out.Write(NodesHeader + "\n");
    out.Write(ControlGroup + "\n");
    out.Write(AgentsGroup + "\n");
    InventoryWrites(Ips(instances));
    out.Close();
    return None;
  }

  /** The second `with` block: `agent.yml` holds the template filled with `ip`. */
  method WriteAgentYml(out: OutputFile, ip: string)
    requires !out.isOpen
    modifies out
    ensures out.State() == Some(RenderAgentYml(ip))
    ensures !out.isOpen
  {
    var yml := RenderAgentYml(ip);
    out.OpenForWriting();
    out.Write(yml);
    out.Close();
    assert out.content == yml;
  }

  /**
   * The script's `main`: project the records, write the listing, then the
   * agent configuration; `error` is the exception that ends the run, if
   * any. Both files are closed at the end, whichever way the run ends.
   */
  method Run(input: seq<InstanceRecord>, inventoryFile: OutputFile, agentFile: OutputFile)
    returns (error: Option<Error>)
    requires inventoryFile != agentFile
    requires !inventoryFile.isOpen && !agentFile.isOpen
    modifies inventoryFile, agentFile
    ensures error == Generate(input).error
    ensures Disk(inventoryFile.State(), agentFile.State())
         == AfterRun(input, old(Disk(inventoryFile.State(), agentFile.State())))
    ensures !inventoryFile.isOpen && !agentFile.isOpen
  {
    ghost var before := Disk(inventoryFile.State(), agentFile.State());
    var projected := Project(input);
    if projected.Failure? {
      assert AfterRun(input, before) == before;
      return Some(MissingAddress(projected.error));
    }
    var instances := projected.value;
    GenerateFromInstances(input, instances);
    error := WriteInventory(inventoryFile, instances);
    if error.Some? {
      assert AfterRun(input, before) == Disk(inventoryFile.State(), before.agentYml);
      return;
    }
    WriteAgentYml(agentFile, instances[0].ip);
    assert AfterRun(input, before) == Disk(inventoryFile.State(), agentFile.State());
  }
}
