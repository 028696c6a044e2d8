/**
 * The Ansible inventory listing: a control-service group holding the first
 * instance's address, an agents group holding every address in input order,
 * and a `nodes` group whose children are the two other groups.
 */
module Inventory {
  import opened Text

  const ControlGroup: string := "flocker_control_service"
  const AgentsGroup: string := "flocker_agents"
  const ControlHeader: string := "[flocker_control_service]"
  const AgentsHeader: string := "[flocker_agents]"
  const NodesHeader: string := "[nodes:children]"

  /** The lines of the listing for the addresses `ips`, the first one being the control instance's. */
  function InventoryLines(ips: seq<string>): (ls: seq<string>)
    requires |ips| > 0
    ensures |ls| == |ips| + 8
    ensures ls[0] == ControlHeader && ls[1] == ips[0] && ls[2] == "" && ls[3] == AgentsHeader
    ensures ls[4..4 + |ips|] == ips
    ensures ls[|ips| + 4..] == ["", NodesHeader, ControlGroup, AgentsGroup]
  {
    [ControlHeader, ips[0], "", AgentsHeader] + ips + ["", NodesHeader, ControlGroup, AgentsGroup]
  }

  /** The text of the listing; it ends in a newline. */
  function RenderInventory(ips: seq<string>): (text: string)
    requires |ips| > 0
    ensures |text| > 0 && text[|text| - 1] == '\n'
  {
    UnlinesEndsInNewline(InventoryLines(ips));
    Unlines(InventoryLines(ips))
  }

  /**
   * The listing starts with the control header's line, which is all that a
   * run on an empty list leaves in the file.
   */
  lemma StartsWithControlHeader(ips: seq<string>)
    requires |ips| > 0
    ensures Unlines([ControlHeader]) <= RenderInventory(ips)
  {
    var ls := InventoryLines(ips);
    assert ls == [ControlHeader] + ls[1..];
    UnlinesAppend([ControlHeader], ls[1..]);
  }

  /** The listing is its four opening lines, the addresses, and its four closing lines. */
  lemma RenderInventoryParts(ips: seq<string>)
    requires |ips| > 0
    ensures RenderInventory(ips)
         == Unlines([ControlHeader, ips[0], "", AgentsHeader]) + Unlines(ips)
          + Unlines(["", NodesHeader, ControlGroup, AgentsGroup])
  {
    var head := [ControlHeader, ips[0], "", AgentsHeader];
    var tail := ["", NodesHeader, ControlGroup, AgentsGroup];
    UnlinesAppend(head + ips, tail);
    UnlinesAppend(head, ips);
  }

  /** The index of the first occurrence of `x` in `ls`, or |ls| when there is none. */
  function IndexOf(ls: seq<string>, x: string): (i: nat)
    ensures i <= |ls|
    ensures i < |ls| ==> ls[i] == x
    ensures x !in ls[..i]
  {
    if ls == [] then 0 else if ls[0] == x then 0 else 1 + IndexOf(ls[1..], x)
  }

  /** The lines of `ls` before its first empty line. */
  function UntilBlank(ls: seq<string>): (body: seq<string>)
    ensures body <= ls
    ensures "" !in body
  {
    if ls == [] || ls[0] == "" then [] else [ls[0]] + UntilBlank(ls[1..])
  }

  /**
   * A simple reader of the listing: a group is the lines after the first
   * line equal to its header, up to the next empty line. (Ansible's own
   * INI reader works differently: it skips empty lines and ends a group at
   * the next header.)
   */
  function Group(ls: seq<string>, header: string): seq<string>
  {
    var i := IndexOf(ls, header);
    if i == |ls| then [] else UntilBlank(ls[i + 1..])
  }

  lemma {:induction false} IndexOfAfter(a: seq<string>, b: seq<string>, x: string)
    requires x !in a
    ensures IndexOf(a + b, x) == |a| + IndexOf(b, x)
  {
    if a == [] {
      assert a + b == b;
    } else {
      assert (a + b)[1..] == a[1..] + b;
      IndexOfAfter(a[1..], b, x);
    }
  }

  lemma {:induction false} UntilBlankStops(a: seq<string>, b: seq<string>)
    requires "" !in a
    ensures UntilBlank(a + [""] + b) == a
  {
    if a == [] {
      assert a + [""] + b == [""] + b;
    } else {
      assert (a + [""] + b)[1..] == a[1..] + [""] + b;
      UntilBlankStops(a[1..], b);
    }
  }

  /** The text written is exactly the n + 8 lines, each ended by a newline. */
  lemma InventoryText(ips: seq<string>)
    requires |ips| > 0
    requires forall k :: 0 <= k < |ips| ==> '\n' !in ips[k]
    ensures SplitLines(RenderInventory(ips)) == InventoryLines(ips)
    ensures |SplitLines(RenderInventory(ips))| == |ips| + 8
    ensures RenderInventory(ips)[|RenderInventory(ips)| - 1] == '\n'
  {
    var ls := InventoryLines(ips);
    assert NoNewlines(ls) by {
      forall i | 0 <= i < |ls| ensures '\n' !in ls[i] {
        if 4 <= i < 4 + |ips| {
          assert ls[i] == ips[i - 4];
        }
      }
    }
    SplitUnlines(ls);
    UnlinesEndsInNewline(ls);
  }

  /** The control-service group holds exactly the first address. */
  lemma ControlGroupIsFirst(ips: seq<string>)
    requires |ips| > 0 && ips[0] != ""
    ensures Group(InventoryLines(ips), ControlHeader) == [ips[0]]
  {
    var ls := InventoryLines(ips);
    assert IndexOf(ls, ControlHeader) == 0;
    assert ls[1..] == [ips[0]] + [""] + ls[3..];
    UntilBlankStops([ips[0]], ls[3..]);
  }

  /** The agents group holds every address once, in input order, the control address included. */
  lemma AgentsGroupIsAll(ips: seq<string>)
    requires |ips| > 0 && "" !in ips && ips[0] != AgentsHeader
    ensures Group(InventoryLines(ips), AgentsHeader) == ips
  {
    var ls := InventoryLines(ips);
    var head := [ControlHeader, ips[0], ""];
    assert ls == head + ls[3..];
    assert AgentsHeader !in head;
    IndexOfAfter(head, ls[3..], AgentsHeader);
    assert ls[4..] == ips + [""] + [NodesHeader, ControlGroup, AgentsGroup];
    UntilBlankStops(ips, [NodesHeader, ControlGroup, AgentsGroup]);
  }

  lemma {:induction false} UntilBlankWhole(a: seq<string>)
    requires "" !in a
    ensures UntilBlank(a) == a
  {
    if a != [] {
      UntilBlankWhole(a[1..]);
    }
  }

  /** The nodes group names exactly the two groups above, and both their headers are in the listing. */
  lemma NodesGroupIsChildren(ips: seq<string>)
    requires |ips| > 0 && NodesHeader !in ips
    ensures Group(InventoryLines(ips), NodesHeader) == [ControlGroup, AgentsGroup]
    ensures ControlHeader in InventoryLines(ips) && AgentsHeader in InventoryLines(ips)
  {
    var ls := InventoryLines(ips);
    var n := |ips|;
    var head := ls[..n + 5];
    var tail := ls[n + 5..];
    assert ls == head + tail;
    assert head == [ControlHeader, ips[0], "", AgentsHeader] + ips + [""];
    assert NodesHeader !in head;
    IndexOfAfter(head, tail, NodesHeader);
    assert tail == [NodesHeader, ControlGroup, AgentsGroup];
    assert IndexOf(tail, NodesHeader) == 0;
    assert ls[n + 6..] == [ControlGroup, AgentsGroup];
    UntilBlankWhole([ControlGroup, AgentsGroup]);
    assert ls[0] == ControlHeader && ls[3] == AgentsHeader;
  }

  /** Each child named in the nodes group is the name inside one of the listing's group headers. */
  lemma ChildrenNameHeaders()
    ensures "[" + ControlGroup + "]" == ControlHeader
    ensures "[" + AgentsGroup + "]" == AgentsHeader
  {
  }
}
