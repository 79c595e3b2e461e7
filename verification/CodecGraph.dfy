/** The widget graph of hda-tools/codecgraph.py: nodes with input lists, fake nodes made on demand,
    reversed edge lists, and the graphviz ids and edges that are printed. */
module CodecGraph {
  import opened HexText

  // ---------------------------------------------------------------- graph ids

  /** The places of a widget that an edge can attach to. */
  datatype Port = Main | MainIn | MainOut | AmpOut | AmpIn | AmpInFrom(origin: nat)

  datatype Id = Id(nid: nat, port: Port)

  function Hex(n: nat): string {
    if n < 16 then [HexDigit(n)] else Hex(n / 16) + [HexDigit(n % 16)]
  }

  /** The format %02x. */
  function Hex02(n: nat): string {
    if n < 16 then "0" + Hex(n) else Hex(n)
  }

  function Decimal(n: nat): string {
    if n < 10 then [HexDigit(n)] else Decimal(n / 10) + [HexDigit(n % 10)]
  }

  function Suffix(port: Port): string {
    match port
    case Main => "\""
    case MainIn => "-in\""
    case MainOut => "-out\""
    case AmpOut => "-ampout\""
    case AmpIn => "-ampin\""
    case AmpInFrom(origin) => "-ampin-" + Decimal(origin) + "\""
  }

  /** The id as it is printed. */
  function Text(id: Id): string {
    "\"nid-" + Hex02(id.nid) + Suffix(id.port)
  }

  function ValueOf(s: string, base: nat): nat {
    if s == "" then 0 else base * ValueOf(s[..|s| - 1], base) + DigitValue(s[|s| - 1])
  }

  lemma ValueOfSnoc(s: string, c: char, base: nat)
    ensures ValueOf(s + [c], base) == base * ValueOf(s, base) + DigitValue(c)
  {
    assert (s + [c])[..|s|] == s;
  }

  lemma {:induction false} HexReadsBack(n: nat)
    ensures ValueOf(Hex(n), 16) == n && forall c :: c in Hex(n) ==> IsDigit(c)
  {
    hide HexDigit, DigitValue, IsDigit;
    DigitReadsBack(n % 16);
    if n < 16 {
      ValueOfSnoc("", HexDigit(n), 16);
      assert "" + [HexDigit(n)] == Hex(n);
    } else {
      HexReadsBack(n / 16);
      ValueOfSnoc(Hex(n / 16), HexDigit(n % 16), 16);
    }
  }

  lemma {:induction false} Hex02ReadsBack(n: nat)
    ensures ValueOf(Hex02(n), 16) == n && forall c :: c in Hex02(n) ==> IsDigit(c)
  {
    HexReadsBack(n);
    if n < 16 {
      assert ValueOf("0", 16) == 0 by { ValueOfSnoc("", '0', 16); assert "" + ['0'] == "0"; }
      ValueOfSnoc("0", HexDigit(n), 16);
      DigitReadsBack(n);
    }
  }

  lemma {:induction false} DecimalReadsBack(n: nat)
    ensures ValueOf(Decimal(n), 10) == n && Decimal(n) != ""
  {
    hide HexDigit, DigitValue, IsDigit;
    DigitReadsBack(n % 10);
    if n < 10 {
      ValueOfSnoc("", HexDigit(n), 10);
      assert "" + [HexDigit(n)] == Decimal(n);
    } else {
      DecimalReadsBack(n / 10);
      ValueOfSnoc(Decimal(n / 10), HexDigit(n % 10), 10);
    }
  }

  lemma SuffixIdentifiesPort(p: Port, q: Port)
    requires Suffix(p) == Suffix(q)
    ensures p == q
  {
    if p.AmpInFrom? {
      DecimalReadsBack(p.origin);
      assert Suffix(p)[|Suffix(p)| - 1] == '"' && Suffix(p)[6] == '-' && |Suffix(p)| > 8;
    }
    if q.AmpInFrom? {
      DecimalReadsBack(q.origin);
      assert Suffix(q)[|Suffix(q)| - 1] == '"' && Suffix(q)[6] == '-' && |Suffix(q)| > 8;
    }
    if p.AmpInFrom? && q.AmpInFrom? {
      assert Decimal(p.origin) == Suffix(p)[7..|Suffix(p)| - 1] == Suffix(q)[7..|Suffix(q)| - 1] == Decimal(q.origin);
    }
  }

  lemma DigitsEndAtSuffix(a: string, s: string, b: string, t: string)
    requires a + s == b + t && s != "" && !IsDigit(s[0])
    requires forall c :: c in b ==> IsDigit(c)
    ensures |b| <= |a|
  {
    assert (a + s)[|a|] == s[0];
    assert forall k :: 0 <= k < |b| ==> (b + t)[k] == b[k] && IsDigit(b[k]);
  }

  lemma SplitDigits(head: string, a: string, s: string, b: string, t: string)
    requires head + a + s == head + b + t
    requires s != "" && !IsDigit(s[0]) && t != "" && !IsDigit(t[0])
    requires forall c :: c in a || c in b ==> IsDigit(c)
    ensures a == b && s == t
  {
    assert a + s == (head + a + s)[|head|..] == (head + b + t)[|head|..] == b + t;
    DigitsEndAtSuffix(a, s, b, t);
    DigitsEndAtSuffix(b, t, a, s);
    assert a == (a + s)[..|a|] == (b + t)[..|b|] == b;
    assert s == (a + s)[|a|..] == (b + t)[|b|..] == t;
  }

  /** Two printed ids are the same text only if they name the same place of the same node. */
  lemma TextIdentifiesId(i: Id, j: Id)
    requires Text(i) == Text(j)
    ensures i == j
  {
    Hex02ReadsBack(i.nid);
    Hex02ReadsBack(j.nid);
    SplitDigits("\"nid-", Hex02(i.nid), Suffix(i.port), Hex02(j.nid), Suffix(j.port));
    SuffixIdentifiesPort(i.port, j.port);
  }

  /** The ids of a node below 256, character by character. */
  lemma TextOfPorts(nid: nat, origin: nat)
    requires nid < 256
    ensures var head := "\"nid-" + [HexDigit(nid / 16), HexDigit(nid % 16)];
            && Text(Id(nid, Main)) == head + "\""
            && Text(Id(nid, MainIn)) == head + "-in\"" && Text(Id(nid, MainOut)) == head + "-out\""
            && Text(Id(nid, AmpOut)) == head + "-ampout\"" && Text(Id(nid, AmpIn)) == head + "-ampin\""
            && Text(Id(nid, AmpInFrom(origin))) == head + ("-ampin-" + Decimal(origin) + "\"")
  {
    TwoDigits(nid);
    hide Hex02, HexDigit, Decimal;
  }

  lemma TwoDigits(n: nat)
    requires n < 256
    ensures Hex02(n) == [HexDigit(n / 16), HexDigit(n % 16)]
  {
    if n < 16 {
      assert n / 16 == 0 && n % 16 == n && HexDigit(0) == '0';
      assert Hex(n) == [HexDigit(n)];
    } else {
      assert Hex(n / 16) == [HexDigit(n / 16)];
    }
  }

  // ---------------------------------------------------------------- widgets as values

  const ALL_NODES := false

  /** What a Node object holds: number, type, capabilities, connections in both directions. */
  datatype Widget = Widget(nid: nat, kind: string, wcaps: seq<string>, inputs: seq<nat>, outputs: seq<nat>)
  {
    predicate IsDivided() { kind == "Pin Complex" }
    predicate HasOutAmp() { "Amp-Out" in wcaps }
    predicate HasInAmp() { "Amp-In" in wcaps }
    predicate ManyAmpIns() { kind == "Audio Mixer" }
    predicate ShowInput() { ALL_NODES || |inputs| > 0 }
    predicate ShowOutput() { ALL_NODES || |outputs| > 0 }

    /** The id of the input amplifier for connections from `origin`. */
    function InAmpId(origin: nat): Id {
      Id(nid, if ManyAmpIns() then AmpInFrom(origin) else AmpIn)
    }

    /** The id where the input amplifier would be connected. */
    function InAmpNextId(): Id { Id(nid, if IsDivided() then MainOut else Main) }

    /** The id where the output amplifier would be connected. */
    function OutAmpNextId(): Id { Id(nid, if IsDivided() then MainIn else Main) }

    function OutId(): Id {
      if IsDivided() then Id(nid, MainOut)
      else if HasOutAmp() then Id(nid, AmpOut)
      else OutAmpNextId()
    }

    function InId(origin: nat): Id {
      if IsDivided() then Id(nid, MainIn)
      else if HasInAmp() then InAmpId(origin)
      else InAmpNextId()
    }
  }

  // ---------------------------------------------------------------- what is printed

  /** A printed line: a declared graph node, a declared amplifier, or one of the two edge kinds. */
  datatype Line = NodeLine(id: Id) | AmpLine(id: Id)
                | AmpEdge(frm: Id, to: Id) | ConnEdge(frm: Id, to: Id)

  type Graph = map<nat, Widget>

  function DumpMainInput(n: Widget): seq<Line> {
    if n.ShowInput() then [NodeLine(Id(n.nid, MainIn))] else []
  }

  function DumpMainOutput(n: Widget): seq<Line> {
    if n.ShowOutput() then [NodeLine(Id(n.nid, MainOut))] else []
  }

  function DumpMain(n: Widget): seq<Line> {
    if n.ShowInput() || n.ShowOutput() then [NodeLine(Id(n.nid, Main))] else []
  }

  function DumpOutAmps(n: Widget): seq<Line> {
    if n.ShowOutput() && n.HasOutAmp()
    then [AmpLine(Id(n.nid, AmpOut)), AmpEdge(n.OutAmpNextId(), Id(n.nid, AmpOut))]
    else []
  }

  function ShowInAmps(n: Widget, origins: seq<nat>): seq<Line> {
    if origins == [] then []
    else [AmpLine(n.InAmpId(origins[0])), AmpEdge(n.InAmpId(origins[0]), n.InAmpNextId())]
         + ShowInAmps(n, origins[1..])
  }

  /** One amplifier for each input of a mixer, one for all inputs of any other node. */
  function DumpInAmps(n: Widget): seq<Line> {
    if n.ShowInput() && n.HasInAmp()
    then ShowInAmps(n, if n.ManyAmpIns() then n.inputs else [0])
    else []
  }

  /** The declarations of one node, with the edges of its amplifiers. */
  function DumpDecls(n: Widget): seq<Line> {
    if n.IsDivided()
    then DumpMainInput(n) + DumpOutAmps(n) + DumpMainOutput(n) + DumpInAmps(n)
    else DumpMain(n) + DumpOutAmps(n) + DumpInAmps(n)
  }

  ghost predicate InputsIn(g: Graph, inputs: seq<nat>) {
    forall c :: c in inputs ==> c in g
  }

  /** Every connection leads to a node of the graph. */
  ghost predicate Closed(g: Graph) {
    && (forall k :: k in g ==> g[k].nid == k)
    && (forall k :: k in g ==> InputsIn(g, g[k].inputs))
  }

  /** One edge for each input, from the output side of the origin to the input side of n. */
  function DumpConns(g: Graph, n: Widget, inputs: seq<nat>): seq<Line>
    requires InputsIn(g, inputs)
  {
    if inputs == [] then []
    else
      var last := |inputs| - 1;
      var origin := g[inputs[last]];
      DumpConns(g, n, inputs[..last]) + [ConnEdge(origin.OutId(), n.InId(origin.nid))]
  }

  function DumpNode(g: Graph, n: Widget): seq<Line>
    requires InputsIn(g, n.inputs)
  {
    DumpDecls(n) + DumpConns(g, n, n.inputs)
  }

  function DumpAll(g: Graph, order: seq<nat>): seq<Line>
    requires Closed(g) && forall k :: k in order ==> k in g
  {
    if order == [] then []
    else
      var last := |order| - 1;
      DumpAll(g, order[..last]) + DumpNode(g, g[order[last]])
  }

  // ---------------------------------------------------------------- reversing the edges

  function FakeWidget(nid: nat): Widget {
    Widget(nid, "Unknown Node", [], [], [])
  }

  /** The node that get_node(nid) finds or makes. */
  function Lookup(g: Graph, nid: nat): Widget {
    if nid in g then g[nid] else FakeWidget(nid)
  }

  /** get_node(c).new_output(nid). */
  function AddOutput(g: Graph, nid: nat, c: nat): Graph {
    var target := Lookup(g, c);
    g[c := target.(outputs := target.outputs + [nid])]
  }

  function AddOutputs(g: Graph, nid: nat, inputs: seq<nat>): Graph {
    if inputs == [] then g
    else
      var last := |inputs| - 1;
      AddOutput(AddOutputs(g, nid, inputs[..last]), nid, inputs[last])
  }

  /** The same for the inputs of each node of `order`. */
  function BuildOutputs(g: Graph, order: seq<nat>): Graph
    requires forall k :: k in order ==> k in g
  {
    if order == [] then g
    else
      var last := |order| - 1;
      AddOutputs(BuildOutputs(g, order[..last]), order[last], g[order[last]].inputs)
  }

  /** m lists x among its outputs as often as x lists m among its inputs. */
  ghost predicate Transposed(g: Graph) {
    forall m, x :: m in g && x in g ==> multiset(g[m].outputs)[x] == multiset(g[x].inputs)[m]
  }

  /** r differs from g in output lists and in added fake nodes only. */
  ghost predicate SameButOutputs(g: Graph, r: Graph) {
    forall m :: m in r ==> r[m] == Lookup(g, m).(outputs := r[m].outputs)
  }

  ghost predicate Enumerates(order: seq<nat>, keys: set<nat>) {
    && (forall k :: k in order <==> k in keys)
    && (forall i, j :: 0 <= i < j < |order| ==> order[i] != order[j])
  }

  ghost function Referenced(g: Graph): set<nat> {
    set k, c | k in g && c in g[k].inputs :: c
  }

  lemma AddOutputAt(g: Graph, nid: nat, c: nat, m: nat, x: nat)
    ensures var r, before := AddOutput(g, nid, c), Lookup(g, m);
            && (m in r <==> m in g || m == c)
            && Lookup(r, m) == before.(outputs := Lookup(r, m).outputs)
            && multiset(Lookup(r, m).outputs)[x] == multiset(before.outputs)[x] + (if m == c && x == nid then 1 else 0)
  {
  }

  lemma {:induction false} AddOutputsAt(g: Graph, nid: nat, inputs: seq<nat>, m: nat, x: nat)
    ensures var r, before := AddOutputs(g, nid, inputs), Lookup(g, m);
            && (m in r <==> m in g || m in inputs)
            && Lookup(r, m) == before.(outputs := Lookup(r, m).outputs)
            && multiset(Lookup(r, m).outputs)[x] ==
               multiset(before.outputs)[x] + (if x == nid then multiset(inputs)[m] else 0)
  {
    hide AddOutput, Lookup;
    if inputs != [] {
      var last := |inputs| - 1;
      var front, c := inputs[..last], inputs[last];
      AddOutputsAt(g, nid, front, m, x);
      assert inputs == front + [c];
      AddOutputAt(AddOutputs(g, nid, front), nid, c, m, x);
    }
  }

  ghost predicate ReferencedFrom(g: Graph, order: seq<nat>, m: nat)
    requires forall k :: k in order ==> k in g
  {
    exists k :: k in order && m in g[k].inputs
  }

  lemma {:induction false} BuildOutputsAt(g: Graph, order: seq<nat>, m: nat, x: nat)
    requires forall k :: k in order ==> k in g
    requires forall i, j :: 0 <= i < j < |order| ==> order[i] != order[j]
    ensures var r, before := BuildOutputs(g, order), Lookup(g, m);
            && (m in r <==> m in g || ReferencedFrom(g, order, m))
            && Lookup(r, m) == before.(outputs := Lookup(r, m).outputs)
            && multiset(Lookup(r, m).outputs)[x] ==
               multiset(before.outputs)[x] + (if x in order then multiset(g[x].inputs)[m] else 0)
  {
    hide AddOutputs, Lookup;
    if order == [] {
    } else {
      var last := |order| - 1;
      var front, k := order[..last], order[last];
      BuildOutputsAt(g, front, m, x);
      AddOutputsAt(BuildOutputs(g, front), k, g[k].inputs, m, x);
      assert order == front + [k];
      assert ReferencedFrom(g, order, m) <==> ReferencedFrom(g, front, m) || m in g[k].inputs;
    }
  }

  /** Whatever the order of the nodes: every connection now leads to a node, the outputs are the
      transpose of the inputs, exactly the missing nodes were added, and nothing else changed. */
  lemma OutListsAreTransposed(g: Graph, order: seq<nat>)
    requires forall k :: k in g ==> g[k].nid == k && g[k].outputs == []
    requires Enumerates(order, g.Keys)
    ensures var r := BuildOutputs(g, order);
            && Closed(r) && Transposed(r)
            && r.Keys == g.Keys + Referenced(g)
            && SameButOutputs(g, r)
  {
    var r := BuildOutputs(g, order);
    BuildOutputsNodes(g, order);
    BuiltIsClosed(g, r);
    forall m, x | m in r && x in r
      ensures multiset(r[m].outputs)[x] == multiset(r[x].inputs)[m]
    {
      BuildOutputsAt(g, order, m, x);
    }
  }

  lemma BuildOutputsNodes(g: Graph, order: seq<nat>)
    requires Enumerates(order, g.Keys)
    ensures var r := BuildOutputs(g, order);
            && r.Keys == g.Keys + Referenced(g)
            && SameButOutputs(g, r)
  {
    var r := BuildOutputs(g, order);
    forall m
      ensures m in r <==> m in g || m in Referenced(g)
      ensures m in r ==> r[m] == Lookup(g, m).(outputs := r[m].outputs)
    {
      BuildOutputsAt(g, order, m, m);
    }
  }

  lemma BuiltIsClosed(g: Graph, r: Graph)
    requires forall k :: k in g ==> g[k].nid == k
    requires r.Keys == g.Keys + Referenced(g)
    requires SameButOutputs(g, r)
    ensures Closed(r)
  {
    forall k | k in r ensures InputsIn(r, r[k].inputs) {
      forall c | c in r[k].inputs ensures c in r {
        assert c in Lookup(g, k).inputs;
        assert c in Referenced(g);
      }
    }
  }

  // ---------------------------------------------------------------- the objects

  /** The file that the graph is written to. */
  class Writer {
    var lines: seq<Line>
  }

  class Node {
    const nid: nat
    const kind: string
    const wcaps: seq<string>
    const inputs: seq<nat>
    var outputs: seq<nat>

    function View(): Widget
      reads this
    {
      Widget(nid, kind, wcaps, inputs, outputs)
    }

    constructor (nid: nat, kind: string, wcaps: seq<string>, inputs: seq<nat>)
      ensures View() == Widget(nid, kind, wcaps, inputs, [])
    {
      this.nid, this.kind, this.wcaps, this.inputs, this.outputs := nid, kind, wcaps, inputs, [];
    }

    method NewOutput(nid: nat)
      modifies this
      ensures outputs == old(outputs) + [nid]
    {
      outputs := outputs + [nid];
    }

    method NewNode(f: Writer, port: Port)
      modifies f
      ensures f.lines == old(f.lines) + [NodeLine(Id(nid, port))]
    {
      f.lines := f.lines + [NodeLine(Id(nid, port))];
    }

    method ShowAmp(f: Writer, id: Id, frm: Id, to: Id)
      modifies f
      ensures f.lines == old(f.lines) + [AmpLine(id), AmpEdge(frm, to)]
    {
      f.lines := f.lines + [AmpLine(id)] + [AmpEdge(frm, to)];
    }

    method DumpOutAmpsTo(f: Writer)
      modifies f
      ensures f.lines == old(f.lines) + DumpOutAmps(View())
    {
      if |outputs| > 0 && "Amp-Out" in wcaps {
        var next := if kind == "Pin Complex" then MainIn else Main;
        ShowAmp(f, Id(nid, AmpOut), Id(nid, next), Id(nid, AmpOut));
      }
    }

    method DumpInAmpsTo(f: Writer)
      modifies f
      ensures f.lines == old(f.lines) + DumpInAmps(View())
    {
      if |inputs| > 0 && "Amp-In" in wcaps {
        var next := Id(nid, if kind == "Pin Complex" then MainOut else Main);
        if kind == "Audio Mixer" {
          for i := 0 to |inputs|
            invariant f.lines + ShowInAmps(View(), inputs[i..]) == old(f.lines) + ShowInAmps(View(), inputs)
          {
            assert inputs[i..][0] == inputs[i] && inputs[i..][1..] == inputs[i + 1..];
            ghost var before, rest := f.lines, ShowInAmps(View(), inputs[i + 1..]);
            var id := Id(nid, AmpInFrom(inputs[i]));
            ShowAmp(f, id, id, next);
            AppendAssoc(before, [AmpLine(id), AmpEdge(id, next)], rest);
          }
        } else {
          ShowAmp(f, Id(nid, AmpIn), Id(nid, AmpIn), next);
          assert [0][1..] == [];
          assert ShowInAmps(View(), [0]) == [AmpLine(Id(nid, AmpIn)), AmpEdge(Id(nid, AmpIn), next)] + [];
        }
      }
    }

    /** The input half of a pin. */
    method DumpInHalfTo(f: Writer)
      modifies f
      ensures f.lines == old(f.lines) + (DumpMainInput(View()) + DumpOutAmps(View()))
    {
      hide DumpOutAmps;
      if |inputs| > 0 {
        NewNode(f, MainIn);
      }
      DumpOutAmpsTo(f);
    }

    /** The output half of a pin. */
    method DumpOutHalfTo(f: Writer)
      modifies f
      ensures f.lines == old(f.lines) + (DumpMainOutput(View()) + DumpInAmps(View()))
    {
      hide DumpInAmps;
      if |outputs| > 0 {
        NewNode(f, MainOut);
      }
      DumpInAmpsTo(f);
    }

    /** A node that is no pin. */
    method DumpWholeTo(f: Writer)
      modifies f
      ensures f.lines == old(f.lines) + (DumpMain(View()) + DumpOutAmps(View()) + DumpInAmps(View()))
    {
      hide DumpOutAmps, DumpInAmps;
      if |inputs| > 0 || |outputs| > 0 {
        NewNode(f, Main);
      }
      DumpOutAmpsTo(f);
      DumpInAmpsTo(f);
    }

    method DumpDeclsTo(f: Writer)
      modifies f
      ensures f.lines == old(f.lines) + DumpDecls(View())
    {
      hide DumpMainInput, DumpMainOutput, DumpMain, DumpOutAmps, DumpInAmps;
      if kind == "Pin Complex" {
        ghost var before := f.lines;
        DumpInHalfTo(f);
        DumpOutHalfTo(f);
        AppendHalves(before, DumpMainInput(View()), DumpOutAmps(View()), DumpMainOutput(View()), DumpInAmps(View()));
      } else {
        DumpWholeTo(f);
      }
    }
  }

  lemma AppendHalves(before: seq<Line>, a: seq<Line>, b: seq<Line>, c: seq<Line>, d: seq<Line>)
    ensures before + (a + b) + (c + d) == before + (a + b + c + d)
  {
  }

  class CodecInfo {
    var nodes: map<nat, Node>

    ghost predicate Valid()
      reads this
    {
      forall k :: k in nodes ==> nodes[k].nid == k
    }

    ghost function View(): Graph
      reads this, nodes.Values
    {
      map k | k in nodes :: nodes[k].View()
    }

    method GetNode(nid: nat) returns (n: Node)
      requires Valid()
      modifies this
      ensures Valid() && nid in nodes && n == nodes[nid]
      ensures if nid in old(nodes) then nodes == old(nodes)
              else fresh(n) && n.View() == FakeWidget(nid) && nodes == old(nodes)[nid := n]
      ensures nid in old(nodes) ==> View() == old(View())
    {
      if nid in nodes {
        n := nodes[nid];
      } else {
        n := new Node(nid, "Unknown Node", [], []);
        nodes := nodes[nid := n];
      }
    }

    method AddOutputTo(c: nat, nid: nat)
      requires Valid()
      modifies this, nodes.Values
      ensures Valid() && KeepsNodes(old(nodes), nodes)
      ensures forall k :: k in nodes && k !in old(nodes) ==> fresh(nodes[k])
      ensures View() == AddOutput(old(View()), nid, c)
    {
      var i := GetNode(c);
      i.NewOutput(nid);
    }

    method AddOutputsOf(n: Node)
      requires Valid()
      modifies this, nodes.Values
      ensures Valid() && KeepsNodes(old(nodes), nodes)
      ensures forall k :: k in nodes && k !in old(nodes) ==> fresh(nodes[k])
      ensures View() == AddOutputs(old(View()), n.nid, n.inputs)
    {
      for j := 0 to |n.inputs|
        invariant Valid() && KeepsNodes(old(nodes), nodes)
        invariant forall k :: k in nodes && k !in old(nodes) ==> fresh(nodes[k])
        invariant View() == AddOutputs(old(View()), n.nid, n.inputs[..j])
      {
        assert n.inputs[..j + 1][..j] == n.inputs[..j];
        AddOutputTo(n.inputs[j], n.nid);
      }
      assert n.inputs[..|n.inputs|] == n.inputs;
    }

    method ReverseEdges() returns (ghost order: seq<nat>)
      requires Valid()
      modifies this, nodes.Values
      ensures Valid() && KeepsNodes(old(nodes), nodes)
      ensures Enumerates(order, old(nodes).Keys)
      ensures View() == BuildOutputs(old(View()), order)
    {
      ghost var g, done := View(), {};
      order := [];
      var todo := nodes.Keys;
      while todo != {}
        invariant Valid() && KeepsNodes(old(nodes), nodes)
        invariant done !! todo && done + todo == g.Keys
        invariant Enumerates(order, done)
        invariant forall k :: k in nodes && k !in g ==> fresh(nodes[k])
        invariant View() == BuildOutputs(g, order)
        decreases todo
      {
        var k :| k in todo;
        assert nodes[k].inputs == g[k].inputs;
        AddOutputsOf(nodes[k]);
        BuildOutputsSnoc(g, order, k);
        EnumeratesSnoc(order, done, k);
        order, done, todo := order + [k], done + {k}, todo - {k};
      }
    }

    method CreateOutLists()
      requires Valid() && forall k :: k in nodes ==> nodes[k].outputs == []
      modifies this, nodes.Values
      ensures Valid() && Closed(View()) && Transposed(View())
      ensures KeepsNodes(old(nodes), nodes)
      ensures View().Keys == old(View()).Keys + Referenced(old(View()))
      ensures SameButOutputs(old(View()), View())
    {
      ghost var g := View();
      assert forall k :: k in g ==> g[k].nid == k && g[k].outputs == [];
      ghost var order := ReverseEdges();
      OutListsAreTransposed(g, order);
    }

    method DumpConnsTo(n: Node, f: Writer)
      requires Valid() && InputsIn(View(), n.inputs)
      modifies this, f
      ensures nodes == old(nodes) && View() == old(View())
      ensures f.lines == old(f.lines) + DumpConns(View(), n.View(), n.inputs)
    {
      ghost var g, w := View(), n.View();
      for j := 0 to |n.inputs|
        invariant nodes == old(nodes) && View() == g && n.View() == w
        invariant f.lines == old(f.lines) + DumpConns(g, w, n.inputs[..j])
      {
        var c := n.inputs[j];
        DumpConnsSnoc(g, w, n.inputs, j);
        var origin := GetNode(c);
        assert g[c] == origin.View();
        f.lines := f.lines + [ConnEdge(origin.View().OutId(), n.View().InId(origin.nid))];
      }
      assert n.inputs[..|n.inputs|] == n.inputs;
    }

    method DumpNodeTo(n: Node, f: Writer)
      requires Valid() && InputsIn(View(), n.inputs)
      modifies this, f
      ensures nodes == old(nodes) && View() == old(View())
      ensures f.lines == old(f.lines) + DumpNode(View(), n.View())
    {
      hide DumpDecls, DumpConns, Closed;
      ghost var before := f.lines;
      n.DumpDeclsTo(f);
      DumpConnsTo(n, f);
      AppendAssoc(before, DumpDecls(n.View()), DumpConns(View(), n.View(), n.inputs));
    }

    /** One turn of the loop over the nodes: k is printed after the nodes of `done`. */
    method DumpNext(f: Writer, k: nat, ghost done: seq<nat>, ghost base: seq<Line>)
      requires Valid() && Closed(View()) && k in nodes
      requires forall x :: x in done ==> x in nodes
      requires f.lines == base + DumpAll(View(), done)
      modifies this, f
      ensures nodes == old(nodes) && View() == old(View())
      ensures f.lines == base + DumpAll(View(), done + [k])
    {
      ghost var g := View();
      assert g[k] == nodes[k].View();
      DumpNodeTo(nodes[k], f);
      assert f.lines == base + DumpAll(g, done + [k]) by {
        DumpAllSnoc(g, done, k);
        AppendAssoc(base, DumpAll(g, done), DumpNode(g, g[k]));
      }
    }

    /** Prints every node once, in some order; get_node adds nothing any more. */
    method DumpGraph(f: Writer) returns (ghost order: seq<nat>)
      requires Valid() && Closed(View())
      modifies this, f
      ensures nodes == old(nodes) && View() == old(View())
      ensures Enumerates(order, nodes.Keys)
      ensures f.lines == old(f.lines) + DumpAll(View(), order)
    {
      ghost var g, done := View(), {};
      order := [];
      var todo := nodes.Keys;
      while todo != {}
        invariant nodes == old(nodes) && View() == g
        invariant done !! todo && done + todo == g.Keys
        invariant Enumerates(order, done)
        invariant f.lines == old(f.lines) + DumpAll(g, order)
        decreases todo
      {
        var k :| k in todo;
        DumpNext(f, k, order, old(f.lines));
        EnumeratesSnoc(order, done, k);
        order, done, todo := order + [k], done + {k}, todo - {k};
      }
    }
  }

  /** No node object is dropped or replaced. */
  ghost predicate KeepsNodes(before: map<nat, Node>, after: map<nat, Node>) {
    forall k :: k in before ==> k in after && after[k] == before[k]
  }

  lemma EnumeratesSnoc(order: seq<nat>, keys: set<nat>, k: nat)
    requires Enumerates(order, keys) && k !in keys
    ensures Enumerates(order + [k], keys + {k})
  {
  }

  lemma AppendAssoc(a: seq<Line>, b: seq<Line>, c: seq<Line>)
    ensures a + b + c == a + (b + c)
  {
  }

  lemma DumpConnsSnoc(g: Graph, n: Widget, inputs: seq<nat>, j: nat)
    requires j < |inputs| && InputsIn(g, inputs)
    ensures DumpConns(g, n, inputs[..j + 1]) == DumpConns(g, n, inputs[..j])
              + [ConnEdge(g[inputs[j]].OutId(), n.InId(g[inputs[j]].nid))]
  {
    assert inputs[..j + 1][..j] == inputs[..j];
  }

  lemma DumpAllSnoc(g: Graph, order: seq<nat>, k: nat)
    requires Closed(g) && k in g && forall x :: x in order ==> x in g
    ensures DumpAll(g, order + [k]) == DumpAll(g, order) + DumpNode(g, g[k])
  {
    assert (order + [k])[..|order|] == order;
  }

  lemma BuildOutputsSnoc(g: Graph, order: seq<nat>, k: nat)
    requires k in g && forall x :: x in order ==> x in g
    ensures BuildOutputs(g, order + [k]) == AddOutputs(BuildOutputs(g, order), k, g[k].inputs)
  {
    assert (order + [k])[..|order|] == order;
  }

  // ---------------------------------------------------------------- every connection edge is anchored

  ghost predicate Declares(lines: seq<Line>, id: Id) {
    NodeLine(id) in lines || AmpLine(id) in lines
  }

  /** A node's dump declares ids of that node only. */
  lemma {:induction false} InAmpsAreOwn(n: Widget, origins: seq<nat>, line: Line)
    requires line in ShowInAmps(n, origins)
    ensures exists c :: c in origins &&
              (line == AmpLine(n.InAmpId(c)) || line == AmpEdge(n.InAmpId(c), n.InAmpNextId()))
  {
    var c := origins[0];
    if line != AmpLine(n.InAmpId(c)) && line != AmpEdge(n.InAmpId(c), n.InAmpNextId()) {
      InAmpsAreOwn(n, origins[1..], line);
    }
  }

  lemma {:induction false} InAmpsAreShown(n: Widget, origins: seq<nat>, c: nat)
    requires c in origins
    ensures AmpLine(n.InAmpId(c)) in ShowInAmps(n, origins)
    ensures AmpEdge(n.InAmpId(c), n.InAmpNextId()) in ShowInAmps(n, origins)
  {
    if c != origins[0] {
      InAmpsAreShown(n, origins[1..], c);
    }
  }

  /** What the declarations of a node consist of. */
  lemma DeclLines(n: Widget, line: Line)
    ensures line in DumpDecls(n) <==>
      || (line == NodeLine(Id(n.nid, MainIn)) && n.IsDivided() && n.ShowInput())
      || (line == NodeLine(Id(n.nid, MainOut)) && n.IsDivided() && n.ShowOutput())
      || (line == NodeLine(Id(n.nid, Main)) && !n.IsDivided() && (n.ShowInput() || n.ShowOutput()))
      || line in DumpOutAmps(n) || line in DumpInAmps(n)
  {
  }

  lemma DeclaredIdIsOwn(n: Widget, id: Id)
    requires Declares(DumpDecls(n), id)
    ensures id.nid == n.nid
  {
    DeclLines(n, NodeLine(id));
    DeclLines(n, AmpLine(id));
    var origins := if n.ManyAmpIns() then n.inputs else [0];
    if NodeLine(id) in DumpInAmps(n) {
      InAmpsAreOwn(n, origins, NodeLine(id));
    }
    if AmpLine(id) in DumpInAmps(n) {
      InAmpsAreOwn(n, origins, AmpLine(id));
    }
  }

  lemma OutIdDeclared(n: Widget)
    requires n.ShowOutput()
    ensures Declares(DumpDecls(n), n.OutId()) && n.OutId().nid == n.nid
  {
    DeclLines(n, NodeLine(n.OutId()));
    DeclLines(n, AmpLine(n.OutId()));
  }

  lemma InIdDeclared(n: Widget, c: nat)
    requires c in n.inputs
    ensures Declares(DumpDecls(n), n.InId(c)) && n.InId(c).nid == n.nid
  {
    DeclLines(n, NodeLine(n.InId(c)));
    DeclLines(n, AmpLine(n.InId(c)));
    if !n.IsDivided() && n.HasInAmp() {
      InAmpsAreShown(n, if n.ManyAmpIns() then n.inputs else [0], if n.ManyAmpIns() then c else 0);
    }
  }

  /** The edge for one connection. */
  function EdgeFor(g: Graph, n: Widget, c: nat): Line
    requires c in g
  {
    ConnEdge(g[c].OutId(), n.InId(g[c].nid))
  }

  lemma {:induction false} ConnLines(g: Graph, n: Widget, inputs: seq<nat>, e: Line)
    requires Closed(g) && InputsIn(g, inputs)
    ensures e in DumpConns(g, n, inputs) <==> exists c :: c in inputs && e == EdgeFor(g, n, c)
  {
    if inputs != [] {
      var last := |inputs| - 1;
      ConnLines(g, n, inputs[..last], e);
      assert inputs == inputs[..last] + [inputs[last]];
      assert DumpConns(g, n, inputs) == DumpConns(g, n, inputs[..last]) + [EdgeFor(g, n, inputs[last])];
    }
  }

  /** Every line of a graph dump comes from the dump of some node. */
  lemma {:induction false} LinesOfAll(g: Graph, order: seq<nat>, line: Line) returns (k: nat)
    requires Closed(g) && (forall k :: k in order ==> k in g) && line in DumpAll(g, order)
    ensures k in order && line in DumpNode(g, g[k])
  {
    var last := |order| - 1;
    if line in DumpNode(g, g[order[last]]) {
      k := order[last];
    } else {
      k := LinesOfAll(g, order[..last], line);
    }
  }

  lemma DeclsHaveNoConns(n: Widget, e: Line)
    requires e in DumpDecls(n)
    ensures !e.ConnEdge?
  {
    DeclLines(n, e);
    if e in DumpInAmps(n) {
      InAmpsAreOwn(n, if n.ManyAmpIns() then n.inputs else [0], e);
    }
  }

  /** The connection that an edge is printed for. */
  lemma ConnectionOf(g: Graph, k: nat, e: Line) returns (c: nat)
    requires Closed(g) && Transposed(g) && k in g && e in DumpNode(g, g[k]) && e.ConnEdge?
    ensures c in g && g[c].nid == c && g[k].nid == k && c in g[k].inputs && k in g[c].outputs
    ensures e == EdgeFor(g, g[k], c)
  {
    assert e in DumpConns(g, g[k], g[k].inputs) by {
      if e in DumpDecls(g[k]) {
        DeclsHaveNoConns(g[k], e);
      }
    }
    ConnLines(g, g[k], g[k].inputs, e);
    c :| c in g[k].inputs && e == EdgeFor(g, g[k], c);
    assert c in g && multiset(g[c].outputs)[k] == multiset(g[k].inputs)[c] > 0;
    assert k in multiset(g[c].outputs);
  }

  lemma ConnEdgeAnchored(g: Graph, k: nat, e: Line)
    requires Closed(g) && Transposed(g) && k in g && e in DumpNode(g, g[k]) && e.ConnEdge?
    ensures e.to.nid == k && e.frm.nid in g[k].inputs && e.frm.nid in g
    ensures Declares(DumpDecls(g[e.frm.nid]), e.frm) && Declares(DumpDecls(g[k]), e.to)
  {
    var c := ConnectionOf(g, k, e);
    OutIdDeclared(g[c]);
    InIdDeclared(g[k], c);
  }

  /** Every printed connection edge leads from an id that the origin's own dump declares to an id
      that the target's own dump declares, along a connection of the graph. */
  lemma ConnectionEdgesAreAnchored(g: Graph, order: seq<nat>)
    requires Closed(g) && Transposed(g) && Enumerates(order, g.Keys)
    ensures forall e :: e in DumpAll(g, order) && e.ConnEdge? ==>
              && e.frm.nid in g && e.to.nid in g && e.frm.nid in g[e.to.nid].inputs
              && Declares(DumpDecls(g[e.frm.nid]), e.frm) && Declares(DumpDecls(g[e.to.nid]), e.to)
  {
    forall e | e in DumpAll(g, order) && e.ConnEdge?
      ensures e.frm.nid in g && e.to.nid in g && e.frm.nid in g[e.to.nid].inputs
      ensures Declares(DumpDecls(g[e.frm.nid]), e.frm) && Declares(DumpDecls(g[e.to.nid]), e.to)
    {
      var k := LinesOfAll(g, order, e);
      ConnEdgeAnchored(g, k, e);
    }
  }

  // ---------------------------------------------------------------- which lines are printed

  /** An amplifier that a node's dump declares, and where it is connected. */
  predicate IsAmp(n: Widget, id: Id) {
    id.nid == n.nid && (IsOutAmp(n, id.port) || IsInAmp(n, id.port))
  }

  predicate IsOutAmp(n: Widget, port: Port) {
    port == AmpOut && "Amp-Out" in n.wcaps && n.outputs != []
  }

  /** A mixer has one input amplifier for each of its inputs, any other node has one for all of them. */
  predicate IsInAmp(n: Widget, port: Port) {
    && "Amp-In" in n.wcaps && n.inputs != []
    && if n.kind == "Audio Mixer" then port.AmpInFrom? && port.origin in n.inputs else port == AmpIn
  }

  /** The lines that a node's dump begins with: a pin has one half for its inputs and one for its outputs;
      signals run from the input side through an output amplifier, and from an input amplifier to the output
      side. */
  lemma LinesOfNode(n: Widget, line: Line)
    ensures line in DumpDecls(n) <==>
      match line
      case NodeLine(id) =>
        && id.nid == n.nid
        && if n.kind == "Pin Complex"
           then (id.port == MainIn && n.inputs != []) || (id.port == MainOut && n.outputs != [])
           else id.port == Main && (n.inputs != [] || n.outputs != [])
      case AmpLine(id) => IsAmp(n, id)
      case AmpEdge(frm, to) =>
        || (IsAmp(n, to) && to.port == AmpOut && frm == Id(n.nid, if n.kind == "Pin Complex" then MainIn else Main))
        || (IsAmp(n, frm) && frm.port != AmpOut && to == Id(n.nid, if n.kind == "Pin Complex" then MainOut else Main))
      case ConnEdge(_, _) => false
  {
    DeclLines(n, line);
    var origins := if n.ManyAmpIns() then n.inputs else [0];
    if line in DumpInAmps(n) {
      InAmpsAreOwn(n, origins, line);
    }
    if n.HasInAmp() && n.ShowInput() {
      var c := match line case AmpLine(id) => (if id.port.AmpInFrom? then id.port.origin else 0)
                          case AmpEdge(frm, _) => (if frm.port.AmpInFrom? then frm.port.origin else 0)
                          case _ => 0;
      if c in origins {
        InAmpsAreShown(n, origins, c);
      }
    }
  }

  /** An amplifier is declared in the whole graph exactly if its own node's dump declares it. */
  lemma AmpsOfAll(g: Graph, order: seq<nat>, id: Id)
    requires Closed(g) && Enumerates(order, g.Keys)
    ensures AmpLine(id) in DumpAll(g, order) <==> id.nid in g && IsAmp(g[id.nid], id)
  {
    if AmpLine(id) in DumpAll(g, order) {
      var k := LinesOfAll(g, order, AmpLine(id));
      NoAmpAmongConns(g, g[k], g[k].inputs, id);
      LinesOfNode(g[k], AmpLine(id));
    }
    if id.nid in g && IsAmp(g[id.nid], id) {
      LinesOfNode(g[id.nid], AmpLine(id));
      AllHas(g, order, id.nid, AmpLine(id));
    }
  }

  lemma NoAmpAmongConns(g: Graph, n: Widget, inputs: seq<nat>, id: Id)
    requires Closed(g) && InputsIn(g, inputs)
    ensures AmpLine(id) !in DumpConns(g, n, inputs)
  {
    ConnLines(g, n, inputs, AmpLine(id));
  }

  lemma {:induction false} AllHas(g: Graph, order: seq<nat>, k: nat, line: Line)
    requires Closed(g) && (forall x :: x in order ==> x in g) && k in order && line in DumpNode(g, g[k])
    ensures line in DumpAll(g, order)
  {
    if k != order[|order| - 1] {
      assert order == order[..|order| - 1] + [order[|order| - 1]];
      AllHas(g, order[..|order| - 1], k, line);
    }
  }

  /** A signal leaves a pin at its output half, and any other node behind its output amplifier if one is
      printed for it. */
  predicate LeavesAt(lines: seq<Line>, kind: string, frm: Id) {
    frm.port ==
      if kind == "Pin Complex" then MainOut
      else if AmpLine(Id(frm.nid, AmpOut)) in lines then AmpOut
      else Main
  }

  /** It enters a pin at its input half, a mixer before the amplifier for this origin if one is printed, and
      any other node before its input amplifier if one is printed. */
  predicate EntersAt(lines: seq<Line>, kind: string, to: Id, origin: nat) {
    to.port ==
      if kind == "Pin Complex" then MainIn
      else if AmpLine(Id(to.nid, AmpInFrom(origin))) in lines then AmpInFrom(origin)
      else if AmpLine(Id(to.nid, AmpIn)) in lines then AmpIn
      else Main
  }

  /** No connection bypasses an amplifier that is printed. */
  lemma NoAmpIsBypassed(g: Graph, order: seq<nat>)
    requires Closed(g) && Transposed(g) && Enumerates(order, g.Keys)
    ensures var lines := DumpAll(g, order);
            forall e :: e in lines && e.ConnEdge? ==>
              && e.frm.nid in g && e.to.nid in g
              && LeavesAt(lines, g[e.frm.nid].kind, e.frm) && EntersAt(lines, g[e.to.nid].kind, e.to, e.frm.nid)
  {
    hide DumpAll, DumpNode, Closed, Transposed, LeavesAt, EntersAt;
    var lines := DumpAll(g, order);
    forall e | e in lines && e.ConnEdge?
      ensures e.frm.nid in g && e.to.nid in g
      ensures LeavesAt(lines, g[e.frm.nid].kind, e.frm) && EntersAt(lines, g[e.to.nid].kind, e.to, e.frm.nid)
    {
      var k := LinesOfAll(g, order, e);
      PortsOfEdge(g, k, e);
      EndsOfEdge(g, order, k, e);
    }
  }

  lemma EndsOfEdge(g: Graph, order: seq<nat>, k: nat, e: Line)
    requires Closed(g) && Transposed(g) && Enumerates(order, g.Keys)
    requires k in g && e in DumpNode(g, g[k]) && e.ConnEdge?
    ensures e.frm.nid in g && e.to.nid == k
    ensures LeavesAt(DumpAll(g, order), g[e.frm.nid].kind, e.frm)
    ensures EntersAt(DumpAll(g, order), g[k].kind, e.to, e.frm.nid)
  {
    hide DumpAll, DumpNode, Transposed;
    PortsOfEdge(g, k, e);
    AmpsOfAll(g, order, Id(e.frm.nid, AmpOut));
    AmpsOfAll(g, order, Id(k, AmpInFrom(e.frm.nid)));
    AmpsOfAll(g, order, Id(k, AmpIn));
  }

  /** The ends of an edge, by what the two nodes are and can do. */
  lemma PortsOfEdge(g: Graph, k: nat, e: Line)
    requires Closed(g) && Transposed(g) && k in g && e in DumpNode(g, g[k]) && e.ConnEdge?
    ensures e.to.nid == k && e.frm.nid in g && e.frm.nid in g[k].inputs && k in g[e.frm.nid].outputs
    ensures var o := g[e.frm.nid];
            e.frm.port == if o.kind == "Pin Complex" then MainOut else if "Amp-Out" in o.wcaps then AmpOut else Main
    ensures e.to.port ==
              if g[k].kind == "Pin Complex" then MainIn
              else if "Amp-In" !in g[k].wcaps then Main
              else if g[k].kind == "Audio Mixer" then AmpInFrom(e.frm.nid)
              else AmpIn
  {
    var c := ConnectionOf(g, k, e);
  }

  /** An input: an audio output 0x02 with an output amplifier feeds a mixer 0x0c, with an input amplifier
      for each input, that feeds a pin 0x14. */
  lemma OutputThroughMixer(g: Graph, order: seq<nat>)
    requires g.Keys == {0x02, 0x0c, 0x14} && Enumerates(order, g.Keys)
    requires g[0x02] == Widget(0x02, "Audio Output", ["Stereo", "Amp-Out"], [], [0x0c])
    requires g[0x0c] == Widget(0x0c, "Audio Mixer", ["Stereo", "Amp-In"], [0x02], [0x14])
    requires g[0x14] == Widget(0x14, "Pin Complex", ["Stereo"], [0x0c], [])
    ensures Closed(g)
    ensures ConnEdge(Id(0x02, AmpOut), Id(0x0c, AmpInFrom(0x02))) in DumpAll(g, order)
    ensures ConnEdge(Id(0x0c, Main), Id(0x14, MainIn)) in DumpAll(g, order)
  {
    hide DumpAll, Enumerates;
    EdgeIsPrinted(g, order, 0x0c, 0x02);
    EdgeIsPrinted(g, order, 0x14, 0x0c);
  }

  lemma EdgeIsPrinted(g: Graph, order: seq<nat>, k: nat, c: nat)
    requires Closed(g) && Enumerates(order, g.Keys) && k in g && c in g[k].inputs
    ensures c in g && EdgeFor(g, g[k], c) in DumpAll(g, order)
  {
    hide DumpDecls;
    ConnLines(g, g[k], g[k].inputs, EdgeFor(g, g[k], c));
    AllHas(g, order, k, EdgeFor(g, g[k], c));
  }

  // ---------------------------------------------------------------- one edge for each connection

  /** A choice among the printed connection edges. */
  type Choice = Line -> bool

  function AllConns(): Choice {
    (e: Line) => e.ConnEdge?
  }

  /** The edges from node c to node m. */
  function Between(c: nat, m: nat): Choice {
    (e: Line) => e.ConnEdge? && e.frm.nid == c && e.to.nid == m
  }

  ghost predicate OnlyConns(keep: Choice) {
    forall e :: keep(e) ==> e.ConnEdge?
  }

  /** The number of chosen lines. */
  function Count(lines: seq<Line>, keep: Choice): nat {
    if lines == [] then 0 else Count(lines[..|lines| - 1], keep) + if keep(lines[|lines| - 1]) then 1 else 0
  }

  /** The number of a node's inputs whose edge is chosen. */
  function Chosen(g: Graph, n: Widget, inputs: seq<nat>, keep: Choice): nat
    requires InputsIn(g, inputs)
  {
    if inputs == [] then 0
    else
      var last := |inputs| - 1;
      Chosen(g, n, inputs[..last], keep) + if keep(EdgeFor(g, n, inputs[last])) then 1 else 0
  }

  /** The same for the inputs of some nodes. */
  function ChosenAll(g: Graph, order: seq<nat>, keep: Choice): nat
    requires Closed(g) && forall k :: k in order ==> k in g
  {
    if order == [] then 0
    else
      var k := order[|order| - 1];
      ChosenAll(g, order[..|order| - 1], keep) + Chosen(g, g[k], g[k].inputs, keep)
  }

  lemma {:induction false} CountConcat(a: seq<Line>, b: seq<Line>, keep: Choice)
    ensures Count(a + b, keep) == Count(a, keep) + Count(b, keep)
  {
    if b == [] {
      assert a + b == a;
    } else {
      CountConcat(a, b[..|b| - 1], keep);
      assert (a + b)[..|a + b| - 1] == a + b[..|b| - 1];
    }
  }

  lemma {:induction false} NoneChosen(lines: seq<Line>, keep: Choice)
    requires OnlyConns(keep) && forall e :: e in lines ==> !e.ConnEdge?
    ensures Count(lines, keep) == 0
  {
    if lines != [] {
      NoneChosen(lines[..|lines| - 1], keep);
    }
  }

  lemma {:induction false} CountOfConns(g: Graph, n: Widget, inputs: seq<nat>, keep: Choice)
    requires InputsIn(g, inputs)
    ensures Count(DumpConns(g, n, inputs), keep) == Chosen(g, n, inputs, keep)
  {
    if inputs != [] {
      var front := inputs[..|inputs| - 1];
      CountOfConns(g, n, front, keep);
      var lines := DumpConns(g, n, inputs);
      assert lines[..|lines| - 1] == DumpConns(g, n, front);
    }
  }

  lemma CountOfNode(g: Graph, k: nat, keep: Choice)
    requires Closed(g) && k in g && OnlyConns(keep)
    ensures Count(DumpNode(g, g[k]), keep) == Chosen(g, g[k], g[k].inputs, keep)
  {
    forall e | e in DumpDecls(g[k]) ensures !e.ConnEdge? {
      DeclsHaveNoConns(g[k], e);
    }
    NoneChosen(DumpDecls(g[k]), keep);
    CountOfConns(g, g[k], g[k].inputs, keep);
    CountConcat(DumpDecls(g[k]), DumpConns(g, g[k], g[k].inputs), keep);
  }

  /** Whatever edges are chosen, as many are printed as there are such connections. */
  lemma {:induction false} CountOfAll(g: Graph, order: seq<nat>, keep: Choice)
    requires Closed(g) && OnlyConns(keep) && forall k :: k in order ==> k in g
    ensures Count(DumpAll(g, order), keep) == ChosenAll(g, order, keep)
  {
    hide DumpNode, Count, Chosen;
    if order == [] {
      NothingCounted(keep);
    } else {
      var front, k := order[..|order| - 1], order[|order| - 1];
      CountOfAll(g, front, keep);
      CountOfNode(g, k, keep);
      CountConcat(DumpAll(g, front), DumpNode(g, g[k]), keep);
    }
  }

  lemma NothingCounted(keep: Choice)
    ensures Count([], keep) == 0
  {
  }

  lemma {:induction false} ChosenBetween(g: Graph, n: Widget, inputs: seq<nat>, c: nat, m: nat)
    requires Closed(g) && InputsIn(g, inputs)
    ensures Chosen(g, n, inputs, Between(c, m)) == if n.nid == m then multiset(inputs)[c] else 0
  {
    if inputs != [] {
      var front, last := inputs[..|inputs| - 1], inputs[|inputs| - 1];
      ChosenBetween(g, n, front, c, m);
      assert inputs == front + [last];
      assert g[last].OutId().nid == last && n.InId(last).nid == n.nid;
    }
  }

  lemma {:induction false} ChosenBetweenAll(g: Graph, order: seq<nat>, c: nat, m: nat)
    requires Closed(g) && forall k :: k in order ==> k in g
    requires forall i, j :: 0 <= i < j < |order| ==> order[i] != order[j]
    ensures ChosenAll(g, order, Between(c, m)) == if m in order then multiset(g[m].inputs)[c] else 0
  {
    hide Chosen;
    if order != [] {
      var front, k := order[..|order| - 1], order[|order| - 1];
      ChosenBetweenAll(g, front, c, m);
      ChosenBetween(g, g[k], g[k].inputs, c, m);
      assert order == front + [k];
    }
  }

  /** The printed graph has exactly the connections of the codec, each as often as it is listed. */
  lemma PrintedEdgesAreTheInputs(g: Graph, order: seq<nat>, c: nat, m: nat)
    requires Closed(g) && Enumerates(order, g.Keys)
    ensures Count(DumpAll(g, order), Between(c, m)) == if m in g then multiset(g[m].inputs)[c] else 0
  {
    CountOfAll(g, order, Between(c, m));
    ChosenBetweenAll(g, order, c, m);
  }

  /** The number of inputs of some nodes. */
  function InputCount(g: Graph, order: seq<nat>): nat
    requires forall k :: k in order ==> k in g
  {
    if order == [] then 0 else InputCount(g, order[..|order| - 1]) + |g[order[|order| - 1]].inputs|
  }

  lemma {:induction false} ChosenEvery(g: Graph, n: Widget, inputs: seq<nat>)
    requires InputsIn(g, inputs)
    ensures Chosen(g, n, inputs, AllConns()) == |inputs|
  {
    if inputs != [] {
      ChosenEvery(g, n, inputs[..|inputs| - 1]);
    }
  }

  lemma {:induction false} ChosenEveryAll(g: Graph, order: seq<nat>)
    requires Closed(g) && forall k :: k in order ==> k in g
    ensures ChosenAll(g, order, AllConns()) == InputCount(g, order)
  {
    hide Chosen;
    if order != [] {
      var front, k := order[..|order| - 1], order[|order| - 1];
      ChosenEveryAll(g, front);
      ChosenEvery(g, g[k], g[k].inputs);
    }
  }

  /** As many connection edges are printed as the printed nodes have inputs. */
  lemma EdgesAreInputsInNumber(g: Graph, order: seq<nat>)
    requires Closed(g) && forall k :: k in order ==> k in g
    ensures Count(DumpAll(g, order), AllConns()) == InputCount(g, order)
  {
    CountOfAll(g, order, AllConns());
    ChosenEveryAll(g, order);
  }

  // ---------------------------------------------------------------- amplifier edges

  /** A pin whose amplifier hangs on the half of the pin that is not shown. */
  predicate DanglingAmp(n: Widget) {
    && n.IsDivided()
    && (|| (n.HasOutAmp() && n.ShowOutput() && !n.ShowInput())
        || (n.HasInAmp() && n.ShowInput() && !n.ShowOutput()))
  }

  ghost predicate AmpEdgeDeclared(n: Widget, e: Line)
    requires e.AmpEdge?
  {
    Declares(DumpDecls(n), e.frm) && Declares(DumpDecls(n), e.to)
  }

  /** The amplifier edges of a node join declared ids, except those of a one-sided pin. */
  lemma AmpEdgesDeclaredIff(n: Widget)
    ensures (forall e :: e in DumpDecls(n) && e.AmpEdge? ==> AmpEdgeDeclared(n, e)) <==> !DanglingAmp(n)
  {
    var origins := if n.ManyAmpIns() then n.inputs else [0];
    if DanglingAmp(n) {
      var port := if n.ShowOutput() then MainIn else MainOut;
      var e := if n.ShowOutput() then AmpEdge(n.OutAmpNextId(), Id(n.nid, AmpOut))
               else AmpEdge(n.InAmpId(0), n.InAmpNextId());
      DeclLines(n, e);
      if !n.ShowOutput() {
        InAmpsAreShown(n, origins, 0);
      }
      MissingHalf(n, port);
      assert !AmpEdgeDeclared(n, e);
    } else {
      forall e | e in DumpDecls(n) && e.AmpEdge? ensures AmpEdgeDeclared(n, e) {
        DeclLines(n, e);
        DeclLines(n, NodeLine(e.frm));
        DeclLines(n, NodeLine(e.to));
        DeclLines(n, AmpLine(e.frm));
        DeclLines(n, AmpLine(e.to));
        if e in DumpInAmps(n) {
          InAmpsAreOwn(n, origins, e);
          var c :| c in origins && e == AmpEdge(n.InAmpId(c), n.InAmpNextId());
          InAmpsAreShown(n, origins, c);
        }
      }
    }
  }

  lemma MissingHalf(n: Widget, port: Port)
    requires (port == MainIn && !n.ShowInput()) || (port == MainOut && !n.ShowOutput())
    ensures !Declares(DumpDecls(n), Id(n.nid, port))
  {
    var id := Id(n.nid, port);
    DeclLines(n, NodeLine(id));
    DeclLines(n, AmpLine(id));
    var origins := if n.ManyAmpIns() then n.inputs else [0];
    if NodeLine(id) in DumpInAmps(n) {
      InAmpsAreOwn(n, origins, NodeLine(id));
    }
    if AmpLine(id) in DumpInAmps(n) {
      InAmpsAreOwn(n, origins, AmpLine(id));
    }
  }

  /** An input: a pin with an output amplifier that feeds another node and has no inputs of its own. */
  lemma OutputPinDangles(n: Widget)
    requires n == Widget(0x14, "Pin Complex", ["Amp-Out"], [], [0x0c])
    ensures var e := AmpEdge(Id(0x14, MainIn), Id(0x14, AmpOut));
            e in DumpDecls(n) && !Declares(DumpDecls(n), e.frm)
  {
    DeclLines(n, AmpEdge(Id(0x14, MainIn), Id(0x14, AmpOut)));
    MissingHalf(n, MainIn);
  }
}
