/** verbit.sh and convert.sh together: the verbs that verbit derives from pin defaults, or corrects,
    are put together again by convert. */
module VerbRoundTrip {
  import opened ConvertVerbs
  import opened HexText
  import Verbit

  /** The four verbs of one pin, as text. */
  datatype Quad = Quad(c: string, d: string, e: string, f: string)
  {
    predicate InEights() { |c| == 8 && |d| == 8 && |e| == 8 && |f| == 8 }
  }

  /** The verbs of a pin default: codec address, node, command, and two of its eight digits. */
  function SplitPin(address: char, node: string, pin: string): Quad
    requires |node| == 2 && |pin| == 8
  {
    var head := [address] + node;
    Quad(head + "71c" + pin[6..8], head + "71d" + pin[4..6], head + "71e" + pin[2..4], head + "71f" + pin[0..2])
  }

  predicate IsHexWord(s: string) {
    |s| == 8 && forall c :: c in s ==> IsHex(c)
  }

  /** Four eight-digit verbs with the commands 71c to 71f and the same node. */
  predicate IsQuad(q: Quad, n: Node) {
    && IsHexWord(q.c) && IsHexWord(q.d) && IsHexWord(q.e) && IsHexWord(q.f)
    && Command(WordOf(q.c)) == 0x71c && Command(WordOf(q.d)) == 0x71d
    && Command(WordOf(q.e)) == 0x71e && Command(WordOf(q.f)) == 0x71f
    && NodeOf(WordOf(q.c)) == n && NodeOf(WordOf(q.d)) == n
    && NodeOf(WordOf(q.e)) == n && NodeOf(WordOf(q.f)) == n
  }

  function Join(b0: Word, b1: Word, b2: Word, b3: Word): Word {
    b0 | (b1 << 8) | (b2 << 16) | (b3 << 24)
  }

  /** The pin default that the four payloads make up. */
  function QuadConfig(q: Quad): Word
    requires q.InEights()
  {
    Join(Payload(WordOf(q.c)), Payload(WordOf(q.d)), Payload(WordOf(q.e)), Payload(WordOf(q.f)))
  }

  function QuadVerbs(q: Quad): seq<Verb>
    requires q.InEights()
  {
    [Verb(WordOf(q.c)), Verb(WordOf(q.d)), Verb(WordOf(q.e)), Verb(WordOf(q.f))]
  }

  // ---------------------------------------------------------------- one pin

  lemma JoinByte0(b0: Word, b1: Word, b2: Word, b3: Word)
    requires b0 < 256 && b1 < 256 && b2 < 256 && b3 < 256
    ensures Byte0(Join(b0, b1, b2, b3)) == b0
  {
  }

  lemma JoinByte1(b0: Word, b1: Word, b2: Word, b3: Word)
    requires b0 < 256 && b1 < 256 && b2 < 256 && b3 < 256
    ensures Byte1(Join(b0, b1, b2, b3)) == b1
  {
  }

  lemma JoinByte2(b0: Word, b1: Word, b2: Word, b3: Word)
    requires b0 < 256 && b1 < 256 && b2 < 256 && b3 < 256
    ensures Byte2(Join(b0, b1, b2, b3)) == b2
  {
  }

  lemma JoinByte3(b0: Word, b1: Word, b2: Word, b3: Word)
    requires b0 < 256 && b1 < 256 && b2 < 256 && b3 < 256
    ensures Byte3(Join(b0, b1, b2, b3)) == b3
  {
  }

  lemma CompletePinOk(x: Word)
    ensures var p := Pin(x, 0x01010101); PinOk(p) && p.Has(B0) && p.Has(B1) && p.Has(B2) && p.Has(B3) && p.IsComplete()
  {
    hide ByteAt;
    assert forall slot: Slot :: HasMark(0x01010101, slot);
  }

  /** What a verb does depends on its command, node and payload only. */
  lemma FeedSame(t: Store, v: Verb, w: Verb)
    requires IsPin(v.bits) && IsPin(w.bits) && SlotOf(v.bits) == SlotOf(w.bits)
    requires NodeOf(v.bits) == NodeOf(w.bits) && Payload(v.bits) == Payload(w.bits)
    ensures Feed(t, v) == Feed(t, w)
  {
  }

  lemma FeedFour(t: Store, a: Verb, b: Verb, c: Verb, d: Verb)
    ensures FeedAll(t, [a, b, c, d]) == Feed(Feed(Feed(Feed(t, a), b), c), d)
  {
    hide Feed;
    var vs := [a, b, c, d];
    assert vs[..3] == [a, b, c] && vs[..3][..2] == [a, b] && vs[..3][..2][..1] == [a] && vs[..3][..2][..1][..0] == [];
    assert FeedAll(t, []) == t;
    assert FeedAll(t, [a]) == Feed(t, a);
    assert FeedAll(t, [a, b]) == Feed(FeedAll(t, [a]), b);
    assert FeedAll(t, [a, b, c]) == Feed(FeedAll(t, [a, b]), c);
  }

  lemma FeedQuad(t: Store, q: Quad, n: Node)
    requires IsQuad(q, n) && n !in t.pins
    ensures FeedAll(t, QuadVerbs(q)) == t.(pins := t.pins[n := Pin(QuadConfig(q), 0x01010101)])
  {
    hide WordOf, IsHex, Command, Payload, NodeOf, ByteAt, HasMark, VerbFor, Feed, FeedAll, Join, PinOk;
    var b0, b1, b2, b3 := Payload(WordOf(q.c)), Payload(WordOf(q.d)), Payload(WordOf(q.e)), Payload(WordOf(q.f));
    PayloadBits(WordOf(q.c)); PayloadBits(WordOf(q.d)); PayloadBits(WordOf(q.e)); PayloadBits(WordOf(q.f));
    NodeBits(WordOf(q.c));
    var x := QuadConfig(q);
    var p := Pin(x, 0x01010101);
    CompletePinOk(x);
    JoinBytesAt(b0, b1, b2, b3);
    var v0, v1, v2, v3 := VerbFor(n, B0, b0), VerbFor(n, B1, b1), VerbFor(n, B2, b2), VerbFor(n, B3, b3);
    assert PinVerbs(n, p) == [v0, v1, v2, v3];
    VerbForFields(n, B0, b0); VerbForFields(n, B1, b1); VerbForFields(n, B2, b2); VerbForFields(n, B3, b3);
    FeedFour(t, Verb(WordOf(q.c)), Verb(WordOf(q.d)), Verb(WordOf(q.e)), Verb(WordOf(q.f)));
    FeedFour(t, v0, v1, v2, v3);
    FeedSame(t, Verb(WordOf(q.c)), v0);
    FeedSame(Feed(t, v0), Verb(WordOf(q.d)), v1);
    FeedSame(Feed(Feed(t, v0), v1), Verb(WordOf(q.e)), v2);
    FeedSame(Feed(Feed(Feed(t, v0), v1), v2), Verb(WordOf(q.f)), v3);
    FeedPinVerbs(t, n, p);
  }

  lemma JoinBytesAt(b0: Word, b1: Word, b2: Word, b3: Word)
    requires b0 < 256 && b1 < 256 && b2 < 256 && b3 < 256
    ensures var x := Join(b0, b1, b2, b3);
            ByteAt(x, B0) == b0 && ByteAt(x, B1) == b1 && ByteAt(x, B2) == b2 && ByteAt(x, B3) == b3
  {
    hide Byte0, Byte1, Byte2, Byte3, Join;
    JoinByte0(b0, b1, b2, b3);
    JoinByte1(b0, b1, b2, b3);
    JoinByte2(b0, b1, b2, b3);
    JoinByte3(b0, b1, b2, b3);
  }

  // ---------------------------------------------------------------- all pins

  /** The verbs of all pins on one line, each after a blank. */
  function OneLine(quads: seq<Quad>): string {
    if quads == [] then ""
    else
      var q := quads[|quads| - 1];
      OneLine(quads[..|quads| - 1]) + (" " + q.c) + (" " + q.d) + (" " + q.e) + (" " + q.f)
  }

  ghost predicate AreQuads(quads: seq<Quad>, nodes: seq<Node>) {
    && |quads| == |nodes| && Distinct(nodes)
    && forall i :: 0 <= i < |quads| ==> quads[i].InEights() && IsQuad(quads[i], nodes[i])
  }

  /** Pin defaults by node. */
  function PinTable(quads: seq<Quad>, nodes: seq<Node>): (r: map<Node, Pin>)
    requires |quads| == |nodes| && forall i :: 0 <= i < |quads| ==> quads[i].InEights()
  {
    if quads == [] then map[]
    else
      var last := |quads| - 1;
      PinTable(quads[..last], nodes[..last])[nodes[last] := Pin(QuadConfig(quads[last]), 0x01010101)]
  }

  lemma {:induction false} PinTableAt(quads: seq<Quad>, nodes: seq<Node>)
    requires AreQuads(quads, nodes)
    ensures var table := PinTable(quads, nodes);
            && (forall n :: n in table <==> n in nodes)
            && forall i :: 0 <= i < |nodes| ==> table[nodes[i]] == Pin(QuadConfig(quads[i]), 0x01010101)
  {
    hide IsQuad, QuadConfig;
    if quads != [] {
      var last := |quads| - 1;
      PinTableAt(quads[..last], nodes[..last]);
      assert nodes == nodes[..last] + [nodes[last]];
    }
  }

  lemma AppendWord(text: string, w: string)
    requires IsHexWord(w) && |HexOnly(text)| % 8 == 0
    ensures Verbs(text + (" " + w)) == Verbs(text) + [Verb(WordOf(w))] && |HexOnly(text + (" " + w))| % 8 == 0
  {
    hide WordOf, HexOnly;
    HexOnlyConcat(text, " " + w);
    HexOnlyConcat(" ", w);
    HexOnlyNone(" ");
    HexOnlyAll(w);
    assert "" + w == w;
    ChunksAppend(HexOnly(text), w);
  }

  lemma AppendQuad(text: string, q: Quad, n: Node)
    requires IsQuad(q, n) && |HexOnly(text)| % 8 == 0
    ensures var more := text + (" " + q.c) + (" " + q.d) + (" " + q.e) + (" " + q.f);
            Verbs(more) == Verbs(text) + QuadVerbs(q) && |HexOnly(more)| % 8 == 0
  {
    hide WordOf, HexOnly, Verbs, Command, NodeOf;
    var t1 := text + (" " + q.c);
    var t2 := t1 + (" " + q.d);
    var t3 := t2 + (" " + q.e);
    AppendWord(text, q.c);
    AppendWord(t1, q.d);
    AppendWord(t2, q.e);
    AppendWord(t3, q.f);
    assert QuadVerbs(q) == [Verb(WordOf(q.c))] + [Verb(WordOf(q.d))] + [Verb(WordOf(q.e))] + [Verb(WordOf(q.f))];
  }

  lemma {:induction false} DecodeQuads(quads: seq<Quad>, nodes: seq<Node>)
    requires AreQuads(quads, nodes)
    ensures |HexOnly(OneLine(quads))| % 8 == 0
    ensures Decode(OneLine(quads)) == Store(PinTable(quads, nodes), [])
  {
    hide IsQuad, QuadConfig, HexOnly, Verbs, FeedAll;
    if quads == [] {
      EmptyLine();
    } else {
      var last := |quads| - 1;
      DecodeQuads(quads[..last], nodes[..last]);
      PinTableAt(quads[..last], nodes[..last]);
      AppendQuad(OneLine(quads[..last]), quads[last], nodes[last]);
      FeedAllConcat(EMPTY, Verbs(OneLine(quads[..last])), QuadVerbs(quads[last]));
      FeedQuad(Store(PinTable(quads[..last], nodes[..last]), []), quads[last], nodes[last]);
    }
  }

  lemma EmptyLine()
    ensures HexOnly("") == "" && Decode("") == EMPTY
  {
  }

  /** Exactly the entries for these nodes and values are printed, each once, and no other verbs. */
  ghost predicate PrintsExactly(s: Store, nodes: seq<Node>, configs: seq<Word>)
    requires |configs| == |nodes|
  {
    var entries := Entries(s, NodesFrom(0));
    && Others(s) == []
    && (forall e :: e in entries <==> exists i :: 0 <= i < |nodes| && e == Entry(nodes[i], configs[i]))
    && DistinctNodes(entries)
  }

  lemma PrintsComplete(s: Store, nodes: seq<Node>, configs: seq<Word>)
    requires |configs| == |nodes| && Others(s) == []
    requires forall n :: n in s.pins <==> n in nodes
    requires forall i :: 0 <= i < |nodes| ==>
               nodes[i].num < 128 && s.At(nodes[i]).IsComplete() && s.At(nodes[i]).config == configs[i]
    ensures PrintsExactly(s, nodes, configs)
  {
    hide Others, NodesFrom, Entries;
    PrintedEntries(s);
    var entries := Entries(s, NodesFrom(0));
    forall e: Entry ensures e in entries <==> exists i :: 0 <= i < |nodes| && e == Entry(nodes[i], configs[i]) {
      if e in entries {
        assert e.node in nodes;
        var i :| 0 <= i < |nodes| && nodes[i] == e.node;
        assert e == Entry(nodes[i], configs[i]);
      }
      if i :| 0 <= i < |nodes| && e == Entry(nodes[i], configs[i]) {
        assert e.node.num < 256;
      }
    }
  }

  function Configs(quads: seq<Quad>): (r: seq<Word>)
    requires forall i :: 0 <= i < |quads| ==> quads[i].InEights()
    ensures |r| == |quads|
  {
    seq(|quads|, i requires 0 <= i < |quads| => QuadConfig(quads[i]))
  }

  lemma QuadNodeBound(q: Quad, n: Node)
    requires IsQuad(q, n)
    ensures n.num < 128
  {
    hide Command, Payload, WordOf, IsHex;
    NodeBits(WordOf(q.c));
  }

  /** Every pin comes out as one complete entry with the payloads it went in with; nothing else does. */
  lemma QuadsComeOut(quads: seq<Quad>, nodes: seq<Node>)
    requires AreQuads(quads, nodes)
    ensures var s := Decode(OneLine(quads));
            && Others(s) == []
            && (forall n :: n in s.pins <==> n in nodes)
            && forall i :: 0 <= i < |quads| ==>
                 s.At(nodes[i]).IsComplete() && s.At(nodes[i]).config == QuadConfig(quads[i])
    ensures PrintsExactly(Decode(OneLine(quads)), nodes, Configs(quads))
  {
    hide IsQuad, QuadConfig, OneLine, Decode, NodesFrom, Entries, PrintsExactly;
    DecodeQuads(quads, nodes);
    PinTableAt(quads, nodes);
    var s := Decode(OneLine(quads));
    forall n ensures s.At(n).IsComplete() || s.At(n) == Pin(0, 0) {
      if n in nodes {
        var i :| 0 <= i < |nodes| && nodes[i] == n;
      }
    }
    AllCompleteNoOthers(s, NodesFrom(0));
    forall i | 0 <= i < |nodes| ensures nodes[i].num < 128 {
      QuadNodeBound(quads[i], nodes[i]);
    }
    PrintsComplete(s, nodes, Configs(quads));
  }

  lemma {:induction false} AllCompleteNoOthers(s: Store, nodes: seq<Node>)
    requires forall n :: s.At(n).IsComplete() || s.At(n) == Pin(0, 0)
    ensures Incomplete(s, nodes) == []
  {
    hide PinVerbs;
    if nodes != [] {
      NoVerbsForEmptyPin(nodes[0]);
      AllCompleteNoOthers(s, nodes[1..]);
    }
  }

  // ---------------------------------------------------------------- pin defaults

  lemma VerbFields(a: Word, n1: Word, n0: Word, k: Word, p1: Word, p0: Word)
    requires a < 16 && n1 < 16 && n0 < 16 && k < 16 && p1 < 16 && p0 < 16
    ensures var w := (a << 28) | (n1 << 24) | (n0 << 20) | (7 << 16) | (1 << 12) | (k << 8) | (p1 << 4) | p0;
            && (w >> 8) & 0xfff == 0x710 | k && w & 0xff == (p1 << 4) | p0
            && (w >> 20) & 0x7f == ((n1 << 4) | n0) & 0x7f
  {
  }

  lemma NibbleBound(c: char)
    ensures Nibble(c) < 16
  {
  }

  /** The node number of two digits, as far as convert looks at it (seven bits). */
  function NodeNumber(node: string): Node
    requires |node| == 2
  {
    Node(((Nibble(node[0]) << 4) | Nibble(node[1])) & 0x7f)
  }

  lemma SplitVerb(head: string, k: char, payload: string)
    requires |head| == 3 && |payload| == 2
    requires IsHex(head[0]) && IsHex(head[1]) && IsHex(head[2]) && IsHex(k) && IsHex(payload[0]) && IsHex(payload[1])
    ensures var s := head + "71" + [k] + payload;
            && IsHexWord(s) && Command(WordOf(s)) == 0x710 | Nibble(k)
            && NodeOf(WordOf(s)) == NodeNumber(head[1..])
            && Payload(WordOf(s)) == (Nibble(payload[0]) << 4) | Nibble(payload[1])
  {
    hide Command, Payload, NodeOf, Nibble;
    var s := head + "71" + [k] + payload;
    NibbleBound(head[0]); NibbleBound(head[1]); NibbleBound(head[2]);
    NibbleBound(k); NibbleBound(payload[0]); NibbleBound(payload[1]);
    assert Nibble('7') == 7 && Nibble('1') == 1 && IsHex('7') && IsHex('1') by { SevenAndOne(); }
    assert s == [head[0], head[1], head[2], '7', '1', k, payload[0], payload[1]];
    VerbFields(Nibble(head[0]), Nibble(head[1]), Nibble(head[2]), Nibble(k), Nibble(payload[0]), Nibble(payload[1]));
    CommandBits(WordOf(s));
    PayloadBits(WordOf(s));
    NodeBits(WordOf(s));
  }

  lemma SevenAndOne()
    ensures Nibble('7') == 7 && Nibble('1') == 1 && IsHex('7') && IsHex('1')
  {
  }

  /** A "Pin Default" line of a codec dump: two digits of node number, eight of value. */
  datatype PinText = PinText(node: string, pin: string)
  {
    predicate Valid() {
      |node| == 2 && |pin| == 8 && (forall c :: c in node + pin ==> IsHex(c))
    }
  }

  lemma PayloadOfSplit(address: char, p: PinText, k: char, i: nat)
    requires IsHex(address) && p.Valid() && IsHex(k) && i <= 6
    ensures var s := [address] + p.node + "71" + [k] + p.pin[i..i + 2];
            && IsHexWord(s) && Command(WordOf(s)) == 0x710 | Nibble(k) && NodeOf(WordOf(s)) == NodeNumber(p.node)
            && Payload(WordOf(s)) == (Nibble(p.pin[i]) << 4) | Nibble(p.pin[i + 1])
  {
    hide Command, Payload, NodeOf, Nibble, NodeNumber, WordOf, IsHexWord, IsHex;
    var head := [address] + p.node;
    assert head[1..] == p.node;
    assert forall c :: c in p.node || c in p.pin ==> c in p.node + p.pin;
    SplitVerb(head, k, p.pin[i..i + 2]);
  }

  lemma SplitPinParts(address: char, node: string, pin: string)
    requires |node| == 2 && |pin| == 8
    ensures var q := SplitPin(address, node, pin);
            && q.c == [address] + node + "71" + ['c'] + pin[6..6 + 2]
            && q.d == [address] + node + "71" + ['d'] + pin[4..4 + 2]
            && q.e == [address] + node + "71" + ['e'] + pin[2..2 + 2]
            && q.f == [address] + node + "71" + ['f'] + pin[0..0 + 2]
  {
  }

  predicate IsCommandDigit(k: char, command: Word) {
    (0x710 as Word) | Nibble(k) == command
  }

  lemma PinCommands()
    ensures IsCommandDigit('c', 0x71c) && IsCommandDigit('d', 0x71d)
    ensures IsCommandDigit('e', 0x71e) && IsCommandDigit('f', 0x71f)
    ensures IsHex('c') && IsHex('d') && IsHex('e') && IsHex('f')
  {
  }

  /** s is a verb with this node, command and payload. */
  predicate IsPart(s: string, n: Node, command: Word, payload: Word) {
    IsHexWord(s) && NodeOf(WordOf(s)) == n && Command(WordOf(s)) == command && Payload(WordOf(s)) == payload
  }

  /** Verb k of a pin default has command 71k, the node of the pin, and two of its digits. */
  lemma SplitVerbOf(address: char, p: PinText, k: char, command: Word, i: nat)
    requires IsHex(address) && p.Valid() && IsHex(k) && i <= 6 && IsCommandDigit(k, command)
    ensures IsPart([address] + p.node + "71" + [k] + p.pin[i..i + 2], NodeNumber(p.node), command, PinByte(p.pin, i))
  {
    hide Command, Payload, NodeOf, Nibble, NodeNumber, WordOf, IsHexWord, IsHex;
    PayloadOfSplit(address, p, k, i);
  }

  /** The number of digits i and i + 1 of a pin default. */
  function PinByte(pin: string, i: nat): Word
    requires i + 2 <= |pin|
  {
    (Nibble(pin[i]) << 4) | Nibble(pin[i + 1])
  }

  lemma SplitPinIsParts(address: char, p: PinText)
    requires IsHex(address) && p.Valid()
    ensures var q, n := SplitPin(address, p.node, p.pin), NodeNumber(p.node);
            && IsPart(q.c, n, 0x71c, PinByte(p.pin, 6)) && IsPart(q.d, n, 0x71d, PinByte(p.pin, 4))
            && IsPart(q.e, n, 0x71e, PinByte(p.pin, 2)) && IsPart(q.f, n, 0x71f, PinByte(p.pin, 0))
  {
    hide IsPart, IsCommandDigit, NodeNumber, IsHex, SplitPin, PinByte;
    PinCommands();
    SplitPinParts(address, p.node, p.pin);
    SplitVerbOf(address, p, 'c', 0x71c, 6);
    SplitVerbOf(address, p, 'd', 0x71d, 4);
    SplitVerbOf(address, p, 'e', 0x71e, 2);
    SplitVerbOf(address, p, 'f', 0x71f, 0);
  }

  /** The verbs of a pin default carry its node and make up its value. */
  lemma SplitPinIsQuad(address: char, p: PinText)
    requires IsHex(address) && p.Valid()
    ensures var q := SplitPin(address, p.node, p.pin);
            q.InEights() && IsQuad(q, NodeNumber(p.node)) && QuadConfig(q) == WordOf(p.pin)
  {
    hide Command, Payload, NodeOf, Nibble, Join, NodeNumber, IsHex, WordOf, SplitPin, PinByte;
    SplitPinIsParts(address, p);
    JoinNibblesOf(p.pin);
  }

  lemma JoinNibblesOf(pin: string)
    requires |pin| == 8
    ensures WordOf(pin) == Join(PinByte(pin, 6), PinByte(pin, 4), PinByte(pin, 2), PinByte(pin, 0))
  {
    hide Nibble;
  }

  ghost predicate AllValid(pins: seq<PinText>) {
    forall i :: 0 <= i < |pins| ==> pins[i].Valid()
  }

  function SplitAll(address: char, pins: seq<PinText>): (r: seq<Quad>)
    requires AllValid(pins)
    ensures |r| == |pins|
  {
    seq(|pins|, i requires 0 <= i < |pins| => SplitPin(address, pins[i].node, pins[i].pin))
  }

  function NodesOf(pins: seq<PinText>): (r: seq<Node>)
    requires AllValid(pins)
    ensures |r| == |pins|
  {
    seq(|pins|, i requires 0 <= i < |pins| => NodeNumber(pins[i].node))
  }

  function PinWords(pins: seq<PinText>): (r: seq<Word>)
    requires AllValid(pins)
    ensures |r| == |pins|
  {
    seq(|pins|, i requires 0 <= i < |pins| => WordOf(pins[i].pin))
  }

  /** Splitting pin defaults of different nodes into verbs and converting the verbs gives a
      complete entry with the original pin default for each node, and nothing else. */
  lemma PinDefaultsRoundTrip(address: char, pins: seq<PinText>)
    requires IsHex(address) && AllValid(pins) && Distinct(NodesOf(pins))
    ensures var s := Decode(OneLine(SplitAll(address, pins)));
            && Others(s) == []
            && (forall n :: n in s.pins <==> n in NodesOf(pins))
            && forall i :: 0 <= i < |pins| ==>
                 && s.At(NodesOf(pins)[i]).IsComplete()
                 && s.At(NodesOf(pins)[i]).config == WordOf(pins[i].pin)
    ensures PrintsExactly(Decode(OneLine(SplitAll(address, pins))), NodesOf(pins), PinWords(pins))
  {
    hide NodeNumber, IsQuad, Decode, OneLine, Others, SplitPin, WordOf, QuadConfig, IsHex, PrintsExactly;
    var quads, nodes := SplitAll(address, pins), NodesOf(pins);
    forall i | 0 <= i < |pins|
      ensures quads[i].InEights() && IsQuad(quads[i], nodes[i]) && QuadConfig(quads[i]) == WordOf(pins[i].pin)
    {
      SplitPinIsQuad(address, pins[i]);
    }
    QuadsComeOut(quads, nodes);
    assert Configs(quads) == PinWords(pins);
  }

  // ---------------------------------------------------------------- corrected verbs

  lemma FieldsOfNibbles(a: Word, n1: Word, n0: Word, c2: Word, c1: Word, c0: Word, p1: Word, p0: Word)
    requires a < 16 && n1 < 16 && n0 < 16 && c2 < 16 && c1 < 16 && c0 < 16 && p1 < 16 && p0 < 16
    ensures var w := (a << 28) | (n1 << 24) | (n0 << 20) | (c2 << 16) | (c1 << 12) | (c0 << 8) | (p1 << 4) | p0;
            && (w >> 8) & 0xfff == (c2 << 8) | (c1 << 4) | c0 && w & 0xff == (p1 << 4) | p0
            && (w >> 20) & 0x7f == ((n1 << 4) | n0) & 0x7f
  {
  }

  function CommandNibbles(s: string): Word
    requires |s| == 8
  {
    (Nibble(s[3]) << 8) | (Nibble(s[4]) << 4) | Nibble(s[5])
  }

  /** The fields of a verb are made of its digits. */
  lemma FieldsOfDigits(s: string)
    requires |s| == 8
    ensures Command(WordOf(s)) == CommandNibbles(s)
    ensures NodeOf(WordOf(s)) == NodeNumber(s[1..3])
    ensures Payload(WordOf(s)) == PinByte(s, 6)
  {
    hide Command, Payload, NodeOf, Nibble;
    NibbleBound(s[0]); NibbleBound(s[1]); NibbleBound(s[2]); NibbleBound(s[3]);
    NibbleBound(s[4]); NibbleBound(s[5]); NibbleBound(s[6]); NibbleBound(s[7]);
    FieldsOfNibbles(Nibble(s[0]), Nibble(s[1]), Nibble(s[2]), Nibble(s[3]),
                    Nibble(s[4]), Nibble(s[5]), Nibble(s[6]), Nibble(s[7]));
    CommandBits(WordOf(s));
    PayloadBits(WordOf(s));
    NodeBits(WordOf(s));
  }

  /** Changing the payload digits of a verb keeps its command and node. */
  lemma PayloadOnly(s: string, t: string)
    requires |s| == 8 && |t| == 8 && s[..6] == t[..6]
    ensures Command(WordOf(s)) == Command(WordOf(t)) && NodeOf(WordOf(s)) == NodeOf(WordOf(t))
  {
    hide Command, NodeOf, WordOf, Nibble, NodeNumber;
    FieldsOfDigits(s);
    FieldsOfDigits(t);
    assert forall k :: 0 <= k < 6 ==> s[k] == s[..6][k] == t[..6][k] == t[k];
    assert s[1..3] == s[..6][1..3] == t[..6][1..3] == t[1..3];
  }

  lemma DigitIsHex(c: char)
    requires IsDigit(c)
    ensures IsHex(c)
  {
  }

  /** convert and verbit read a lower-case digit as the same number. */
  lemma NibbleIsDigitValue(c: char)
    requires IsDigit(c)
    ensures Nibble(c) as nat == DigitValue(c)
  {
  }

  lemma NibblesOfDigitsDiffer(c: char, d: char)
    requires IsDigit(c) && IsDigit(d) && c != d
    ensures Nibble(c) != Nibble(d)
  {
    hide Nibble, IsDigit, DigitValue, HexDigit;
    NibbleIsDigitValue(c);
    NibbleIsDigitValue(d);
    ValueReadsBack(c);
    ValueReadsBack(d);
  }

  lemma VerbIsHexWord(v: string)
    requires Verbit.IsVerb(v)
    ensures IsHexWord(v)
  {
    forall c | c in v ensures IsHex(c) {
      DigitIsHex(c);
    }
  }

  /** q' is q after the correction passes of verbit. */
  ghost predicate IsCorrection(q: Quad, q': Quad) {
    && Verbit.IsVerb(q.c) && Verbit.IsVerb(q.d) && Verbit.IsVerb(q.e) && Verbit.IsVerb(q.f)
    && Verbit.IsVerb(q'.c) && Verbit.IsVerb(q'.d) && Verbit.IsVerb(q'.f)
    && q'.c[..6] == q.c[..6] && q'.d[..7] == q.d[..7] && q'.e == q.e && q'.f[..7] == q.f[..7]
  }

  lemma CorrectionIsQuad(q: Quad, q': Quad, n: Node)
    requires IsQuad(q, n) && IsCorrection(q, q')
    ensures q'.InEights() && IsQuad(q', n)
  {
    hide Command, NodeOf, WordOf, IsHex;
    VerbIsHexWord(q'.c);
    VerbIsHexWord(q'.d);
    VerbIsHexWord(q'.f);
    assert q'.d[..6] == q'.d[..7][..6] == q.d[..7][..6] == q.d[..6];
    assert q'.f[..6] == q'.f[..7][..6] == q.f[..7][..6] == q.f[..6];
    PayloadOnly(q.c, q'.c);
    PayloadOnly(q.d, q'.d);
    PayloadOnly(q.f, q'.f);
  }

  lemma JoinLowNibbles(p1: Word, p0: Word, b1: Word, b2: Word, b3: Word)
    requires p1 < 16 && p0 < 16
    ensures Join((p1 << 4) | p0, b1, b2, b3) & 0xf == p0
    ensures (Join((p1 << 4) | p0, b1, b2, b3) >> 4) & 0xf == p1
  {
  }

  /** Sequence and association of the pin default that four verbs make up. */
  lemma ConfigNibbles(q: Quad)
    requires q.InEights()
    ensures QuadConfig(q) & 0xf == Nibble(q.c[7]) && (QuadConfig(q) >> 4) & 0xf == Nibble(q.c[6])
  {
    hide Command, NodeOf, Payload, WordOf, Nibble, Join, NodeNumber, CommandNibbles, PinByte;
    FieldsOfDigits(q.c);
    PinByteNibbles(q.c, Payload(WordOf(q.d)), Payload(WordOf(q.e)), Payload(WordOf(q.f)));
  }

  lemma PinByteNibbles(s: string, b1: Word, b2: Word, b3: Word)
    requires |s| == 8
    ensures Join(PinByte(s, 6), b1, b2, b3) & 0xf == Nibble(s[7])
    ensures (Join(PinByte(s, 6), b1, b2, b3) >> 4) & 0xf == Nibble(s[6])
  {
    hide Nibble, Join;
    NibbleBound(s[6]);
    NibbleBound(s[7]);
    JoinLowNibbles(Nibble(s[6]), Nibble(s[7]), b1, b2, b3);
  }

  function CVerbs(quads: seq<Quad>): (r: seq<string>)
    ensures |r| == |quads|
  {
    seq(|quads|, i requires 0 <= i < |quads| => quads[i].c)
  }

  function Sequence(config: Word): Word { config & 0xf }
  function Association(config: Word): Word { (config >> 4) & 0xf }

  lemma ZeroNibble()
    ensures Nibble('0') == 0
  {
  }

  /** Sequence and association nibble of the corrected pins. */
  lemma CorrectedNibbles(corrected: seq<Quad>, i: nat)
    requires i < |corrected| && corrected[i].InEights()
    requires Verbit.UniqueAssociations(CVerbs(corrected))
    ensures Sequence(QuadConfig(corrected[i])) == 0
    ensures Association(QuadConfig(corrected[i])) == Nibble(corrected[i].c[6]) && IsDigit(corrected[i].c[6])
  {
    hide QuadConfig, Nibble, IsDigit;
    ConfigNibbles(corrected[i]);
    ZeroNibble();
    assert CVerbs(corrected)[i] == corrected[i].c;
    assert Verbit.IsVerb(CVerbs(corrected)[i]);
  }

  lemma CorrectedAssociationsDiffer(corrected: seq<Quad>, i: nat, j: nat)
    requires i < j < |corrected| && corrected[i].InEights() && corrected[j].InEights()
    requires Verbit.UniqueAssociations(CVerbs(corrected))
    ensures Association(QuadConfig(corrected[i])) != Association(QuadConfig(corrected[j]))
  {
    hide QuadConfig, Nibble, IsDigit, Association;
    CorrectedNibbles(corrected, i);
    CorrectedNibbles(corrected, j);
    assert CVerbs(corrected)[i] == corrected[i].c && CVerbs(corrected)[j] == corrected[j].c;
    NibblesOfDigitsDiffer(corrected[i].c[6], corrected[j].c[6]);
  }

  /** From the verbs of a codec dump over the correction passes to the printed config data: within
      the capacity of verbit every pin gets a complete entry with sequence 0 and an association
      that no other pin has. */
  lemma CorrectedPinsAreUnique(quads: seq<Quad>, corrected: seq<Quad>, nodes: seq<Node>)
    requires AreQuads(quads, nodes) && |corrected| == |quads|
    requires forall i :: 0 <= i < |quads| ==> IsCorrection(quads[i], corrected[i])
    requires Verbit.AllVerbs(CVerbs(quads)) && CVerbs(corrected) == Verbit.Corrected(CVerbs(quads))
    requires |quads| <= 14 || (|quads| == 15 && exists i :: 0 <= i < |quads| && CVerbs(quads)[i][6] == 'f')
    ensures var s := Decode(OneLine(corrected));
            && Others(s) == []
            && (forall n :: n in s.pins <==> n in nodes)
            && (forall i :: 0 <= i < |nodes| ==>
                  s.At(nodes[i]).IsComplete() && Sequence(s.At(nodes[i]).config) == 0)
            && (forall i, j :: 0 <= i < j < |nodes| ==>
                  Association(s.At(nodes[i]).config) != Association(s.At(nodes[j]).config))
    ensures (forall i :: 0 <= i < |corrected| ==> corrected[i].InEights())
            && PrintsExactly(Decode(OneLine(corrected)), nodes, Configs(corrected))
  {
    hide PrintsExactly;
    hide IsQuad, IsCorrection, QuadConfig, Decode, OneLine, Others, Verbit.Corrected, CVerbs, Association, Sequence;
    hide Verbit.UniqueAssociations;
    forall i | 0 <= i < |quads| ensures corrected[i].InEights() && IsQuad(corrected[i], nodes[i]) {
      CorrectionIsQuad(quads[i], corrected[i], nodes[i]);
    }
    QuadsComeOut(corrected, nodes);
    Verbit.AssociationsUniqueIff(CVerbs(quads));
    forall i | 0 <= i < |nodes| ensures Sequence(QuadConfig(corrected[i])) == 0 {
      CorrectedNibbles(corrected, i);
    }
    forall i, j | 0 <= i < j < |nodes|
      ensures Association(QuadConfig(corrected[i])) != Association(QuadConfig(corrected[j]))
    {
      CorrectedAssociationsDiffer(corrected, i, j);
    }
  }

  // ---------------------------------------------------------------- from pin defaults to printed entries

  /** Written in lower-case digits, as in a codec dump. */
  ghost predicate AllLower(pins: seq<PinText>) {
    forall i :: 0 <= i < |pins| ==> pins[i].Valid() && forall c :: c in pins[i].node + pins[i].pin ==> IsDigit(c)
  }

  /** The location digit after the 71f pass. */
  function Location(digit: char): char {
    if digit == '1' || digit == '2' then '1' else '0'
  }

  /** A pin default with corrected location, misc nibble and sequence 0, and a given association. */
  function CorrectedText(pin: string, association: char): (r: string)
    requires |pin| == 8
    ensures |r| == 8
  {
    [pin[0], Location(pin[1]), pin[2], pin[3], pin[4], '0', association, '0']
  }

  /** The digits of the pin default that four verbs make up. */
  lemma ConfigText(q: Quad)
    requires q.InEights()
    ensures QuadConfig(q) == WordOf(q.f[6..8] + q.e[6..8] + q.d[6..8] + q.c[6..8])
  {
    hide Command, NodeOf, Payload, WordOf, Nibble, Join, NodeNumber, CommandNibbles;
    FieldsOfDigits(q.c);
    FieldsOfDigits(q.d);
    FieldsOfDigits(q.e);
    FieldsOfDigits(q.f);
    JoinNibblesOf(q.f[6..8] + q.e[6..8] + q.d[6..8] + q.c[6..8]);
  }

  lemma SplitPinIsLower(address: char, p: PinText)
    requires IsDigit(address) && p.Valid() && forall c :: c in p.node + p.pin ==> IsDigit(c)
    ensures var q := SplitPin(address, p.node, p.pin);
            && Verbit.IsVerb(q.c) && Verbit.IsVerb(q.d) && Verbit.IsVerb(q.e) && Verbit.IsVerb(q.f)
            && q.c[6..8] == p.pin[6..8] && q.d[6..8] == p.pin[4..6]
            && q.e[6..8] == p.pin[2..4] && q.f[6..8] == p.pin[0..2]
  {
    hide IsHex, IsDigit;
    CommandDigits();
    assert forall c :: c in p.node || c in p.pin ==> c in p.node + p.pin;
  }

  lemma CommandDigits()
    ensures IsDigit('7') && IsDigit('1') && IsDigit('c') && IsDigit('d') && IsDigit('e') && IsDigit('f')
  {
  }

  function DVerbs(quads: seq<Quad>): (r: seq<string>)
    ensures |r| == |quads|
  {
    seq(|quads|, i requires 0 <= i < |quads| => quads[i].d)
  }

  function FVerbs(quads: seq<Quad>): (r: seq<string>)
    ensures |r| == |quads|
  {
    seq(|quads|, i requires 0 <= i < |quads| => quads[i].f)
  }

  /** The verbs of all pins, and those that the three passes make of them. */
  ghost predicate AfterPasses(quads: seq<Quad>, corrected: seq<Quad>) {
    && |corrected| == |quads| && Verbit.AllVerbs(CVerbs(quads))
    && CVerbs(corrected) == Verbit.Corrected(CVerbs(quads))
    && Verbit.MiscCleared(DVerbs(quads), DVerbs(corrected))
    && Verbit.LocationCorrected(FVerbs(quads), FVerbs(corrected))
    && forall i :: 0 <= i < |quads| ==> corrected[i].e == quads[i].e
  }

  /** What the passes do to the verbs of one pin. */
  lemma PassesOnOne(address: char, pins: seq<PinText>, corrected: seq<Quad>, i: nat)
    requires IsDigit(address) && AllLower(pins) && i < |pins|
    requires AfterPasses(SplitAll(address, pins), corrected)
    requires |corrected[i].c| == 8 && Verbit.IsVerb(corrected[i].c) && corrected[i].c[7] == '0'
    ensures corrected[i].InEights() && IsCorrection(SplitAll(address, pins)[i], corrected[i])
    ensures QuadConfig(corrected[i]) == WordOf(CorrectedText(pins[i].pin, corrected[i].c[6]))
  {
    hide QuadConfig, WordOf, Verbit.IsVerb, Verbit.Corrected, SplitPin, IsDigit;
    var quads := SplitAll(address, pins);
    var q, q', pin := quads[i], corrected[i], pins[i].pin;
    assert q == SplitPin(address, pins[i].node, pin);
    SplitPinIsLower(address, pins[i]);
    VerbLength(q.c); VerbLength(q.d); VerbLength(q.e); VerbLength(q.f);
    assert DVerbs(quads)[i] == q.d && DVerbs(corrected)[i] == q'.d;
    assert FVerbs(quads)[i] == q.f && FVerbs(corrected)[i] == q'.f;
    VerbLength(q'.d); VerbLength(q'.f);
    assert CVerbs(quads)[i] == q.c && CVerbs(corrected)[i] == q'.c;
    Verbit.FirstOccurrencesAreKept(CVerbs(quads), i);
    ConfigText(q');
    assert q'.d[6] == q'.d[..7][6] == q.d[..7][6] == q.d[6] == q.d[6..8][0] == pin[4];
    assert q'.f[6] == q'.f[..7][6] == q.f[..7][6] == q.f[6] == q.f[6..8][0] == pin[0];
    assert q.f[7] == q.f[6..8][1] == pin[1];
    assert q'.e[6..8] == [pin[2], pin[3]];
    assert q'.f[6..8] + q'.e[6..8] + q'.d[6..8] + q'.c[6..8] == CorrectedText(pin, q'.c[6]);
  }

  lemma VerbLength(v: string)
    requires Verbit.IsVerb(v)
    ensures |v| == 8
  {
  }

  lemma SplitIsAllVerbs(address: char, pins: seq<PinText>)
    requires IsDigit(address) && AllLower(pins)
    ensures var quads := SplitAll(address, pins);
            Verbit.AllVerbs(CVerbs(quads)) && Verbit.AllVerbs(DVerbs(quads)) && Verbit.AllVerbs(FVerbs(quads))
    ensures forall i :: 0 <= i < |pins| ==> CVerbs(SplitAll(address, pins))[i][6] == pins[i].pin[6]
  {
    hide SplitPin, IsDigit, Verbit.IsVerb;
    var quads := SplitAll(address, pins);
    forall i | 0 <= i < |pins|
      ensures Verbit.IsVerb(quads[i].c) && Verbit.IsVerb(quads[i].d) && Verbit.IsVerb(quads[i].f)
      ensures |quads[i].c| == 8 && quads[i].c[6] == pins[i].pin[6]
    {
      SplitPinIsLower(address, pins[i]);
      VerbLength(quads[i].c);
      assert quads[i].c[6] == quads[i].c[6..8][0];
    }
  }

  /** The association digit, with 0 counted as 1. */
  function AssocDigit(pin: string): char
    requires |pin| == 8
  {
    if pin[6] == '0' then '1' else pin[6]
  }

  /** No pin before pin i has its association. */
  ghost predicate IsFirst(pins: seq<PinText>, i: nat)
    requires i < |pins| && forall k :: 0 <= k < |pins| ==> |pins[k].pin| == 8
  {
    forall k :: 0 <= k < i ==> AssocDigit(pins[k].pin) != AssocDigit(pins[i].pin)
  }

  lemma FirstIsNoRepeat(pins: seq<PinText>, verbc: seq<string>, i: nat)
    requires AllLower(pins) && i < |pins| == |verbc| && IsFirst(pins, i)
    requires Verbit.AllVerbs(verbc) && forall k :: 0 <= k < |pins| ==> verbc[k][6] == pins[k].pin[6]
    ensures !Verbit.IsRepeat(Verbit.Assocs(verbc), i)
  {
    hide IsDigit, DigitValue, HexDigit;
    var assoc := Verbit.Assocs(verbc);
    OneIsDigit();
    ValueReadsBack(verbc[i][6]);
    forall k | 0 <= k < i ensures assoc[k] != assoc[i] {
      ValueReadsBack(verbc[k][6]);
      assert AssocDigit(pins[k].pin) != AssocDigit(pins[i].pin);
    }
  }

  lemma OneIsDigit()
    ensures HexDigit(1) == '1' && DigitValue('1') == 1
  {
  }

  lemma PassesTogether(address: char, pins: seq<PinText>, corrected: seq<Quad>)
    returns (assoc: string, configs: seq<Word>)
    requires IsDigit(address) && AllLower(pins) && Distinct(NodesOf(pins))
    requires AfterPasses(SplitAll(address, pins), corrected)
    ensures |assoc| == |configs| == |pins|
    ensures (forall i :: 0 <= i < |pins| ==> corrected[i].InEights()) <==>
            |pins| <= 14 || (|pins| == 15 && exists i :: 0 <= i < |pins| && pins[i].pin[6] == 'f')
    ensures (forall i :: 0 <= i < |pins| ==> corrected[i].InEights()) ==>
              && PrintsExactly(Decode(OneLine(corrected)), NodesOf(pins), configs)
              && (forall i :: 0 <= i < |pins| ==> configs[i] == WordOf(CorrectedText(pins[i].pin, assoc[i])))
              && (forall i, j :: 0 <= i < j < |pins| ==> assoc[i] != assoc[j])
              && (forall i :: 0 <= i < |pins| && IsFirst(pins, i) ==> assoc[i] == pins[i].pin[6])
  {
    hide SplitPin, IsDigit, WordOf, Decode, OneLine, PrintsExactly, NodeNumber, CorrectedText, IsQuad, QuadConfig;
    hide Verbit.Corrected, Verbit.IsVerb, Verbit.IsRepeat, IsCorrection, IsFirst, IsHex;
    var quads, nodes := SplitAll(address, pins), NodesOf(pins);
    SplitIsAllVerbs(address, pins);
    assert Verbit.InCapacity(CVerbs(quads)) <==>
           |pins| <= 14 || (|pins| == 15 && exists i :: 0 <= i < |pins| && pins[i].pin[6] == 'f');
    if Verbit.InCapacity(CVerbs(quads)) {
      assoc, configs := PassesWithin(address, pins, corrected);
    } else {
      Verbit.EightDigitsIff(CVerbs(quads));
      var i :| 0 <= i < |pins| && |CVerbs(corrected)[i]| != 8;
      assert !corrected[i].InEights();
      assoc, configs := seq(|pins|, _ => '0'), seq(|pins|, _ => 0);
    }
  }

  lemma PassesWithin(address: char, pins: seq<PinText>, corrected: seq<Quad>)
    returns (assoc: string, configs: seq<Word>)
    requires IsDigit(address) && AllLower(pins) && Distinct(NodesOf(pins))
    requires AfterPasses(SplitAll(address, pins), corrected)
    requires Verbit.InCapacity(CVerbs(SplitAll(address, pins)))
    ensures |assoc| == |configs| == |pins|
    ensures forall i :: 0 <= i < |pins| ==> corrected[i].InEights()
    ensures PrintsExactly(Decode(OneLine(corrected)), NodesOf(pins), configs)
    ensures forall i :: 0 <= i < |pins| ==> configs[i] == WordOf(CorrectedText(pins[i].pin, assoc[i]))
    ensures forall i, j :: 0 <= i < j < |pins| ==> assoc[i] != assoc[j]
    ensures forall i :: 0 <= i < |pins| && IsFirst(pins, i) ==> assoc[i] == pins[i].pin[6]
  {
    hide SplitPin, IsDigit, WordOf, Decode, OneLine, PrintsExactly, NodeNumber, CorrectedText, IsQuad, QuadConfig;
    hide Verbit.Corrected, Verbit.IsVerb, Verbit.IsRepeat, IsCorrection, IsFirst, IsHex;
    var quads, nodes := SplitAll(address, pins), NodesOf(pins);
    SplitIsAllVerbs(address, pins);
    Verbit.AssociationsUniqueIff(CVerbs(quads));
    forall i | 0 <= i < |pins|
      ensures corrected[i].InEights() && IsCorrection(quads[i], corrected[i]) && |corrected[i].c| == 8
      ensures quads[i].InEights() && IsQuad(quads[i], nodes[i])
      ensures QuadConfig(corrected[i]) == WordOf(CorrectedText(pins[i].pin, corrected[i].c[6]))
      ensures IsFirst(pins, i) ==> corrected[i].c[6] == pins[i].pin[6]
    {
      DigitIsHex(address);
      SplitPinIsQuad(address, pins[i]);
      CorrectedIsVerb(corrected, i);
      PassesOnOne(address, pins, corrected, i);
      if IsFirst(pins, i) {
        FirstIsNoRepeat(pins, CVerbs(quads), i);
        Verbit.FirstOccurrencesAreKept(CVerbs(quads), i);
        assert corrected[i].c[6] == CVerbs(corrected)[i][6];
      }
    }
    CorrectedPinsAreUnique(quads, corrected, nodes);
    assoc := seq(|pins|, i requires 0 <= i < |pins| => CVerbs(corrected)[i][6]);
    configs := Configs(corrected);
  }

  lemma CorrectedIsVerb(corrected: seq<Quad>, i: nat)
    requires i < |corrected| && Verbit.UniqueAssociations(CVerbs(corrected))
    ensures |corrected[i].c| == 8 && Verbit.IsVerb(corrected[i].c) && corrected[i].c[7] == '0'
  {
    assert CVerbs(corrected)[i] == corrected[i].c;
  }

  /** verbit from the pin defaults of different nodes to the corrected verbs. They have eight digits exactly
      within the capacity; then converting them prints exactly one entry per pin, namely the pin default
      with corrected location, misc nibble 0, sequence 0 and an association of its own, which is the
      original one for a first occurrence. */
  method CorrectPinDefaults(address: char, pins: seq<PinText>)
    returns (corrected: seq<Quad>, ghost assoc: string, ghost configs: seq<Word>)
    requires IsDigit(address) && AllLower(pins) && Distinct(NodesOf(pins))
    ensures |corrected| == |pins| == |assoc| == |configs|
    ensures (forall i :: 0 <= i < |pins| ==> corrected[i].InEights()) <==>
            |pins| <= 14 || (|pins| == 15 && exists i :: 0 <= i < |pins| && pins[i].pin[6] == 'f')
    ensures (forall i :: 0 <= i < |pins| ==> corrected[i].InEights()) ==>
              && PrintsExactly(Decode(OneLine(corrected)), NodesOf(pins), configs)
              && (forall i :: 0 <= i < |pins| ==> configs[i] == WordOf(CorrectedText(pins[i].pin, assoc[i])))
              && (forall i, j :: 0 <= i < j < |pins| ==> assoc[i] != assoc[j])
              && (forall i :: 0 <= i < |pins| && IsFirst(pins, i) ==> assoc[i] == pins[i].pin[6])
  {
    hide SplitPin, IsDigit, IsHex, WordOf, Verbit.Corrected, Decode, OneLine, PrintsExactly, NodeNumber, CorrectedText;
    ghost var quads := SplitAll(address, pins);
    var verbc, verbd, verbe, verbf: seq<string> := [], [], [], [];
    for i := 0 to |pins|
      invariant verbc == CVerbs(quads)[..i] && verbd == DVerbs(quads)[..i] && verbf == FVerbs(quads)[..i]
      invariant |verbe| == i && forall k :: 0 <= k < i ==> verbe[k] == quads[k].e
    {
      var q := SplitPin(address, pins[i].node, pins[i].pin);
      verbc, verbd, verbe, verbf := verbc + [q.c], verbd + [q.d], verbe + [q.e], verbf + [q.f];
    }
    SplitIsAllVerbs(address, pins);
    assert verbc == CVerbs(quads) && verbd == DVerbs(quads) && verbf == FVerbs(quads);
    var nverbc := Verbit.CorrectAssociations(verbc);
    var nverbd := Verbit.CorrectMisc(verbd);
    var nverbf := Verbit.CorrectLocation(verbf);
    corrected := [];
    for i := 0 to |pins|
      invariant |corrected| == i
      invariant forall k :: 0 <= k < i ==> corrected[k] == Quad(nverbc[k], nverbd[k], verbe[k], nverbf[k])
    {
      corrected := corrected + [Quad(nverbc[i], nverbd[i], verbe[i], nverbf[i])];
    }
    assert CVerbs(corrected) == nverbc && DVerbs(corrected) == nverbd && FVerbs(corrected) == nverbf;
    assoc, configs := PassesTogether(address, pins, corrected);
  }
}
