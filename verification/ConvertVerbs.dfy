/** hda-tools/convert.sh: a stream of HDA verbs is cut into 32-bit words; the four verbs 71c to 71f
    of a node are put together into its pin default (the Configuration Default register, section
    7.3.3.31 of the Intel High Definition Audio Specification), all other verbs are kept apart. */
module ConvertVerbs {

  type Word = bv32

  /** One 32-bit verb of the stream. */
  datatype Verb = Verb(bits: Word)

  /** A node number, the index of the global arrays. */
  datatype Node = Node(num: Word)

  // ---------------------------------------------------------------- text

  predicate IsHex(c: char) {
    '0' <= c <= '9' || 'a' <= c <= 'f' || 'A' <= c <= 'F'
  }

  function Nibble(c: char): Word {
    match c
    case '0' => 0 case '1' => 1 case '2' => 2 case '3' => 3
    case '4' => 4 case '5' => 5 case '6' => 6 case '7' => 7
    case '8' => 8 case '9' => 9 case 'a' => 10 case 'b' => 11
    case 'c' => 12 case 'd' => 13 case 'e' => 14 case 'f' => 15
    case 'A' => 10 case 'B' => 11 case 'C' => 12 case 'D' => 13
    case 'E' => 14 case 'F' => 15
    case _ => 0
  }

  function Digit(d: Word): char {
    match d
    case 0 => '0' case 1 => '1' case 2 => '2' case 3 => '3'
    case 4 => '4' case 5 => '5' case 6 => '6' case 7 => '7'
    case 8 => '8' case 9 => '9' case 10 => 'a' case 11 => 'b'
    case 12 => 'c' case 13 => 'd' case 14 => 'e' case _ => 'f'
  }

  lemma NibbleOfDigit(d: Word)
    requires d < 16
    ensures IsHex(Digit(d)) && Nibble(Digit(d)) == d
  {
  }

  /** The format %08x. */
  function Hex8(w: Word): (r: string)
    ensures |r| == 8
  {
    [Digit((w >> 28) & 15), Digit((w >> 24) & 15), Digit((w >> 20) & 15), Digit((w >> 16) & 15),
     Digit((w >> 12) & 15), Digit((w >> 8) & 15), Digit((w >> 4) & 15), Digit(w & 15)]
  }

  /** The number 0x..., for eight digits. */
  function WordOf(s: string): Word
    requires |s| == 8
  {
    (Nibble(s[0]) << 28) | (Nibble(s[1]) << 24) | (Nibble(s[2]) << 20) | (Nibble(s[3]) << 16)
    | (Nibble(s[4]) << 12) | (Nibble(s[5]) << 8) | (Nibble(s[6]) << 4) | Nibble(s[7])
  }

  lemma NibblesJoin(w: Word)
    ensures (((w >> 28) & 15) << 28) | (((w >> 24) & 15) << 24) | (((w >> 20) & 15) << 20) | (((w >> 16) & 15) << 16)
            | (((w >> 12) & 15) << 12) | (((w >> 8) & 15) << 8) | (((w >> 4) & 15) << 4) | (w & 15) == w
  {
  }

  lemma Hex8IsHex(w: Word)
    ensures forall c :: c in Hex8(w) ==> IsHex(c)
  {
    hide Nibble, Digit, IsHex;
    NibblesOfHex8(w);
  }

  lemma NibblesOfHex8(w: Word)
    ensures var s := Hex8(w);
            && IsHex(s[0]) && IsHex(s[1]) && IsHex(s[2]) && IsHex(s[3])
            && IsHex(s[4]) && IsHex(s[5]) && IsHex(s[6]) && IsHex(s[7])
            && Nibble(s[0]) == (w >> 28) & 15 && Nibble(s[1]) == (w >> 24) & 15
            && Nibble(s[2]) == (w >> 20) & 15 && Nibble(s[3]) == (w >> 16) & 15
            && Nibble(s[4]) == (w >> 12) & 15 && Nibble(s[5]) == (w >> 8) & 15
            && Nibble(s[6]) == (w >> 4) & 15 && Nibble(s[7]) == w & 15
  {
    hide Nibble, Digit, IsHex;
    NibbleOfDigit((w >> 28) & 15);
    NibbleOfDigit((w >> 24) & 15);
    NibbleOfDigit((w >> 20) & 15);
    NibbleOfDigit((w >> 16) & 15);
    NibbleOfDigit((w >> 12) & 15);
    NibbleOfDigit((w >> 8) & 15);
    NibbleOfDigit((w >> 4) & 15);
    NibbleOfDigit(w & 15);
  }

  lemma WordOfHex8(w: Word)
    ensures WordOf(Hex8(w)) == w
  {
    hide Nibble, Digit, IsHex, Hex8;
    NibblesOfHex8(w);
    NibblesJoin(w);
  }

  /** The hex digits of a text, in order. */
  function HexOnly(s: string): string {
    if s == "" then ""
    else HexOnly(s[..|s| - 1]) + if IsHex(s[|s| - 1]) then [s[|s| - 1]] else ""
  }

  /** The words of a text: its hex digits in groups of eight, an incomplete group dropped. */
  function Chunks(digits: string): (r: seq<Verb>)
    ensures |r| == |digits| / 8
  {
    seq(|digits| / 8, i requires 0 <= i < |digits| / 8 => Verb(WordOf(digits[8 * i..8 * i + 8])))
  }

  function Verbs(input: string): seq<Verb> {
    Chunks(HexOnly(input))
  }

  // ---------------------------------------------------------------- verbs

  /** Bits lo to hi of a word. */
  function Shifty(v: Word, lo: Word, hi: Word): Word
    requires lo <= hi < 31
  {
    (v >> lo) & ((1 << (hi - lo + 1)) - 1)
  }

  function Command(v: Word): Word { Shifty(v, 8, 19) }
  function Payload(v: Word): Word { Shifty(v, 0, 7) }
  function NodeOf(v: Word): Node { Node(Shifty(v, 20, 26)) }

  lemma CommandBits(v: Word)
    ensures Command(v) == (v >> 8) & 0xfff
  {
  }

  lemma PayloadBits(v: Word)
    ensures Payload(v) == v & 0xff && Payload(v) < 256
  {
  }

  lemma NodeBits(v: Word)
    ensures NodeOf(v) == Node((v >> 20) & 0x7f) && NodeOf(v).num < 128
  {
  }

  /** The four bytes of a pin default. */
  datatype Slot = B0 | B1 | B2 | B3

  function SlotCommand(slot: Slot): Word {
    match slot case B0 => 0x71c case B1 => 0x71d case B2 => 0x71e case B3 => 0x71f
  }

  predicate IsPin(v: Word) {
    Command(v) == 0x71c || Command(v) == 0x71d || Command(v) == 0x71e || Command(v) == 0x71f
  }

  function SlotOf(v: Word): Slot
    requires IsPin(v)
  {
    if Command(v) == 0x71c then B0 else if Command(v) == 0x71d then B1
    else if Command(v) == 0x71e then B2 else B3
  }

  function Byte0(x: Word): Word { x & 0xff }
  function Byte1(x: Word): Word { (x >> 8) & 0xff }
  function Byte2(x: Word): Word { (x >> 16) & 0xff }
  function Byte3(x: Word): Word { (x >> 24) & 0xff }

  function Or0(x: Word, p: Word): Word { x | p }
  function Or1(x: Word, p: Word): Word { x | (p << 8) }
  function Or2(x: Word, p: Word): Word { x | (p << 16) }
  function Or3(x: Word, p: Word): Word { x | (p << 24) }

  predicate Mark0(fill: Word) { fill & 0x1 != 0 }
  predicate Mark1(fill: Word) { fill & 0x100 != 0 }
  predicate Mark2(fill: Word) { fill & 0x10000 != 0 }
  predicate Mark3(fill: Word) { fill & 0x1000000 != 0 }

  function ByteAt(x: Word, slot: Slot): Word {
    match slot case B0 => Byte0(x) case B1 => Byte1(x) case B2 => Byte2(x) case B3 => Byte3(x)
  }

  /** The payload ORed into its byte of x. */
  function OrInto(x: Word, payload: Word, slot: Slot): Word {
    match slot case B0 => Or0(x, payload) case B1 => Or1(x, payload)
               case B2 => Or2(x, payload) case B3 => Or3(x, payload)
  }

  predicate HasMark(fill: Word, slot: Slot) {
    match slot case B0 => Mark0(fill) case B1 => Mark1(fill) case B2 => Mark2(fill) case B3 => Mark3(fill)
  }

  function Marked(fill: Word, slot: Slot): Word { OrInto(fill, 1, slot) }

  /** g_configDefault[n] and g_configFill[n], which are set together. */
  datatype Pin = Pin(config: Word, fill: Word)
  {
    predicate Has(slot: Slot) { HasMark(fill, slot) }
    function Byte(slot: Slot): Word { ByteAt(config, slot) }
    predicate IsComplete() { fill == 0x01010101 }

    function Or(payload: Word, slot: Slot): Pin {
      Pin(OrInto(config, payload, slot), Marked(fill, slot))
    }
  }

  /** The global arrays. */
  datatype Store = Store(pins: map<Node, Pin>, unknown: seq<Verb>)
  {
    function At(n: Node): Pin { if n in pins then pins[n] else Pin(0, 0) }
  }

  const EMPTY := Store(map[], [])

  function Feed(s: Store, v: Verb): Store {
    if IsPin(v.bits) then
      var n := NodeOf(v.bits);
      s.(pins := s.pins[n := s.At(n).Or(Payload(v.bits), SlotOf(v.bits))])
    else s.(unknown := s.unknown + [v])
  }

  function FeedAll(s: Store, vs: seq<Verb>): Store {
    if vs == [] then s else Feed(FeedAll(s, vs[..|vs| - 1]), vs[|vs| - 1])
  }

  /** What the tokenizer leaves in the arrays for an input text. */
  function Decode(input: string): Store {
    FeedAll(EMPTY, Verbs(input))
  }

  // ---------------------------------------------------------------- output

  datatype Entry = Entry(node: Node, config: Word)

  function VerbFor(n: Node, slot: Slot, payload: Word): Verb {
    Verb((n.num << 20) | (SlotCommand(slot) << 8) | payload)
  }

  function SlotVerbs(n: Node, p: Pin, slot: Slot): seq<Verb> {
    if p.Has(slot) then [VerbFor(n, slot, p.Byte(slot))] else []
  }

  /** The verbs that are known for a node. */
  function PinVerbs(n: Node, p: Pin): seq<Verb> {
    SlotVerbs(n, p, B0) + SlotVerbs(n, p, B1) + SlotVerbs(n, p, B2) + SlotVerbs(n, p, B3)
  }

  /** The nodes n, n + 1, ..., 255 that the printing loops visit. */
  function NodesFrom(n: Word): seq<Node>
    requires n <= 256
    decreases 256 - n
  {
    if n == 256 then [] else [Node(n)] + NodesFrom(n + 1)
  }

  /** The printed "Config Data" entries of some nodes. */
  function Entries(s: Store, nodes: seq<Node>): seq<Entry> {
    if nodes == [] then []
    else (if s.At(nodes[0]).IsComplete() then [Entry(nodes[0], s.At(nodes[0]).config)] else [])
         + Entries(s, nodes[1..])
  }

  /** The known verbs of the incomplete ones among some nodes. */
  function Incomplete(s: Store, nodes: seq<Node>): seq<Verb> {
    if nodes == [] then []
    else (if s.At(nodes[0]).IsComplete() then [] else PinVerbs(nodes[0], s.At(nodes[0])))
         + Incomplete(s, nodes[1..])
  }

  /** The printed "other" verbs: those of incomplete nodes, then the rest. */
  function Others(s: Store): seq<Verb> {
    Incomplete(s, NodesFrom(0)) + s.unknown
  }

  /** Verbs in hex, joined by blanks: the value of the shell variable `unknown`. */
  function Joined(vs: seq<Verb>): string {
    if vs == [] then ""
    else if |vs| == 1 then Hex8(vs[0].bits)
    else Joined(vs[..|vs| - 1]) + " " + Hex8(vs[|vs| - 1].bits)
  }

  // ---------------------------------------------------------------- bytes of a word

  lemma Or0Byte0(x: Word, p: Word)
    requires p < 256
    ensures Byte0(Or0(x, p)) == Byte0(x) | p
  {
  }

  lemma Or0Byte1(x: Word, p: Word)
    requires p < 256
    ensures Byte1(Or0(x, p)) == Byte1(x)
  {
  }

  lemma Or0Byte2(x: Word, p: Word)
    requires p < 256
    ensures Byte2(Or0(x, p)) == Byte2(x)
  {
  }

  lemma Or0Byte3(x: Word, p: Word)
    requires p < 256
    ensures Byte3(Or0(x, p)) == Byte3(x)
  {
  }

  lemma Or0Marks(f: Word)
    ensures Mark0(Or0(f, 1))
    ensures Mark1(Or0(f, 1)) == Mark1(f)
    ensures Mark2(Or0(f, 1)) == Mark2(f)
    ensures Mark3(Or0(f, 1)) == Mark3(f)
  {
  }

  lemma Or1Byte0(x: Word, p: Word)
    requires p < 256
    ensures Byte0(Or1(x, p)) == Byte0(x)
  {
  }

  lemma Or1Byte1(x: Word, p: Word)
    requires p < 256
    ensures Byte1(Or1(x, p)) == Byte1(x) | p
  {
  }

  lemma Or1Byte2(x: Word, p: Word)
    requires p < 256
    ensures Byte2(Or1(x, p)) == Byte2(x)
  {
  }

  lemma Or1Byte3(x: Word, p: Word)
    requires p < 256
    ensures Byte3(Or1(x, p)) == Byte3(x)
  {
  }

  lemma Or1Marks(f: Word)
    ensures Mark0(Or1(f, 1)) == Mark0(f)
    ensures Mark1(Or1(f, 1))
    ensures Mark2(Or1(f, 1)) == Mark2(f)
    ensures Mark3(Or1(f, 1)) == Mark3(f)
  {
  }

  lemma Or2Byte0(x: Word, p: Word)
    requires p < 256
    ensures Byte0(Or2(x, p)) == Byte0(x)
  {
  }

  lemma Or2Byte1(x: Word, p: Word)
    requires p < 256
    ensures Byte1(Or2(x, p)) == Byte1(x)
  {
  }

  lemma Or2Byte2(x: Word, p: Word)
    requires p < 256
    ensures Byte2(Or2(x, p)) == Byte2(x) | p
  {
  }

  lemma Or2Byte3(x: Word, p: Word)
    requires p < 256
    ensures Byte3(Or2(x, p)) == Byte3(x)
  {
  }

  lemma Or2Marks(f: Word)
    ensures Mark0(Or2(f, 1)) == Mark0(f)
    ensures Mark1(Or2(f, 1)) == Mark1(f)
    ensures Mark2(Or2(f, 1))
    ensures Mark3(Or2(f, 1)) == Mark3(f)
  {
  }

  lemma Or3Byte0(x: Word, p: Word)
    requires p < 256
    ensures Byte0(Or3(x, p)) == Byte0(x)
  {
  }

  lemma Or3Byte1(x: Word, p: Word)
    requires p < 256
    ensures Byte1(Or3(x, p)) == Byte1(x)
  {
  }

  lemma Or3Byte2(x: Word, p: Word)
    requires p < 256
    ensures Byte2(Or3(x, p)) == Byte2(x)
  {
  }

  lemma Or3Byte3(x: Word, p: Word)
    requires p < 256
    ensures Byte3(Or3(x, p)) == Byte3(x) | p
  {
  }

  lemma Or3Marks(f: Word)
    ensures Mark0(Or3(f, 1)) == Mark0(f)
    ensures Mark1(Or3(f, 1)) == Mark1(f)
    ensures Mark2(Or3(f, 1)) == Mark2(f)
    ensures Mark3(Or3(f, 1))
  {
  }

  lemma OrBytes(x: Word, p: Word, slot: Slot, other: Slot)
    requires p < 256
    ensures ByteAt(OrInto(x, p, slot), other) == if other == slot then ByteAt(x, slot) | p else ByteAt(x, other)
  {
    hide Byte0, Byte1, Byte2, Byte3, Or0, Or1, Or2, Or3, Mark0, Mark1, Mark2, Mark3;
    match slot
    case B0 => Or0Byte0(x, p); Or0Byte1(x, p); Or0Byte2(x, p); Or0Byte3(x, p);
    case B1 => Or1Byte0(x, p); Or1Byte1(x, p); Or1Byte2(x, p); Or1Byte3(x, p);
    case B2 => Or2Byte0(x, p); Or2Byte1(x, p); Or2Byte2(x, p); Or2Byte3(x, p);
    case B3 => Or3Byte0(x, p); Or3Byte1(x, p); Or3Byte2(x, p); Or3Byte3(x, p);
  }

  lemma MarkedHas(f: Word, slot: Slot, other: Slot)
    ensures HasMark(Marked(f, slot), other) <==> other == slot || HasMark(f, other)
  {
    hide Byte0, Byte1, Byte2, Byte3, Or0, Or1, Or2, Or3, Mark0, Mark1, Mark2, Mark3;
    match slot
    case B0 => Or0Marks(f);
    case B1 => Or1Marks(f);
    case B2 => Or2Marks(f);
    case B3 => Or3Marks(f);
  }

  /** Adding a byte to a pin: the mark is set, the byte is ORed in, the other bytes stay. */
  lemma PinOr(p: Pin, payload: Word, slot: Slot, other: Slot)
    requires payload < 256
    ensures var p' := p.Or(payload, slot);
            if other == slot then p'.Has(other) && p'.Byte(other) == p.Byte(other) | payload
            else p'.Has(other) == p.Has(other) && p'.Byte(other) == p.Byte(other)
  {
    hide ByteAt, OrInto, HasMark, Marked;
    OrBytes(p.config, payload, slot, other);
    MarkedHas(p.fill, slot, other);
  }

  lemma MarksOnly(f: Word, slot: Slot)
    requires f | 0x01010101 == 0x01010101
    ensures Marked(f, slot) | 0x01010101 == 0x01010101
  {
  }

  lemma AllMarks(f: Word)
    requires f | 0x01010101 == 0x01010101
    ensures f == 0x01010101 <==> f & 0x1 != 0 && f & 0x100 != 0 && f & 0x10000 != 0 && f & 0x1000000 != 0
  {
  }

  /** Only the four marks are ever set, so a complete pin is one that has all four bytes. */
  lemma CompleteIffAllMarks(p: Pin)
    requires p.fill | 0x01010101 == 0x01010101
    ensures p.IsComplete() <==> p.Has(B0) && p.Has(B1) && p.Has(B2) && p.Has(B3)
  {
    AllMarks(p.fill);
  }

  lemma JoinBytes(x: Word)
    ensures x == (x & 0xff) | (((x >> 8) & 0xff) << 8) | (((x >> 16) & 0xff) << 16) | (((x >> 24) & 0xff) << 24)
  {
  }

  lemma BytesDetermine(x: Word, y: Word)
    requires ByteAt(x, B0) == ByteAt(y, B0) && ByteAt(x, B1) == ByteAt(y, B1)
    requires ByteAt(x, B2) == ByteAt(y, B2) && ByteAt(x, B3) == ByteAt(y, B3)
    ensures x == y
  {
    JoinBytes(x);
    JoinBytes(y);
  }

  /** Bits 27 to 31 (codec address and top node bit), which are not looked at for a pin verb. */
  predicate Clean(v: Verb) {
    v.bits & 0xf8000000 == 0
  }

  lemma FieldsOfParts(n: Word, c: Word, p: Word)
    requires n < 128 && c < 0x1000 && p < 256
    ensures var w := (n << 20) | (c << 8) | p;
            && (w >> 8) & 0xfff == c && w & 0xff == p && (w >> 20) & 0x7f == n && w & 0xf8000000 == 0
  {
  }

  lemma PartsOfClean(w: Word)
    requires w & 0xf8000000 == 0
    ensures (((w >> 20) & 0x7f) << 20) | (((w >> 8) & 0xfff) << 8) | (w & 0xff) == w
  {
  }

  lemma VerbForFields(n: Node, slot: Slot, p: Word)
    requires n.num < 128 && p < 256
    ensures var v := VerbFor(n, slot, p);
            IsPin(v.bits) && NodeOf(v.bits) == n && SlotOf(v.bits) == slot && Payload(v.bits) == p && Clean(v)
  {
    hide Command, Payload, NodeOf;
    var w := VerbFor(n, slot, p).bits;
    CommandBits(w);
    PayloadBits(w);
    NodeBits(w);
    match slot
    case B0 => FieldsOfParts(n.num, 0x71c, p);
    case B1 => FieldsOfParts(n.num, 0x71d, p);
    case B2 => FieldsOfParts(n.num, 0x71e, p);
    case B3 => FieldsOfParts(n.num, 0x71f, p);
  }

  lemma CleanVerbFor(v: Verb)
    requires IsPin(v.bits) && Clean(v)
    ensures VerbFor(NodeOf(v.bits), SlotOf(v.bits), Payload(v.bits)) == v
  {
    hide Command, Payload, NodeOf;
    CommandBits(v.bits);
    PayloadBits(v.bits);
    NodeBits(v.bits);
    PartsOfClean(v.bits);
  }

  // ---------------------------------------------------------------- what every input keeps

  /** Only marks are set, at least one; a byte that is not marked is zero. */
  ghost predicate PinOk(p: Pin) {
    && p.fill | 0x01010101 == 0x01010101
    && (p.Has(B0) || p.Has(B1) || p.Has(B2) || p.Has(B3))
    && (forall slot: Slot :: !p.Has(slot) ==> p.Byte(slot) == 0)
  }

  /** What holds of the arrays after any number of verbs. */
  ghost predicate Ok(s: Store) {
    && (forall n :: n in s.pins ==> n.num < 128 && PinOk(s.pins[n]))
    && (forall u :: u in s.unknown ==> !IsPin(u.bits))
  }

  lemma EmptyPin(slot: Slot)
    ensures !Pin(0, 0).Has(slot) && Pin(0, 0).Byte(slot) == 0
  {
  }

  lemma OrKeepsPinOk(p: Pin, payload: Word, slot: Slot)
    requires payload < 256 && (PinOk(p) || p == Pin(0, 0))
    ensures PinOk(p.Or(payload, slot))
  {
    hide ByteAt, OrInto, HasMark;
    MarksOnly(p.fill, slot);
    forall other: Slot ensures !p.Or(payload, slot).Has(other) ==> p.Or(payload, slot).Byte(other) == 0 {
      PinOr(p, payload, slot, other);
      EmptyPin(other);
    }
    PinOr(p, payload, slot, slot);
  }

  lemma FeedKeepsOk(s: Store, v: Verb)
    requires Ok(s)
    ensures Ok(Feed(s, v))
  {
    hide Payload, NodeOf, Command, ByteAt, OrInto, HasMark, PinOk;
    if IsPin(v.bits) {
      PayloadBits(v.bits);
      NodeBits(v.bits);
      var k := NodeOf(v.bits);
      var p := s.At(k).Or(Payload(v.bits), SlotOf(v.bits));
      OrKeepsPinOk(s.At(k), Payload(v.bits), SlotOf(v.bits));
    }
  }

  lemma {:induction false} FeedAllKeepsOk(s: Store, vs: seq<Verb>)
    requires Ok(s)
    ensures Ok(FeedAll(s, vs))
  {
    hide Ok, Feed;
    if vs != [] {
      FeedAllKeepsOk(s, vs[..|vs| - 1]);
      FeedKeepsOk(FeedAll(s, vs[..|vs| - 1]), vs[|vs| - 1]);
    }
  }

  lemma {:induction false} FeedAllConcat(s: Store, a: seq<Verb>, b: seq<Verb>)
    ensures FeedAll(s, a + b) == FeedAll(FeedAll(s, a), b)
  {
    hide Feed;
    if b == [] {
      assert a + b == a;
    } else {
      FeedAllConcat(s, a, b[..|b| - 1]);
      assert (a + b)[..|a + b| - 1] == a + b[..|b| - 1];
    }
  }

  // ---------------------------------------------------------------- conservation of verbs

  /** All known verbs of some nodes, complete or not. */
  ghost function AllPinVerbs(s: Store, nodes: seq<Node>): seq<Verb> {
    if nodes == [] then [] else PinVerbs(nodes[0], s.At(nodes[0])) + AllPinVerbs(s, nodes[1..])
  }

  /** The four verbs that a printed config entry stands for. */
  function EntryVerbs(e: Entry): seq<Verb> {
    [VerbFor(e.node, B0, ByteAt(e.config, B0)), VerbFor(e.node, B1, ByteAt(e.config, B1)),
     VerbFor(e.node, B2, ByteAt(e.config, B2)), VerbFor(e.node, B3, ByteAt(e.config, B3))]
  }

  function Expand(entries: seq<Entry>): seq<Verb> {
    if entries == [] then [] else EntryVerbs(entries[0]) + Expand(entries[1..])
  }

  /** The printed entries are those of the complete ones among the visited nodes. */
  lemma {:induction false} EntriesIff(s: Store, nodes: seq<Node>, e: Entry)
    ensures e in Entries(s, nodes) <==> e.node in nodes && s.At(e.node).IsComplete() && e.config == s.At(e.node).config
  {
    if nodes != [] {
      EntriesIff(s, nodes[1..], e);
    }
  }

  /** No node is printed twice. */
  ghost predicate DistinctNodes(entries: seq<Entry>) {
    forall i, j :: 0 <= i < j < |entries| ==> entries[i].node != entries[j].node
  }

  lemma {:induction false} EntriesAreDistinct(s: Store, nodes: seq<Node>)
    requires Distinct(nodes)
    ensures DistinctNodes(Entries(s, nodes))
  {
    if nodes != [] {
      var rest := Entries(s, nodes[1..]);
      EntriesAreDistinct(s, nodes[1..]);
      forall e | e in rest ensures e.node != nodes[0] {
        EntriesIff(s, nodes[1..], e);
      }
    }
  }

  /** What the printing loop emits: one entry for each complete node below 256. */
  lemma PrintedEntries(s: Store)
    ensures forall e :: e in Entries(s, NodesFrom(0)) <==>
              e.node.num < 256 && s.At(e.node).IsComplete() && e.config == s.At(e.node).config
    ensures DistinctNodes(Entries(s, NodesFrom(0)))
  {
    hide NodesFrom, Entries;
    NodesFromIsEvery(0);
    EntriesAreDistinct(s, NodesFrom(0));
    forall e: Entry
      ensures e in Entries(s, NodesFrom(0)) <==>
              e.node.num < 256 && s.At(e.node).IsComplete() && e.config == s.At(e.node).config
    {
      EntriesIff(s, NodesFrom(0), e);
    }
  }

  /** Everything that is printed for an input, as verbs. */
  function Printed(s: Store): seq<Verb> {
    Expand(Entries(s, NodesFrom(0))) + Others(s)
  }

  lemma CompletePinVerbs(n: Node, p: Pin)
    requires p.fill | 0x01010101 == 0x01010101 && p.IsComplete()
    ensures PinVerbs(n, p) == EntryVerbs(Entry(n, p.config))
  {
    hide ByteAt, HasMark, VerbFor;
    CompleteIffAllMarks(p);
  }

  lemma ExpandCons(e: Entry, rest: seq<Entry>)
    ensures Expand([e] + rest) == EntryVerbs(e) + Expand(rest)
  {
    assert ([e] + rest)[1..] == rest;
  }

  lemma PrintedStep(s: Store, n: Node, rest: seq<Node>)
    requires Ok(s)
    ensures var nodes, p := [n] + rest, s.At(n);
            && AllPinVerbs(s, nodes) == PinVerbs(n, p) + AllPinVerbs(s, rest)
            && if p.IsComplete()
               then Expand(Entries(s, nodes)) == PinVerbs(n, p) + Expand(Entries(s, rest))
                    && Incomplete(s, nodes) == Incomplete(s, rest)
               else Entries(s, nodes) == Entries(s, rest)
                    && Incomplete(s, nodes) == PinVerbs(n, p) + Incomplete(s, rest)
  {
    hide PinVerbs, EntryVerbs;
    assert ([n] + rest)[1..] == rest;
    if s.At(n).IsComplete() {
      CompletePinVerbs(n, s.At(n));
      ExpandCons(Entry(n, s.At(n).config), Entries(s, rest));
    }
  }

  lemma {:induction false} PrintedIsAll(s: Store, nodes: seq<Node>)
    requires Ok(s)
    ensures multiset(Expand(Entries(s, nodes))) + multiset(Incomplete(s, nodes)) == multiset(AllPinVerbs(s, nodes))
  {
    hide PinVerbs, EntryVerbs, PinOk, Ok;
    if nodes == [] {
    } else {
      hide AllPinVerbs, Entries, Incomplete, Expand;
      PrintedIsAll(s, nodes[1..]);
      PrintedStep(s, nodes[0], nodes[1..]);
      assert nodes == [nodes[0]] + nodes[1..];
    }
  }

  lemma OrSlotVerbs(n: Node, p: Pin, payload: Word, slot: Slot, other: Slot)
    requires payload < 256 && (p.Has(slot) || p.Byte(slot) == 0)
    ensures var after, before := SlotVerbs(n, p.Or(payload, slot), other), SlotVerbs(n, p, other);
            if other != slot then after == before
            else if p.Has(slot) then |after| == |before|
            else after == [VerbFor(n, slot, payload)] && before == []
  {
    hide ByteAt, OrInto, HasMark, VerbFor;
    PinOr(p, payload, slot, other);
    assert (0 as Word) | payload == payload;
  }

  /** A byte that was missing adds its verb; a byte that was there keeps the number of verbs. */
  lemma OrVerbs(n: Node, p: Pin, payload: Word, slot: Slot)
    requires payload < 256 && (p.Has(slot) || p.Byte(slot) == 0)
    ensures var p' := p.Or(payload, slot);
            if p.Has(slot) then |PinVerbs(n, p')| == |PinVerbs(n, p)|
            else multiset(PinVerbs(n, p')) == multiset(PinVerbs(n, p)) + multiset{VerbFor(n, slot, payload)}
  {
    hide SlotVerbs, VerbFor;
    OrSlotVerbs(n, p, payload, slot, B0);
    OrSlotVerbs(n, p, payload, slot, B1);
    OrSlotVerbs(n, p, payload, slot, B2);
    OrSlotVerbs(n, p, payload, slot, B3);
  }

  lemma MissingByteIsZero(s: Store, k: Node, slot: Slot)
    requires Ok(s)
    ensures s.At(k).Has(slot) || s.At(k).Byte(slot) == 0
  {
    hide ByteAt, HasMark;
    EmptyPin(slot);
  }

  ghost predicate Distinct<T>(xs: seq<T>) {
    forall i, j :: 0 <= i < j < |xs| ==> xs[i] != xs[j]
  }

  lemma {:induction false} NodesFromHas(n: Word, m: Node)
    requires n <= 256
    ensures m in NodesFrom(n) <==> n <= m.num < 256
    decreases 256 - n
  {
    if n < 256 {
      NodesFromHas(n + 1, m);
    }
  }

  /** The printing loops visit every node once. */
  lemma {:induction false} NodesFromIsEvery(n: Word)
    requires n <= 256
    ensures Distinct(NodesFrom(n))
    ensures forall m: Node :: m in NodesFrom(n) <==> n <= m.num < 256
    decreases 256 - n
  {
    forall m: Node ensures m in NodesFrom(n) <==> n <= m.num < 256 {
      NodesFromHas(n, m);
    }
    if n < 256 {
      NodesFromIsEvery(n + 1);
    }
  }

  /** How the list of known verbs changes when pin k gains a byte. */
  ghost predicate Gains(after: seq<Verb>, before: seq<Verb>, had: bool, v: Verb) {
    if had then |after| == |before| else multiset(after) == multiset(before) + multiset{v}
  }

  lemma GainsAppend(a: seq<Verb>, b: seq<Verb>, c: seq<Verb>, had: bool, v: Verb)
    requires Gains(a, b, had, v)
    ensures Gains(a + c, b + c, had, v) && Gains(c + a, c + b, had, v)
  {
  }

  lemma {:induction false} AllPinVerbsOr(s: Store, s': Store, k: Node, payload: Word, slot: Slot, nodes: seq<Node>)
    requires Ok(s) && payload < 256 && Distinct(nodes)
    requires s'.pins == s.pins[k := s.At(k).Or(payload, slot)]
    ensures if k !in nodes then AllPinVerbs(s', nodes) == AllPinVerbs(s, nodes)
            else Gains(AllPinVerbs(s', nodes), AllPinVerbs(s, nodes), s.At(k).Has(slot), VerbFor(k, slot, payload))
  {
    hide PinVerbs, VerbFor, Ok, ByteAt, OrInto, HasMark, Marked, Gains;
    if nodes != [] {
      var n, had, v := nodes[0], s.At(k).Has(slot), VerbFor(k, slot, payload);
      AllPinVerbsOr(s, s', k, payload, slot, nodes[1..]);
      var rest', rest := AllPinVerbs(s', nodes[1..]), AllPinVerbs(s, nodes[1..]);
      if n == k {
        PinGains(s, k, payload, slot);
        GainsAppend(PinVerbs(n, s'.At(n)), PinVerbs(n, s.At(n)), rest, had, v);
      } else if k in nodes {
        GainsAppend(rest', rest, PinVerbs(n, s.At(n)), had, v);
      }
    }
  }

  lemma PinGains(s: Store, k: Node, payload: Word, slot: Slot)
    requires Ok(s) && payload < 256
    ensures Gains(PinVerbs(k, s.At(k).Or(payload, slot)), PinVerbs(k, s.At(k)),
                  s.At(k).Has(slot), VerbFor(k, slot, payload))
  {
    hide PinVerbs, VerbFor, Ok, ByteAt, OrInto, HasMark, Marked;
    MissingByteIsZero(s, k, slot);
    OrVerbs(k, s.At(k), payload, slot);
  }

  /** v sets byte `slot` of node n. */
  predicate Sets(v: Verb, n: Node, slot: Slot) {
    IsPin(v.bits) && NodeOf(v.bits) == n && SlotOf(v.bits) == slot
  }

  /** No byte of a node is set twice. */
  ghost predicate NoRepeat(vs: seq<Verb>) {
    forall i, j :: 0 <= i < j < |vs| && IsPin(vs[j].bits) ==>
      !Sets(vs[i], NodeOf(vs[j].bits), SlotOf(vs[j].bits))
  }

  ghost predicate PinsClean(vs: seq<Verb>) {
    forall v :: v in vs && IsPin(v.bits) ==> Clean(v)
  }

  lemma {:induction false} HasIffSet(vs: seq<Verb>, n: Node, slot: Slot)
    ensures FeedAll(EMPTY, vs).At(n).Has(slot) <==> exists v :: v in vs && Sets(v, n, slot)
  {
    hide Payload, NodeOf, Command, ByteAt, OrInto, HasMark, Marked;
    if vs == [] {
      EmptyPin(slot);
    } else {
      var front, v := vs[..|vs| - 1], vs[|vs| - 1];
      HasIffSet(front, n, slot);
      assert vs == front + [v];
      var before, after := FeedAll(EMPTY, front).At(n), FeedAll(EMPTY, vs).At(n);
      if IsPin(v.bits) && NodeOf(v.bits) == n {
        PayloadBits(v.bits);
        PinOr(before, Payload(v.bits), SlotOf(v.bits), slot);
        assert after.Has(slot) <==> before.Has(slot) || Sets(v, n, slot);
      } else {
        assert after == before && !Sets(v, n, slot);
      }
      assert (exists w :: w in vs && Sets(w, n, slot)) <==>
             (exists w :: w in front && Sets(w, n, slot)) || Sets(v, n, slot);
    }
  }

  /** Everything that is known, in no particular order. */
  ghost function Known(s: Store): seq<Verb> {
    AllPinVerbs(s, NodesFrom(0)) + s.unknown
  }

  lemma KnownAfter(s: Store, v: Verb)
    requires Ok(s)
    ensures var s' := Feed(s, v);
            if !IsPin(v.bits) then multiset(Known(s')) == multiset(Known(s)) + multiset{v}
            else if s.At(NodeOf(v.bits)).Has(SlotOf(v.bits)) then |Known(s')| == |Known(s)|
            else multiset(Known(s')) == multiset(Known(s))
                   + multiset{VerbFor(NodeOf(v.bits), SlotOf(v.bits), Payload(v.bits))}
  {
    hide Payload, NodeOf, Command, ByteAt, OrInto, HasMark, Marked, Ok, VerbFor, AllPinVerbs, NodesFrom;
    if IsPin(v.bits) {
      PayloadBits(v.bits);
      NodeBits(v.bits);
      NodesFromIsEvery(0);
      AllPinVerbsOr(s, Feed(s, v), NodeOf(v.bits), Payload(v.bits), SlotOf(v.bits), NodesFrom(0));
    } else {
      AllPinVerbsSame(s, Feed(s, v), NodesFrom(0));
    }
  }

  lemma {:induction false} AllPinVerbsSame(s: Store, t: Store, nodes: seq<Node>)
    requires s.pins == t.pins
    ensures AllPinVerbs(s, nodes) == AllPinVerbs(t, nodes)
  {
    if nodes != [] {
      AllPinVerbsSame(s, t, nodes[1..]);
    }
  }

  lemma {:induction false} CleanAndDistinctIsKept(vs: seq<Verb>)
    requires PinsClean(vs) && NoRepeat(vs)
    ensures multiset(Known(FeedAll(EMPTY, vs))) == multiset(vs)
  {
    hide Known, Feed, Ok, VerbFor, NodeOf, Command, Payload, Clean;
    if vs == [] {
      KnownOfEmpty();
    } else {
      var front, v := vs[..|vs| - 1], vs[|vs| - 1];
      assert vs == front + [v];
      CleanAndDistinctIsKept(front);
      var s := FeedAll(EMPTY, front);
      KnownOfEmpty();
      FeedAllKeepsOk(EMPTY, front);
      KnownAfter(s, v);
      if IsPin(v.bits) {
        HasIffSet(front, NodeOf(v.bits), SlotOf(v.bits));
        CleanVerbFor(v);
      }
    }
  }

  lemma KnownOfEmpty()
    ensures Known(EMPTY) == [] && Ok(EMPTY)
  {
    AllPinVerbsOfEmpty(NodesFrom(0));
  }

  lemma {:induction false} AllPinVerbsOfEmpty(nodes: seq<Node>)
    ensures AllPinVerbs(EMPTY, nodes) == []
  {
    if nodes != [] {
      AllPinVerbsOfEmpty(nodes[1..]);
      EmptyPin(B0);
      EmptyPin(B1);
      EmptyPin(B2);
      EmptyPin(B3);
    }
  }

  lemma {:induction false} KeptOnlyIfDistinct(vs: seq<Verb>)
    ensures |Known(FeedAll(EMPTY, vs))| <= |vs|
    ensures |Known(FeedAll(EMPTY, vs))| == |vs| ==> NoRepeat(vs)
  {
    hide Known, Feed, Ok, VerbFor, NodeOf, Command, Payload, Clean;
    if vs == [] {
      KnownOfEmpty();
    } else {
      var front, v := vs[..|vs| - 1], vs[|vs| - 1];
      assert vs == front + [v];
      KeptOnlyIfDistinct(front);
      var s := FeedAll(EMPTY, front);
      KnownOfEmpty();
      FeedAllKeepsOk(EMPTY, front);
      KnownAfter(s, v);
      assert |Known(Feed(s, v))| == |multiset(Known(Feed(s, v)))|;
      if IsPin(v.bits) {
        HasIffSet(front, NodeOf(v.bits), SlotOf(v.bits));
      }
    }
  }

  lemma {:induction false} PinVerbsAreClean(s: Store, nodes: seq<Node>, v: Verb)
    requires Ok(s) && v in AllPinVerbs(s, nodes)
    ensures IsPin(v.bits) && Clean(v)
  {
    if v in PinVerbs(nodes[0], s.At(nodes[0])) {
      PinVerbIsClean(s, nodes[0], v);
    } else {
      PinVerbsAreClean(s, nodes[1..], v);
    }
  }

  lemma PinVerbIsClean(s: Store, n: Node, v: Verb)
    requires Ok(s) && v in PinVerbs(n, s.At(n))
    ensures IsPin(v.bits) && Clean(v)
  {
    hide HasMark, ByteAt, Clean, Payload, NodeOf, Command, VerbFor;
    EmptyPin(B0);
    EmptyPin(B1);
    EmptyPin(B2);
    EmptyPin(B3);
    var p := s.At(n);
    var slot :| p.Has(slot) && v == VerbFor(n, slot, p.Byte(slot));
    ByteBound(p.config, slot);
    VerbForFields(n, slot, p.Byte(slot));
  }

  lemma ByteBound(x: Word, slot: Slot)
    ensures ByteAt(x, slot) < 256
  {
  }

  /** Every verb comes out exactly once (in a config entry or among the others) if and only if the
      pin verbs have bits 27 to 31 clear and no byte of a node is set twice. */
  lemma VerbsAreConservedIff(input: string)
    ensures multiset(Printed(Decode(input))) == multiset(Verbs(input))
       <==> PinsClean(Verbs(input)) && NoRepeat(Verbs(input))
  {
    hide Known, Feed, Ok, NodeOf, Command, Payload, Clean, Printed;
    var vs := Verbs(input);
    var s := Decode(input);
    KnownOfEmpty();
    FeedAllKeepsOk(EMPTY, vs);
    PrintedIsKnown(s);
    KeptOnlyIfDistinct(vs);
    if PinsClean(vs) && NoRepeat(vs) {
      CleanAndDistinctIsKept(vs);
    }
    if multiset(Printed(s)) == multiset(vs) {
      assert |Known(s)| == |multiset(Known(s))| == |vs|;
      forall v | v in vs && IsPin(v.bits) ensures Clean(v) {
        assert v in multiset(Known(s));
        KnownPinIsClean(s, v);
      }
    }
  }

  /** An input: the verb of a codec with address 1 comes out with address 0. */
  lemma OtherAddressIsLost()
    ensures Verbs("11271c10") == [Verb(0x11271c10)]
    ensures multiset(Printed(Decode("11271c10"))) != multiset(Verbs("11271c10"))
  {
    hide Printed, Decode, NodesFrom;
    AddressOneVerb();
    VerbsAreConservedIff("11271c10");
    assert Verb(0x11271c10) in Verbs("11271c10");
    assert !PinsClean(Verbs("11271c10")) by { AddressOneIsNotClean(); }
  }

  lemma AddressOneVerb()
    ensures Verbs("11271c10") == [Verb(0x11271c10)]
  {
    hide Nibble;
    var s := "11271c10";
    HexOnlyAll(s) by { assert forall c :: c in s ==> IsHex(c); }
    AddressOneWord(s);
    assert s[0..8] == s;
  }

  lemma AddressOneWord(s: string)
    requires s == "11271c10"
    ensures WordOf(s) == 0x11271c10
  {
  }

  lemma AddressOneIsNotClean()
    ensures IsPin(0x11271c10) && !Clean(Verb(0x11271c10))
  {
  }

  lemma PrintedIsKnown(s: Store)
    requires Ok(s)
    ensures multiset(Printed(s)) == multiset(Known(s))
  {
    hide Ok, Expand, Entries, Incomplete, AllPinVerbs;
    PrintedIsAll(s, NodesFrom(0));
  }

  lemma KnownPinIsClean(s: Store, v: Verb)
    requires Ok(s) && v in Known(s) && IsPin(v.bits)
    ensures Clean(v)
  {
    hide AllPinVerbs, Clean, Command;
    if v in AllPinVerbs(s, NodesFrom(0)) {
      PinVerbsAreClean(s, NodesFrom(0), v);
    }
  }

  // ---------------------------------------------------------------- text in, text out

  lemma {:induction false} HexOnlyConcat(a: string, b: string)
    ensures HexOnly(a + b) == HexOnly(a) + HexOnly(b)
  {
    hide IsHex;
    if b == "" {
      assert a + b == a;
    } else {
      HexOnlyConcat(a, b[..|b| - 1]);
      assert (a + b)[..|a + b| - 1] == a + b[..|b| - 1];
    }
  }

  lemma {:induction false} HexOnlyAll(s: string)
    requires forall c :: c in s ==> IsHex(c)
    ensures HexOnly(s) == s
  {
    hide IsHex;
    if s != "" {
      HexOnlyAll(s[..|s| - 1]);
      assert s == s[..|s| - 1] + [s[|s| - 1]];
    }
  }

  lemma {:induction false} HexOnlyNone(s: string)
    requires forall c :: c in s ==> !IsHex(c)
    ensures HexOnly(s) == ""
  {
    hide IsHex;
    if s != "" {
      HexOnlyNone(s[..|s| - 1]);
    }
  }

  /** Characters that are not hex digits may stand anywhere, even inside a verb. */
  lemma SeparatorsDoNotMatter(a: string, junk: string, b: string)
    requires forall c :: c in junk ==> !IsHex(c)
    ensures Verbs(a + junk + b) == Verbs(a + b) && Decode(a + junk + b) == Decode(a + b)
  {
    HexOnlyConcat(a + junk, b);
    HexOnlyConcat(a, junk);
    HexOnlyConcat(a, b);
    HexOnlyNone(junk);
    assert HexOnly(a) + "" == HexOnly(a);
  }

  /** The digits collected for the next verb are those after the last complete group. */
  ghost predicate Pending(digits: string, verb: string) {
    |verb| < 8 && |digits| % 8 == |verb| && verb == digits[|digits| - |verb|..]
  }

  lemma PendingGrows(digits: string, verb: string, c: char)
    requires Pending(digits, verb)
    ensures if |verb| == 7
            then Pending(digits + [c], "") && Chunks(digits + [c]) == Chunks(digits) + [Verb(WordOf(verb + [c]))]
            else Pending(digits + [c], verb + [c]) && Chunks(digits + [c]) == Chunks(digits)
  {
    hide WordOf;
    var more := digits + [c];
    forall i | 0 <= i < |digits| / 8 ensures more[8 * i..8 * i + 8] == digits[8 * i..8 * i + 8] {
    }
    if |verb| == 7 {
      assert more[8 * (|more| / 8 - 1)..8 * (|more| / 8 - 1) + 8] == verb + [c];
    }
  }

  lemma ChunksAppend(digits: string, h: string)
    requires |digits| % 8 == 0 && |h| == 8
    ensures Chunks(digits + h) == Chunks(digits) + [Verb(WordOf(h))] && |digits + h| % 8 == 0
  {
    hide WordOf;
    var more := digits + h;
    forall i | 0 <= i < |digits| / 8 ensures more[8 * i..8 * i + 8] == digits[8 * i..8 * i + 8] {
    }
    assert more[|digits|..|digits| + 8] == h;
  }

  /** Printed verbs are read back. */
  lemma {:induction false} JoinedReadsBack(vs: seq<Verb>)
    ensures Verbs(Joined(vs)) == vs && |HexOnly(Joined(vs))| % 8 == 0
  {
    hide WordOf, Hex8, IsHex, HexOnly, Chunks, Joined;
    if vs == [] {
      NothingJoined();
    } else {
      var front, v := vs[..|vs| - 1], vs[|vs| - 1];
      JoinedReadsBack(front);
      WordOfHex8(v.bits);
      DigitsOfJoined(vs);
      ChunksAppend(HexOnly(Joined(front)), Hex8(v.bits));
      assert vs == front + [v];
    }
  }

  lemma NothingJoined()
    ensures Joined([]) == "" && HexOnly("") == "" && Verbs("") == []
  {
  }

  lemma DigitsOfJoined(vs: seq<Verb>)
    requires vs != []
    ensures HexOnly(Joined(vs)) == HexOnly(Joined(vs[..|vs| - 1])) + Hex8(vs[|vs| - 1].bits)
  {
    hide Hex8;
    var front, h := Joined(vs[..|vs| - 1]), Hex8(vs[|vs| - 1].bits);
    Hex8IsHex(vs[|vs| - 1].bits);
    HexOnlyAll(h);
    if |vs| == 1 {
      assert HexOnly(front) + h == h;
    } else {
      HexOnlyConcat(front + " ", h);
      HexOnlyConcat(front, " ");
      HexOnlyNone(" ");
      assert HexOnly(front) + "" == HexOnly(front);
    }
  }

  // ---------------------------------------------------------------- feeding the others back

  lemma {:induction false} FeedUnknown(t: Store, us: seq<Verb>)
    requires forall u :: u in us ==> !IsPin(u.bits)
    ensures FeedAll(t, us) == t.(unknown := t.unknown + us)
  {
    hide IsPin;
    if us == [] {
      assert t.unknown + us == t.unknown;
    } else {
      FeedUnknown(t, us[..|us| - 1]);
      assert us == us[..|us| - 1] + [us[|us| - 1]];
    }
  }

  /** p with byte `slot` of q added if q has it. */
  ghost function Take(p: Pin, q: Pin, slot: Slot): Pin {
    if q.Has(slot) then p.Or(q.Byte(slot), slot) else p
  }

  lemma FeedSlotVerbs(t: Store, n: Node, q: Pin, slot: Slot)
    requires n.num < 128
    ensures var r := FeedAll(t, SlotVerbs(n, q, slot));
            && r.unknown == t.unknown && r.At(n) == Take(t.At(n), q, slot)
            && forall m: Node :: m != n ==> (m in r.pins <==> m in t.pins) && r.At(m) == t.At(m)
    ensures n in t.pins || q.Has(slot) ==> n in FeedAll(t, SlotVerbs(n, q, slot)).pins
  {
    hide HasMark, ByteAt, OrInto, Marked, Payload, NodeOf, Command, VerbFor;
    if q.Has(slot) {
      ByteBound(q.config, slot);
      VerbForFields(n, slot, q.Byte(slot));
      var v := VerbFor(n, slot, q.Byte(slot));
      assert SlotVerbs(n, q, slot) == [v];
      assert [v][..0] == [];
      assert FeedAll(t, [v]) == Feed(t, v);
    }
  }

  lemma SameMarks(f: Word, g: Word)
    requires f | 0x01010101 == 0x01010101 && g | 0x01010101 == 0x01010101
    requires (f & 0x1 != 0 <==> g & 0x1 != 0) && (f & 0x100 != 0 <==> g & 0x100 != 0)
    requires (f & 0x10000 != 0 <==> g & 0x10000 != 0) && (f & 0x1000000 != 0 <==> g & 0x1000000 != 0)
    ensures f == g
  {
  }

  lemma TakeEach(q: Pin, p: Pin, slot: Slot, other: Slot)
    requires PinOk(q) && p.fill | 0x01010101 == 0x01010101
    requires !p.Has(slot) && p.Byte(slot) == 0
    ensures var r := Take(p, q, slot);
            && r.fill | 0x01010101 == 0x01010101
            && r.Has(other) == (if other == slot then q.Has(other) else p.Has(other))
            && r.Byte(other) == (if other == slot then q.Byte(other) else p.Byte(other))
  {
    hide HasMark, ByteAt, OrInto, Marked;
    ByteBound(q.config, slot);
    MarksOnly(p.fill, slot);
    PinOr(p, q.Byte(slot), slot, other);
    assert (0 as Word) | q.Byte(slot) == q.Byte(slot);
  }

  lemma TakeAll(q: Pin)
    requires PinOk(q)
    ensures Take(Take(Take(Take(Pin(0, 0), q, B0), q, B1), q, B2), q, B3) == q
  {
    hide HasMark, ByteAt, Take;
    var p0 := Pin(0, 0);
    var p1 := Take(p0, q, B0);
    var p2 := Take(p1, q, B1);
    var p3 := Take(p2, q, B2);
    var p4 := Take(p3, q, B3);
    EmptyPin(B0); EmptyPin(B1); EmptyPin(B2); EmptyPin(B3);
    TakeEach(q, p0, B0, B0); TakeEach(q, p0, B0, B1); TakeEach(q, p0, B0, B2); TakeEach(q, p0, B0, B3);
    TakeEach(q, p1, B1, B0); TakeEach(q, p1, B1, B1); TakeEach(q, p1, B1, B2); TakeEach(q, p1, B1, B3);
    TakeEach(q, p2, B2, B0); TakeEach(q, p2, B2, B1); TakeEach(q, p2, B2, B2); TakeEach(q, p2, B2, B3);
    TakeEach(q, p3, B3, B0); TakeEach(q, p3, B3, B1); TakeEach(q, p3, B3, B2); TakeEach(q, p3, B3, B3);
    SamePin(p4, q);
  }

  lemma SamePin(p: Pin, q: Pin)
    requires p.fill | 0x01010101 == 0x01010101 && q.fill | 0x01010101 == 0x01010101
    requires p.Has(B0) == q.Has(B0) && p.Has(B1) == q.Has(B1) && p.Has(B2) == q.Has(B2) && p.Has(B3) == q.Has(B3)
    requires p.Byte(B0) == q.Byte(B0) && p.Byte(B1) == q.Byte(B1)
    requires p.Byte(B2) == q.Byte(B2) && p.Byte(B3) == q.Byte(B3)
    ensures p == q
  {
    hide ByteAt;
    BytesDetermine(p.config, q.config);
    SameMarks(p.fill, q.fill);
  }

  /** Feeding the known verbs of a pin to arrays without that pin stores the pin. */
  lemma FeedPinVerbs(t: Store, n: Node, q: Pin)
    requires n.num < 128 && PinOk(q) && n !in t.pins
    ensures FeedAll(t, PinVerbs(n, q)) == t.(pins := t.pins[n := q])
  {
    hide HasMark, SlotVerbs, Take, FeedAll, ByteAt;
    var t1 := FeedAll(t, SlotVerbs(n, q, B0));
    var t2 := FeedAll(t1, SlotVerbs(n, q, B1));
    var t3 := FeedAll(t2, SlotVerbs(n, q, B2));
    var t4 := FeedAll(t3, SlotVerbs(n, q, B3));
    FeedSlotVerbs(t, n, q, B0);
    FeedSlotVerbs(t1, n, q, B1);
    FeedSlotVerbs(t2, n, q, B2);
    FeedSlotVerbs(t3, n, q, B3);
    FeedAllConcat(t, SlotVerbs(n, q, B0), SlotVerbs(n, q, B1));
    FeedAllConcat(t, SlotVerbs(n, q, B0) + SlotVerbs(n, q, B1), SlotVerbs(n, q, B2));
    FeedAllConcat(t, SlotVerbs(n, q, B0) + SlotVerbs(n, q, B1) + SlotVerbs(n, q, B2), SlotVerbs(n, q, B3));
    TakeAll(q);
    assert n in t4.pins && t4.At(n) == q;
    assert t4.pins == t.pins[n := q];
  }

  /** The pins of some nodes that are known but incomplete. */
  ghost function Remaining(s: Store, nodes: seq<Node>): map<Node, Pin> {
    map n | n in s.pins && n in nodes && !s.pins[n].IsComplete() :: s.pins[n]
  }

  lemma NoVerbsForEmptyPin(n: Node)
    ensures PinVerbs(n, Pin(0, 0)) == []
  {
    hide HasMark;
    EmptyPin(B0); EmptyPin(B1); EmptyPin(B2); EmptyPin(B3);
  }

  lemma IncompleteSnoc(s: Store, nodes: seq<Node>, n: Node)
    ensures Incomplete(s, nodes + [n]) ==
            Incomplete(s, nodes) + if s.At(n).IsComplete() then [] else PinVerbs(n, s.At(n))
  {
    hide PinVerbs;
    if nodes == [] {
      assert [n][1..] == [];
    } else {
      IncompleteSnoc(s, nodes[1..], n);
      assert (nodes + [n])[1..] == nodes[1..] + [n];
    }
  }

  /** Feeding the known verbs of incomplete nodes stores those nodes and nothing else. */
  lemma {:induction false} FeedIncomplete(s: Store, nodes: seq<Node>)
    requires Ok(s) && Distinct(nodes)
    ensures FeedAll(EMPTY, Incomplete(s, nodes)) == Store(Remaining(s, nodes), [])
  {
    hide PinVerbs, PinOk;
    if nodes == [] {
      assert Remaining(s, nodes) == map[];
    } else {
      var front, n := nodes[..|nodes| - 1], nodes[|nodes| - 1];
      assert nodes == front + [n];
      FeedIncomplete(s, front);
      FeedIncompleteSnoc(s, front, n);
    }
  }

  lemma RemainingSnoc(s: Store, front: seq<Node>, n: Node)
    ensures Remaining(s, front + [n]) ==
            if n in s.pins && !s.pins[n].IsComplete() then Remaining(s, front)[n := s.pins[n]] else Remaining(s, front)
  {
  }

  lemma FeedIncompleteSnoc(s: Store, front: seq<Node>, n: Node)
    requires Ok(s) && n !in front
    requires FeedAll(EMPTY, Incomplete(s, front)) == Store(Remaining(s, front), [])
    ensures FeedAll(EMPTY, Incomplete(s, front + [n])) == Store(Remaining(s, front + [n]), [])
  {
    hide PinVerbs, PinOk, FeedAll, Incomplete;
    IncompleteSnoc(s, front, n);
    RemainingSnoc(s, front, n);
    var p := s.At(n);
    if p.IsComplete() {
      assert Incomplete(s, front) + [] == Incomplete(s, front);
    } else {
      FeedAllConcat(EMPTY, Incomplete(s, front), PinVerbs(n, p));
      if n in s.pins {
        FeedPinVerbs(Store(Remaining(s, front), []), n, p);
      } else {
        NoVerbsForEmptyPin(n);
        assert Incomplete(s, front) + [] == Incomplete(s, front);
      }
    }
  }

  lemma {:induction false} RemainingPrintsTheSame(s: Store, r: Store, nodes: seq<Node>)
    requires forall n :: n in nodes ==> r.At(n) == if s.At(n).IsComplete() then Pin(0, 0) else s.At(n)
    ensures Entries(r, nodes) == [] && Incomplete(r, nodes) == Incomplete(s, nodes)
  {
    hide PinVerbs;
    if nodes != [] {
      RemainingPrintsTheSame(s, r, nodes[1..]);
      NoVerbsForEmptyPin(nodes[0]);
    }
  }

  /** The printed others, fed back as text, give no config entry and the same others again. */
  lemma OthersAreStable(input: string)
    ensures var s := Decode(input);
            var again := Decode(Joined(Others(s)));
            && Verbs(Joined(Others(s))) == Others(s)
            && Entries(again, NodesFrom(0)) == []
            && Others(again) == Others(s)
  {
    hide NodesFrom, Incomplete, Entries, PinOk, Remaining, FeedAll;
    var s, nodes := Decode(input), NodesFrom(0);
    KnownOfEmpty();
    FeedAllKeepsOk(EMPTY, Verbs(input));
    NodesFromIsEvery(0);
    JoinedReadsBack(Others(s));
    FeedIncomplete(s, nodes);
    var t := Store(Remaining(s, nodes), []);
    FeedAllConcat(EMPTY, Incomplete(s, nodes), s.unknown);
    FeedUnknown(t, s.unknown);
    var again := Decode(Joined(Others(s)));
    assert again.pins == t.pins && again.unknown == s.unknown;
    RemainingAt(s, nodes, again);
    RemainingPrintsTheSame(s, again, nodes);
  }

  lemma RemainingAt(s: Store, nodes: seq<Node>, r: Store)
    requires r.pins == Remaining(s, nodes)
    ensures forall n :: n in nodes ==> r.At(n) == if s.At(n).IsComplete() then Pin(0, 0) else s.At(n)
  {
  }

  // ---------------------------------------------------------------- the script

  class Converter {
    /** g_configDefault and g_configFill. */
    var pins: map<Node, Pin>
    /** g_unkownVerbs. */
    var unknown: seq<Verb>

    function View(): Store
      reads this
    {
      Store(pins, unknown)
    }

    constructor ()
      ensures View() == EMPTY
    {
      pins, unknown := map[], [];
    }

    method AddToArray(node: Node, payload: Word, slot: Slot)
      modifies this
      ensures pins == old(pins)[node := old(View()).At(node).Or(payload, slot)] && unknown == old(unknown)
    {
      if node !in pins {
        pins := pins[node := Pin(0, 0)];
      }
      pins := pins[node := pins[node].Or(payload, slot)];
    }

    method AddToUnknown(v: Verb)
      modifies this
      ensures pins == old(pins) && unknown == old(unknown) + [v]
    {
      unknown := unknown + [v];
    }

    method AddVerb(v: Verb)
      modifies this
      ensures View() == Feed(old(View()), v)
    {
      var command, payload, node := Command(v.bits), Payload(v.bits), NodeOf(v.bits);
      hide Command, Payload, NodeOf, OrInto, Marked;
      if command == 0x71c {
        AddToArray(node, payload, B0);
      } else if command == 0x71d {
        AddToArray(node, payload, B1);
      } else if command == 0x71e {
        AddToArray(node, payload, B2);
      } else if command == 0x71f {
        AddToArray(node, payload, B3);
      } else {
        AddToUnknown(v);
      }
    }

    /** The tokenizer: hex digits are collected, and every eighth one completes a verb. */
    method Tokenize(input: string)
      requires View() == EMPTY
      modifies this
      ensures View() == Decode(input)
    {
      hide WordOf, IsHex, Feed, Chunks, Pending;
      var verb := "";
      var index := 0;
      ghost var digits := "";
      assert Pending(digits, verb) && Chunks(digits) == [] by { NothingPending(); }
      while index < |input|
        invariant 0 <= index <= |input|
        invariant digits == HexOnly(input[..index]) && Pending(digits, verb) && |verb| < 8
        invariant View() == FeedAll(EMPTY, Chunks(digits))
      {
        var ch := input[index];
        assert input[..index + 1][..index] == input[..index];
        if IsHex(ch) {
          PendingGrows(digits, verb, ch);
          digits := digits + [ch];
          verb := AddDigit(verb, ch, digits);
        }
        index := index + 1;
      }
      assert input[..|input|] == input;
    }

    method AddDigit(verb: string, ch: char, ghost digits: string) returns (rest: string)
      requires |verb| < 8
      requires digits != "" && digits[|digits| - 1] == ch && Pending(digits[..|digits| - 1], verb)
      requires View() == FeedAll(EMPTY, Chunks(digits[..|digits| - 1]))
      modifies this
      ensures Pending(digits, rest) && |rest| < 8 && View() == FeedAll(EMPTY, Chunks(digits))
    {
      hide WordOf, IsHex, Feed, Chunks, Pending;
      PendingGrows(digits[..|digits| - 1], verb, ch);
      assert digits[..|digits| - 1] + [ch] == digits;
      rest := verb + [ch];
      if |rest| == 8 {
        FeedAllSnoc(Chunks(digits[..|digits| - 1]), Verb(WordOf(rest)));
        AddVerb(Verb(WordOf(rest)));
        rest := "";
      }
    }

    method ConfigEntries() returns (entries: seq<Entry>)
      ensures entries == Entries(View(), NodesFrom(0))
    {
      hide NodesFrom, Entries;
      entries := [];
      var i: Word := 0;
      while i < 256
        invariant i <= 256
        invariant entries + Entries(View(), NodesFrom(i)) == Entries(View(), NodesFrom(0))
        decreases 256 - i
      {
        EntriesStep(View(), i, entries);
        var p := View().At(Node(i));
        if p.IsComplete() {
          entries := entries + [Entry(Node(i), p.config)];
        }
        i := i + 1;
      }
      EntriesEnd(View());
    }

    /** The text of the known bytes of incomplete nodes. */
    method IncompleteText() returns (text: string)
      ensures text == Joined(Incomplete(View(), NodesFrom(0)))
    {
      hide Hex8, HasMark, ByteAt, NodesFrom, Incomplete;
      text := "";
      ghost var done: seq<Verb> := [];
      var i: Word := 0;
      while i < 256
        invariant i <= 256 && text == Joined(done)
        invariant done + Incomplete(View(), NodesFrom(i)) == Incomplete(View(), NodesFrom(0))
        decreases 256 - i
      {
        var n := Node(i);
        var p := View().At(n);
        IncompleteStep(View(), i, done);
        if n in pins && !p.IsComplete() {
          text := AppendPin(text, n, p, done);
          done := done + PinVerbs(n, p);
        } else {
          NoVerbsForEmptyPin(n);
        }
        i := i + 1;
      }
      IncompleteEnd(View());
      assert done + [] == done;
    }

    /** The text of the "other" verbs: bytes of incomplete nodes, then the remaining verbs. */
    method OtherText() returns (text: string)
      ensures text == Joined(Others(View())) && Verbs(text) == Others(View())
    {
      hide Hex8, NodesFrom, Incomplete, Joined;
      text := IncompleteText();
      ghost var done := Incomplete(View(), NodesFrom(0));
      assert done + unknown[..0] == done;
      for k := 0 to |unknown|
        invariant text == Joined(done + unknown[..k])
      {
        text := AppendVerb(text, unknown[k], done + unknown[..k]);
        assert done + unknown[..k] + [unknown[k]] == done + unknown[..k + 1];
      }
      assert unknown[..|unknown|] == unknown;
      JoinedReadsBack(Others(View()));
    }
  }

  method AppendPin(text: string, n: Node, p: Pin, ghost done: seq<Verb>) returns (r: string)
    requires text == Joined(done)
    ensures r == Joined(done + PinVerbs(n, p))
  {
    hide SlotVerbs, Joined;
    r := AppendSlot(text, n, p, B0, done);
    r := AppendSlot(r, n, p, B1, done + SlotVerbs(n, p, B0));
    r := AppendSlot(r, n, p, B2, done + SlotVerbs(n, p, B0) + SlotVerbs(n, p, B1));
    r := AppendSlot(r, n, p, B3, done + SlotVerbs(n, p, B0) + SlotVerbs(n, p, B1) + SlotVerbs(n, p, B2));
    assert done + SlotVerbs(n, p, B0) + SlotVerbs(n, p, B1) + SlotVerbs(n, p, B2) + SlotVerbs(n, p, B3)
        == done + PinVerbs(n, p);
  }

  method AppendSlot(text: string, n: Node, p: Pin, slot: Slot, ghost done: seq<Verb>) returns (r: string)
    requires text == Joined(done)
    ensures r == Joined(done + SlotVerbs(n, p, slot))
  {
    hide Hex8, ByteAt, HasMark;
    if p.Has(slot) {
      r := AppendVerb(text, VerbFor(n, slot, p.Byte(slot)), done);
    } else {
      r := text;
      assert done + [] == done;
    }
  }

  method AppendVerb(text: string, v: Verb, ghost done: seq<Verb>) returns (r: string)
    requires text == Joined(done)
    ensures r == Joined(done + [v])
  {
    assert (done + [v])[..|done|] == done;
    if text == "" {
      r := Hex8(v.bits);
    } else {
      r := text + " " + Hex8(v.bits);
    }
  }

  lemma FeedAllSnoc(vs: seq<Verb>, v: Verb)
    ensures FeedAll(EMPTY, vs + [v]) == Feed(FeedAll(EMPTY, vs), v)
  {
    assert (vs + [v])[..|vs|] == vs;
  }

  lemma NothingPending()
    ensures Pending("", "") && Chunks("") == []
  {
  }

  lemma EntriesStep(s: Store, i: Word, done: seq<Entry>)
    requires i < 256
    ensures done + Entries(s, NodesFrom(i)) ==
            (if s.At(Node(i)).IsComplete() then done + [Entry(Node(i), s.At(Node(i)).config)] else done)
            + Entries(s, NodesFrom(i + 1))
  {
    assert NodesFrom(i)[1..] == NodesFrom(i + 1);
  }

  lemma EntriesEnd(s: Store)
    ensures Entries(s, NodesFrom(256)) == []
  {
  }

  lemma IncompleteStep(s: Store, i: Word, done: seq<Verb>)
    requires i < 256
    ensures done + Incomplete(s, NodesFrom(i)) ==
            (if s.At(Node(i)).IsComplete() then done else done + PinVerbs(Node(i), s.At(Node(i))))
            + Incomplete(s, NodesFrom(i + 1))
  {
    hide PinVerbs;
    assert NodesFrom(i)[1..] == NodesFrom(i + 1);
  }

  lemma IncompleteEnd(s: Store)
    ensures Incomplete(s, NodesFrom(256)) == []
  {
  }
}
