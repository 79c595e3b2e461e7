/** The indentation parser of hda-tools/codecgraph.py: a list of lines, shared by the mutually
    recursive parse_item and parse_items, is consumed from the front and turned into a forest. */
module IndentParser {

  datatype Item = Item(text: string, children: seq<Item>)

  // ---------------------------------------------------------------- lines

  /** Number of leading blanks, the length of the match of "^ *". */
  function IndentLevel(line: string): nat {
    if line != "" && line[0] == ' ' then 1 + IndentLevel(line[1..]) else 0
  }

  function LStrip(line: string): string {
    if line != "" && line[0] == ' ' then LStrip(line[1..]) else line
  }

  function RStrip(line: string): string {
    if line != "" && line[|line| - 1] in " \r\n" then RStrip(line[..|line| - 1]) else line
  }

  function Strip(line: string): string {
    LStrip(RStrip(line))
  }

  function Stripped(lines: seq<string>): (r: seq<string>)
    ensures |r| == |lines|
  {
    seq(|lines|, i requires 0 <= i < |lines| => Strip(lines[i]))
  }

  // ---------------------------------------------------------------- the parser

  /** What one call of parse_items yields when the list still holds lines[at..], and the number
      of lines popped by then. */
  function ParseItems(level: int, lines: seq<string>, at: nat): (r: (seq<Item>, nat))
    requires at <= |lines|
    ensures at <= r.1 <= |lines|
    decreases |lines| - at
  {
    if at == |lines| || IndentLevel(lines[at]) <= level then ([], at)
    else
      var (children, afterItem) := ParseItems(IndentLevel(lines[at]), lines, at + 1);
      var (siblings, end) := ParseItems(level, lines, afterItem);
      ([Item(Strip(lines[at]), children)] + siblings, end)
  }

  /** The forest of a whole file, `parse_items(-1, lines)`. */
  function Parse(lines: seq<string>): seq<Item> {
    ParseItems(-1, lines, 0).0
  }

  /** The list object that both generators pop from. */
  class LineList {
    ghost const all: seq<string>
    ghost var popped: nat
    var lines: seq<string>

    ghost predicate Valid()
      reads this
    {
      popped <= |all| && lines == all[popped..]
    }

    constructor (lines: seq<string>)
      ensures Valid() && all == lines && popped == 0
    {
      this.lines, all, popped := lines, lines, 0;
    }

    method ParseItem(level: int) returns (item: Item)
      requires Valid() && lines != []
      modifies this
      ensures Valid()
      ensures item.text == Strip(old(lines[0]))
      ensures (item.children, popped) == ParseItems(level, all, old(popped) + 1)
      decreases |lines|, 0
    {
      var text := Strip(lines[0]);
      lines, popped := lines[1..], popped + 1;
      var children := ParseItemList(level);
      item := Item(text, children);
    }

    method ParseItemList(level: int) returns (items: seq<Item>)
      requires Valid()
      modifies this
      ensures Valid()
      ensures (items, popped) == ParseItems(level, all, old(popped))
      decreases |lines|, 1
    {
      items := [];
      while lines != []
        invariant Valid() && old(popped) <= popped
        invariant ParseItems(level, all, old(popped)).0 == items + ParseItems(level, all, popped).0
        invariant ParseItems(level, all, old(popped)).1 == ParseItems(level, all, popped).1
        decreases |lines|
      {
        var indent := IndentLevel(lines[0]);
        if indent <= level {
          break;
        }
        ghost var at := popped;
        var item := ParseItem(indent);
        assert ParseItems(level, all, at).0 == [item] + ParseItems(level, all, popped).0;
        items := items + [item];
      }
      assert items == items + ParseItems(level, all, popped).0;
    }
  }

  // ---------------------------------------------------------------- every line once, in order

  function Preorder(items: seq<Item>): seq<string> {
    if items == [] then []
    else [items[0].text] + Preorder(items[0].children) + Preorder(items[1..])
  }

  function Size(items: seq<Item>): nat {
    |Preorder(items)|
  }

  /** A stretch of lines is its first line, the lines below it, and the lines after those. */
  lemma SplitStretch<T>(s: seq<T>, at: nat, next: nat, end: nat)
    requires at < next <= end <= |s|
    ensures s[at..end] == [s[at]] + s[at + 1..next] + s[next..end]
    ensures s[at..end][0] == s[at]
    ensures s[at..end][1..next - at] == s[at + 1..next]
    ensures s[at..end][next - at..] == s[next..end]
  {
  }

  lemma PreorderCons(item: Item, siblings: seq<Item>)
    ensures Preorder([item] + siblings) == [item.text] + Preorder(item.children) + Preorder(siblings)
  {
    assert ([item] + siblings)[1..] == siblings;
  }

  ghost predicate AllDeeper(level: int, lines: seq<string>, from: nat, to: nat)
    requires to <= |lines|
  {
    forall k :: from <= k < to ==> IndentLevel(lines[k]) > level
  }

  lemma {:induction false} ParseReadsStretch(level: int, lines: seq<string>, at: nat)
    requires at <= |lines|
    ensures var (items, end) := ParseItems(level, lines, at);
            && Preorder(items) == Stripped(lines)[at..end]
            && AllDeeper(level, lines, at, end)
            && (end < |lines| ==> IndentLevel(lines[end]) <= level)
    decreases |lines| - at
  {
    hide Preorder, Strip, IndentLevel;
    if at == |lines| || IndentLevel(lines[at]) <= level {
      NoItems();
    } else {
      var indent := IndentLevel(lines[at]);
      var (children, next) := ParseItems(indent, lines, at + 1);
      var (siblings, end) := ParseItems(level, lines, next);
      ParseReadsStretch(indent, lines, at + 1);
      ParseReadsStretch(level, lines, next);
      PreorderCons(Item(Strip(lines[at]), children), siblings);
      SplitStretch(Stripped(lines), at, next, end);
    }
  }

  lemma NoItems()
    ensures Preorder([]) == []
  {
  }

  /** A call reads a stretch of lines, in order, all of them deeper than `level`, and stops at
      the end of the file or at a line that is not deeper. */
  lemma ParseConsumesInOrder(level: int, lines: seq<string>, at: nat)
    requires at <= |lines|
    ensures var (items, end) := ParseItems(level, lines, at);
            && Size(items) == end - at
            && (forall k :: at <= k < end ==>
                  Preorder(items)[k - at] == Strip(lines[k]) && IndentLevel(lines[k]) > level)
            && (end < |lines| ==> IndentLevel(lines[end]) <= level)
  {
    hide Preorder, Strip, IndentLevel, ParseItems;
    ParseReadsStretch(level, lines, at);
  }

  /** Every line of the file is one node, and reading the tree in preorder reads the file. */
  lemma {:induction false} PreorderIsTheInput(lines: seq<string>)
    ensures Preorder(Parse(lines)) == Stripped(lines)
  {
    ParseConsumesInOrder(-1, lines, 0);
  }

  /** The items of a whole file. */
  method ReadItems(lines: seq<string>) returns (items: seq<Item>)
    ensures items == Parse(lines) && Preorder(items) == Stripped(lines)
  {
    var list := new LineList(lines);
    items := list.ParseItemList(-1);
    PreorderIsTheInput(lines);
  }

  // ---------------------------------------------------------------- the parent of a line

  /** For each node of a forest in preorder, the preorder number of its parent; the first node
      of the forest has number `first` and the forest hangs below `parent`. */
  function Parents(items: seq<Item>, first: nat, parent: int): seq<int> {
    if items == [] then []
    else
      var children := items[0].children;
      [parent] + Parents(children, first + 1, first)
      + Parents(items[1..], first + 1 + Size(children), parent)
  }

  lemma ParentsOfNode(item: Item, siblings: seq<Item>, at: nat, parent: int)
    ensures Parents([item] + siblings, at, parent)
         == [parent] + Parents(item.children, at + 1, at)
            + Parents(siblings, at + 1 + Size(item.children), parent)
  {
    assert ([item] + siblings)[1..] == siblings;
  }

  /** p is the nearest line before i that is indented less than i, or -1 if there is none. */
  ghost predicate NearestShallower(lines: seq<string>, i: nat, p: int)
    requires i < |lines|
  {
    && -1 <= p < i
    && (p >= 0 ==> IndentLevel(lines[p]) < IndentLevel(lines[i]))
    && (forall k :: p < k < i ==> IndentLevel(lines[i]) <= IndentLevel(lines[k]))
  }

  /** The search for that line, upwards from line `from`. */
  function SearchUp(lines: seq<string>, i: nat, from: int): (p: int)
    requires -1 <= from < i < |lines|
    requires forall k :: from < k < i ==> IndentLevel(lines[i]) <= IndentLevel(lines[k])
    ensures NearestShallower(lines, i, p)
  {
    if from < 0 || IndentLevel(lines[from]) < IndentLevel(lines[i]) then from
    else SearchUp(lines, i, from - 1)
  }

  ghost predicate AllNearest(lines: seq<string>, near: seq<int>) {
    |near| == |lines| && forall i :: 0 <= i < |lines| ==> NearestShallower(lines, i, near[i])
  }

  /** There is only one such line. */
  lemma NearestUnique(lines: seq<string>, i: nat, p: int, q: int)
    requires i < |lines| && NearestShallower(lines, i, p) && NearestShallower(lines, i, q)
    ensures p == q
  {
  }

  function LevelOf(lines: seq<string>, parent: int): int
    requires -1 <= parent < |lines|
  {
    if parent < 0 then -1 else IndentLevel(lines[parent])
  }

  /** No line after `parent` and before line `to` is shallower than line `to`, if there is one. */
  ghost predicate NoneShallower(lines: seq<string>, parent: int, to: nat)
    requires -1 <= parent && to <= |lines|
  {
    to < |lines| ==> forall k :: parent < k < to ==> IndentLevel(lines[to]) <= IndentLevel(lines[k])
  }

  lemma SiblingsNotDeeper(lines: seq<string>, parent: int, at: nat)
    requires -1 <= parent < at < |lines| && NoneShallower(lines, parent, at)
    ensures NoneShallower(lines, parent, ParseItems(IndentLevel(lines[at]), lines, at + 1).1)
  {
    ParseConsumesInOrder(IndentLevel(lines[at]), lines, at + 1);
  }

  /** The induction behind ParentIsNearestShallower: the parser stands at line `at`, inside the
      item at line `parent`, and nothing in between is shallower than line `at`. */
  lemma {:induction false} ParentsFrom(lines: seq<string>, near: seq<int>, at: nat, parent: int)
    requires AllNearest(lines, near)
    requires -1 <= parent < at <= |lines| && NoneShallower(lines, parent, at)
    ensures var (items, end) := ParseItems(LevelOf(lines, parent), lines, at);
            Parents(items, at, parent) == near[at..end]
    decreases |lines| - at
  {
    hide Size, Strip;
    var level := LevelOf(lines, parent);
    if at == |lines| || IndentLevel(lines[at]) <= level {
    } else {
      var indent := IndentLevel(lines[at]);
      var (children, next) := ParseItems(indent, lines, at + 1);
      var (siblings, end) := ParseItems(level, lines, next);
      ParentsFrom(lines, near, at + 1, at);
      SiblingsNotDeeper(lines, parent, at);
      ParentsFrom(lines, near, next, parent);
      assert Size(children) == next - at - 1 by {
        ParseConsumesInOrder(indent, lines, at + 1);
      }
      assert near[at] == parent by {
        NearestUnique(lines, at, parent, near[at]);
      }
      ParentsOfNode(Item(Strip(lines[at]), children), siblings, at, parent);
      SplitStretch(near, at, next, end);
    }
  }

  /** Node i of the tree (line i of the file, by PreorderIsTheInput) hangs below the nearest
      preceding line with strictly smaller indentation, or is a root if there is none. */
  lemma {:induction false} ParentIsNearestShallower(lines: seq<string>)
    ensures var parents := Parents(Parse(lines), 0, -1);
            && |parents| == |lines|
            && forall i, p :: 0 <= i < |lines| ==> (NearestShallower(lines, i, p) <==> p == parents[i])
  {
    ParseConsumesInOrder(-1, lines, 0);
    var near := seq(|lines|, i requires 0 <= i < |lines| => SearchUp(lines, i, i - 1));
    ParentsFrom(lines, near, 0, -1);
    assert Parents(Parse(lines), 0, -1) == near;
    forall i, p | 0 <= i < |lines|
      ensures NearestShallower(lines, i, p) <==> p == near[i]
    {
      if NearestShallower(lines, i, p) {
        NearestUnique(lines, i, p, near[i]);
      }
    }
  }

  // ---------------------------------------------------------------- printing and parsing

  /** A forest together with the column at which each label is printed. */
  datatype Laid = Laid(column: nat, text: string, children: seq<Laid>)

  function Erase(forest: seq<Laid>): (r: seq<Item>)
    ensures |r| == |forest|
  {
    if forest == [] then []
    else [Item(forest[0].text, Erase(forest[0].children))] + Erase(forest[1..])
  }

  /** The nodes of a forest in preorder, as (column, label). */
  function Flat(forest: seq<Laid>): seq<(nat, string)> {
    if forest == [] then []
    else [(forest[0].column, forest[0].text)] + Flat(forest[0].children) + Flat(forest[1..])
  }

  function Spaces(n: nat): string {
    if n == 0 then "" else " " + Spaces(n - 1)
  }

  /** The printer: one line for each node in preorder. */
  function Render(forest: seq<Laid>, eol: string): (r: seq<string>)
    ensures |r| == |Flat(forest)|
  {
    seq(|Flat(forest)|, i requires 0 <= i < |Flat(forest)| =>
      Spaces(Flat(forest)[i].0) + Flat(forest)[i].1 + eol)
  }

  /** Children are indented deeper than `level`, and no sibling is deeper than the one before. */
  ghost predicate WellLaid(level: int, forest: seq<Laid>)
    decreases forest
  {
    forest == [] ||
    (&& forest[0].column > level
     && WellLaid(forest[0].column, forest[0].children)
     && (|forest| > 1 ==> forest[1].column <= forest[0].column)
     && WellLaid(level, forest[1..]))
  }

  /** A label that stripping leaves alone. */
  predicate Trimmed(text: string) {
    text == "" || (text[0] != ' ' && text[|text| - 1] !in " \r\n")
  }

  predicate LineEnd(eol: string) {
    eol == "" || eol == "\n" || eol == "\r\n"
  }

  lemma {:induction false} IndentOfPrinted(n: nat, rest: string)
    requires rest == "" || rest[0] != ' '
    ensures IndentLevel(Spaces(n) + rest) == n && LStrip(Spaces(n) + rest) == rest
  {
    if n == 0 {
      assert Spaces(0) + rest == rest;
    } else {
      IndentOfPrinted(n - 1, rest);
      assert (Spaces(n) + rest)[1..] == Spaces(n - 1) + rest;
    }
  }

  lemma {:induction false} RStripSpaces(n: nat)
    ensures |Spaces(n)| == n && RStrip(Spaces(n)) == ""
    ensures n > 0 ==> Spaces(n)[n - 1] == ' ' && Spaces(n)[..n - 1] == Spaces(n - 1)
  {
    if n > 0 {
      RStripSpaces(n - 1);
      if n > 1 {
        assert Spaces(n)[..n - 1] == " " + Spaces(n - 1)[..n - 2];
      }
    }
  }

  lemma {:induction false} RStripPrinted(n: nat, text: string, eol: string)
    requires Trimmed(text) && LineEnd(eol)
    ensures RStrip(Spaces(n) + text + eol) == if text == "" then "" else Spaces(n) + text
  {
    var line := Spaces(n) + text;
    RStripSpaces(n);
    assert RStrip(line) == if text == "" then "" else line by {
      if text == "" {
        assert line == Spaces(n);
      }
    }
    if eol == "" {
      assert line + eol == line;
    } else if eol == "\n" {
      assert (line + eol)[..|line|] == line;
    } else {
      assert (line + eol)[..|line| + 1] == line + "\r";
      assert (line + "\r")[..|line|] == line;
    }
  }

  /** A printed line has the column and the label it was printed from. */
  lemma PrintedLine(n: nat, text: string, eol: string)
    requires Trimmed(text) && LineEnd(eol)
    ensures IndentLevel(Spaces(n) + text + eol) == n && Strip(Spaces(n) + text + eol) == text
  {
    RStripPrinted(n, text, eol);
    assert Spaces(n) + text + eol == Spaces(n) + (text + eol);
    IndentOfPrinted(n, text + eol);
    IndentOfPrinted(n, text);
    assert LStrip("") == "";
  }

  /** The (column, label) of every line of a file. */
  function Tokens(lines: seq<string>): (r: seq<(nat, string)>)
    ensures |r| == |lines|
  {
    seq(|lines|, i requires 0 <= i < |lines| => (IndentLevel(lines[i]), Strip(lines[i])))
  }

  /** A well laid forest followed by a line that is not deeper than its parent is read back. */
  lemma {:induction false} ParseShown(level: int, forest: seq<Laid>, lines: seq<string>, at: nat, end: nat)
    requires at <= end <= |lines| && Tokens(lines)[at..end] == Flat(forest)
    requires WellLaid(level, forest)
    requires end < |lines| ==> IndentLevel(lines[end]) <= level
    ensures ParseItems(level, lines, at) == (Erase(forest), end)
    decreases forest
  {
    if forest == [] {
    } else {
      var Laid(column, text, children) := forest[0];
      var tokens, next := Tokens(lines), at + 1 + |Flat(children)|;
      SplitStretch(tokens, at, next, end);
      SplitStretch(Flat(forest), 0, next - at, end - at);
      if |forest| > 1 {
        assert tokens[next] == tokens[next..end][0] == (forest[1].column, forest[1].text);
      }
      ParseShown(column, children, lines, at + 1, next);
      ParseShown(level, forest[1..], lines, next, end);
    }
  }

  /** The parser with the columns kept. */
  ghost function Layout(level: int, lines: seq<string>, at: nat): (r: seq<Laid>)
    requires at <= |lines|
    ensures Erase(r) == ParseItems(level, lines, at).0
    decreases |lines| - at
  {
    if at == |lines| || IndentLevel(lines[at]) <= level then []
    else
      var indent := IndentLevel(lines[at]);
      [Laid(indent, Strip(lines[at]), Layout(indent, lines, at + 1))]
      + Layout(level, lines, ParseItems(indent, lines, at + 1).1)
  }

  /** Whatever the file, the columns of the tree read from it are well laid. */
  lemma {:induction false} LayoutWellLaid(level: int, lines: seq<string>, at: nat)
    requires at <= |lines|
    ensures var forest := Layout(level, lines, at);
            && WellLaid(level, forest)
            && Flat(forest) == Tokens(lines)[at..ParseItems(level, lines, at).1]
            && (forest != [] ==> at < |lines| && forest[0].column == IndentLevel(lines[at]))
    decreases |lines| - at
  {
    if at == |lines| || IndentLevel(lines[at]) <= level {
    } else {
      var indent := IndentLevel(lines[at]);
      var next := ParseItems(indent, lines, at + 1).1;
      LayoutWellLaid(indent, lines, at + 1);
      LayoutWellLaid(level, lines, next);
      ParseConsumesInOrder(indent, lines, at + 1);
      var forest := Layout(level, lines, at);
      assert forest[1..] == Layout(level, lines, next);
      var tokens, end := Tokens(lines), ParseItems(level, lines, at).1;
      SplitStretch(tokens, at, next, end);
    }
  }

  lemma {:induction false} FlatLength(f: seq<Laid>, g: seq<Laid>)
    requires Erase(f) == Erase(g)
    ensures |Flat(f)| == |Flat(g)|
    decreases f
  {
    if f != [] {
      assert Erase(f)[0] == Erase(g)[0] && Erase(f)[1..] == Erase(f[1..]) && Erase(g)[1..] == Erase(g[1..]);
      FlatLength(f[0].children, g[0].children);
      FlatLength(f[1..], g[1..]);
    }
  }

  lemma {:induction false} ShapeAndColumnsDetermine(f: seq<Laid>, g: seq<Laid>)
    requires Erase(f) == Erase(g) && Flat(f) == Flat(g)
    ensures f == g
    decreases f
  {
    if f != [] {
      assert Erase(f)[0] == Erase(g)[0] && Erase(f)[1..] == Erase(f[1..]) && Erase(g)[1..] == Erase(g[1..]);
      var n := 1 + |Flat(f[0].children)|;
      FlatLength(f[0].children, g[0].children);
      assert Flat(f)[0] == Flat(g)[0];
      assert Flat(f[0].children) == Flat(f)[1..n] == Flat(g)[1..n] == Flat(g[0].children);
      assert Flat(f[1..]) == Flat(f)[n..] == Flat(g)[n..] == Flat(g[1..]);
      ShapeAndColumnsDetermine(f[0].children, g[0].children);
      ShapeAndColumnsDetermine(f[1..], g[1..]);
      assert f == [f[0]] + f[1..] && g == [g[0]] + g[1..];
    }
  }

  /** Parsing undoes printing exactly when the printed columns follow the tree. */
  lemma {:induction false} ParseUndoesPrintIff(forest: seq<Laid>, eol: string)
    requires LineEnd(eol) && forall node :: node in Flat(forest) ==> Trimmed(node.1)
    ensures Parse(Render(forest, eol)) == Erase(forest) <==> WellLaid(-1, forest)
  {
    var lines := Render(forest, eol);
    var flat := Flat(forest);
    forall k | 0 <= k < |lines| ensures Tokens(lines)[k] == flat[k] {
      assert flat[k] in flat;
      PrintedLine(flat[k].0, flat[k].1, eol);
    }
    assert Tokens(lines)[0..|lines|] == flat;
    if WellLaid(-1, forest) {
      ParseShown(-1, forest, lines, 0, |lines|);
    }
    if Parse(lines) == Erase(forest) {
      LayoutWellLaid(-1, lines, 0);
      ParseConsumesInOrder(-1, lines, 0);
      ShapeAndColumnsDetermine(Layout(-1, lines, 0), forest);
    }
  }
}
