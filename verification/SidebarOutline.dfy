/**
 The sidebar as a value: what an indented list of links means, and what the line-by-line parser
 makes of any list.  Levels are exact quotients of an indent and the first non-zero indent.
 */
module SidebarOutline {
  import opened Sequences

  /** A sidebar item; one with children is shown collapsed, one without has no `items` at all. */
  datatype Node = Node(text: string, link: string, children: seq<Node>)

  /** A matched line: indent, title and link. */
  datatype SourceLine = SourceLine(indent: nat, text: string, link: string)

  /** A line with its level. */
  datatype Line = Line(level: real, text: string, link: string)

  // ---------------------------------------------------------------- levels

  /** The first non-zero indent becomes the unit. */
  function Unit(divider: nat, indent: nat): nat {
    if divider == 0 && indent > 0 then indent else divider
  }

  function LevelOf(divider: nat, indent: nat): real {
    if divider > 0 then indent as real / divider as real else indent as real
  }

  function Levelled(divider: nat, lines: seq<SourceLine>): seq<Line>
    decreases lines
  {
    if lines == [] then []
    else
      var d := Unit(divider, lines[0].indent);
      [Line(LevelOf(d, lines[0].indent), lines[0].text, lines[0].link)] + Levelled(d, lines[1..])
  }

  // ---------------------------------------------------------------- printing

  /** A forest in preorder, each node with its depth. */
  function Listing(forest: seq<Node>, depth: nat): seq<Line>
    decreases forest
  {
    if forest == [] then []
    else
      var init, last := forest[..|forest| - 1], forest[|forest| - 1];
      Listing(init, depth) + [Line(depth as real, last.text, last.link)] + Listing(last.children, depth + 1)
  }

  ghost predicate Whole(level: real) {
    0.0 <= level == level.Floor as real
  }

  /** A proper outline: whole levels, the first one 0, none more than one deeper than the one before. */
  ghost predicate Outline(lines: seq<Line>) {
    && (lines != [] ==> lines[0].level == 0.0)
    && (forall i :: 0 <= i < |lines| ==> Whole(lines[i].level))
    && (forall i :: 0 < i < |lines| ==> lines[i].level <= lines[i - 1].level + 1.0)
  }

  lemma {:induction false} ListingLevels(forest: seq<Node>, depth: nat)
    ensures var s := Listing(forest, depth);
            && (forest == [] <==> s == [])
            && (s != [] ==> s[0].level == depth as real)
            && (forall i :: 0 <= i < |s| ==> Whole(s[i].level) && depth as real <= s[i].level)
            && (forall i :: 0 < i < |s| ==> s[i].level <= s[i - 1].level + 1.0)
    decreases forest
  {
    if forest != [] {
      ListingLevels(forest[..|forest| - 1], depth);
      ListingLevels(forest[|forest| - 1].children, depth + 1);
    }
  }

  // ---------------------------------------------------------------- parsing

  /** Whether the path along last children is d long. */
  predicate Deep(forest: seq<Node>, d: nat) {
    d == 0 || (forest != [] && Deep(forest[|forest| - 1].children, d - 1))
  }

  /** `leaf` added d levels down, after the last item there. */
  function Append(forest: seq<Node>, d: nat, leaf: Node): seq<Node>
    requires Deep(forest, d)
    decreases d
  {
    if d == 0 then forest + [leaf]
    else
      var init, last := forest[..|forest| - 1], forest[|forest| - 1];
      init + [last.(children := Append(last.children, d - 1, leaf))]
  }

  /** The forest so far, the height of the stack of open parents (0 once it is lost), and the last level. */
  datatype Progress = Progress(forest: seq<Node>, height: nat, last: real)

  const START := Progress([], 1, 0.0)

  /** The stack follows the path of last children, and its top has a child unless nothing was added. */
  ghost predicate OnPath(p: Progress) {
    p.height != 0 ==> (p.forest == [] && p.height == 1) || Deep(p.forest, p.height)
  }

  function Ceiling(x: real): int {
    -(-x).Floor
  }

  /** One line; a line that throws loses the stack, and so does every line after it. */
  function Advance(p: Progress, line: Line): (q: Progress)
    requires OnPath(p)
    ensures OnPath(q)
  {
    var leaf := Node(line.text, line.link, []);
    var lost := Progress(p.forest, 0, line.level);
    if p.height == 0 then lost
    else if line.level == p.last then
      ShallowerIsDeep(p.forest, p.height - 1, p.height);
      AppendDeepens(p.forest, p.height - 1, leaf);
      Progress(Append(p.forest, p.height - 1, leaf), p.height, line.level)
    else if line.level > p.last then
      if p.forest == [] then lost
      else
        AppendDeepens(p.forest, p.height, leaf);
        Progress(Append(p.forest, p.height, leaf), p.height + 1, line.level)
    else
      var up := Ceiling(p.last - line.level);
      if p.height <= up then lost
      else
        ShallowerIsDeep(p.forest, p.height - up - 1, p.height);
        AppendDeepens(p.forest, p.height - up - 1, leaf);
        Progress(Append(p.forest, p.height - up - 1, leaf), p.height - up, line.level)
  }

  lemma {:induction false} ShallowerIsDeep(forest: seq<Node>, d: nat, e: nat)
    requires d <= e
    ensures Deep(forest, e) ==> Deep(forest, d)
    decreases d
  {
    if d != 0 && forest != [] {
      ShallowerIsDeep(forest[|forest| - 1].children, d - 1, e - 1);
    }
  }

  lemma {:induction false} AppendDeepens(forest: seq<Node>, d: nat, leaf: Node)
    requires Deep(forest, d)
    ensures Deep(Append(forest, d, leaf), d + 1)
    decreases d
  {
    if d != 0 {
      AppendDeepens(forest[|forest| - 1].children, d - 1, leaf);
    }
  }

  function Parse(p: Progress, lines: seq<Line>): (q: Progress)
    requires OnPath(p)
    ensures OnPath(q)
    decreases lines
  {
    if lines == [] then p else Parse(Advance(p, lines[0]), lines[1..])
  }

  function Parsed(lines: seq<Line>): seq<Node> {
    Parse(START, lines).forest
  }

  // ---------------------------------------------------------------- the parser reads back what the printer writes

  lemma ListingOfLast(init: seq<Node>, last: Node, depth: nat)
    ensures Listing(init + [last], depth)
            == (Listing(init, depth) + [Line(depth as real, last.text, last.link)]) + Listing(last.children, depth + 1)
  {
    var forest := init + [last];
    assert forest[..|forest| - 1] == init;
  }

  /** Adding a leaf d levels down adds its line, d levels deeper, at the end of the listing. */
  lemma {:induction false} AppendLists(forest: seq<Node>, d: nat, leaf: Node, depth: nat)
    requires Deep(forest, d) && leaf.children == []
    ensures Listing(Append(forest, d, leaf), depth)
            == Listing(forest, depth) + [Line((depth + d) as real, leaf.text, leaf.link)]
    decreases d
  {
    if d == 0 {
      ListingOfLast(forest, leaf, depth);
    } else {
      var init, last := forest[..|forest| - 1], forest[|forest| - 1];
      var below := Append(last.children, d - 1, leaf);
      AppendLists(last.children, d - 1, leaf, depth + 1);
      ListingOfLast(init, last, depth);
      ListingOfLast(init, last.(children := below), depth);
      var head := Listing(init, depth) + [Line(depth as real, last.text, last.link)];
      var line := Line((depth + d) as real, leaf.text, leaf.link);
      assert Listing(Append(forest, d, leaf), depth) == head + Listing(below, depth + 1);
      assert forest == init + [last];
      assert Listing(forest, depth) == head + Listing(last.children, depth + 1);
      Associative(head, Listing(last.children, depth + 1), [line]);
    }
  }

  lemma CeilingOfWhole(last: real, level: real, height: nat, d: nat)
    requires last == height as real - 1.0 && level == d as real
    ensures Ceiling(last - level) == height - 1 - d
  {
    assert last - level == (height - 1 - d) as real;
  }

  /** On a whole level no deeper than the stack is high, a line goes exactly that many levels down. */
  lemma AdvanceAppends(p: Progress, line: Line, d: nat)
    requires OnPath(p) && 0 < p.height && p.height as real == p.last + 1.0
    requires line.level == d as real && (if p.forest == [] then d == 0 && p.height == 1 else d <= p.height)
    ensures var q := Advance(p, line);
            && Deep(p.forest, d)
            && q == Progress(Append(p.forest, d, Node(line.text, line.link, [])), d + 1, line.level)
  {
    ShallowerIsDeep(p.forest, d, p.height);
    if d < p.height {
      CeilingOfWhole(p.last, line.level, p.height, d);
    }
  }

  /** Everything read so far is listed, and the stack is one higher than the last level. */
  ghost predicate InStep(p: Progress, read: seq<Line>) {
    && OnPath(p)
    && Listing(p.forest, 0) == read
    && 0.0 <= p.last && p.height as real == p.last + 1.0
    && (if read == [] then p == START else p.forest != [] && p.last == read[|read| - 1].level)
  }

  /** How far down the next line of an outline goes. */
  lemma NextDepth(p: Progress, read: seq<Line>, level: real) returns (d: nat)
    requires InStep(p, read) && Whole(level)
    requires level <= if read == [] then 0.0 else read[|read| - 1].level + 1.0
    ensures level == d as real && 0 < p.height
    ensures if p.forest == [] then d == 0 && p.height == 1 else d <= p.height
  {
    d := level.Floor;
    assert d as real <= p.height as real;
  }

  lemma NextInStep(p: Progress, read: seq<Line>, line: Line)
    requires InStep(p, read) && Whole(line.level)
    requires line.level <= if read == [] then 0.0 else read[|read| - 1].level + 1.0
    ensures InStep(Advance(p, line), read + [line])
  {
    var d := NextDepth(p, read, line.level);
    var leaf := Node(line.text, line.link, []);
    AdvanceAppends(p, line, d);
    var q := Advance(p, line);
    assert Listing(q.forest, 0) == read + [line] by {
      AppendLists(p.forest, d, leaf, 0);
      assert line == Line((0 + d) as real, leaf.text, leaf.link);
    }
    assert q.forest != [] by {
      ListingLevels(q.forest, 0);
    }
  }

  lemma {:induction false} ParseLists(p: Progress, read: seq<Line>, rest: seq<Line>)
    requires InStep(p, read) && Outline(read + rest)
    ensures InStep(Parse(p, rest), read + rest)
    decreases rest
  {
    if rest == [] {
      assert read + rest == read;
    } else {
      var all := read + rest;
      assert all[|read|] == rest[0];
      assert read != [] ==> all[|read| - 1] == read[|read| - 1];
      NextInStep(p, read, rest[0]);
      assert read + [rest[0]] + rest[1..] == all;
      ParseLists(Advance(p, rest[0]), read + [rest[0]], rest[1..]);
    }
  }

  /** The parsed sidebar lists as the input exactly when the input is a proper outline. */
  lemma ListsAsWrittenIffOutline(lines: seq<Line>)
    ensures Listing(Parsed(lines), 0) == lines <==> Outline(lines)
  {
    ListingLevels(Parsed(lines), 0);
    if Outline(lines) {
      assert [] + lines == lines;
      ParseLists(START, [], lines);
    }
  }

  /** Different forests list differently. */
  lemma {:induction false} ListingIsInjective(f: seq<Node>, g: seq<Node>, depth: nat)
    requires Listing(f, depth) == Listing(g, depth)
    ensures f == g
    decreases f
  {
    ListingLevels(f, depth);
    ListingLevels(g, depth);
    if f != [] {
      var fi, fl := f[..|f| - 1], f[|f| - 1];
      var gi, gl := g[..|g| - 1], g[|g| - 1];
      ListingLevels(fl.children, depth + 1);
      ListingLevels(gl.children, depth + 1);
      SameLastHead(
        Listing(fi, depth), Line(depth as real, fl.text, fl.link), Listing(fl.children, depth + 1),
        Listing(gi, depth), Line(depth as real, gl.text, gl.link), Listing(gl.children, depth + 1));
      ListingIsInjective(fi, gi, depth);
      ListingIsInjective(fl.children, gl.children, depth + 1);
      assert f == fi + [fl] && g == gi + [gl];
    }
  }

  /** Where the last line of a level stands decides how a listing splits around it. */
  lemma SameLastHead(a: seq<Line>, x: Line, b: seq<Line>, c: seq<Line>, y: Line, d: seq<Line>)
    requires a + [x] + b == c + [y] + d
    requires x.level == y.level
    requires forall i :: 0 <= i < |b| ==> x.level < b[i].level
    requires forall i :: 0 <= i < |d| ==> x.level < d[i].level
    ensures a == c && x == y && b == d
  {
    var s, t := a + [x] + b, c + [y] + d;
    assert s[|a|] == x && s[|c|] == y;
    assert t[|a|] == x && t[|c|] == y;
    assert |a| == |c|;
    assert a == s[..|a|] && b == s[|a| + 1..];
    assert c == t[..|c|] && d == t[|c| + 1..];
  }

  /** Parsing the listing of any forest rebuilds that forest. */
  lemma ParseRebuilds(forest: seq<Node>)
    ensures Parsed(Listing(forest, 0)) == forest
  {
    ListingLevels(forest, 0);
    ListsAsWrittenIffOutline(Listing(forest, 0));
    ListingIsInjective(Parsed(Listing(forest, 0)), forest, 0);
  }

  // ---------------------------------------------------------------- any list at all

  /** How a line goes on from the one before it: beside it, below it, or up by the difference rounded up. */
  ghost predicate Follows(last: real, lastDepth: int, level: real, depth: int) {
    if level == last then depth == lastDepth
    else if level > last then depth == lastDepth + 1
    else depth < lastDepth && (lastDepth - depth - 1) as real < last - level <= (lastDepth - depth) as real
  }

  /** Depths for these lines: the first has level and depth 0, the others follow. */
  ghost predicate DepthsOf(lines: seq<Line>, depths: seq<nat>) {
    && |depths| == |lines|
    && (lines != [] ==> lines[0].level == 0.0 && depths[0] == 0)
    && forall i :: 0 < i < |lines| ==> Follows(lines[i - 1].level, depths[i - 1], lines[i].level, depths[i])
  }

  /** A line for which there is no place: a first line that is not at level 0, or one further up than there are parents. */
  ghost predicate NoPlace(lines: seq<Line>, depths: seq<nat>, line: Line)
    requires |depths| == |lines|
  {
    if lines == [] then line.level != 0.0
    else lines[|lines| - 1].level - line.level > depths[|lines| - 1] as real
  }

  function AtDepths(lines: seq<Line>, depths: seq<nat>): seq<Line>
    requires |depths| == |lines|
  {
    seq(|lines|, i requires 0 <= i < |lines| => lines[i].(level := depths[i] as real))
  }

  /** What was read has been placed, and the stack is one higher than the depth of the last line. */
  ghost predicate Placed(p: Progress, read: seq<Line>, depths: seq<nat>) {
    && OnPath(p) && DepthsOf(read, depths)
    && Listing(p.forest, 0) == AtDepths(read, depths)
    && (if read == [] then p == START
        else p.forest != [] && p.last == read[|read| - 1].level && p.height == depths[|depths| - 1] + 1)
  }

  lemma CeilingUp(x: real)
    requires 0.0 < x
    ensures 0 < Ceiling(x) && (Ceiling(x) - 1) as real < x <= Ceiling(x) as real
  {
  }

  /** The depth at which the next line is placed, if there is a place. */
  lemma NextPlace(p: Progress, read: seq<Line>, depths: seq<nat>, line: Line) returns (d: nat)
    requires Placed(p, read, depths) && !NoPlace(read, depths, line)
    ensures Deep(p.forest, d) && DepthsOf(read + [line], depths + [d])
    ensures Advance(p, line) == Progress(Append(p.forest, d, Node(line.text, line.link, [])), d + 1, line.level)
  {
    if read == [] {
      d := 0;
    } else if line.level == p.last {
      d := p.height - 1;
    } else if line.level > p.last {
      d := p.height;
    } else {
      var up := Ceiling(p.last - line.level);
      CeilingUp(p.last - line.level);
      d := p.height - 1 - up;
    }
    ShallowerIsDeep(p.forest, d, p.height);
  }

  lemma NowhereToGo(p: Progress, read: seq<Line>, depths: seq<nat>, line: Line)
    requires Placed(p, read, depths) && NoPlace(read, depths, line)
    ensures Advance(p, line).height == 0 && Advance(p, line).forest == p.forest
  {
    if read != [] {
      CeilingUp(p.last - line.level);
    } else if line.level < 0.0 {
      CeilingUp(-line.level);
    }
  }

  lemma {:induction false} LostStaysLost(p: Progress, rest: seq<Line>)
    requires p.height == 0
    ensures Parse(p, rest).forest == p.forest
    decreases rest
  {
    if rest != [] {
      LostStaysLost(Advance(p, rest[0]), rest[1..]);
    }
  }

  lemma PlaceOne(p: Progress, read: seq<Line>, depths: seq<nat>, line: Line, d: nat)
    requires Placed(p, read, depths) && Deep(p.forest, d) && DepthsOf(read + [line], depths + [d])
    requires Advance(p, line) == Progress(Append(p.forest, d, Node(line.text, line.link, [])), d + 1, line.level)
    ensures Placed(Advance(p, line), read + [line], depths + [d])
  {
    var leaf := Node(line.text, line.link, []);
    var q := Advance(p, line);
    assert Listing(q.forest, 0) == AtDepths(read + [line], depths + [d]) by {
      AppendLists(p.forest, d, leaf, 0);
      AtOneMoreDepth(read, depths, line, d);
      assert line.(level := d as real) == Line((0 + d) as real, leaf.text, leaf.link);
    }
    assert q.forest != [] by {
      ListingLevels(q.forest, 0);
    }
  }

  lemma AtOneMoreDepth(lines: seq<Line>, depths: seq<nat>, line: Line, d: nat)
    requires |depths| == |lines|
    ensures AtDepths(lines + [line], depths + [d]) == AtDepths(lines, depths) + [line.(level := d as real)]
  {
  }

  lemma {:induction false} RestIsPlaced(p: Progress, read: seq<Line>, depths: seq<nat>, rest: seq<Line>)
    returns (k: nat, all: seq<nat>)
    requires Placed(p, read, depths)
    ensures k <= |rest| && DepthsOf(read + rest[..k], all)
    ensures Listing(Parse(p, rest).forest, 0) == AtDepths(read + rest[..k], all)
    ensures k < |rest| ==> NoPlace(read + rest[..k], all, rest[k])
    decreases rest
  {
    if rest == [] {
      k, all := 0, depths;
      assert read + rest[..0] == read;
    } else if NoPlace(read, depths, rest[0]) {
      k, all := 0, depths;
      assert read + rest[..0] == read;
      NowhereToGo(p, read, depths, rest[0]);
      LostStaysLost(Advance(p, rest[0]), rest[1..]);
    } else {
      var d := NextPlace(p, read, depths, rest[0]);
      PlaceOne(p, read, depths, rest[0], d);
      k, all := RestIsPlaced(Advance(p, rest[0]), read + [rest[0]], depths + [d], rest[1..]);
      assert read + [rest[0]] + rest[1..][..k] == read + rest[..k + 1];
      k := k + 1;
    }
  }

  /**
   For every list at all: the sidebar lists, in order and each once, the lines before the first for
   which there is no place, at the depths at which they follow each other; after it nothing is read.
   */
  lemma EveryListIsPlaced(lines: seq<Line>) returns (k: nat, depths: seq<nat>)
    ensures k <= |lines| && DepthsOf(lines[..k], depths)
    ensures Listing(Parsed(lines), 0) == AtDepths(lines[..k], depths)
    ensures k < |lines| ==> NoPlace(lines[..k], depths, lines[k])
  {
    k, depths := RestIsPlaced(START, [], [], lines);
    assert [] + lines[..k] == lines[..k];
  }

  // ---------------------------------------------------------------- from indents

  /** An outline written with `unit` blanks for a level. */
  function Indented(lines: seq<Line>, unit: nat): seq<SourceLine>
    requires forall i :: 0 <= i < |lines| ==> Whole(lines[i].level)
    decreases lines
  {
    if lines == [] then []
    else
      assert Whole(lines[0].level);
      var depth: nat := lines[0].level.Floor;
      [SourceLine(depth * unit, lines[0].text, lines[0].link)] + Indented(lines[1..], unit)
  }

  /** A level is the exact quotient of an indent and the unit, which is the first indent there is. */
  lemma LevelsAreQuotients(divider: nat, indent: nat)
    ensures var unit := Unit(divider, indent);
            && unit == (if divider != 0 then divider else indent)
            && (if unit == 0 then LevelOf(unit, indent) == 0.0 else LevelOf(unit, indent) * unit as real == indent as real)
  {
  }

  lemma OneLevel(depth: nat, divider: nat, unit: nat)
    requires 0 < unit && (divider == unit || (divider == 0 && depth <= 1))
    ensures LevelOf(Unit(divider, depth * unit), depth * unit) == depth as real
    ensures Unit(divider, depth * unit) == if divider == 0 && depth == 0 then 0 else unit
  {
    QuotientIsDepth(depth, unit);
  }

  lemma QuotientIsDepth(depth: nat, unit: nat)
    requires 0 < unit
    ensures (depth * unit) as real / unit as real == depth as real
    ensures depth * unit == 0 <==> depth == 0
  {
    var u := unit as real;
    assert (depth * unit) as real == depth as real * u;
    assert depth as real * u / u == depth as real;
  }

  /** Once the unit is known, or before any line was deeper than 1, the levels read are those written. */
  lemma {:induction false} LevelsReadBack(lines: seq<Line>, divider: nat, unit: nat)
    requires forall i :: 0 <= i < |lines| ==> Whole(lines[i].level)
    requires forall i :: 0 < i < |lines| ==> lines[i].level <= lines[i - 1].level + 1.0
    requires 0 < unit && (divider == unit || (divider == 0 && (lines != [] ==> lines[0].level <= 1.0)))
    ensures Levelled(divider, Indented(lines, unit)) == lines
    decreases lines
  {
    if lines != [] {
      var depth: nat := lines[0].level.Floor;
      OneLevel(depth, divider, unit);
      var d := Unit(divider, depth * unit);
      var source := Indented(lines, unit);
      assert source[0].indent == depth * unit && source[1..] == Indented(lines[1..], unit);
      LevelsReadBack(lines[1..], d, unit);
      assert lines == [lines[0]] + lines[1..];
    }
  }

  /** A forest written down with any indentation, as an indented list, is read back as that forest. */
  lemma PrintedReadsBack(forest: seq<Node>, unit: nat)
    requires 0 < unit
    ensures forall i :: 0 <= i < |Listing(forest, 0)| ==> Whole(Listing(forest, 0)[i].level)
    ensures var printed := Indented(Listing(forest, 0), unit);
            Levelled(0, printed) == Listing(forest, 0) && Parsed(Levelled(0, printed)) == forest
  {
    ListingLevels(forest, 0);
    LevelsReadBack(Listing(forest, 0), 0, unit);
    ParseRebuilds(forest);
  }
}
