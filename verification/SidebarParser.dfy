/**
 The sidebar parser as the program writes it: entries are objects, the stack of open parents
 aliases entries of the tree under construction, and `items` arrays grow in place.
 */
module SidebarParser {
  import opened Options
  import opened SidebarOutline

  class Entry {
    const text: string
    const link: string
    var collapsed: bool
    var items: Option<seq<Entry>>

    constructor (text: string, link: string)
      ensures this.text == text && this.link == link && !collapsed && items == None
    {
      this.text, this.link, collapsed, items := text, link, false, None;
    }

    /** The array of children, created if there is none. */
    method GetEntryArray() returns (a: seq<Entry>)
      modifies this`items
      ensures items == Some(a) && a == old(items).GetOr([])
    {
      if items.None? {
        items := Some([]);
      }
      a := items.value;
    }
  }

  // ---------------------------------------------------------------- which objects hold which tree

  /** A tree of entry objects. */
  datatype Shape = Shape(entry: Entry, children: seq<Shape>)

  ghost function Entries(kids: seq<Shape>): seq<Entry> {
    seq(|kids|, i requires 0 <= i < |kids| => kids[i].entry)
  }

  /** The entries of a tree in preorder. */
  ghost function Flat(kids: seq<Shape>): seq<Entry>
    decreases kids
  {
    if kids == [] then []
    else
      var last := kids[|kids| - 1];
      Flat(kids[..|kids| - 1]) + [last.entry] + Flat(last.children)
  }

  ghost predicate NoRepeats(entries: seq<Entry>) {
    forall i, j :: 0 <= i < j < |entries| ==> entries[i] != entries[j]
  }

  /** The tree read off the objects' titles and links. */
  ghost function Forest(kids: seq<Shape>): seq<Node>
    decreases kids
  {
    if kids == [] then []
    else
      var last := kids[|kids| - 1];
      Forest(kids[..|kids| - 1]) + [Node(last.entry.text, last.entry.link, Forest(last.children))]
  }

  /** The fields of an entry that change. */
  datatype Cell = Cell(collapsed: bool, items: Option<seq<Entry>>)

  ghost function Heap(entries: set<Entry>): map<Entry, Cell>
    reads entries
  {
    map e | e in entries :: Cell(e.collapsed, e.items)
  }

  /** An entry with children is collapsed and lists them; one without has no items, save the top level. */
  ghost predicate Holds(heap: map<Entry, Cell>, e: Entry, kids: seq<Shape>, top: bool) {
    && e in heap
    && heap[e] == Cell(kids != [] && !top, if kids == [] && !top then None else Some(Entries(kids)))
  }

  /** Every object below holds its own children. */
  ghost predicate Built(heap: map<Entry, Cell>, kids: seq<Shape>)
    decreases kids
  {
    kids != [] ==>
      var last := kids[|kids| - 1];
      && Built(heap, kids[..|kids| - 1])
      && Built(heap, last.children)
      && Holds(heap, last.entry, last.children, false)
  }

  /** The tree `kids` under the top-level entry, each entry occurring once. */
  ghost predicate Tree(heap: map<Entry, Cell>, top: Entry, kids: seq<Shape>) {
    && Holds(heap, top, kids, true)
    && Built(heap, kids)
    && NoRepeats(Flat(kids)) && top !in Flat(kids)
  }

  lemma {:induction false} BuiltElsewhere(heap: map<Entry, Cell>, kids: seq<Shape>, e: Entry, cell: Cell)
    requires Built(heap, kids) && e !in Flat(kids)
    ensures Built(heap[e := cell], kids)
    decreases kids
  {
    if kids != [] {
      BuiltElsewhere(heap, kids[..|kids| - 1], e, cell);
      BuiltElsewhere(heap, kids[|kids| - 1].children, e, cell);
    }
  }

  lemma {:induction false} BuiltInHeap(heap: map<Entry, Cell>, kids: seq<Shape>)
    requires Built(heap, kids)
    ensures forall e :: e in Flat(kids) ==> e in heap
    decreases kids
  {
    if kids != [] {
      BuiltInHeap(heap, kids[..|kids| - 1]);
      BuiltInHeap(heap, kids[|kids| - 1].children);
    }
  }

  ghost predicate DeepShape(kids: seq<Shape>, d: nat) {
    d == 0 || (kids != [] && DeepShape(kids[|kids| - 1].children, d - 1))
  }

  /** The entry d steps down the path of last children from `e`. */
  ghost function OnSpine(e: Entry, kids: seq<Shape>, d: nat): Entry
    requires DeepShape(kids, d)
    decreases d
  {
    if d == 0 then e
    else
      var last := kids[|kids| - 1];
      OnSpine(last.entry, last.children, d - 1)
  }

  /** The children of that entry. */
  ghost function SpineKids(kids: seq<Shape>, d: nat): seq<Shape>
    requires DeepShape(kids, d)
    decreases d
  {
    if d == 0 then kids else SpineKids(kids[|kids| - 1].children, d - 1)
  }

  ghost function Grown(kids: seq<Shape>, d: nat, e: Entry): seq<Shape>
    requires DeepShape(kids, d)
    decreases d
  {
    if d == 0 then kids + [Shape(e, [])]
    else
      var last := kids[|kids| - 1];
      kids[..|kids| - 1] + [last.(children := Grown(last.children, d - 1, e))]
  }

  // ---------------------------------------------------------------- what growing the tree changes

  lemma {:induction false} GrowsForest(kids: seq<Shape>, d: nat, e: Entry)
    requires DeepShape(kids, d)
    ensures Deep(Forest(kids), d)
    ensures Forest(Grown(kids, d, e)) == Append(Forest(kids), d, Node(e.text, e.link, []))
    decreases d
  {
    var grown := Grown(kids, d, e);
    if d == 0 {
      assert grown[..|grown| - 1] == kids;
    } else {
      GrowsForest(kids[|kids| - 1].children, d - 1, e);
      assert grown[..|grown| - 1] == kids[..|kids| - 1];
      ForestInit(kids);
    }
  }

  lemma ForestInit(kids: seq<Shape>)
    requires kids != []
    ensures var last := kids[|kids| - 1];
            Forest(kids) == Forest(kids[..|kids| - 1]) + [Node(last.entry.text, last.entry.link, Forest(last.children))]
            && Forest(kids)[..|Forest(kids)| - 1] == Forest(kids[..|kids| - 1])
  {
  }

  lemma {:induction false} DeepAsForest(kids: seq<Shape>, d: nat)
    ensures DeepShape(kids, d) <==> Deep(Forest(kids), d)
    decreases d
  {
    if d != 0 && kids != [] {
      DeepAsForest(kids[|kids| - 1].children, d - 1);
    }
  }

  lemma {:induction false} SpineInside(e: Entry, kids: seq<Shape>, d: nat)
    requires DeepShape(kids, d)
    ensures if d == 0 then OnSpine(e, kids, d) == e else OnSpine(e, kids, d) in Flat(kids)
    decreases d
  {
    if d != 0 {
      var last := kids[|kids| - 1];
      SpineInside(last.entry, last.children, d - 1);
    }
  }

  /** What was on the path of last children above the growth still is, and the growth itself is next. */
  lemma {:induction false} SpineGrows(e: Entry, kids: seq<Shape>, d: nat, leaf: Entry, i: nat)
    requires DeepShape(kids, d) && i <= d + 1
    ensures DeepShape(Grown(kids, d, leaf), i)
    ensures i <= d ==> DeepShape(kids, i) && OnSpine(e, Grown(kids, d, leaf), i) == OnSpine(e, kids, i)
    decreases d
  {
    if d != 0 && i != 0 {
      var last := kids[|kids| - 1];
      SpineGrows(last.entry, last.children, d - 1, leaf, i - 1);
    }
  }

  lemma SpineKept(e: Entry, kids: seq<Shape>, d: nat, leaf: Entry)
    requires DeepShape(kids, d)
    ensures forall i :: 0 <= i <= d ==>
              DeepShape(kids, i) && DeepShape(Grown(kids, d, leaf), i)
              && OnSpine(e, Grown(kids, d, leaf), i) == OnSpine(e, kids, i)
  {
    forall i | 0 <= i <= d
      ensures DeepShape(kids, i) && DeepShape(Grown(kids, d, leaf), i)
              && OnSpine(e, Grown(kids, d, leaf), i) == OnSpine(e, kids, i)
    {
      SpineGrows(e, kids, d, leaf, i);
    }
  }

  /** An entry on the path holds its children. */
  lemma {:induction false} SpineHolds(heap: map<Entry, Cell>, e: Entry, kids: seq<Shape>, top: bool, d: nat)
    requires DeepShape(kids, d) && Holds(heap, e, kids, top) && Built(heap, kids)
    ensures Holds(heap, OnSpine(e, kids, d), SpineKids(kids, d), top && d == 0)
    ensures heap[OnSpine(e, kids, d)].items.GetOr([]) == Entries(SpineKids(kids, d))
    ensures DeepShape(kids, d + 1) <==> SpineKids(kids, d) != []
    ensures DeepShape(kids, d + 1) ==>
              OnSpine(e, kids, d + 1) == SpineKids(kids, d)[|SpineKids(kids, d)| - 1].entry
    decreases d
  {
    if d != 0 {
      var last := kids[|kids| - 1];
      SpineHolds(heap, last.entry, last.children, false, d - 1);
    }
  }

  lemma {:induction false} GrowsFlat(kids: seq<Shape>, d: nat, leaf: Entry)
    requires DeepShape(kids, d)
    ensures Flat(Grown(kids, d, leaf)) == Flat(kids) + [leaf]
    decreases d
  {
    var grown := Grown(kids, d, leaf);
    if d == 0 {
      assert grown[..|grown| - 1] == kids;
    } else {
      var init, last := kids[..|kids| - 1], kids[|kids| - 1];
      GrowsFlat(last.children, d - 1, leaf);
      assert grown[..|grown| - 1] == init;
      assert Flat(grown) == Flat(init) + [last.entry] + (Flat(last.children) + [leaf]);
    }
  }

  /** Splitting a tree without repeats before its last child. */
  lemma Descend(a: seq<Entry>, x: Entry, b: seq<Entry>, e: Entry)
    requires NoRepeats(a + [x] + b) && (e == x || e in b)
    ensures NoRepeats(b) && x !in b && e !in a && e in a + [x] + b
  {
    var s := a + [x] + b;
    assert s[|a|] == x;
    assert forall i :: 0 <= i < |b| ==> s[|a| + 1 + i] == b[i];
    assert forall i :: 0 <= i < |a| ==> s[i] == a[i];
  }

  /** What an entry on the path becomes when `leaf` is pushed onto its array. */
  ghost function Pushed(kids: seq<Shape>, top: bool, d: nat, leaf: Entry): Cell
    requires DeepShape(kids, d)
  {
    Cell(!(top && d == 0), Some(Entries(SpineKids(kids, d)) + [leaf]))
  }

  /** Pushing a new entry onto the array of one object on the path grows the tree there and only there. */
  lemma {:induction false} PushGrows(heap: map<Entry, Cell>, e: Entry, kids: seq<Shape>, top: bool, d: nat, leaf: Entry)
    requires DeepShape(kids, d) && Holds(heap, e, kids, top) && Built(heap, kids)
    requires NoRepeats(Flat(kids)) && e !in Flat(kids) && leaf !in Flat(kids) && leaf != e
    requires Holds(heap, leaf, [], false)
    ensures var heap' := heap[OnSpine(e, kids, d) := Pushed(kids, top, d, leaf)];
            Holds(heap', e, Grown(kids, d, leaf), top) && Built(heap', Grown(kids, d, leaf))
    decreases d
  {
    var at, cell := OnSpine(e, kids, d), Pushed(kids, top, d, leaf);
    SpineInside(e, kids, d);
    if d == 0 {
      BuiltElsewhere(heap, kids, at, cell);
      PushedHere(heap[at := cell], e, kids, top, leaf);
    } else {
      var init, last := kids[..|kids| - 1], kids[|kids| - 1];
      SpineInside(last.entry, last.children, d - 1);
      Descend(Flat(init), last.entry, Flat(last.children), at);
      BuiltElsewhere(heap, init, at, cell);
      PushGrows(heap, last.entry, last.children, false, d - 1, leaf);
      PushedBelow(heap[at := cell], e, kids, top, Grown(last.children, d - 1, leaf));
    }
  }

  lemma PushedHere(heap: map<Entry, Cell>, e: Entry, kids: seq<Shape>, top: bool, leaf: Entry)
    requires Built(heap, kids) && Holds(heap, leaf, [], false)
    requires e in heap && heap[e] == Cell(!top, Some(Entries(kids) + [leaf]))
    ensures Holds(heap, e, kids + [Shape(leaf, [])], top) && Built(heap, kids + [Shape(leaf, [])])
  {
    var grown := kids + [Shape(leaf, [])];
    assert grown[..|grown| - 1] == kids;
    assert Entries(grown) == Entries(kids) + [leaf];
  }

  /** A change below the last child leaves the array of its parent as it is. */
  lemma PushedBelow(heap: map<Entry, Cell>, e: Entry, kids: seq<Shape>, top: bool, below: seq<Shape>)
    requires kids != [] && Holds(heap, e, kids, top)
    requires Built(heap, kids[..|kids| - 1]) && Built(heap, below)
    requires Holds(heap, kids[|kids| - 1].entry, below, false)
    ensures var grown := kids[..|kids| - 1] + [kids[|kids| - 1].(children := below)];
            Holds(heap, e, grown, top) && Built(heap, grown)
  {
    var grown := kids[..|kids| - 1] + [kids[|kids| - 1].(children := below)];
    assert grown[..|grown| - 1] == kids[..|kids| - 1];
    assert Entries(grown) == Entries(kids);
  }

  /** An entry on the path and the next one are two objects. */
  lemma {:induction false} NextIsOther(e: Entry, kids: seq<Shape>, d: nat)
    requires DeepShape(kids, d) && DeepShape(kids, d + 1)
    requires NoRepeats(Flat(kids)) && e !in Flat(kids)
    ensures OnSpine(e, kids, d) != OnSpine(e, kids, d + 1)
    decreases d
  {
    SpineInside(e, kids, d + 1);
    if d != 0 {
      var init, last := kids[..|kids| - 1], kids[|kids| - 1];
      Descend(Flat(init), last.entry, Flat(last.children), last.entry);
      NextIsOther(last.entry, last.children, d - 1);
    }
  }

  lemma TreeGrows(heap: map<Entry, Cell>, top: Entry, kids: seq<Shape>, d: nat, leaf: Entry)
    requires Tree(heap, top, kids) && DeepShape(kids, d)
    requires leaf !in Flat(kids) && leaf != top && Holds(heap, leaf, [], false)
    ensures Tree(heap[OnSpine(top, kids, d) := Pushed(kids, true, d, leaf)], top, Grown(kids, d, leaf))
  {
    GrowsFlat(kids, d, leaf);
    PushGrows(heap, top, kids, true, d, leaf);
  }

  /** What nesting under the last child of an entry on the path finds, and makes. */
  lemma NestGrows(heap: map<Entry, Cell>, top: Entry, kids: seq<Shape>, d: nat, leaf: Entry)
    requires Tree(heap, top, kids) && DeepShape(kids, d) && (d != 0 ==> DeepShape(kids, d + 1))
    requires leaf !in Flat(kids) && leaf != top && Holds(heap, leaf, [], false)
    ensures var e := OnSpine(top, kids, d);
            && e in heap && heap[e].items.Some?
            && (heap[e].items.value != [] <==> DeepShape(kids, d + 1))
            && (DeepShape(kids, d + 1) ==>
                  var children := heap[e].items.value;
                  var last := children[|children| - 1];
                  && last == OnSpine(top, kids, d + 1) && last != e && last in heap
                  && Tree(heap[last := Cell(true, Some(heap[last].items.GetOr([]) + [leaf]))], top, Grown(kids, d + 1, leaf)))
  {
    SpineHolds(heap, top, kids, true, d);
    if DeepShape(kids, d + 1) {
      SpineHolds(heap, top, kids, true, d + 1);
      NextIsOther(top, kids, d);
      TreeGrows(heap, top, kids, d + 1, leaf);
    }
  }

  /** A stack of height h on the path, told in terms of the objects. */
  lemma PathOfShapes(kids: seq<Shape>, h: nat)
    requires h != 0 ==> (Forest(kids) == [] && h == 1) || Deep(Forest(kids), h)
    ensures kids == [] <==> Forest(kids) == []
    ensures forall d :: 0 <= d < h ==> DeepShape(kids, d)
    ensures h != 0 ==> (DeepShape(kids, h) <==> kids != [])
  {
    if kids != [] {
      DeepAsForest(kids, h);
      forall d | 0 <= d < h
        ensures DeepShape(kids, d)
      {
        DeepAsForest(kids, d);
        ShallowerIsDeep(Forest(kids), d, h);
      }
    }
  }

  /** The stack runs down the path of last children from the top level. */
  ghost predicate Stacked(parents: seq<Entry>, top: Entry, kids: seq<Shape>) {
    forall i :: 0 <= i < |parents| ==> DeepShape(kids, i) && parents[i] == OnSpine(top, kids, i)
  }

  /** How far down a line goes from a stack of height h, or none if it throws. */
  ghost function Target(kids: seq<Shape>, h: nat, last: real, level: real): Option<nat> {
    if h == 0 then None
    else if level == last then Some(h - 1)
    else if level > last then (if kids == [] then None else Some(h))
    else
      var up := Ceiling(last - level);
      if h <= up then None else Some(h - 1 - up)
  }

  /** One line of the value parser, told in terms of the objects. */
  lemma AdvanceOnShapes(kids: seq<Shape>, h: nat, last: real, level: real, entry: Entry)
    requires OnPath(Progress(Forest(kids), h, last))
    ensures var q := Advance(Progress(Forest(kids), h, last), Line(level, entry.text, entry.link));
            var target := Target(kids, h, last, level);
            if target.None? then q.forest == Forest(kids) && q.height == 0
            else
              var d := target.value;
              && DeepShape(kids, d) && (0 < d < h ==> DeepShape(kids, d + 1))
              && q.forest == Forest(Grown(kids, d, entry)) && q.height == d + 1
  {
    PathOfShapes(kids, h);
    var target := Target(kids, h, last, level);
    if target.Some? {
      GrowsForest(kids, target.value, entry);
    }
  }

  lemma ReadyForLine(heap: map<Entry, Cell>, top: Entry, kids: seq<Shape>, parents: seq<Entry>, last: real)
    requires Tree(heap, top, kids) && Stacked(parents, top, kids)
    requires OnPath(Progress(Forest(kids), |parents|, last))
    ensures (kids == [] && |parents| <= 1) || DeepShape(kids, |parents|)
    ensures forall e :: e in parents ==> e in heap
  {
    PathOfShapes(kids, |parents|);
    forall d | 0 <= d < |parents|
      ensures parents[d] in heap
    {
      SpineHolds(heap, top, kids, true, d);
    }
  }

  // ---------------------------------------------------------------- the parser

  class Parser {
    const topLevel: Entry
    var parents: seq<Entry>
    var lastLevel: real
    var indentDivider: nat

    /** The tree under `topLevel`, and every entry made so far. */
    ghost var kids: seq<Shape>
    ghost var entries: set<Entry>

    ghost predicate Valid()
      reads this, entries
    {
      Tree(Heap(entries), topLevel, kids) && Stacked(parents, topLevel, kids) && OnPath(Sofar())
    }

    ghost function Sofar(): Progress
      reads this
    {
      Progress(Forest(kids), |parents|, lastLevel)
    }

    constructor ()
      ensures Valid() && Sofar() == START && indentDivider == 0
      ensures fresh(entries) && kids == []
    {
      topLevel := new Entry("DUMMY", "DUMMY");
      parents, lastLevel, indentDivider, kids := [], 0.0, 0, [];
      entries := {};
      new;
      topLevel.items := Some([]);
      parents := [topLevel];
      entries := {topLevel};
      assert Entries(kids) == [];
    }

    /** `parents.pop()`; null stands for undefined. */
    method PopParent() returns (e: Entry?)
      modifies `parents
      ensures if old(parents) == [] then e == null && parents == []
              else e == old(parents)[|old(parents)| - 1] && parents == old(parents)[..|old(parents)| - 1]
      ensures Heap(entries) == old(Heap(entries))
    {
      if parents == [] {
        return null;
      }
      e := parents[|parents| - 1];
      parents := parents[..|parents| - 1];
    }

    /** An entry made but not yet in the tree. */
    ghost predicate Loose(entry: Entry)
      reads this, entry
    {
      && entry in entries && entry !in Flat(kids) && entry != topLevel
      && !entry.collapsed && entry.items == None
    }

    /** `getEntryArray(current).push(entry)` */
    method Push(current: Entry, entry: Entry)
      requires current in entries
      modifies current`items
      ensures Heap(entries)
              == old(Heap(entries))[current := Cell(current.collapsed, Some(old(current.items).GetOr([]) + [entry]))]
    {
      var parentArray := current.GetEntryArray();
      current.items := Some(parentArray + [entry]);
    }

    /** The last element of the array of `current` is taken off, given the new child, and put back. */
    method Nest(current: Entry, lastElement: Entry, entry: Entry)
      requires current in entries && lastElement in entries
      requires current.items.Some? && current.items.value != [] && current != lastElement
      requires lastElement == current.items.value[|current.items.value| - 1]
      modifies current`items, lastElement
      ensures Heap(entries)
              == old(Heap(entries))[lastElement := Cell(true, Some(old(lastElement.items).GetOr([]) + [entry]))]
    {
      var parentArray := current.items.value;
      assert parentArray[..|parentArray| - 1] + [lastElement] == parentArray;
      current.items := Some(parentArray[..|parentArray| - 1]);
      lastElement.collapsed := true;
      var lastElementArray := lastElement.GetEntryArray();
      lastElement.items := Some(lastElementArray + [entry]);
      current.items := Some(current.items.value + [lastElement]);
    }

    /** The entry goes after the last child of `current`, which goes back on the stack. */
    method PushEntry(current: Entry, entry: Entry, ghost d: nat)
      requires Tree(Heap(entries), topLevel, kids) && Stacked(parents, topLevel, kids) && Loose(entry)
      requires |parents| == d && DeepShape(kids, d) && current == OnSpine(topLevel, kids, d)
      requires d != 0 ==> DeepShape(kids, d + 1)
      modifies `parents, `kids, current`items
      ensures Tree(Heap(entries), topLevel, kids) && Stacked(parents, topLevel, kids)
      ensures |parents| == d + 1 && kids == Grown(old(kids), d, entry)
    {
      SpineHolds(Heap(entries), topLevel, kids, true, d);
      TreeGrows(Heap(entries), topLevel, kids, d, entry);
      SpineKept(topLevel, kids, d, entry);
      Push(current, entry);
      label Pushed:
      parents := parents + [current];
      kids := Grown(kids, d, entry);
      assert Heap(entries) == old@Pushed(Heap(entries));
    }

    /** The entry becomes a child of the last one under `current`; false when there is none and this throws. */
    method PushNested(current: Entry, entry: Entry, ghost d: nat) returns (ok: bool)
      requires Tree(Heap(entries), topLevel, kids) && Stacked(parents, topLevel, kids) && Loose(entry)
      requires |parents| == d && DeepShape(kids, d) && current == OnSpine(topLevel, kids, d)
      requires d != 0 ==> DeepShape(kids, d + 1)
      modifies `parents, `kids, entries
      ensures Tree(Heap(entries), topLevel, kids)
      ensures ok <==> DeepShape(old(kids), d + 1)
      ensures ok ==> Stacked(parents, topLevel, kids) && |parents| == d + 2 && kids == Grown(old(kids), d + 1, entry)
      ensures !ok ==> parents == old(parents) && kids == old(kids)
    {
      NestGrows(Heap(entries), topLevel, kids, d, entry);
      var parentArray := current.items.value;
      if parentArray == [] {
        return false;
      }
      ok := true;
      var lastElement := parentArray[|parentArray| - 1];
      SpineKept(topLevel, kids, d + 1, entry);
      Nest(current, lastElement, entry);
      label Nested:
      parents := parents + [current];
      parents := parents + [lastElement];
      kids := Grown(kids, d + 1, entry);
      assert Heap(entries) == old@Nested(Heap(entries));
    }

    /** Pops `up` parents (those there are); the last one popped, or null for undefined. */
    method PopAbove(level: real) returns (current: Entry?)
      requires level < lastLevel
      modifies `parents, `lastLevel
      ensures var up := Ceiling(old(lastLevel) - level);
              if up <= |old(parents)|
              then parents == old(parents)[..|old(parents)| - up] && current == old(parents)[|old(parents)| - up]
              else parents == [] && current == null
      ensures Heap(entries) == old(Heap(entries))
    {
      ghost var popped := 0;
      current := null;
      while level < lastLevel
        invariant lastLevel == old(lastLevel) - popped as real
        invariant 0 <= popped <= Ceiling(old(lastLevel) - level)
        invariant if popped <= |old(parents)| then parents == old(parents)[..|old(parents)| - popped] else parents == []
        invariant Heap(entries) == old(Heap(entries))
        invariant current == if 0 < popped <= |old(parents)| then old(parents)[|old(parents)| - popped] else null
        decreases lastLevel - level
      {
        lastLevel := lastLevel - 1.0;
        current := PopParent();
        popped := popped + 1;
      }
      lastLevel := lastLevel - 1.0;
    }

    /** The body of the `try`: a throw is a return that leaves things as they are at that point. */
    method AddEntry(level: real, entry: Entry)
      requires Tree(Heap(entries), topLevel, kids) && Stacked(parents, topLevel, kids) && Loose(entry)
      requires (kids == [] && |parents| <= 1) || DeepShape(kids, |parents|)
      requires forall e :: e in parents ==> e in entries
      modifies `parents, `kids, `lastLevel, entries
      ensures Tree(Heap(entries), topLevel, kids) && Stacked(parents, topLevel, kids)
      ensures match Target(old(kids), |old(parents)|, old(lastLevel), level)
              case None => kids == old(kids) && parents == []
              case Some(d) => DeepShape(old(kids), d) && kids == Grown(old(kids), d, entry) && |parents| == d + 1
    {
      ghost var h := |parents|;
      var current := PopParent();
      if level == lastLevel {
        if current == null {
          return;
        }
        PushEntry(current, entry, h - 1);
      } else if level > lastLevel {
        if current == null {
          return;
        }
        var ok := PushNested(current, entry, h - 1);
      } else {
        AddShallower(level, entry);
      }
    }

    /** The entry joins an open parent further up, if the stack reaches that far. */
    method AddShallower(level: real, entry: Entry)
      requires Tree(Heap(entries), topLevel, kids) && Stacked(parents, topLevel, kids) && Loose(entry)
      requires level < lastLevel && forall i :: 0 <= i <= |parents| ==> DeepShape(kids, i)
      requires forall e :: e in parents ==> e in entries
      modifies `parents, `kids, `lastLevel, entries
      ensures Tree(Heap(entries), topLevel, kids) && Stacked(parents, topLevel, kids)
      ensures var up := Ceiling(old(lastLevel) - level);
              if up <= |old(parents)|
              then |parents| == |old(parents)| - up + 1 && kids == Grown(old(kids), |old(parents)| - up, entry)
              else parents == [] && kids == old(kids)
    {
      var current := PopAbove(level);
      if current == null {
        return;
      }
      PushEntry(current, entry, |parents|);
    }

    /** The new entry of a line. */
    method MakeEntry(line: SourceLine) returns (entry: Entry)
      requires Tree(Heap(entries), topLevel, kids)
      modifies `entries
      ensures Tree(Heap(entries), topLevel, kids) && Loose(entry)
      ensures fresh(entry) && entries == old(entries) + {entry}
      ensures entry.text == line.text && entry.link == line.link
    {
      ghost var heap := Heap(entries);
      BuiltInHeap(heap, kids);
      entry := new Entry(line.text, line.link);
      BuiltElsewhere(heap, kids, entry, Cell(false, None));
      entries := entries + {entry};
      assert Heap(entries) == heap[entry := Cell(false, None)];
    }

    /** The level of an indent; the first non-zero one sets the unit. */
    method TakeLevel(indent: nat) returns (level: real)
      modifies `indentDivider
      ensures indentDivider == Unit(old(indentDivider), indent)
      ensures level == LevelOf(indentDivider, indent)
    {
      if indentDivider == 0 && indent > 0 {
        indentDivider := indent;
      }
      level := indent as real;
      if indentDivider > 0 {
        level := level / indentDivider as real;
      }
    }

    /** A line at a known level, whether or not adding it throws. */
    method AddLine(level: real, line: SourceLine)
      requires Valid()
      modifies `parents, `kids, `lastLevel, `entries, entries
      ensures Tree(Heap(entries), topLevel, kids) && Stacked(parents, topLevel, kids)
      ensures fresh(entries - old(entries))
      ensures var q := Advance(old(Sofar()), Line(level, line.text, line.link));
              Forest(kids) == q.forest && |parents| == q.height
    {
      ReadyForLine(Heap(entries), topLevel, kids, parents, lastLevel);
      ghost var before, height, last := kids, |parents|, lastLevel;
      var entry := MakeEntry(line);
      AddEntry(level, entry);
      AdvanceOnShapes(before, height, last, level, entry);
    }

    method ParseLine(line: SourceLine)
      requires Valid()
      modifies this, entries
      ensures Valid() && fresh(entries - old(entries))
      ensures indentDivider == Unit(old(indentDivider), line.indent)
      ensures Sofar() == Advance(old(Sofar()), Line(LevelOf(indentDivider, line.indent), line.text, line.link))
    {
      ghost var heap := Heap(entries);
      var level := TakeLevel(line.indent);
      assert Heap(entries) == heap;
      AddLine(level, line);
      heap := Heap(entries);
      lastLevel := level;
      assert Heap(entries) == heap;
    }
  }

  lemma {:induction false} BuiltAlike(heap: map<Entry, Cell>, heap': map<Entry, Cell>, kids: seq<Shape>)
    requires Built(heap, kids)
    requires forall e :: e in Flat(kids) ==> e in heap' && (e in heap ==> heap'[e] == heap[e])
    ensures Built(heap', kids)
    decreases kids
  {
    if kids != [] {
      BuiltAlike(heap, heap', kids[..|kids| - 1]);
      BuiltAlike(heap, heap', kids[|kids| - 1].children);
    }
  }

  /** Entry objects that hold a forest: each occurs once, and it has its children, or no items if there are none. */
  ghost predicate Represent(items: seq<Entry>, kids: seq<Shape>, forest: seq<Node>)
    reads Flat(kids)
  {
    && items == Entries(kids)
    && NoRepeats(Flat(kids))
    && Built(Heap(set e | e in Flat(kids)), kids)
    && Forest(kids) == forest
  }

  /** The whole sidebar: the entries returned hold the forest that the value parser gives for these lines. */
  method ParseSidebar(lines: seq<SourceLine>) returns (items: seq<Entry>)
    ensures exists kids :: Represent(items, kids, Parsed(Levelled(0, lines)))
  {
    var parser := new Parser();
    ghost var all := Levelled(0, lines);
    for i := 0 to |lines|
      invariant parser.Valid() && fresh(parser) && fresh(parser.entries)
      invariant Parse(parser.Sofar(), Levelled(parser.indentDivider, lines[i..])).forest == Parsed(all)
    {
      parser.ParseLine(lines[i]);
      assert lines[i..][1..] == lines[i + 1..];
    }
    items := parser.topLevel.items.value;
    ghost var kids, heap := parser.kids, Heap(parser.entries);
    BuiltInHeap(heap, kids);
    BuiltAlike(heap, Heap(set e | e in Flat(kids)), kids);
    assert Represent(items, kids, Parsed(all));
  }
}
