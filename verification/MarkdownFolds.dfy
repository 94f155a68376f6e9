/**
 Observing a rendered output: everything said of one is a fold over it, and these lemmas carry
 any fold through the ways in which the renderer puts an output together.
 */
module MarkdownFolds {
  import opened MarkdownTags

  /** Everything said of an output below is a fold over it from the right. */
  function Fold<S>(f: (Out, S) -> S, out: seq<Out>, s: S): S {
    if out == [] then s else f(out[0], Fold(f, out[1..], s))
  }

  lemma {:induction false} FoldConcat<S>(f: (Out, S) -> S, a: seq<Out>, b: seq<Out>, s: S)
    ensures Fold(f, a + b, s) == Fold(f, a, Fold(f, b, s))
  {
    if a == [] {
      assert a + b == b;
    } else {
      FoldConcat(f, a[1..], b, s);
      assert (a + b)[1..] == a[1..] + b && (a + b)[0] == a[0];
    }
  }

  lemma FoldBare<S>(f: (Out, S) -> S, lead: seq<Out>, child: seq<Out>, tail: seq<Out>, s: S)
    ensures Fold(f, BareElement(lead, child, tail), s) == Fold(f, lead, Fold(f, child, Fold(f, tail, s)))
  {
    FoldConcat(f, lead, child + tail, s);
    FoldConcat(f, child, tail, s);
  }

  lemma FoldMark<S>(f: (Out, S) -> S, m: Mark, body: seq<Out>, s: S)
    ensures Fold(f, Wrap(m, body), s) == f(Open(m), Fold(f, body, f(Close(m), s)))
  {
    FoldConcat(f, [Open(m)] + body, [Close(m)], s);
    FoldConcat(f, [Open(m)], body, f(Close(m), s));
  }

  lemma FoldWrap<S>(f: (Out, S) -> S, m: Mark, lead: seq<Out>, child: seq<Out>, tail: seq<Out>, s: S)
    ensures Fold(f, WrapElement(m, lead, child, tail), s)
            == f(Open(m), Fold(f, lead, Fold(f, child, f(Close(m), Fold(f, tail, s)))))
  {
    var t := Fold(f, tail, s);
    FoldConcat(f, Wrap(m, lead + child), tail, s);
    FoldMark(f, m, lead + child, t);
    FoldConcat(f, lead, child, f(Close(m), t));
  }

  lemma FoldSpaced<S>(f: (Out, S) -> S, lead: seq<Out>, child: seq<Out>, tail: seq<Out>, s: S)
    ensures var gap := Layouts("\n\n");
            Fold(f, SpacedElement(lead, child, tail), s)
            == Fold(f, gap, Fold(f, lead, Fold(f, child, Fold(f, gap, Fold(f, tail, s)))))
  {
    var gap := Layouts("\n\n");
    FoldConcat(f, gap, lead + (child + (gap + tail)), s);
    FoldBare(f, lead, child, gap + tail, s);
    FoldConcat(f, gap, tail, s);
  }

  lemma FoldBlock<S>(f: (Out, S) -> S, space: char -> bool, m: Mark, lead: seq<Out>, child: seq<Out>, s: S)
    ensures var line := Layouts("\n");
            Fold(f, Wrap(m, Block(space, lead, child)), s)
            == f(Open(m), Fold(f, line, Fold(f, Strip(space, lead),
                 Fold(f, Strip(space, child), Fold(f, line, f(Close(m), s))))))
  {
    var line := Layouts("\n");
    var t := f(Close(m), s);
    FoldMark(f, m, Block(space, lead, child), s);
    FoldConcat(f, line, Strip(space, lead) + (Strip(space, child) + line), t);
    FoldBare(f, Strip(space, lead), Strip(space, child), line, t);
  }

  lemma FoldList<S>(
    f: (Out, S) -> S, space: char -> bool, lead: seq<Out>, child: seq<Out>, tail: seq<Out>, html: bool, s: S)
    ensures var line := Layouts("\n");
            Fold(f, ListElement(space, lead, child, tail, html), s)
            == Fold(f, line,
                 if html then Fold(f, Wrap(HtmlList, Block(space, lead, child)), Fold(f, tail, s))
                 else Fold(f, lead, Fold(f, child, Fold(f, tail, Fold(f, line, s)))))
  {
    var line := Layouts("\n");
    if html {
      FoldConcat(f, line, Wrap(HtmlList, Block(space, lead, child)) + tail, s);
      FoldConcat(f, Wrap(HtmlList, Block(space, lead, child)), tail, s);
    } else {
      FoldConcat(f, line, lead + (child + (tail + line)), s);
      FoldBare(f, lead, child, tail + line, s);
      FoldConcat(f, tail, line, s);
    }
  }

  lemma FoldItem<S>(f: (Out, S) -> S, lead: seq<Out>, child: seq<Out>, tail: seq<Out>, html: bool, s: S)
    ensures Fold(f, ItemElement(lead, child, tail, html), s)
            == Fold(f, Layouts("\n"),
                 if html then Fold(f, WrapElement(HtmlItem, lead, child, tail), s)
                 else f(Bullet, Fold(f, Layouts(" "), Fold(f, lead, Fold(f, child, Fold(f, tail, s))))))
  {
    if html {
      FoldConcat(f, Layouts("\n"), Wrap(HtmlItem, lead + child) + tail, s);
    } else {
      FoldConcat(f, Layouts("\n"), [Bullet] + (Layouts(" ") + (lead + (child + tail))), s);
      FoldConcat(f, [Bullet], Layouts(" ") + (lead + (child + tail)), s);
      FoldConcat(f, Layouts(" "), lead + (child + tail), s);
      FoldBare(f, lead, child, tail, s);
    }
  }

  lemma FoldNote<S>(
    f: (Out, S) -> S, space: char -> bool, kind: NoteKind, lead: seq<Out>, child: seq<Out>, tail: seq<Out>,
    html: bool, para: bool, s: S)
    ensures Fold(f, NoteElement(space, kind, lead, child, tail, html, para), s)
            == if para && html then
                 f(Open(HtmlPara), Fold(f, lead,
                   f(Open(HtmlBold), f(Label(kind), Fold(f, Layouts(" "), f(Close(HtmlBold),
                     Fold(f, Layouts(" "), Fold(f, child, f(Close(HtmlPara), Fold(f, tail, s))))))))))
               else
                 Fold(f, Layouts("\n\n"), Fold(f, Wrap(MdNote(kind), Block(space, lead, child)),
                   Fold(f, Layouts("\n\n"), Fold(f, Strip(space, tail), s))))
  {
    if para && html {
      var heading := [Label(kind)] + Layouts(" ");
      var inside := lead + (Wrap(HtmlBold, heading) + (Layouts(" ") + child));
      var t := Fold(f, tail, s);
      var u := f(Close(HtmlPara), t);
      FoldConcat(f, Wrap(HtmlPara, inside), tail, s);
      FoldMark(f, HtmlPara, inside, t);
      FoldBare(f, lead, Wrap(HtmlBold, heading), Layouts(" ") + child, u);
      FoldConcat(f, Layouts(" "), child, u);
      var v := Fold(f, Layouts(" "), Fold(f, child, u));
      FoldMark(f, HtmlBold, heading, v);
      FoldConcat(f, [Label(kind)], Layouts(" "), f(Close(HtmlBold), v));
    } else {
      var gap, block := Layouts("\n\n"), Wrap(MdNote(kind), Block(space, lead, child));
      FoldBare(f, gap, block, gap + Strip(space, tail), s);
      FoldConcat(f, gap, Strip(space, tail), s);
    }
  }

  // ---------------------------------------------------------------- observers that overlook markup

  ghost predicate Ignores<S(!new)>(f: (Out, S) -> S, o: Out) {
    forall s :: f(o, s) == s
  }

  ghost predicate IgnoresLayout<S(!new)>(f: (Out, S) -> S, space: char -> bool) {
    forall o: Out :: o.Layout? || o.Label? || Blank(space, o) ==> Ignores(f, o)
  }

  lemma {:induction false} FoldLayouts<S(!new)>(f: (Out, S) -> S, space: char -> bool, t: string, s: S)
    requires IgnoresLayout(f, space)
    ensures Fold(f, Layouts(t), s) == s
  {
    if t != [] {
      FoldLayouts(f, space, t[1..], s);
      assert Layouts(t)[1..] == Layouts(t[1..]);
      assert Ignores(f, Layout(t[0]));
    }
  }

  lemma {:induction false} FoldStripBack<S(!new)>(f: (Out, S) -> S, space: char -> bool, out: seq<Out>, s: S)
    requires IgnoresLayout(f, space)
    ensures Fold(f, StripBack(space, out), s) == Fold(f, out, s)
    decreases |out|
  {
    if out != [] && Blank(space, out[|out| - 1]) {
      var init, last := out[..|out| - 1], out[|out| - 1];
      FoldStripBack(f, space, init, s);
      FoldConcat(f, init, [last], s);
      assert Ignores(f, last);
      assert out == init + [last];
    }
  }

  lemma {:induction false} FoldStrip<S(!new)>(f: (Out, S) -> S, space: char -> bool, out: seq<Out>, s: S)
    requires IgnoresLayout(f, space)
    ensures Fold(f, Strip(space, out), s) == Fold(f, out, s)
    decreases |out|
  {
    if out != [] && Blank(space, out[0]) {
      assert Ignores(f, out[0]);
      FoldStrip(f, space, out[1..], s);
    } else {
      FoldStripBack(f, space, out, s);
    }
  }

  lemma FoldQuietBlock<S(!new)>(f: (Out, S) -> S, space: char -> bool, m: Mark, lead: seq<Out>, child: seq<Out>, s: S)
    requires IgnoresLayout(f, space)
    ensures Fold(f, Wrap(m, Block(space, lead, child)), s) == f(Open(m), Fold(f, lead, Fold(f, child, f(Close(m), s))))
  {
    var t := f(Close(m), s);
    FoldBlock(f, space, m, lead, child, s);
    FoldLayouts(f, space, "\n", t);
    FoldStrip(f, space, child, t);
    FoldStrip(f, space, lead, Fold(f, child, t));
    FoldLayouts(f, space, "\n", Fold(f, lead, Fold(f, child, t)));
  }

  lemma FoldQuietNote<S(!new)>(
    f: (Out, S) -> S, space: char -> bool, kind: NoteKind, lead: seq<Out>, child: seq<Out>, tail: seq<Out>,
    html: bool, para: bool, s: S)
    requires IgnoresLayout(f, space)
    ensures var t := Fold(f, tail, s);
            Fold(f, NoteElement(space, kind, lead, child, tail, html, para), s)
            == if para && html
               then f(Open(HtmlPara), Fold(f, lead, f(Open(HtmlBold), f(Close(HtmlBold),
                      Fold(f, child, f(Close(HtmlPara), t))))))
               else f(Open(MdNote(kind)), Fold(f, lead, Fold(f, child, f(Close(MdNote(kind)), t))))
  {
    var t := Fold(f, tail, s);
    FoldNote(f, space, kind, lead, child, tail, html, para, s);
    if para && html {
      var u := Fold(f, child, f(Close(HtmlPara), t));
      FoldLayouts(f, space, " ", u);
      FoldLayouts(f, space, " ", f(Close(HtmlBold), u));
      assert Ignores(f, Label(kind));
    } else {
      FoldStrip(f, space, tail, s);
      FoldLayouts(f, space, "\n\n", t);
      FoldQuietBlock(f, space, MdNote(kind), lead, child, t);
      FoldLayouts(f, space, "\n\n", Fold(f, Wrap(MdNote(kind), Block(space, lead, child)), t));
    }
  }

  /** The markup round one element, as an observer of markup sees it: at most one mark, or a bullet. */
  datatype Markup = Bare | Marked(m: Mark) | Bulleted | Headed

  function MarkupOf(x: Xml, html: bool, para: bool): Markup {
    match x.tag
    case ComputerOutput => if HoldsRef(x.children) then Bare else Marked(ElementMark(x.tag, html))
    case Bold => Marked(ElementMark(x.tag, html))
    case Emphasis => Marked(ElementMark(x.tag, html))
    case Ref(_, _) => Marked(ElementMark(x.tag, html))
    case Ulink(_) => Marked(ElementMark(x.tag, html))
    case Para => if para && html then Marked(HtmlPara) else Bare
    case ItemizedList => if html then Marked(HtmlList) else Bare
    case ListItem => if html then Marked(HtmlItem) else Bulleted
    case SimpleSect(NoteSection(kind)) => if para && html then Headed else Marked(MdNote(kind))
    case _ => Bare
  }

  function FoldMarkup<S>(f: (Out, S) -> S, markup: Markup, lead: seq<Out>, child: seq<Out>, t: S): S {
    match markup
    case Bare => Fold(f, lead, Fold(f, child, t))
    case Marked(m) => f(Open(m), Fold(f, lead, Fold(f, child, f(Close(m), t))))
    case Bulleted => f(Bullet, Fold(f, lead, Fold(f, child, t)))
    case Headed =>
      f(Open(HtmlPara), Fold(f, lead, f(Open(HtmlBold), f(Close(HtmlBold), Fold(f, child, f(Close(HtmlPara), t))))))
  }

  /** Layout overlooked, an element is its lead text and children inside its markup, then its tail. */
  lemma FoldQuietElement<S(!new)>(
    f: (Out, S) -> S, space: char -> bool, x: Xml, child: seq<Out>, html: bool, para: bool, s: S)
    requires IgnoresLayout(f, space) && !Silent(x.tag)
    ensures Fold(f, Element(space, x, child, html, para), s)
            == FoldMarkup(f, MarkupOf(x, html, para), Texts(x.text), child, Fold(f, Texts(x.tail), s))
  {
    var lead, tail := Texts(x.text), Texts(x.tail);
    match x.tag {
      case Para =>
        FoldBare(f, lead, child, tail, s);
        FoldWrap(f, HtmlPara, lead, child, tail, s);
        FoldQuietSpaced(f, space, lead, child, tail, s);
      case ItemizedList =>
        FoldQuietList(f, space, lead, child, tail, html, s);
      case ListItem =>
        FoldQuietItem(f, space, lead, child, tail, html, s);
      case Verbatim =>
        FoldQuietSpaced(f, space, lead, child, tail, s);
      case SimpleSect(NoteSection(kind)) =>
        FoldQuietNote(f, space, kind, lead, child, tail, html, para, s);
      case SimpleSect(_) => FoldBare(f, lead, child, tail, s);
      case ParameterList => FoldBare(f, lead, child, tail, s);
      case Plain(_) => FoldBare(f, lead, child, tail, s);
      case _ =>
        FoldBare(f, lead, child, tail, s);
        FoldWrap(f, ElementMark(x.tag, html), lead, child, tail, s);
    }
  }

  lemma {:induction false} FoldQuietSpaced<S(!new)>(
    f: (Out, S) -> S, space: char -> bool, lead: seq<Out>, child: seq<Out>, tail: seq<Out>, s: S)
    requires IgnoresLayout(f, space)
    ensures Fold(f, SpacedElement(lead, child, tail), s) == Fold(f, lead, Fold(f, child, Fold(f, tail, s)))
  {
    var t := Fold(f, tail, s);
    FoldSpaced(f, lead, child, tail, s);
    FoldLayouts(f, space, "\n\n", t);
    FoldLayouts(f, space, "\n\n", Fold(f, lead, Fold(f, child, t)));
  }

  lemma FoldQuietItem<S(!new)>(
    f: (Out, S) -> S, space: char -> bool, lead: seq<Out>, child: seq<Out>, tail: seq<Out>, html: bool, s: S)
    requires IgnoresLayout(f, space)
    ensures var t := Fold(f, tail, s);
            Fold(f, ItemElement(lead, child, tail, html), s)
            == if html then f(Open(HtmlItem), Fold(f, lead, Fold(f, child, f(Close(HtmlItem), t))))
               else f(Bullet, Fold(f, lead, Fold(f, child, t)))
  {
    var t := Fold(f, tail, s);
    FoldItem(f, lead, child, tail, html, s);
    FoldWrap(f, HtmlItem, lead, child, tail, s);
    var item := if html then f(Open(HtmlItem), Fold(f, lead, Fold(f, child, f(Close(HtmlItem), t))))
                else f(Bullet, Fold(f, lead, Fold(f, child, t)));
    FoldLayouts(f, space, " ", Fold(f, lead, Fold(f, child, t)));
    FoldLayouts(f, space, "\n", item);
  }

  lemma {:induction false} FoldQuietList<S(!new)>(
    f: (Out, S) -> S, space: char -> bool, lead: seq<Out>, child: seq<Out>, tail: seq<Out>, html: bool, s: S)
    requires IgnoresLayout(f, space)
    ensures var t := Fold(f, tail, s);
            Fold(f, ListElement(space, lead, child, tail, html), s)
            == if html then f(Open(HtmlList), Fold(f, lead, Fold(f, child, f(Close(HtmlList), t))))
               else Fold(f, lead, Fold(f, child, t))
  {
    var t := Fold(f, tail, s);
    FoldList(f, space, lead, child, tail, html, s);
    if html {
      FoldQuietBlock(f, space, HtmlList, lead, child, t);
      FoldLayouts(f, space, "\n", Fold(f, Wrap(HtmlList, Block(space, lead, child)), t));
    } else {
      FoldLayouts(f, space, "\n", s);
      FoldLayouts(f, space, "\n", Fold(f, lead, Fold(f, child, t)));
    }
  }
}
