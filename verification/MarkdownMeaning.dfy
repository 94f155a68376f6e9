/** What the renderer keeps: the document's text, properly nested markup, and HTML free of Markdown. */
module MarkdownMeaning {
  import opened MarkdownTags
  import opened MarkdownFolds

  // ---------------------------------------------------------------- the text survives

  /** The characters of s that are not whitespace, before `rest`. */
  function VisibleChars(space: char -> bool, s: string, rest: string): string {
    if s == [] then rest
    else if space(s[0]) then VisibleChars(space, s[1..], rest)
    else [s[0]] + VisibleChars(space, s[1..], rest)
  }

  /** Puts the document's own characters, and its XML where it is left as it is, before `rest`. */
  function TextStep(space: char -> bool): (Out, string) -> string {
    (o: Out, rest: string) =>
      match o
      case Text(c) => if space(c) then rest else [c] + rest
      case Foreign(xml) => VisibleChars(space, xml, rest)
      case _ => rest
  }

  /**
   Lead, children and tail in document order.  Skipped children and sections that render empty
   have none, and an unhandled child has its serialization instead.
   */
  function DocumentText(x: Xml): string
    decreases x, 0
  {
    if Silent(x.tag) then [] else x.text + DocumentTexts(x.children) + x.tail
  }

  function ChildsText(c: Xml): string
    decreases c, 1
  {
    if Skipped(c.tag) then [] else if Unhandled(c.tag) then Serialized(c) else DocumentText(c)
  }

  function DocumentTexts(children: seq<Xml>): string
    decreases children
  {
    if children == [] then []
    else
      var last := children[|children| - 1];
      DocumentTexts(children[..|children| - 1]) + ChildsText(last)
  }

  lemma {:induction false} VisibleCharsConcat(space: char -> bool, a: string, b: string, rest: string)
    ensures VisibleChars(space, a + b, rest) == VisibleChars(space, a, VisibleChars(space, b, rest))
  {
    if a == [] {
      assert a + b == b;
    } else {
      VisibleCharsConcat(space, a[1..], b, rest);
      assert (a + b)[1..] == a[1..] + b;
    }
  }

  lemma {:induction false} FoldTexts(space: char -> bool, s: string, rest: string)
    ensures Fold(TextStep(space), Texts(s), rest) == VisibleChars(space, s, rest)
  {
    if s != [] {
      FoldTexts(space, s[1..], rest);
      assert Texts(s)[1..] == Texts(s[1..]);
    }
  }

  /** Markup has no text of its own. */
  lemma TextOfMarkup(space: char -> bool, markup: Markup, lead: string, child: seq<Out>, t: string)
    ensures Fold(TextStep(space), Texts(lead), Fold(TextStep(space), child, t))
            == FoldMarkup(TextStep(space), markup, Texts(lead), child, t)
            == VisibleChars(space, lead, Fold(TextStep(space), child, t))
  {
    FoldTexts(space, lead, Fold(TextStep(space), child, t));
  }

  lemma TextOfElement(space: char -> bool, x: Xml, child: seq<Out>, html: bool, para: bool, rest: string)
    requires !Silent(x.tag)
    ensures Fold(TextStep(space), Element(space, x, child, html, para), rest)
            == VisibleChars(space, x.text, Fold(TextStep(space), child, VisibleChars(space, x.tail, rest)))
  {
    FoldQuietElement(TextStep(space), space, x, child, html, para, rest);
    FoldTexts(space, x.tail, rest);
    TextOfMarkup(space, MarkupOf(x, html, para), x.text, child, VisibleChars(space, x.tail, rest));
  }

  lemma DocumentTextSplits(space: char -> bool, x: Xml, rest: string)
    requires !Silent(x.tag)
    ensures VisibleChars(space, DocumentText(x), rest)
            == VisibleChars(space, x.text,
                 VisibleChars(space, DocumentTexts(x.children), VisibleChars(space, x.tail, rest)))
  {
    VisibleCharsConcat(space, x.text + DocumentTexts(x.children), x.tail, rest);
    VisibleCharsConcat(space, x.text, DocumentTexts(x.children), VisibleChars(space, x.tail, rest));
  }

  /** Up to whitespace, the output's own text is the document's, in order. */
  lemma {:induction false} TextSurvives(space: char -> bool, x: Xml, html: bool, para: bool, rest: string)
    ensures Fold(TextStep(space), Render(space, x, html, para), rest) == VisibleChars(space, DocumentText(x), rest)
    decreases x, 0
  {
    if !Silent(x.tag) {
      TextsSurvive(space, x.children, html, para, VisibleChars(space, x.tail, rest));
      TextOfElement(space, x, RenderAll(space, x.children, html, para), html, para, rest);
      DocumentTextSplits(space, x, rest);
    }
  }

  lemma {:induction false} TextsSurvive(space: char -> bool, children: seq<Xml>, html: bool, para: bool, rest: string)
    ensures Fold(TextStep(space), RenderAll(space, children, html, para), rest)
            == VisibleChars(space, DocumentTexts(children), rest)
    decreases children
  {
    if children != [] {
      var init, last := children[..|children| - 1], children[|children| - 1];
      ChildsTextSurvives(space, last, html, para, rest);
      TextsSurvive(space, init, html, para, VisibleChars(space, ChildsText(last), rest));
      FoldConcat(TextStep(space), RenderAll(space, init, html, para), RenderChild(space, last, html, para), rest);
      VisibleCharsConcat(space, DocumentTexts(init), ChildsText(last), rest);
    }
  }

  lemma {:induction false} ChildsTextSurvives(space: char -> bool, c: Xml, html: bool, para: bool, rest: string)
    ensures Fold(TextStep(space), RenderChild(space, c, html, para), rest) == VisibleChars(space, ChildsText(c), rest)
    decreases c, 1
  {
    if Unhandled(c.tag) {
      FoldConcat(TextStep(space), [Foreign(XmlOf(c.tag))], Texts(Escaped(c.tail)), rest);
      FoldTexts(space, Escaped(c.tail), rest);
      VisibleCharsConcat(space, XmlOf(c.tag), Escaped(c.tail), rest);
    } else if !Skipped(c.tag) {
      TextSurvives(space, c, html || c.tag.ItemizedList?, para, rest);
    }
  }

  // ---------------------------------------------------------------- markup nests

  /** The marks that are open, innermost first, read from the end; broken once one does not match. */
  datatype Nesting = Level | Inside(m: Mark, outer: Nesting) | Broken

  function NestStep(o: Out, n: Nesting): Nesting {
    match o
    case Close(m) => if n.Broken? then Broken else Inside(m, n)
    case Open(m) => if n.Inside? && n.m == m then n.outer else Broken
    case _ => n
  }

  lemma {:induction false} TextsNest(s: string, n: Nesting)
    ensures Fold(NestStep, Texts(s), n) == n
  {
    if s != [] {
      TextsNest(s[1..], n);
      assert Texts(s)[1..] == Texts(s[1..]);
    }
  }

  lemma NestOfMarkup(markup: Markup, lead: string, child: seq<Out>, n: Nesting)
    requires forall k :: Fold(NestStep, child, k) == k
    ensures FoldMarkup(NestStep, markup, Texts(lead), child, n) == n
  {
    forall k
      ensures Fold(NestStep, Texts(lead), k) == k
    {
      TextsNest(lead, k);
    }
  }

  lemma NestOfElement(space: char -> bool, x: Xml, child: seq<Out>, html: bool, para: bool, n: Nesting)
    requires !Silent(x.tag)
    requires forall k :: Fold(NestStep, child, k) == k
    ensures Fold(NestStep, Element(space, x, child, html, para), n) == n
  {
    FoldQuietElement(NestStep, space, x, child, html, para, n);
    TextsNest(x.tail, n);
    NestOfMarkup(MarkupOf(x, html, para), x.text, child, n);
  }

  /** Every mark opened in the output, HTML or Markdown, is closed in it, and they nest properly. */
  lemma {:induction false} MarkupNests(space: char -> bool, x: Xml, html: bool, para: bool, n: Nesting)
    ensures Fold(NestStep, Render(space, x, html, para), n) == n
    decreases x, 0
  {
    if !Silent(x.tag) {
      forall k
        ensures Fold(NestStep, RenderAll(space, x.children, html, para), k) == k
      {
        AllMarkupNests(space, x.children, html, para, k);
      }
      NestOfElement(space, x, RenderAll(space, x.children, html, para), html, para, n);
    }
  }

  lemma {:induction false} AllMarkupNests(space: char -> bool, children: seq<Xml>, html: bool, para: bool, n: Nesting)
    ensures Fold(NestStep, RenderAll(space, children, html, para), n) == n
    decreases children
  {
    if children != [] {
      var init, last := children[..|children| - 1], children[|children| - 1];
      if Unhandled(last.tag) {
        FoldConcat(NestStep, [Foreign(XmlOf(last.tag))], Texts(Escaped(last.tail)), n);
        TextsNest(Escaped(last.tail), n);
      } else if !Skipped(last.tag) {
        MarkupNests(space, last, html || last.tag.ItemizedList?, para, n);
      }
      AllMarkupNests(space, init, html, para, n);
      FoldConcat(NestStep, RenderAll(space, init, html, para), RenderChild(space, last, html, para), n);
    }
  }

  // ---------------------------------------------------------------- what kinds of markup occur

  /** Nothing of a kind occurs. */
  ghost predicate Free(bad: Out -> bool, out: seq<Out>) {
    forall i :: 0 <= i < |out| ==> !bad(out[i])
  }

  /** Kinds of markup only. */
  ghost predicate OfMarkup(bad: Out -> bool) {
    forall o :: bad(o) ==> o.Open? || o.Close? || o.Bullet?
  }

  function FreeStep(bad: Out -> bool): (Out, bool) -> bool {
    (o: Out, free: bool) => free && !bad(o)
  }

  lemma {:induction false} FreeFold(bad: Out -> bool, out: seq<Out>, free: bool)
    ensures Fold(FreeStep(bad), out, free) <==> free && Free(bad, out)
  {
    if out != [] {
      FreeFold(bad, out[1..], free);
      assert out == [out[0]] + out[1..];
    }
  }

  predicate FreeMarkup(bad: Out -> bool, markup: Markup) {
    match markup
    case Bare => true
    case Marked(m) => !bad(Open(m)) && !bad(Close(m))
    case Bulleted => !bad(Bullet)
    case Headed => !bad(Open(HtmlPara)) && !bad(Close(HtmlPara)) && !bad(Open(HtmlBold)) && !bad(Close(HtmlBold))
  }

  /** None of the elements that are rendered has markup of that kind. */
  predicate FreeTree(bad: Out -> bool, x: Xml, html: bool, para: bool)
    decreases x, 0
  {
    Silent(x.tag) || (FreeMarkup(bad, MarkupOf(x, html, para)) && FreeTrees(bad, x.children, html, para))
  }

  predicate FreeTrees(bad: Out -> bool, children: seq<Xml>, html: bool, para: bool)
    decreases children
  {
    children != [] ==>
      var last := children[|children| - 1];
      && FreeTrees(bad, children[..|children| - 1], html, para)
      && (Visits(last.tag) ==> FreeTree(bad, last, html || last.tag.ItemizedList?, para))
  }

  lemma FreeTexts(bad: Out -> bool, s: string)
    requires OfMarkup(bad)
    ensures Free(bad, Texts(s))
  {
  }

  lemma FreeOfMarkup(bad: Out -> bool, markup: Markup, lead: string, child: seq<Out>, free: bool)
    requires OfMarkup(bad)
    ensures FoldMarkup(FreeStep(bad), markup, Texts(lead), child, free)
            <==> FreeMarkup(bad, markup) && Fold(FreeStep(bad), child, free)
  {
    FreeTexts(bad, lead);
    forall t
      ensures Fold(FreeStep(bad), Texts(lead), t) == t
      ensures Fold(FreeStep(bad), child, t) <==> t && Free(bad, child)
    {
      FreeFold(bad, Texts(lead), t);
      FreeFold(bad, child, t);
    }
  }

  lemma FreeOfElement(bad: Out -> bool, space: char -> bool, x: Xml, child: seq<Out>, html: bool, para: bool, free: bool)
    requires OfMarkup(bad) && !Silent(x.tag)
    ensures Fold(FreeStep(bad), Element(space, x, child, html, para), free)
            <==> FreeMarkup(bad, MarkupOf(x, html, para)) && Fold(FreeStep(bad), child, free)
  {
    FoldQuietElement(FreeStep(bad), space, x, child, html, para, free);
    FreeTexts(bad, x.tail);
    FreeFold(bad, Texts(x.tail), free);
    FreeOfMarkup(bad, MarkupOf(x, html, para), x.text, child, free);
  }

  lemma {:induction false} FreeIffTree(
    bad: Out -> bool, space: char -> bool, x: Xml, html: bool, para: bool, free: bool)
    requires OfMarkup(bad)
    ensures Fold(FreeStep(bad), Render(space, x, html, para), free) <==> free && FreeTree(bad, x, html, para)
    decreases x, 0
  {
    if !Silent(x.tag) {
      FreeIffTrees(bad, space, x.children, html, para, free);
      FreeOfElement(bad, space, x, RenderAll(space, x.children, html, para), html, para, free);
    }
  }

  lemma {:induction false} FreeIffTrees(
    bad: Out -> bool, space: char -> bool, children: seq<Xml>, html: bool, para: bool, free: bool)
    requires OfMarkup(bad)
    ensures Fold(FreeStep(bad), RenderAll(space, children, html, para), free)
            <==> free && FreeTrees(bad, children, html, para)
    decreases children
  {
    if children != [] {
      var init, last := children[..|children| - 1], children[|children| - 1];
      var rest := RenderChild(space, last, html, para);
      if Unhandled(last.tag) {
        FoldConcat(FreeStep(bad), [Foreign(XmlOf(last.tag))], Texts(Escaped(last.tail)), free);
        FreeTexts(bad, Escaped(last.tail));
        FreeFold(bad, Texts(Escaped(last.tail)), free);
      } else if Visits(last.tag) {
        FreeIffTree(bad, space, last, html || last.tag.ItemizedList?, para, free);
      }
      FreeIffTrees(bad, space, init, html, para, Fold(FreeStep(bad), rest, free));
      FoldConcat(FreeStep(bad), RenderAll(space, init, html, para), rest, free);
    }
  }

  /** A kind of markup is absent from the output exactly if no element rendered has it. */
  lemma RenderIsFreeIff(bad: Out -> bool, space: char -> bool, x: Xml, html: bool, para: bool)
    requires OfMarkup(bad)
    ensures Free(bad, Render(space, x, html, para)) <==> FreeTree(bad, x, html, para)
  {
    FreeIffTree(bad, space, x, html, para, true);
    FreeFold(bad, Render(space, x, html, para), true);
  }

  // ---------------------------------------------------------------- HTML and Markdown

  predicate IsHtml(m: Mark) {
    !(m.MdCode? || m.MdBold? || m.MdItalic? || m.MdLink? || m.MdNote?)
  }

  predicate IsMarkdown(o: Out) {
    o.Bullet? || (o.Open? && !IsHtml(o.m)) || (o.Close? && !IsHtml(o.m))
  }

  predicate IsHtmlTag(o: Out) {
    (o.Open? && IsHtml(o.m)) || (o.Close? && IsHtml(o.m))
  }

  predicate IsParagraph(o: Out) {
    (o.Open? && o.m.HtmlPara?) || (o.Close? && o.m.HtmlPara?)
  }

  /** No Markdown marker anywhere. */
  ghost predicate PureHtml(out: seq<Out>) {
    Free(IsMarkdown, out)
  }

  /** An element of such a tag that is rendered: none is below a skipped child, one left as XML, or a silent section. */
  predicate Shows(tags: Tag -> bool, x: Xml)
    decreases x, 0
  {
    !Silent(x.tag) && (tags(x.tag) || ShowsBelow(tags, x.children))
  }

  predicate ShowsBelow(tags: Tag -> bool, children: seq<Xml>)
    decreases children
  {
    children != [] &&
    var last := children[|children| - 1];
    ShowsBelow(tags, children[..|children| - 1]) || (Visits(last.tag) && Shows(tags, last))
  }

  predicate IsNote(tag: Tag) {
    tag.SimpleSect? && tag.section.NoteSection?
  }

  predicate IsList(tag: Tag) {
    tag.ItemizedList?
  }

  predicate IsParaOrNote(tag: Tag) {
    tag.Para? || IsNote(tag)
  }

  predicate ShowsNote(x: Xml) {
    Shows(IsNote, x)
  }

  lemma {:induction false} HtmlTrees(x: Xml, para: bool)
    ensures FreeTree(IsMarkdown, x, true, para) <==> para || !Shows(IsNote, x)
    ensures FreeTree(IsParagraph, x, true, para) <==> !para || !Shows(IsParaOrNote, x)
    decreases x, 0
  {
    AllHtmlTrees(x.children, para);
  }

  lemma {:induction false} AllHtmlTrees(children: seq<Xml>, para: bool)
    ensures FreeTrees(IsMarkdown, children, true, para) <==> para || !ShowsBelow(IsNote, children)
    ensures FreeTrees(IsParagraph, children, true, para) <==> !para || !ShowsBelow(IsParaOrNote, children)
    decreases children
  {
    if children != [] {
      AllHtmlTrees(children[..|children| - 1], para);
      HtmlTrees(children[|children| - 1], para);
    }
  }

  lemma {:induction false} MarkdownTrees(x: Xml, para: bool)
    ensures FreeTree(IsHtmlTag, x, false, para) <==> Silent(x.tag) || !ShowsBelow(IsList, x.children)
    ensures !para ==> FreeTree(IsParagraph, x, false, para)
    decreases x, 0
  {
    AllMarkdownTrees(x.children, para);
  }

  lemma {:induction false} AllMarkdownTrees(children: seq<Xml>, para: bool)
    ensures FreeTrees(IsHtmlTag, children, false, para) <==> !ShowsBelow(IsList, children)
    ensures !para ==> FreeTrees(IsParagraph, children, false, para)
    decreases children
  {
    if children != [] {
      var last := children[|children| - 1];
      AllMarkdownTrees(children[..|children| - 1], para);
      MarkdownTrees(last, para);
      HtmlTrees(last, para);
    }
  }

  /**
   What is rendered as HTML, in particular everything below a list, contains no Markdown marker,
   exactly if paragraphs are on or it shows no note.
   */
  lemma HtmlIsPureIff(space: char -> bool, x: Xml, para: bool)
    ensures PureHtml(Render(space, x, true, para)) <==> para || !ShowsNote(x)
  {
    RenderIsFreeIff(IsMarkdown, space, x, true, para);
    HtmlTrees(x, para);
  }

  /** What is rendered as Markdown contains no HTML tag exactly if no list is shown below it. */
  lemma MarkdownIsPureIff(space: char -> bool, x: Xml, para: bool)
    ensures Free(IsHtmlTag, Render(space, x, false, para)) <==> Silent(x.tag) || !ShowsBelow(IsList, x.children)
  {
    RenderIsFreeIff(IsHtmlTag, space, x, false, para);
    MarkdownTrees(x, para);
  }

  /** Paragraph tags: none with paragraphs off; in HTML some exactly if they are on and a paragraph or note is shown. */
  lemma ParagraphsIff(space: char -> bool, x: Xml, html: bool, para: bool)
    ensures !para ==> Free(IsParagraph, Render(space, x, html, para))
    ensures html ==> (Free(IsParagraph, Render(space, x, html, para)) <==> !para || !Shows(IsParaOrNote, x))
  {
    RenderIsFreeIff(IsParagraph, space, x, html, para);
    HtmlTrees(x, para);
    MarkdownTrees(x, para);
  }

  /** A list as a child is rendered as HTML whatever surrounds it. */
  lemma ListsAreHtml(space: char -> bool, list: Xml, html: bool, para: bool)
    requires list.tag.ItemizedList?
    ensures PureHtml(RenderChild(space, list, html, para)) <==> para || !ShowsNote(list)
  {
    HtmlIsPureIff(space, list, para);
  }
}
