/** The renderer as the program writes it, on strings, proved to return what the rendering shows. */
module MarkdownStrings {
  import opened Options
  import opened MarkdownTags
  import opened MarkdownFolds

  function ShowStep(o: Out, rest: string): string {
    Show(o) + rest
  }

  /** The string that an output stands for. */
  function Shown(out: seq<Out>): string {
    Fold(ShowStep, out, "")
  }

  lemma {:induction false} ShownOnto(out: seq<Out>, rest: string)
    ensures Fold(ShowStep, out, rest) == Shown(out) + rest
  {
    if out != [] {
      ShownOnto(out[1..], rest);
      assert (Show(out[0]) + Shown(out[1..])) + rest == Show(out[0]) + (Shown(out[1..]) + rest);
    }
  }

  lemma {:induction false} ShownTexts(s: string, rest: string)
    ensures Fold(ShowStep, Texts(s), rest) == s + rest
    ensures Fold(ShowStep, Layouts(s), rest) == s + rest
  {
    if s != [] {
      ShownTexts(s[1..], rest);
      assert Texts(s)[1..] == Texts(s[1..]) && Layouts(s)[1..] == Layouts(s[1..]);
      assert [s[0]] + (s[1..] + rest) == s + rest;
    }
  }

  function StripStringFront(space: char -> bool, s: string): string {
    if s != [] && space(s[0]) then StripStringFront(space, s[1..]) else s
  }

  function StripStringBack(space: char -> bool, s: string): string {
    if s != [] && space(s[|s| - 1]) then StripStringBack(space, s[..|s| - 1]) else s
  }

  /** `str.strip` */
  function StripString(space: char -> bool, s: string): string {
    StripStringBack(space, StripStringFront(space, s))
  }

  /** What markup begins and ends with is not whitespace. */
  ghost predicate Sane(space: char -> bool) {
    forall c :: c in "<>`*[]):waigno" ==> !space(c)
  }

  predicate Solid(space: char -> bool, s: string) {
    s != [] && !space(s[0]) && !space(s[|s| - 1])
  }

  lemma MarkIsSolid(space: char -> bool, m: Mark)
    requires Sane(space)
    ensures Solid(space, OpenText(m)) && Solid(space, CloseText(m))
  {
    match m {
      case HtmlLink(url) => assert OpenText(m)[0] == '<' && OpenText(m)[|OpenText(m)| - 1] == '>';
      case MdLink(url) => assert CloseText(m)[0] == ']' && CloseText(m)[|CloseText(m)| - 1] == ')';
      case MdNote(kind) => NoteIsSolid(space, kind);
      case MdBold => assert OpenText(m) == "**";
      case _ => assert OpenText(m)[0] in "<`*" && CloseText(m)[|CloseText(m)| - 1] in ">`*";
    }
  }

  lemma NoteIsSolid(space: char -> bool, kind: NoteKind)
    requires Sane(space)
    ensures Solid(space, OpenText(MdNote(kind))) && Solid(space, NoteLabel(kind) + ":")
  {
    match kind {
      case Warning => assert "::: " + NoteLabel(kind) == "::: warning" && NoteLabel(kind)[0] == 'w';
      case Note => assert "::: " + NoteLabel(kind) == "::: info" && NoteLabel(kind)[0] == 'i';
      case Attention => assert "::: " + NoteLabel(kind) == "::: attention" && NoteLabel(kind)[0] == 'a';
    }
  }

  lemma MarkupIsSolid(space: char -> bool, o: Out)
    requires Sane(space) && !o.Text? && !o.Layout?
    ensures Solid(space, Show(o))
  {
    match o {
      case Open(m) => MarkIsSolid(space, m);
      case Close(m) => MarkIsSolid(space, m);
      case Bullet => assert Show(o) == "*";
      case Label(kind) => NoteIsSolid(space, kind);
      case Foreign(xml) => assert xml[0] == '<' && xml[|xml| - 1] == '>';
    }
  }

  lemma {:induction false} ShownStripFront(space: char -> bool, out: seq<Out>)
    requires Sane(space)
    ensures Shown(StripFront(space, out)) == StripStringFront(space, Shown(out))
  {
    if out != [] {
      assert Shown(out) == Show(out[0]) + Shown(out[1..]);
      if Blank(space, out[0]) {
        ShownStripFront(space, out[1..]);
        assert Shown(out)[1..] == Shown(out[1..]);
      } else if !out[0].Text? && !out[0].Layout? {
        MarkupIsSolid(space, out[0]);
      }
    }
  }

  lemma {:induction false} ShownStripBack(space: char -> bool, out: seq<Out>)
    requires Sane(space)
    ensures Shown(StripBack(space, out)) == StripStringBack(space, Shown(out))
    decreases |out|
  {
    if out != [] {
      var init, last := out[..|out| - 1], out[|out| - 1];
      assert out == init + [last];
      FoldConcat(ShowStep, init, [last], "");
      ShownOnto(init, Show(last));
      assert Shown([last]) == Show(last);
      assert Shown(out) == Shown(init) + Show(last);
      if Blank(space, last) {
        ShownStripBack(space, init);
        assert Shown(out)[..|Shown(out)| - 1] == Shown(init);
      } else if !last.Text? && !last.Layout? {
        MarkupIsSolid(space, last);
      }
    }
  }

  /** Stripping the string strips the output: no markup is ever cut. */
  lemma ShownStrip(space: char -> bool, out: seq<Out>)
    requires Sane(space)
    ensures Shown(Strip(space, out)) == StripString(space, Shown(out))
  {
    ShownStripFront(space, out);
    ShownStripBack(space, StripFront(space, out));
  }

  /** Lead and child text, the child's already a string, inside the tag's markup; then the tail. */
  function TagText(
    space: char -> bool, x: Xml, lead: string, child: string, tail: string, ignore: bool, html: bool, para: bool): string {
    match x.tag
    case ComputerOutput =>
      if ignore then lead + (child + tail)
      else if html then "<code>" + (lead + (child + ("</code>" + tail)))
      else "`" + (lead + (child + ("`" + tail)))
    case Bold =>
      if html then "<b>" + (lead + (child + ("</b>" + tail))) else "**" + (lead + (child + ("**" + tail)))
    case Emphasis =>
      if html then "<i>" + (lead + (child + ("</i>" + tail))) else "*" + (lead + (child + ("*" + tail)))
    case Para =>
      if !para then lead + (child + tail)
      else if html then "<p>" + (lead + (child + ("</p>" + tail)))
      else "\n\n" + (lead + (child + ("\n\n" + tail)))
    case ItemizedList =>
      if html
      then "\n" + ("<ul>" + ("\n" + (StripString(space, lead)
           + (StripString(space, child) + ("\n" + ("</ul>" + tail))))))
      else "\n" + (lead + (child + (tail + "\n")))
    case ListItem =>
      if html then "\n" + ("<li>" + (lead + (child + ("</li>" + tail))))
      else "\n" + ("*" + (" " + (lead + (child + tail))))
    case Ref(_, _) => LinkText(LinkUrl(x.tag), lead, child, tail, html)
    case Ulink(url) => LinkText(url, lead, child, tail, html)
    case Verbatim => "\n\n" + (lead + (child + ("\n\n" + tail)))
    case SimpleSect(See) => lead + (child + tail)
    case SimpleSect(Return) => lead + (child + tail)
    case SimpleSect(NoteSection(kind)) => NoteText(space, kind, lead, child, tail, html, para)
    case SimpleSect(Since) => ""
    case SimpleSect(Remark) => ""
    case SimpleSect(OtherSection(_)) => ""
    case ParameterList => lead + (child + tail)
    case Plain(_) => lead + (child + tail)
  }

  function LinkText(url: string, lead: string, child: string, tail: string, html: bool): string {
    if html then ("<a href=\"" + url + "\">") + (lead + (child + ("</a>" + tail)))
    else "[" + (lead + (child + (("](" + url + ")") + tail)))
  }

  function NoteText(
    space: char -> bool, kind: NoteKind, lead: string, child: string, tail: string, html: bool, para: bool): string {
    if para && html then
      "<p>" + (lead + ("<b>" + ((NoteLabel(kind) + ":") + (" " + ("</b>" + (" " + (child + ("</p>" + tail))))))))
    else
      "\n\n" + (("::: " + NoteLabel(kind)) + ("\n" + (StripString(space, lead) + (StripString(space, child)
      + ("\n" + (":::" + ("\n\n" + StripString(space, tail))))))))
  }

  lemma ShownBlock(space: char -> bool, m: Mark, lead: string, child: seq<Out>, rest: string)
    requires Sane(space)
    ensures Fold(ShowStep, Wrap(m, Block(space, Texts(lead), child)), rest)
            == OpenText(m) + ("\n" + (StripString(space, lead)
               + (StripString(space, Shown(child)) + ("\n" + (CloseText(m) + rest)))))
  {
    var t := "\n" + (CloseText(m) + rest);
    FoldBlock(ShowStep, space, m, Texts(lead), child, rest);
    ShownTexts("\n", CloseText(m) + rest);
    ShownOnto(Strip(space, child), t);
    ShownStrip(space, child);
    ShownTexts(lead, "");
    assert lead + "" == lead;
    ShownStrip(space, Texts(lead));
    ShownOnto(Strip(space, Texts(lead)), StripString(space, Shown(child)) + t);
    ShownTexts("\n", StripString(space, lead) + (StripString(space, Shown(child)) + t));
  }

  lemma ShownInside(lead: string, child: seq<Out>, t: string)
    ensures Fold(ShowStep, Texts(lead), Fold(ShowStep, child, t)) == lead + (Shown(child) + t)
  {
    ShownOnto(child, t);
    ShownTexts(lead, Shown(child) + t);
  }

  lemma ShownTail(tail: string)
    ensures Fold(ShowStep, Texts(tail), "") == tail
  {
    ShownTexts(tail, "");
    assert tail + "" == tail;
  }

  lemma ShownWrap(m: Mark, lead: string, child: seq<Out>, tail: string)
    ensures Shown(WrapElement(m, Texts(lead), child, Texts(tail)))
            == OpenText(m) + (lead + (Shown(child) + (CloseText(m) + tail)))
  {
    FoldWrap(ShowStep, m, Texts(lead), child, Texts(tail), "");
    ShownTail(tail);
    ShownInside(lead, child, CloseText(m) + tail);
  }

  lemma ShownBare(lead: string, child: seq<Out>, tail: string)
    ensures Shown(BareElement(Texts(lead), child, Texts(tail))) == lead + (Shown(child) + tail)
  {
    FoldBare(ShowStep, Texts(lead), child, Texts(tail), "");
    ShownTail(tail);
    ShownInside(lead, child, tail);
  }

  lemma ShownSpaced(lead: string, child: seq<Out>, tail: string)
    ensures Shown(SpacedElement(Texts(lead), child, Texts(tail)))
            == "\n\n" + (lead + (Shown(child) + ("\n\n" + tail)))
  {
    FoldSpaced(ShowStep, Texts(lead), child, Texts(tail), "");
    ShownTail(tail);
    ShownTexts("\n\n", tail);
    ShownInside(lead, child, "\n\n" + tail);
    ShownTexts("\n\n", lead + (Shown(child) + ("\n\n" + tail)));
  }

  lemma ShownList(space: char -> bool, lead: string, child: seq<Out>, tail: string, html: bool)
    requires Sane(space)
    ensures Shown(ListElement(space, Texts(lead), child, Texts(tail), html))
            == if html
               then "\n" + ("<ul>" + ("\n" + (StripString(space, lead)
                    + (StripString(space, Shown(child)) + ("\n" + ("</ul>" + tail))))))
               else "\n" + (lead + (Shown(child) + (tail + "\n")))
  {
    FoldList(ShowStep, space, Texts(lead), child, Texts(tail), html, "");
    ShownTail(tail);
    if html {
      ShownBlock(space, HtmlList, lead, child, tail);
      ShownTexts("\n", Fold(ShowStep, Wrap(HtmlList, Block(space, Texts(lead), child)), tail));
    } else {
      ShownTexts("\n", "");
      assert "\n" + "" == "\n";
      ShownTexts(tail, "\n");
      ShownInside(lead, child, tail + "\n");
      ShownTexts("\n", lead + (Shown(child) + (tail + "\n")));
    }
  }

  lemma ShownItem(lead: string, child: seq<Out>, tail: string, html: bool)
    ensures Shown(ItemElement(Texts(lead), child, Texts(tail), html))
            == if html then "\n" + ("<li>" + (lead + (Shown(child) + ("</li>" + tail))))
               else "\n" + ("*" + (" " + (lead + (Shown(child) + tail))))
  {
    FoldItem(ShowStep, Texts(lead), child, Texts(tail), html, "");
    if html {
      ShownWrap(HtmlItem, lead, child, tail);
      ShownTexts("\n", Shown(WrapElement(HtmlItem, Texts(lead), child, Texts(tail))));
    } else {
      ShownTail(tail);
      ShownInside(lead, child, tail);
      ShownTexts(" ", lead + (Shown(child) + tail));
      ShownTexts("\n", "*" + (" " + (lead + (Shown(child) + tail))));
    }
  }

  lemma ShownHtmlNote(space: char -> bool, kind: NoteKind, lead: string, child: seq<Out>, tail: string)
    ensures Shown(NoteElement(space, kind, Texts(lead), child, Texts(tail), true, true))
            == NoteText(space, kind, lead, Shown(child), tail, true, true)
  {
    var closing := ShowStep(Close(HtmlPara), tail);
    var content := Shown(child) + closing;
    var spaced := " " + content;
    var heading := ShowStep(Open(HtmlBold), ShowStep(Label(kind), " " + ShowStep(Close(HtmlBold), spaced)));
    assert Fold(ShowStep, Texts(tail), "") == tail by { ShownTail(tail); }
    assert Fold(ShowStep, child, closing) == content by { ShownOnto(child, closing); }
    assert Fold(ShowStep, Layouts(" "), content) == spaced by { ShownTexts(" ", content); }
    assert Fold(ShowStep, Layouts(" "), ShowStep(Close(HtmlBold), spaced))
           == " " + ShowStep(Close(HtmlBold), spaced) by {
      ShownTexts(" ", ShowStep(Close(HtmlBold), spaced));
    }
    assert Fold(ShowStep, Texts(lead), heading) == lead + heading by { ShownTexts(lead, heading); }
    FoldNote(ShowStep, space, kind, Texts(lead), child, Texts(tail), true, true, "");
  }

  lemma ShownContainer(
    space: char -> bool, kind: NoteKind, lead: string, child: seq<Out>, tail: string, html: bool, para: bool)
    requires Sane(space) && !(para && html)
    ensures Shown(NoteElement(space, kind, Texts(lead), child, Texts(tail), html, para))
            == NoteText(space, kind, lead, Shown(child), tail, html, para)
  {
    FoldNote(ShowStep, space, kind, Texts(lead), child, Texts(tail), html, para, "");
    ShownTail(tail);
    var stripped := StripString(space, tail);
    ShownStrip(space, Texts(tail));
    ShownTexts("\n\n", stripped);
    ShownBlock(space, MdNote(kind), lead, child, "\n\n" + stripped);
    ShownTexts("\n\n", Fold(ShowStep, Wrap(MdNote(kind), Block(space, Texts(lead), child)), "\n\n" + stripped));
  }

  lemma ShownMarked(space: char -> bool, x: Xml, child: seq<Out>, html: bool, para: bool)
    requires MarksItself(x.tag)
    ensures Shown(WrapElement(ElementMark(x.tag, html), Texts(x.text), child, Texts(x.tail)))
            == TagText(space, x, x.text, Shown(child), x.tail, false, html, para)
  {
    ShownWrap(ElementMark(x.tag, html), x.text, child, x.tail);
  }

  lemma ShownElement(space: char -> bool, x: Xml, child: seq<Out>, html: bool, para: bool)
    requires Sane(space)
    ensures Shown(Element(space, x, child, html, para))
            == TagText(space, x, x.text, Shown(child), x.tail, x.tag.ComputerOutput? && HoldsRef(x.children), html, para)
  {
    match x.tag {
      case Para =>
        ShownBare(x.text, child, x.tail);
        ShownWrap(HtmlPara, x.text, child, x.tail);
        ShownSpaced(x.text, child, x.tail);
      case ItemizedList => ShownList(space, x.text, child, x.tail, html);
      case ListItem => ShownItem(x.text, child, x.tail, html);
      case Verbatim => ShownSpaced(x.text, child, x.tail);
      case SimpleSect(NoteSection(kind)) =>
        if para && html {
          ShownHtmlNote(space, kind, x.text, child, x.tail);
        } else {
          ShownContainer(space, kind, x.text, child, x.tail, html, para);
        }
      case SimpleSect(_) => ShownBare(x.text, child, x.tail);
      case ParameterList => ShownBare(x.text, child, x.tail);
      case Plain(_) => ShownBare(x.text, child, x.tail);
      case _ =>
        ShownBare(x.text, child, x.tail);
        ShownMarked(space, x, child, html, para);
    }
  }

  lemma ShownForeign(c: Xml)
    requires Unhandled(c.tag)
    ensures Shown([Foreign(XmlOf(c.tag))] + Texts(Escaped(c.tail))) == Serialized(c)
  {
    FoldConcat(ShowStep, [Foreign(XmlOf(c.tag))], Texts(Escaped(c.tail)), "");
    ShownTail(Escaped(c.tail));
  }

  /** One more child rendered. */
  lemma RenderAllPush(space: char -> bool, children: seq<Xml>, i: nat, html: bool, para: bool)
    requires i < |children|
    ensures var before, after := RenderAll(space, children[..i], html, para), RenderAll(space, children[..i + 1], html, para);
            Shown(after) == Shown(before) + Shown(RenderChild(space, children[i], html, para))
    ensures HoldsRef(children[..i + 1]) <==> HoldsRef(children[..i]) || children[i].tag.Ref?
  {
    var taken := children[..i + 1];
    assert taken[..|taken| - 1] == children[..i];
    var before, one := RenderAll(space, children[..i], html, para), RenderChild(space, children[i], html, para);
    FoldConcat(ShowStep, before, one, "");
    ShownOnto(before, Shown(one));
    assert taken == children[..i] + [children[i]];
    assert children[i] in taken;
  }

  /** What one child contributes, or none if its rendering fails. */
  method OneChild(space: char -> bool, child: Xml, html: bool, para: bool) returns (rendered: Option<string>)
    requires Sane(space)
    ensures rendered == if Visits(child.tag) && Fails(child) then None
                        else Some(Shown(RenderChild(space, child, html, para)))
    decreases child, 2
  {
    match child.tag {
      case SimpleSect(See) => rendered := Some("");
      case SimpleSect(Return) => rendered := Some("");
      case ParameterList => rendered := Some("");
      case SimpleSect(OtherSection(_)) =>
        ShownForeign(child);
        rendered := Some(Serialized(child));
      case Plain(_) =>
        ShownForeign(child);
        rendered := Some(Serialized(child));
      case ItemizedList => rendered := MarkdownAnyTag(space, child, true, para, false);
      case _ => rendered := MarkdownAnyTag(space, child, html, para, false);
    }
  }

  lemma AnyFailsPush(children: seq<Xml>, i: nat)
    requires i < |children|
    ensures AnyFails(children[..i + 1])
            <==> AnyFails(children[..i]) || (Visits(children[i].tag) && Fails(children[i]))
  {
    assert children[..i + 1][..i] == children[..i];
  }

  lemma {:induction false} FailureStays(children: seq<Xml>, i: nat)
    requires i <= |children| && AnyFails(children[..i])
    ensures AnyFails(children)
    decreases |children|
  {
    if i == |children| {
      assert children[..i] == children;
    } else {
      var init := children[..|children| - 1];
      assert init[..i] == children[..i];
      FailureStays(init, i);
    }
  }

  /** The loop over the children: their text, if none fails, and whether a reference is among them. */
  method ChildText(space: char -> bool, x: Xml, html: bool, para: bool)
    returns (childText: Option<string>, ignoreCurrentTag: bool)
    requires Sane(space)
    ensures childText == if AnyFails(x.children) then None else Some(Shown(RenderAll(space, x.children, html, para)))
    ensures childText.Some? ==> (ignoreCurrentTag <==> x.tag.ComputerOutput? && HoldsRef(x.children))
    decreases x, 0
  {
    var text := "";
    ignoreCurrentTag := false;
    for i := 0 to |x.children|
      invariant text == Shown(RenderAll(space, x.children[..i], html, para))
      invariant !AnyFails(x.children[..i])
      invariant ignoreCurrentTag <==> x.tag.ComputerOutput? && HoldsRef(x.children[..i])
    {
      var child := x.children[i];
      if child.tag.Ref? && x.tag.ComputerOutput? {
        ignoreCurrentTag := true;
      }
      var rendered := OneChild(space, child, html, para);
      AnyFailsPush(x.children, i);
      if rendered.None? {
        FailureStays(x.children, i + 1);
        return None, ignoreCurrentTag;
      }
      RenderAllPush(space, x.children, i, html, para);
      text := text + rendered.value;
    }
    assert x.children[..|x.children|] == x.children;
    childText := Some(text);
  }

  /** The routine itself: the string it returns is what the rendering shows; it fails on a reference of unknown kind. */
  method MarkdownAnyTag(space: char -> bool, x: Xml, html: bool, para: bool, consume: bool)
    returns (tagText: Option<string>)
    requires Sane(space)
    ensures tagText == if consume then Some("")
                       else if Fails(x) then None
                       else Some(Shown(Render(space, x, html, para)))
    decreases x, 1
  {
    if consume {
      return Some("");
    }
    var childText, ignoreCurrentTag := ChildText(space, x, html, para);
    if childText.None? || (x.tag.Ref? && x.tag.kind.OtherRef?) {
      return None;
    }
    ShownElement(space, x, RenderAll(space, x.children, html, para), html, para);
    tagText := Some(TagText(space, x, x.text, childText.value, x.tail, ignoreCurrentTag, html, para));
  }
}
