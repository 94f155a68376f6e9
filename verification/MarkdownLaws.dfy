/**
 What the strings look like: the markup of every tag letter for letter, the URL of a reference,
 what a child contributes, what stripping leaves, and that escaped text can be read back.
 */
module MarkdownLaws {
  import opened Options
  import opened MarkdownTags
  import opened MarkdownFolds
  import opened MarkdownStrings

  /** The string of an element and everything in it. */
  function Rendered(space: char -> bool, x: Xml, html: bool, para: bool): string {
    Shown(Render(space, x, html, para))
  }

  /** The strings of its children, one after the other. */
  function Inner(space: char -> bool, x: Xml, html: bool, para: bool): string {
    Shown(RenderAll(space, x.children, html, para))
  }

  // ---------------------------------------------------------------- links

  /** What `rsplit('_', 1)[0]` leaves of a string: all before its last underscore, or all of it. */
  lemma {:induction false} CutAtTheLast(stem: string, anchor: string)
    requires '_' !in anchor
    ensures BeforeLastUnderscore(stem + "_" + anchor) == stem
    ensures BeforeLastUnderscore(anchor) == anchor
  {
    var s := stem + "_" + anchor;
    assert s[|stem|] == '_';
    if anchor == [] {
      assert s[..|s| - 1] == stem;
    } else {
      var shorter := anchor[..|anchor| - 1];
      assert s[..|s| - 1] == stem + "_" + shorter && s[|s| - 1] == anchor[|anchor| - 1];
      CutAtTheLast(stem, shorter);
    }
  }

  function Link(url: string, text: string, html: bool): string {
    if html then "<a href=\"" + url + "\">" + text + "</a>" else "[" + text + "](" + url + ")"
  }

  /**
   A reference to a member, identified by its file and an anchor without underscore, links to that
   anchor in the file's page; any other reference that is rendered, to the page; a link, to its URL.
   */
  lemma LinksLead(space: char -> bool, x: Xml, html: bool, para: bool, file: string, anchor: string)
    requires Sane(space) && '_' !in anchor
    ensures var text := x.text + Inner(space, x, html, para);
            && (x.tag == Ref(Member, file + "_" + anchor) ==>
                  Rendered(space, x, html, para) == Link(file + ".md#" + file + "_" + anchor, text, html) + x.tail)
            && (x.tag == Ref(Compound, file) ==>
                  Rendered(space, x, html, para) == Link(file + ".md", text, html) + x.tail)
            && (x.tag == Ulink(file) ==> Rendered(space, x, html, para) == Link(file, text, html) + x.tail)
  {
    var inner := RenderAll(space, x.children, html, para);
    CutAtTheLast(file, anchor);
    ShownElement(space, x, inner, html, para);
    if x.tag == Ref(Member, file + "_" + anchor) {
      var url := file + ".md#" + file + "_" + anchor;
      assert url == file + ".md#" + (file + "_" + anchor);
      LinkIs(url, x.text, Shown(inner), x.tail, html);
    } else if x.tag == Ref(Compound, file) {
      LinkIs(file + ".md", x.text, Shown(inner), x.tail, html);
    } else if x.tag == Ulink(file) {
      LinkIs(file, x.text, Shown(inner), x.tail, html);
    }
  }

  lemma LinkIs(url: string, lead: string, child: string, tail: string, html: bool)
    ensures LinkText(url, lead, child, tail, html) == Link(url, lead + child, html) + tail
  {
    if html {
      var open := "<a href=\"" + url + "\">";
      assert open + (lead + (child + ("</a>" + tail))) == open + (lead + child) + "</a>" + tail;
    } else {
      var close := "](" + url + ")";
      assert "[" + (lead + (child + (close + tail))) == "[" + (lead + child) + close + tail;
      assert "[" + (lead + child) + close == "[" + (lead + child) + "](" + url + ")";
    }
  }

  // ---------------------------------------------------------------- marks round their contents

  function Around(open: string, text: string, close: string, tail: string): string {
    open + text + close + tail
  }

  lemma AroundIs(open: string, lead: string, child: string, close: string, tail: string)
    ensures open + (lead + (child + (close + tail))) == Around(open, lead + child, close, tail)
  {
  }

  lemma BareIs(lead: string, child: string, tail: string)
    ensures lead + (child + tail) == lead + child + tail
  {
  }

  /** Which mark stands round which tag, in HTML and in Markdown. */
  lemma MarksAreThese(space: char -> bool, x: Xml, html: bool, para: bool)
    requires Sane(space)
    ensures var text, r := x.text + Inner(space, x, html, para), Rendered(space, x, html, para);
            && (x.tag == Bold ==>
                  r == if html then Around("<b>", text, "</b>", x.tail) else Around("**", text, "**", x.tail))
            && (x.tag == Emphasis ==>
                  r == if html then Around("<i>", text, "</i>", x.tail) else Around("*", text, "*", x.tail))
            && (x.tag == ComputerOutput ==>
                  r == if exists c :: c in x.children && c.tag.Ref? then text + x.tail
                       else if html then Around("<code>", text, "</code>", x.tail)
                       else Around("`", text, "`", x.tail))
            && (x.tag == Para ==>
                  r == if !para then text + x.tail
                       else if html then Around("<p>", text, "</p>", x.tail)
                       else Around("\n\n", text, "\n\n", x.tail))
            && (x.tag == Verbatim ==> r == Around("\n\n", text, "\n\n", x.tail))
  {
    var child := Inner(space, x, html, para);
    ShownElement(space, x, RenderAll(space, x.children, html, para), html, para);
    BareIs(x.text, child, x.tail);
    AroundIs("<b>", x.text, child, "</b>", x.tail);
    AroundIs("**", x.text, child, "**", x.tail);
    AroundIs("<i>", x.text, child, "</i>", x.tail);
    AroundIs("*", x.text, child, "*", x.tail);
    AroundIs("<code>", x.text, child, "</code>", x.tail);
    AroundIs("`", x.text, child, "`", x.tail);
    AroundIs("<p>", x.text, child, "</p>", x.tail);
    AroundIs("\n\n", x.text, child, "\n\n", x.tail);
  }

  /** Lists, their items, and what stands for itself or for nothing. */
  lemma ListsAreThese(space: char -> bool, x: Xml, html: bool, para: bool)
    requires Sane(space)
    ensures var inner, r := Inner(space, x, html, para), Rendered(space, x, html, para);
            && (x.tag == ItemizedList ==>
                  r == if html
                       then Around("\n<ul>\n", StripString(space, x.text) + StripString(space, inner), "\n</ul>", x.tail)
                       else "\n" + x.text + inner + x.tail + "\n")
            && (x.tag == ListItem ==>
                  r == if html then Around("\n<li>", x.text + inner, "</li>", x.tail)
                       else "\n* " + x.text + inner + x.tail)
            && (x.tag.Plain? || x.tag == ParameterList || x.tag in {SimpleSect(See), SimpleSect(Return)} ==>
                  r == x.text + inner + x.tail)
            && (x.tag.SimpleSect? && (x.tag.section in {Since, Remark} || x.tag.section.OtherSection?) ==> r == "")
  {
    var inner := Inner(space, x, html, para);
    ShownElement(space, x, RenderAll(space, x.children, html, para), html, para);
    BareIs(x.text, inner, x.tail);
    match x.tag {
      case ItemizedList =>
        ListIs(StripString(space, x.text), StripString(space, inner), x.tail);
        PlainListIs(x.text, inner, x.tail);
      case ListItem => ItemIs(x.text, inner, x.tail);
      case _ =>
    }
  }

  lemma ListIs(a: string, b: string, tail: string)
    ensures "\n" + ("<ul>" + ("\n" + (a + (b + ("\n" + ("</ul>" + tail)))))) == Around("\n<ul>\n", a + b, "\n</ul>", tail)
  {
    AroundIs("\n<ul>\n", a, b, "\n</ul>", tail);
    assert "\n" + ("</ul>" + tail) == "\n</ul>" + tail;
    OpeningIs(a + (b + ("\n</ul>" + tail)));
  }

  lemma OpeningIs(rest: string)
    ensures "\n" + ("<ul>" + ("\n" + rest)) == "\n<ul>\n" + rest
  {
  }

  lemma PlainListIs(lead: string, inner: string, tail: string)
    ensures "\n" + (lead + (inner + (tail + "\n"))) == "\n" + lead + inner + tail + "\n"
  {
  }

  lemma ItemIs(lead: string, inner: string, tail: string)
    ensures "\n" + ("<li>" + (lead + (inner + ("</li>" + tail)))) == Around("\n<li>", lead + inner, "</li>", tail)
    ensures "\n" + ("*" + (" " + (lead + (inner + tail)))) == "\n* " + lead + inner + tail
  {
    var rest := lead + (inner + ("</li>" + tail));
    AroundIs("\n<li>", lead, inner, "</li>", tail);
    assert "\n" + ("<li>" + rest) == "\n<li>" + rest;
    var bare := lead + (inner + tail);
    assert "\n" + ("*" + (" " + bare)) == "\n* " + bare;
    BareIs("\n* " + lead, inner, tail);
    assert "\n* " + bare == "\n* " + lead + inner + tail;
  }

  function KindName(kind: NoteKind): string {
    match kind
    case Warning => "warning"
    case Note => "info"
    case Attention => "attention"
  }

  /** Notes: a paragraph with a bold heading in HTML, else a container. */
  lemma NotesAreThese(space: char -> bool, x: Xml, kind: NoteKind, html: bool, para: bool)
    requires Sane(space) && x.tag == SimpleSect(NoteSection(kind))
    ensures var inner, r := Inner(space, x, html, para), Rendered(space, x, html, para);
            if para && html
            then r == "<p>" + x.text + "<b>" + KindName(kind) + ": </b> " + inner + "</p>" + x.tail
            else r == "\n\n::: " + KindName(kind) + "\n" + StripString(space, x.text) + StripString(space, inner)
                      + "\n:::\n\n" + StripString(space, x.tail)
  {
    var inner := Inner(space, x, html, para);
    ShownElement(space, x, RenderAll(space, x.children, html, para), html, para);
    NoteIs(space, kind, x.text, inner, x.tail, html, para);
  }

  lemma NoteIs(space: char -> bool, kind: NoteKind, lead: string, inner: string, tail: string, html: bool, para: bool)
    ensures NoteText(space, kind, lead, inner, tail, html, para)
            == if para && html
               then "<p>" + lead + "<b>" + KindName(kind) + ": </b> " + inner + "</p>" + tail
               else "\n\n::: " + KindName(kind) + "\n" + StripString(space, lead) + StripString(space, inner)
                    + "\n:::\n\n" + StripString(space, tail)
  {
    var name := NoteLabel(kind);
    assert name == KindName(kind);
    if para && html {
      HeadingIs(lead, name, inner, tail);
    } else {
      ContainerIs(name, StripString(space, lead), StripString(space, inner), StripString(space, tail));
    }
  }

  lemma HeadingIs(lead: string, name: string, inner: string, tail: string)
    ensures "<p>" + (lead + ("<b>" + ((name + ":") + (" " + ("</b>" + (" " + (inner + ("</p>" + tail))))))))
            == "<p>" + lead + "<b>" + name + ": </b> " + inner + "</p>" + tail
  {
    var end := inner + ("</p>" + tail);
    assert (name + ":") + (" " + ("</b>" + (" " + end))) == name + (": </b> " + end);
    assert "<p>" + lead + "<b>" + name + ": </b> " + inner + "</p>" + tail
           == "<p>" + (lead + ("<b>" + (name + (": </b> " + end))));
  }

  lemma ContainerIs(name: string, lead: string, inner: string, tail: string)
    ensures "\n\n" + (("::: " + name) + ("\n" + (lead + (inner + ("\n" + (":::" + ("\n\n" + tail)))))))
            == "\n\n::: " + name + "\n" + lead + inner + "\n:::\n\n" + tail
  {
    assert "\n" + (":::" + ("\n\n" + tail)) == "\n:::\n\n" + tail;
    var end := "\n:::\n\n" + tail;
    assert "\n\n::: " + name == "\n\n" + ("::: " + name);
    assert "\n\n::: " + name + "\n" + lead + inner + end == "\n\n" + (("::: " + name) + ("\n" + (lead + (inner + end))));
    assert "\n\n::: " + name + "\n" + lead + inner + "\n:::\n\n" + tail
           == "\n\n::: " + name + "\n" + lead + inner + ("\n:::\n\n" + tail);
  }

  // ---------------------------------------------------------------- children

  /**
   A child contributes nothing if it is told elsewhere, its XML and escaped tail if it is not known,
   and its rendering otherwise, as HTML from a list on down.
   */
  lemma ChildrenContribute(space: char -> bool, children: seq<Xml>, i: nat, html: bool, para: bool)
    requires i < |children|
    ensures var c := children[i];
            Shown(RenderAll(space, children[..i + 1], html, para))
            == Shown(RenderAll(space, children[..i], html, para))
               + match c.tag
                 case SimpleSect(See) => ""
                 case SimpleSect(Return) => ""
                 case SimpleSect(OtherSection(xml)) => xml + Escaped(c.tail)
                 case ParameterList => ""
                 case Plain(xml) => xml + Escaped(c.tail)
                 case ItemizedList => Rendered(space, c, true, para)
                 case _ => Rendered(space, c, html, para)
  {
    RenderAllPush(space, children, i, html, para);
    if Unhandled(children[i].tag) {
      ShownForeign(children[i]);
    }
  }

  // ---------------------------------------------------------------- stripping

  ghost predicate Spaces(space: char -> bool, s: string) {
    forall c :: c in s ==> space(c)
  }

  lemma {:induction false} FrontIsTrimmed(space: char -> bool, s: string) returns (front: string)
    ensures Spaces(space, front) && s == front + StripStringFront(space, s)
    ensures var r := StripStringFront(space, s); r != [] ==> !space(r[0])
  {
    front := [];
    if s != [] && space(s[0]) {
      var rest := FrontIsTrimmed(space, s[1..]);
      front := [s[0]] + rest;
      assert s == [s[0]] + s[1..];
    }
  }

  lemma {:induction false} BackIsTrimmed(space: char -> bool, s: string) returns (back: string)
    ensures Spaces(space, back) && s == StripStringBack(space, s) + back
    ensures var r := StripStringBack(space, s); r != [] ==> !space(r[|r| - 1])
    decreases |s|
  {
    back := [];
    if s != [] && space(s[|s| - 1]) {
      var rest := BackIsTrimmed(space, s[..|s| - 1]);
      back := rest + [s[|s| - 1]];
      assert s == s[..|s| - 1] + [s[|s| - 1]];
    }
  }

  /** `strip` takes only whitespace, from both ends, and all of it. */
  lemma StripIsTrim(space: char -> bool, s: string) returns (front: string, back: string)
    ensures s == front + StripString(space, s) + back && Spaces(space, front) && Spaces(space, back)
    ensures var r := StripString(space, s); r != [] ==> !space(r[0]) && !space(r[|r| - 1])
  {
    front := FrontIsTrimmed(space, s);
    back := BackIsTrimmed(space, StripStringFront(space, s));
    var middle := StripStringFront(space, s);
    assert middle == StripString(space, s) + back;
    assert s == front + (StripString(space, s) + back);
  }

  // ---------------------------------------------------------------- escaping

  function DecimalValue(s: string): Option<nat> {
    if s == [] then Some(0)
    else
      var c, rest := s[|s| - 1], DecimalValue(s[..|s| - 1]);
      if rest.None? || c < '0' || '9' < c then None else Some(rest.value * 10 + (c as int - '0' as int))
  }

  lemma {:induction false} DecimalReads(n: nat)
    ensures DecimalValue(Decimal(n)) == Some(n) && ';' !in Decimal(n)
  {
    var s := Decimal(n);
    if n < 10 {
      assert s[..0] == [];
    } else {
      DecimalReads(n / 10);
      assert s == Decimal(n / 10) + Decimal(n % 10);
      assert |Decimal(n % 10)| == 1 && s[..|s| - 1] == Decimal(n / 10);
    }
  }

  function UntilSemicolon(s: string): (k: nat)
    ensures k <= |s|
  {
    if s == [] || s[0] == ';' then 0 else 1 + UntilSemicolon(s[1..])
  }

  lemma {:induction false} UntilIs(s: string, rest: string)
    requires ';' !in s
    ensures UntilSemicolon(s + ";" + rest) == |s|
  {
    if s != [] {
      UntilIs(s[1..], rest);
      assert (s + ";" + rest)[1..] == s[1..] + ";" + rest;
    }
  }

  datatype Read = Bad | Read(c: char, rest: string)

  function ReadEntity(name: string, rest: string): (r: Read)
    ensures r.Read? ==> r.rest == rest
  {
    if name == "amp" then Read('&', rest)
    else if name == "lt" then Read('<', rest)
    else if name == "gt" then Read('>', rest)
    else if name == [] || name[0] != '#' then Bad
    else ReadNumber(DecimalValue(name[1..]), rest)
  }

  function ReadNumber(n: Option<nat>, rest: string): (r: Read)
    ensures r.Read? ==> r.rest == rest
  {
    if n.Some? && (n.value < 0xD800 || 0xE000 <= n.value < 0x11_0000) then Read(n.value as char, rest) else Bad
  }

  /** One character of XML text. */
  function ReadText(s: string): (r: Read)
    requires s != []
    ensures r.Read? ==> |r.rest| < |s|
  {
    if s[0] == '<' || s[0] == '>' || 128 <= s[0] as int then Bad
    else if s[0] != '&' then Read(s[0], s[1..])
    else
      var k := UntilSemicolon(s);
      if k == |s| then Bad else ReadEntity(s[1..k], s[k + 1..])
  }

  function Unescaped(s: string): Option<string>
    decreases |s|
  {
    if s == [] then Some([])
    else
      var r := ReadText(s);
      if r.Bad? then None
      else
        var rest := Unescaped(r.rest);
        if rest.None? then None else Some([r.c] + rest.value)
  }

  lemma EntityReads(name: string, rest: string)
    requires ';' !in name
    ensures var s := "&" + name + ";" + rest; s != [] && ReadText(s) == ReadEntity(name, rest)
  {
    var s := "&" + name + ";" + rest;
    UntilIs("&" + name, rest);
    assert s[1..|name| + 1] == name && s[|name| + 2..] == rest;
  }

  lemma CharReads(c: char, rest: string)
    ensures var s := EscapeChar(c) + rest; s != [] && ReadText(s) == Read(c, rest)
  {
    if c == '&' {
      EntityReads("amp", rest);
      assert "&amp;" + rest == "&" + "amp" + ";" + rest;
    } else if c == '<' {
      EntityReads("lt", rest);
      assert "&lt;" + rest == "&" + "lt" + ";" + rest;
    } else if c == '>' {
      EntityReads("gt", rest);
      assert "&gt;" + rest == "&" + "gt" + ";" + rest;
    } else if 128 <= c as int {
      NumberReads(c, rest);
    }
  }

  lemma NumberReads(c: char, rest: string)
    requires 128 <= c as int
    ensures ReadText(EscapeChar(c) + rest) == Read(c, rest)
  {
    var name := "#" + Decimal(c as int);
    DecimalReads(c as int);
    assert EscapeChar(c) + rest == "&" + name + ";" + rest by {
      assert EscapeChar(c) == "&#" + Decimal(c as int) + ";";
      NumberIs(Decimal(c as int), rest);
    }
    EntityReads(name, rest);
    NumberEntity(c, rest);
  }

  lemma NumberEntity(c: char, rest: string)
    ensures ReadEntity("#" + Decimal(c as int), rest) == Read(c, rest)
  {
    var name := "#" + Decimal(c as int);
    DecimalReads(c as int);
    assert name[0] == '#' && name[1..] == Decimal(c as int);
  }

  lemma NumberIs(digits: string, rest: string)
    ensures "&#" + digits + ";" + rest == "&" + ("#" + digits) + ";" + rest
  {
    assert "&#" + digits == "&" + ("#" + digits);
  }

  /** The tail of an element left as XML can be read back: escaping loses nothing. */
  lemma {:induction false} EscapingIsUndone(s: string)
    ensures Unescaped(Escaped(s)) == Some(s)
  {
    if s != [] {
      CharReads(s[0], Escaped(s[1..]));
      EscapingIsUndone(s[1..]);
      assert s == [s[0]] + s[1..];
    }
  }
}
