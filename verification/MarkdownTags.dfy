/**
 The recursive renderer of Doxygen tags to Markdown or HTML.  Output is told apart by where it
 comes from: text of the document, layout, or markup that opens or closes; `Shown` is the string.
 */
module MarkdownTags {

  datatype NoteKind = Warning | Note | Attention

  /** What a reference refers to; on one of another kind the renderer fails. */
  datatype RefKind = Member | Compound | OtherRef

  /** An element serialized as XML, without the text that follows it. */
  type XmlText = s: string | 2 <= |s| && s[0] == '<' && s[|s| - 1] == '>' witness "<>"

  datatype Section = See | Return | NoteSection(kind: NoteKind) | Since | Remark | OtherSection(xml: XmlText)

  /**
   The tags the renderer knows.  `Plain` is any other, a description say, and a parameter list of
   another kind than "param": it renders such an element at the top, but as a child it leaves it
   as the XML it is, which the tag therefore carries.
   */
  datatype Tag =
    | ComputerOutput | Bold | Emphasis | Para | ItemizedList | ListItem | Verbatim
    | Ref(kind: RefKind, refid: string)
    | Ulink(url: string)
    | SimpleSect(section: Section)
    | ParameterList
    | Plain(xml: XmlText)

  datatype Xml = Xml(tag: Tag, text: string, children: seq<Xml>, tail: string)

  // ---------------------------------------------------------------- output

  datatype Mark =
    | HtmlCode | HtmlBold | HtmlItalic | HtmlPara | HtmlList | HtmlItem | HtmlLink(url: string)
    | MdCode | MdBold | MdItalic | MdLink(url: string) | MdNote(kind: NoteKind)

  datatype Out =
    | Text(c: char) | Layout(c: char) | Open(m: Mark) | Close(m: Mark) | Bullet | Label(kind: NoteKind)
    | Foreign(xml: XmlText)

  function NoteLabel(kind: NoteKind): string {
    match kind
    case Warning => "warning"
    case Note => "info"
    case Attention => "attention"
  }

  function OpenText(m: Mark): string {
    match m
    case HtmlCode => "<code>"
    case HtmlBold => "<b>"
    case HtmlItalic => "<i>"
    case HtmlPara => "<p>"
    case HtmlList => "<ul>"
    case HtmlItem => "<li>"
    case HtmlLink(url) => "<a href=\"" + url + "\">"
    case MdCode => "`"
    case MdBold => "**"
    case MdItalic => "*"
    case MdLink(_) => "["
    case MdNote(kind) => "::: " + NoteLabel(kind)
  }

  function CloseText(m: Mark): string {
    match m
    case HtmlCode => "</code>"
    case HtmlBold => "</b>"
    case HtmlItalic => "</i>"
    case HtmlPara => "</p>"
    case HtmlList => "</ul>"
    case HtmlItem => "</li>"
    case HtmlLink(_) => "</a>"
    case MdCode => "`"
    case MdBold => "**"
    case MdItalic => "*"
    case MdLink(url) => "](" + url + ")"
    case MdNote(_) => ":::"
  }

  function Show(o: Out): string {
    match o
    case Text(c) => [c]
    case Layout(c) => [c]
    case Open(m) => OpenText(m)
    case Close(m) => CloseText(m)
    case Bullet => "*"
    case Label(kind) => NoteLabel(kind) + ":"
    case Foreign(xml) => xml
  }

  function Texts(s: string): seq<Out> {
    seq(|s|, i requires 0 <= i < |s| => Text(s[i]))
  }

  function Layouts(s: string): seq<Out> {
    seq(|s|, i requires 0 <= i < |s| => Layout(s[i]))
  }

  function Wrap(m: Mark, body: seq<Out>): seq<Out> {
    [Open(m)] + body + [Close(m)]
  }

  /** What `strip` takes off the ends: characters, never markup. */
  predicate Blank(space: char -> bool, o: Out) {
    (o.Text? || o.Layout?) && space(o.c)
  }

  function StripFront(space: char -> bool, out: seq<Out>): seq<Out> {
    if out != [] && Blank(space, out[0]) then StripFront(space, out[1..]) else out
  }

  function StripBack(space: char -> bool, out: seq<Out>): seq<Out> {
    if out != [] && Blank(space, out[|out| - 1]) then StripBack(space, out[..|out| - 1]) else out
  }

  function Strip(space: char -> bool, out: seq<Out>): seq<Out> {
    StripBack(space, StripFront(space, out))
  }

  // ---------------------------------------------------------------- rendering

  predicate Skipped(tag: Tag) {
    tag.ParameterList? || (tag.SimpleSect? && (tag.section.See? || tag.section.Return?))
  }

  /** What renders empty, and so do its children. */
  predicate Silent(tag: Tag) {
    tag.SimpleSect? && (tag.section.Since? || tag.section.Remark? || tag.section.OtherSection?)
  }

  /** What is serialized as a child instead of rendered. */
  predicate Unhandled(tag: Tag) {
    tag.Plain? || (tag.SimpleSect? && tag.section.OtherSection?)
  }

  function XmlOf(tag: Tag): XmlText
    requires Unhandled(tag)
  {
    if tag.Plain? then tag.xml else tag.section.xml
  }

  function Decimal(n: nat): string {
    if n < 10 then [('0' as int + n) as char] else Decimal(n / 10) + Decimal(n % 10)
  }

  /** How `ET.tostring` writes a character of text. */
  function EscapeChar(c: char): string {
    if c == '&' then "&amp;"
    else if c == '<' then "&lt;"
    else if c == '>' then "&gt;"
    else if c as int < 128 then [c]
    else "&#" + Decimal(c as int) + ";"
  }

  function Escaped(s: string): string {
    if s == [] then [] else EscapeChar(s[0]) + Escaped(s[1..])
  }

  /** `str(ET.tostring(child),'utf-8')`: the element and the text after it. */
  function Serialized(c: Xml): string
    requires Unhandled(c.tag)
  {
    XmlOf(c.tag) + Escaped(c.tail)
  }

  predicate HoldsRef(children: seq<Xml>) {
    exists c :: c in children && c.tag.Ref?
  }

  /** `s.rsplit('_', 1)[0]` */
  function BeforeLastUnderscore(s: string): string {
    if '_' !in s then s
    else if s[|s| - 1] == '_' then s[..|s| - 1]
    else BeforeLastUnderscore(s[..|s| - 1])
  }

  function LinkUrl(tag: Tag): string
    requires tag.Ref? || tag.Ulink?
  {
    match tag
    case Ulink(url) => url
    case Ref(Member, refid) => BeforeLastUnderscore(refid) + ".md#" + refid
    case Ref(Compound, refid) => refid + ".md"
    case Ref(OtherRef, _) => "" // never shown: it has no URL, which is what makes the renderer fail
  }

  /** Whether the renderer comes upon a reference of unknown kind, be it in a section that renders empty. */
  predicate Fails(x: Xml)
    decreases x, 0
  {
    (x.tag.Ref? && x.tag.kind.OtherRef?) || AnyFails(x.children)
  }

  predicate AnyFails(children: seq<Xml>)
    decreases children
  {
    children != [] &&
    var last := children[|children| - 1];
    AnyFails(children[..|children| - 1]) || (Visits(last.tag) && Fails(last))
  }

  /** The children that the renderer calls itself on. */
  predicate Visits(tag: Tag) {
    !Skipped(tag) && !Unhandled(tag)
  }

  /** The tags that are rendered as one mark round their contents. */
  predicate MarksItself(tag: Tag) {
    tag.ComputerOutput? || tag.Bold? || tag.Emphasis? || tag.Ref? || tag.Ulink?
  }

  /** The mark round a whole element, where there is one. */
  function ElementMark(tag: Tag, html: bool): Mark
    requires MarksItself(tag)
  {
    match tag
    case ComputerOutput => if html then HtmlCode else MdCode
    case Bold => if html then HtmlBold else MdBold
    case Emphasis => if html then HtmlItalic else MdItalic
    case _ => if html then HtmlLink(LinkUrl(tag)) else MdLink(LinkUrl(tag))
  }

  function NoteElement(
    space: char -> bool, kind: NoteKind, lead: seq<Out>, child: seq<Out>, tail: seq<Out>, html: bool, para: bool): seq<Out> {
    if para && html then
      Wrap(HtmlPara, lead + (Wrap(HtmlBold, [Label(kind)] + Layouts(" ")) + (Layouts(" ") + child))) + tail
    else
      Layouts("\n\n") + (Wrap(MdNote(kind), Block(space, lead, child)) + (Layouts("\n\n") + Strip(space, tail)))
  }

  /** Stripped contents on lines of their own. */
  function Block(space: char -> bool, lead: seq<Out>, child: seq<Out>): seq<Out> {
    Layouts("\n") + (Strip(space, lead) + (Strip(space, child) + Layouts("\n")))
  }

  function WrapElement(m: Mark, lead: seq<Out>, child: seq<Out>, tail: seq<Out>): seq<Out> {
    Wrap(m, lead + child) + tail
  }

  function SpacedElement(lead: seq<Out>, child: seq<Out>, tail: seq<Out>): seq<Out> {
    Layouts("\n\n") + (lead + (child + (Layouts("\n\n") + tail)))
  }

  function ListElement(space: char -> bool, lead: seq<Out>, child: seq<Out>, tail: seq<Out>, html: bool): seq<Out> {
    if html then Layouts("\n") + (Wrap(HtmlList, Block(space, lead, child)) + tail)
    else Layouts("\n") + (lead + (child + (tail + Layouts("\n"))))
  }

  function ItemElement(lead: seq<Out>, child: seq<Out>, tail: seq<Out>, html: bool): seq<Out> {
    if html then Layouts("\n") + (Wrap(HtmlItem, lead + child) + tail)
    else Layouts("\n") + ([Bullet] + (Layouts(" ") + (lead + (child + tail))))
  }

  function BareElement(lead: seq<Out>, child: seq<Out>, tail: seq<Out>): seq<Out> {
    lead + (child + tail)
  }

  /** One element, its children already rendered. */
  function Element(space: char -> bool, x: Xml, child: seq<Out>, html: bool, para: bool): seq<Out> {
    var lead, tail := Texts(x.text), Texts(x.tail);
    match x.tag
    case ComputerOutput =>
      if HoldsRef(x.children) then BareElement(lead, child, tail)
      else WrapElement(ElementMark(x.tag, html), lead, child, tail)
    case Bold => WrapElement(ElementMark(x.tag, html), lead, child, tail)
    case Emphasis => WrapElement(ElementMark(x.tag, html), lead, child, tail)
    case Ref(_, _) => WrapElement(ElementMark(x.tag, html), lead, child, tail)
    case Ulink(_) => WrapElement(ElementMark(x.tag, html), lead, child, tail)
    case Para =>
      if !para then BareElement(lead, child, tail)
      else if html then WrapElement(HtmlPara, lead, child, tail)
      else SpacedElement(lead, child, tail)
    case ItemizedList => ListElement(space, lead, child, tail, html)
    case ListItem => ItemElement(lead, child, tail, html)
    case Verbatim => SpacedElement(lead, child, tail)
    case SimpleSect(See) => BareElement(lead, child, tail)
    case SimpleSect(Return) => BareElement(lead, child, tail)
    case SimpleSect(NoteSection(kind)) => NoteElement(space, kind, lead, child, tail, html, para)
    case SimpleSect(Since) => []
    case SimpleSect(Remark) => []
    case SimpleSect(OtherSection(_)) => []
    case ParameterList => BareElement(lead, child, tail)
    case Plain(_) => BareElement(lead, child, tail)
  }

  function Render(space: char -> bool, x: Xml, html: bool, para: bool): seq<Out>
    decreases x, 0
  {
    Element(space, x, RenderAll(space, x.children, html, para), html, para)
  }

  /** A child: what is parsed elsewhere is skipped, what is unknown is left as XML, and everything in a list is HTML. */
  function RenderChild(space: char -> bool, c: Xml, html: bool, para: bool): seq<Out>
    decreases c, 1
  {
    if Skipped(c.tag) then []
    else if Unhandled(c.tag) then [Foreign(XmlOf(c.tag))] + Texts(Escaped(c.tail))
    else Render(space, c, html || c.tag.ItemizedList?, para)
  }

  function RenderAll(space: char -> bool, children: seq<Xml>, html: bool, para: bool): seq<Out>
    decreases children
  {
    if children == [] then []
    else RenderAll(space, children[..|children| - 1], html, para)
         + RenderChild(space, children[|children| - 1], html, para)
  }
}
