/** What the emitted SVG text means. Tokens stand for the strings that the svg_ functions print; Advance is
    one step of a reader that checks the markup and renders what concerns the plot: the curves of paths,
    the ends of lines and the corners of rectangles, placed by the transforms of all elements they are in, and
    the texts. */
module SvgDocument {

  datatype Name = Svg | Defs | Marker | Path | Rect | Line | Group | Text

  datatype Key =
    | Version | Xmlns | Id | MarkerWidth | MarkerHeight | RefX | RefY | Orient | Style
    | X | Y | X1 | Y1 | X2 | Y2 | Width | Height | D | TransformList
    | Fill | Stroke | StrokeWidth | StrokeDash | MarkerEnd | FontSize | FontFamily

  /** The attribute values that are spelled out in the generator. */
  datatype Literal =
    | SvgVersion | SvgNamespace | MarkerName | MarkerSize | MarkerX | MarkerY | Auto | ArrowShape | ArrowStyle
    | MarkerUrl | NoFill | Black | White | Grey | Solid | Dashes | Monospace

  function Spelling(l: Literal): string {
    match l
    case SvgVersion => "1.2"
    case SvgNamespace => "http://www.w3.org/2000/svg"
    case MarkerName => "markerArrow"
    case MarkerSize => "13"
    case MarkerX => "7"
    case MarkerY => "6"
    case Auto => "auto"
    case ArrowShape => "M2,8 L11,6 L2,4 Z"
    case ArrowStyle => "fill: #000000;stroke: black;"
    case MarkerUrl => "url(#markerArrow)"
    case NoFill => "none"
    case Black => "#000000"
    case White => "#ffffff"
    case Grey => "#aaaaaa"
    case Solid => ""
    case Dashes => "5,5"
    case Monospace => "monospace"
  }

  /** An attribute value: one of the literals, or a string that the generator is given. */
  datatype Value = Fixed(literal: Literal) | Given(text: string)

  datatype Transform = Translate(dx: real, dy: real) | Scale(sx: real, sy: real) | RotateBack // rotate(-90)

  datatype Token =
    | TagStart(name: Name)
    | OptReal(key: Key, r: real)
    | OptInt(key: Key, i: int)
    | OptText(key: Key, value: Value)
    | LongBegin(key: Key)
    | LongEnd
    | Point(first: bool, x: real, y: real)
    | Transforms(t: Transform)
    | OptEnd(selfClose: bool)
    | Chars(text: string)
    | Number(v: int)
    | TagEnd(name: Name)

  datatype Pt = Pt(x: real, y: real)

  datatype Segment = Segment(a: Pt, b: Pt)

  datatype Box = Box(corner: Pt, width: real, height: real)

  datatype Element = Element(name: Name, transform: seq<Transform>)

  /** A start tag so far: the attributes seen, the values of those printed with %f, the transforms. */
  datatype Tag = Tag(name: Name, keys: set<Key>, reals: map<Key, real>, transform: seq<Transform>)

  /** Where the reader is: between tags, after a text, in a start tag, or in a long attribute value. A text
      comes in one piece and is followed by an end tag. begun says that a moveto has begun a subpath in the
      value. */
  datatype Scanner =
    | Content(elements: seq<Element>)
    | TextRead(elements: seq<Element>)
    | InTag(tag: Tag, elements: seq<Element>)
    | InValue(key: Key, tag: Tag, elements: seq<Element>, begun: bool)
    | Malformed

  /** curves holds the subpaths, each as the points that it joins; texts holds the character data, numbers as
      printed by sprintf. plain says that no text and no
      attribute value so far that the generator was given contains markup. */
  datatype Doc = Doc(scan: Scanner, plain: bool, curves: seq<seq<Pt>>, lines: seq<Segment>, boxes: seq<Box>,
                     texts: seq<Token>)

  /** Character data as it may be printed without escaping: no start of a tag or reference, and not the end
      of a CDATA section (section 2.4 of XML 1.0). */
  predicate PlainText(s: string) {
    forall i | 0 <= i < |s| ::
      s[i] != '<' && s[i] != '&' && !(s[i] == ']' && i + 2 < |s| && s[i + 1] == ']' && s[i + 2] == '>')
  }

  /** An attribute value as it may be printed between double quotes (section 2.3 of XML 1.0, AttValue). */
  predicate PlainValue(s: string) {
    forall i | 0 <= i < |s| :: s[i] != '<' && s[i] != '&' && s[i] != '"'
  }

  predicate PlainIfGiven(v: Value) {
    v.Given? ==> PlainValue(v.text)
  }

  /** The literals need no check by the reader. */
  lemma LiteralIsPlain(l: Literal)
    ensures PlainValue(Spelling(l))
  {
    match l {
      case SvgNamespace => SomeLiterals();
      case ArrowShape => SomeLiterals();
      case ArrowStyle => SomeLiterals();
      case MarkerUrl => SomeLiterals();
      case _ =>
    }
  }

  lemma SomeLiterals()
    ensures PlainValue("http://www.w3.org/2000/svg") && PlainValue("M2,8 L11,6 L2,4 Z")
    ensures PlainValue("fill: #000000;stroke: black;") && PlainValue("url(#markerArrow)")
  {
  }

  function Move(t: Transform, p: Pt): Pt {
    match t
    case Translate(dx, dy) => Pt(p.x + dx, p.y + dy)
    case Scale(sx, sy) => Pt(p.x * sx, p.y * sy)
    case RotateBack => Pt(p.y, -p.x)
  }

  /** A list of transforms acts like nested groups, the last one innermost (section 7.6 of SVG 1.1). */
  function Place(ts: seq<Transform>, p: Pt): Pt {
    if ts == [] then p else Move(ts[0], Place(ts[1..], p))
  }

  lemma NotMoved(p: Pt)
    ensures Place([], p) == p
  {
  }

  function PlaceIn(elements: seq<Element>, p: Pt): Pt {
    if elements == [] then p
    else PlaceIn(elements[..|elements| - 1], Place(elements[|elements| - 1].transform, p))
  }

  function Scanned(d: Doc, s: Scanner): Doc {
    d.(scan := s)
  }

  /** The start tag after one more attribute; no attribute may appear twice in a tag (section 3.1 of XML
      1.0, Unique Att Spec). */
  function WithKey(s: Scanner, key: Key): Scanner {
    if s.InTag? && key !in s.tag.keys then InTag(s.tag.(keys := s.tag.keys + {key}), s.elements) else Malformed
  }

  function WithReal(s: Scanner, key: Key, r: real): Scanner {
    var t := WithKey(s, key);
    if t.InTag? then InTag(t.tag.(reals := t.tag.reals[key := r]), t.elements) else t
  }

  /** The segment that a finished line tag draws. */
  function Drawn(tag: Tag, elements: seq<Element>): seq<Segment> {
    if tag.name.Line? && X1 in tag.reals && Y1 in tag.reals && X2 in tag.reals && Y2 in tag.reals then
      [Segment(PlaceIn(elements, Place(tag.transform, Pt(tag.reals[X1], tag.reals[Y1]))),
               PlaceIn(elements, Place(tag.transform, Pt(tag.reals[X2], tag.reals[Y2]))))]
    else []
  }

  /** The box that a finished rect tag draws. */
  function Boxed(tag: Tag, elements: seq<Element>): seq<Box> {
    if tag.name.Rect? && X in tag.reals && Y in tag.reals && Width in tag.reals && Height in tag.reals then
      [Box(PlaceIn(elements, Place(tag.transform, Pt(tag.reals[X], tag.reals[Y]))),
           tag.reals[Width], tag.reals[Height])]
    else []
  }

  /** One more point of path data: a moveto begins a subpath, a lineto continues the last one, and path data
      must begin with a moveto (section 8.3.2 of SVG 1.1). */
  function WithPoint(d: Doc, s: Scanner, first: bool, p: Pt): Doc
    requires s.InValue?
  {
    if first then d.(scan := s.(begun := true), curves := d.curves + [[p]])
    else if s.begun && d.curves != [] then
      var last := |d.curves| - 1;
      d.(scan := s, curves := d.curves[..last] + [d.curves[last] + [p]])
    else Scanned(d, Malformed)
  }

  /** An element must be closed by its own end tag, in order (section 3 of XML 1.0, Element Type Match). */
  function Closed(s: Scanner, n: Name): Scanner {
    if (s.Content? || s.TextRead?) && s.elements != [] && s.elements[|s.elements| - 1].name == n
    then Content(s.elements[..|s.elements| - 1])
    else Malformed
  }

  function Advance(d: Doc, t: Token): Doc {
    var s := d.scan;
    match t
    case TagStart(n) =>
      Scanned(d, if s.Content? then InTag(Tag(n, {}, map[], []), s.elements) else Malformed)
    case OptReal(k, r) => Scanned(d, WithReal(s, k, r))
    case OptInt(k, _) => Scanned(d, WithKey(s, k))
    case OptText(k, v) => Scanned(d, WithKey(s, k)).(plain := d.plain && PlainIfGiven(v))
    case LongBegin(k) =>
      var u := WithKey(s, k);
      Scanned(d, if u.InTag? then InValue(k, u.tag, u.elements, false) else Malformed)
    case LongEnd => Scanned(d, if s.InValue? then InTag(s.tag, s.elements) else Malformed)
    case Point(first, x, y) =>
      if s.InValue? && s.key.D? then WithPoint(d, s, first, PlaceIn(s.elements, Place(s.tag.transform, Pt(x, y))))
      else Scanned(d, Malformed)
    case Transforms(tr) =>
      Scanned(d, if s.InValue? && s.key.TransformList?
                 then InValue(s.key, s.tag.(transform := s.tag.transform + [tr]), s.elements, s.begun)
                 else Malformed)
    case OptEnd(selfClose) =>
      if s.InTag? then
        d.(scan := Content(if selfClose then s.elements else s.elements + [Element(s.tag.name, s.tag.transform)]),
           lines := d.lines + Drawn(s.tag, s.elements), boxes := d.boxes + Boxed(s.tag, s.elements))
      else Scanned(d, Malformed)
    case Chars(v) =>
      if s.Content? then
        d.(scan := TextRead(s.elements), texts := d.texts + [t], plain := d.plain && PlainText(v))
      else Scanned(d, Malformed)
    case Number(_) =>
      if s.Content? then d.(scan := TextRead(s.elements), texts := d.texts + [t]) else Scanned(d, Malformed)
    case TagEnd(n) => Scanned(d, Closed(s, n))
  }

  function Render(tokens: seq<Token>): Doc {
    if tokens == [] then Doc(Content([]), true, [], [], [], [])
    else Advance(Render(tokens[..|tokens| - 1]), tokens[|tokens| - 1])
  }

  lemma RenderSnoc(tokens: seq<Token>, t: Token)
    ensures Render(tokens + [t]) == Advance(Render(tokens), t)
  {
    assert (tokens + [t])[..|tokens|] == tokens;
  }

  /** The elements are properly nested and closed, whatever the texts and attribute values are. */
  predicate IsNested(tokens: seq<Token>) {
    Render(tokens).scan == Content([])
  }

  /** No text and no attribute value that the generator was given contains a character with which markup
      could begin or end. */
  predicate NothingGivenIsMarkup(tokens: seq<Token>) {
    Render(tokens).plain
  }

  /** Enough for the printed characters to be well formed. It is not necessary: a given string may contain
      markup that happens to fit, such as a reference; see BracketBreaks for one that does not. */
  predicate CertainlyWellFormed(tokens: seq<Token>) {
    IsNested(tokens) && NothingGivenIsMarkup(tokens)
  }

  /** A malformed beginning cannot be repaired. */
  lemma {:induction false} NoRepair(a: seq<Token>, b: seq<Token>)
    ensures Render(a).scan.Malformed? ==> Render(a + b).scan.Malformed?
    ensures !Render(a).plain ==> !Render(a + b).plain
    decreases |b|
  {
    if b == [] {
      assert a + b == a;
    } else {
      var m := |b| - 1;
      NoRepair(a, b[..m]);
      assert (a + b)[..|a + b| - 1] == a + b[..m];
    }
  }

  /** A reader that follows a nested document while it is being printed never meets a malformed tag or an
      element closed out of order, nor given markup if there is none in the end. */
  lemma PrefixIsSound(tokens: seq<Token>, k: nat)
    requires IsNested(tokens) && k <= |tokens|
    ensures !Render(tokens[..k]).scan.Malformed?
    ensures NothingGivenIsMarkup(tokens) ==> NothingGivenIsMarkup(tokens[..k])
  {
    NoRepair(tokens[..k], tokens[k..]);
    assert tokens == tokens[..k] + tokens[k..];
  }

  // ---------------------------------------------------------------- a text that breaks the markup

  /** What is printed, if token t is spelled spell(t). */
  function Characters(tokens: seq<Token>, spell: Token -> string): string {
    if tokens == [] then ""
    else Characters(tokens[..|tokens| - 1], spell) + spell(tokens[|tokens| - 1])
  }

  /** A text is printed as it is; an end tag begins with a bracket or with white space. */
  ghost predicate IsSpelling(spell: Token -> string) {
    && (forall s: string :: spell(Chars(s)) == s)
    && (forall n: Name :: spell(TagEnd(n)) != "" && spell(TagEnd(n))[0] in {'<', ' ', '\n'})
  }

  /** No bracket is followed by white space, by another bracket or by nothing. Markup needs this everywhere
      outside comments, CDATA sections and processing instructions (sections 2.4 and 3.1 of XML 1.0), which
      the generator does not print. */
  predicate BracketsOpenTags(s: string) {
    forall i | 0 <= i < |s| && s[i] == '<' :: i + 1 < |s| && s[i + 1] !in {'<', ' ', '\t', '\r', '\n'}
  }

  lemma {:induction false} TextIsPrinted(tokens: seq<Token>, t: Token) returns (k: nat)
    requires t in Render(tokens).texts
    ensures k < |tokens| && tokens[k] == t
  {
    var m := |tokens| - 1;
    if t in Render(tokens[..m]).texts {
      k := TextIsPrinted(tokens[..m], t);
    } else {
      k := m;
    }
  }

  lemma NextToken(tokens: seq<Token>, k: nat)
    requires IsNested(tokens) && k < |tokens|
    ensures Render(tokens[..k + 1]) == Advance(Render(tokens[..k]), tokens[k])
    ensures !Render(tokens[..k + 1]).scan.Malformed?
  {
    PrefixIsSound(tokens, k + 1);
    RenderSnoc(tokens[..k], tokens[k]);
    assert tokens[..k + 1] == tokens[..k] + [tokens[k]];
  }

  lemma TextIsClosed(tokens: seq<Token>, k: nat)
    requires IsNested(tokens) && k < |tokens| && tokens[k].Chars?
    ensures k + 1 < |tokens| && tokens[k + 1].TagEnd?
  {
    NextToken(tokens, k);
    assert Render(tokens[..k + 1]).scan.TextRead?;
    assert tokens[..|tokens|] == tokens;
    if k + 1 < |tokens| {
      NextToken(tokens, k + 1);
    }
  }

  lemma {:induction false} CharactersSplit(a: seq<Token>, b: seq<Token>, spell: Token -> string)
    ensures Characters(a + b, spell) == Characters(a, spell) + Characters(b, spell)
    decreases |b|
  {
    if b == [] {
      assert a + b == a;
    } else {
      var m := |b| - 1;
      CharactersSplit(a, b[..m], spell);
      assert (a + b)[..|a + b| - 1] == a + b[..m];
    }
  }

  /** The characters of the document around two neighbouring tokens. */
  lemma CharactersAround(tokens: seq<Token>, k: nat, spell: Token -> string) returns (before: string, after: string)
    requires k + 1 < |tokens|
    ensures Characters(tokens, spell) == before + (spell(tokens[k]) + spell(tokens[k + 1])) + after
  {
    before, after := Characters(tokens[..k], spell), Characters(tokens[k + 2..], spell);
    var two := [tokens[k], tokens[k + 1]];
    TwoTokens(tokens[k], tokens[k + 1], spell);
    CharactersSplit(tokens[..k], two, spell);
    CharactersSplit(tokens[..k] + two, tokens[k + 2..], spell);
    assert tokens == tokens[..k] + two + tokens[k + 2..];
  }

  lemma TwoTokens(t: Token, u: Token, spell: Token -> string)
    ensures Characters([t, u], spell) == spell(t) + spell(u)
  {
    assert [t, u][..1] == [t] && [t][..0] == [];
    assert Characters([t], spell) == spell(t);
  }

  /** A single opening bracket as a text breaks the markup of any document of the generator. */
  lemma BracketBreaks(tokens: seq<Token>, spell: Token -> string)
    requires IsNested(tokens) && IsSpelling(spell) && Chars("<") in Render(tokens).texts
    ensures !BracketsOpenTags(Characters(tokens, spell))
  {
    var k := TextIsPrinted(tokens, Chars("<"));
    TextIsClosed(tokens, k);
    var before, after := CharactersAround(tokens, k, spell);
    var s := Characters(tokens, spell);
    var end := spell(TagEnd(tokens[k + 1].name));
    assert end != "" && end[0] in {'<', ' ', '\n'};
    assert s == before + ("<" + end) + after;
    assert s[|before|] == '<' && s[|before| + 1] == end[0];
  }
}
