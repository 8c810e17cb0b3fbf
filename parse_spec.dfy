/** The recursive-descent parser of class `Parser` (index.js:246-373) as functions. A `PState` is the
    parser between two calls: the suspended token generator and `currentToken`. Each function returns
    what it builds together with the state it leaves, or the error the source throws. */
module ParseSpec {
  import opened Wrappers
  import opened Tokens
  import opened ScanSpec
  import opened Nodes

  /** The errors `parse()` can end with. `UnexpectedNodeStart` stands for the source's endless loop
      when `#node` meets a token that starts no node. */
  datatype Error =
    | ScanFailed(cause: ScanError)
    | UnexpectedToken(expected: Kind, actual: Kind, start: Option<nat>, end: Option<nat>)
    | TagMismatch(startName: string, endName: string, start: Option<nat>, end: Option<nat>)
    | UnexpectedNodeStart(actual: Kind, start: Option<nat>, end: Option<nat>)

  datatype PState = PState(sc: ScanState, cur: Token)

  predicate ValidP(src: string, ps: PState) {
    ValidState(src, ps.sc)
  }

  function PMeasure(src: string, ps: PState): nat
    requires ValidP(src, ps)
  {
    Measure(src, ps.sc)
  }

  /** `#nextToken` (index.js:264-268): resume the generator from `s`; the token it yields becomes the
      current token. */
  function NextToken(src: string, s: ScanState): (r: Result<PState, Error>)
    requires ValidState(src, s)
    ensures r.Ok? ==> ValidP(src, r.value) && Measure(src, r.value.sc) < Measure(src, s)
    ensures r.Err? ==> r.error.ScanFailed?
  {
    match Step(src, s)
    case Fail(e) => Err(ScanFailed(e))
    case Yield(t, n) => Ok(PState(n, t))
  }

  /** `#eat` (index.js:270-276): the current token must have kind `k`, and then the next one is pulled.
      A wrong kind fails with the current token's kind and span, before anything is consumed. */
  function Eat(src: string, ps: PState, k: Kind): (r: Result<PState, Error>)
    requires ValidP(src, ps)
    ensures r.Ok? ==> ps.cur.kind == k && ValidP(src, r.value) && PMeasure(src, r.value) < PMeasure(src, ps)
    ensures ps.cur.kind != k ==> r == Err(UnexpectedToken(k, ps.cur.kind, ps.cur.start, ps.cur.end))
    ensures r.Err? ==> r.error.UnexpectedToken? || r.error.ScanFailed?
  {
    if ps.cur.kind != k then Err(UnexpectedToken(k, ps.cur.kind, ps.cur.start, ps.cur.end))
    else NextToken(src, ps.sc)
  }

  /** The result of a parsing function whose successful result has made progress from `ps`. */
  predicate Advanced<T>(src: string, ps: PState, r: Result<(T, PState), Error>)
    requires ValidP(src, ps)
  {
    r.Ok? ==> ValidP(src, r.value.1) && PMeasure(src, r.value.1) < PMeasure(src, ps)
  }

  /** The same, where the successful result may have consumed nothing. */
  predicate NotBack<T>(src: string, ps: PState, r: Result<(T, PState), Error>)
    requires ValidP(src, ps)
  {
    r.Ok? ==> ValidP(src, r.value.1) && PMeasure(src, r.value.1) <= PMeasure(src, ps)
  }

  /** `#textNode` (index.js:298-302). */
  function ParseText(src: string, ps: PState): (r: Result<(Node, PState), Error>)
    requires ValidP(src, ps)
    ensures Advanced(src, ps, r)
  {
    var ps1 :- Eat(src, ps, Text);
    Ok((TextNode(ps.cur.start, ps.cur.end, ps.cur.value), ps1))
  }

  /** `#commentNode` (index.js:288-296). */
  function ParseComment(src: string, ps: PState): (r: Result<(Node, PState), Error>)
    requires ValidP(src, ps)
    ensures Advanced(src, ps, r)
  {
    var ps1 :- Eat(src, ps, OpenComment);
    var ps2 :- Eat(src, ps1, Comment);
    var ps3 :- Eat(src, ps2, CloseComment);
    Ok((CommentNode(ps.cur.start, ps2.cur.end, ps1.cur.value), ps3))
  }

  /** `#mustacheNode` (index.js:278-286). */
  function ParseMustache(src: string, ps: PState): (r: Result<(Node, PState), Error>)
    requires ValidP(src, ps)
    ensures Advanced(src, ps, r)
  {
    var ps1 :- Eat(src, ps, OpenMustache);
    var ps2 :- Eat(src, ps1, MustacheValue);
    var ps3 :- Eat(src, ps2, CloseMustache);
    Ok((MustacheNode(ps.cur.start, ps2.cur.end, ps1.cur.value), ps3))
  }

  /** One pass of the attribute loop of `#tagNode` (index.js:315-327): `key=value`, or a bare key whose
      end is the end of the token after it. */
  function ParseAttr(src: string, ps: PState): (r: Result<(Node, PState), Error>)
    requires ValidP(src, ps)
    ensures Advanced(src, ps, r)
  {
    var ps1 :- Eat(src, ps, AttrKey);
    if ps1.cur.kind == Eq then
      var ps2 :- Eat(src, ps1, Eq);
      var ps3 :- Eat(src, ps2, AttrText);
      Ok((AttrNode(ps.cur.start, ps2.cur.end, ps.cur.value, Quoted(ps2.cur.value)), ps3))
    else
      Ok((AttrNode(ps.cur.start, ps1.cur.end, ps.cur.value, Present), ps1))
  }

  /** The attribute loop of `#tagNode` (index.js:314-328): attributes while the current token is a key. */
  function ParseAttrs(src: string, ps: PState): (r: Result<(seq<Node>, PState), Error>)
    requires ValidP(src, ps)
    ensures NotBack(src, ps, r)
    ensures r.Ok? ==> r.value.1.cur.kind != AttrKey
    decreases PMeasure(src, ps)
  {
    if ps.cur.kind != AttrKey then Ok(([], ps))
    else
      var a :- ParseAttr(src, ps);
      var rest :- ParseAttrs(src, a.1);
      Ok(([a.0] + rest.0, rest.1))
  }

  /** `#tagNode` (index.js:304-349): `<`, the tag name and the attributes, then the rest of the tag. */
  function ParseTag(src: string, ps: PState): (r: Result<(Node, PState), Error>)
    requires ValidP(src, ps)
    ensures Advanced(src, ps, r)
    decreases PMeasure(src, ps), 0
  {
    var ps1 :- Eat(src, ps, OpenTag);
    var name := ps1.cur.value;
    var ps2 :- Eat(src, ps1, TagName);
    var attrs :- ParseAttrs(src, ps2);
    ParseTagRest(src, ps.cur.start, name, attrs.0, attrs.1)
  }

  /** The rest of `#tagNode` (index.js:330-348), from the token after the attributes: `/>` ends the tag
      with no children; otherwise `>`, the children and the end tag. */
  function ParseTagRest(src: string, start: Option<nat>, name: string, attrs: seq<Node>, ps: PState)
    : (r: Result<(Node, PState), Error>)
    requires ValidP(src, ps)
    ensures Advanced(src, ps, r)
    decreases PMeasure(src, ps), 0
  {
    if ps.cur.kind == CloseTagWithSlash then
      var ps1 :- Eat(src, ps, CloseTagWithSlash);
      Ok((TagNode(start, ps.cur.end, name, [], attrs), ps1))
    else
      var ps1 :- Eat(src, ps, CloseTag);
      var children :- ParseChildren(src, ps1);
      var e :- ParseEndTag(src, name, children.1);
      Ok((TagNode(start, e.0, name, children.0, attrs), e.1))
  }

  /** The end tag of `#tagNode` (index.js:340-348): `</`, a name that must be the start tag's, `>`.
      Returns where the end tag ends. */
  function ParseEndTag(src: string, name: string, ps: PState): (r: Result<(Option<nat>, PState), Error>)
    requires ValidP(src, ps)
    ensures Advanced(src, ps, r)
  {
    var ps1 :- Eat(src, ps, OpenTagWithSlash);
    var endTag := ps1.cur.value;
    if endTag != name then Err(TagMismatch(name, endTag, ps1.cur.start, ps1.cur.end))
    else
      var ps2 :- Eat(src, ps1, TagName);
      var ps3 :- Eat(src, ps2, CloseTag);
      Ok((ps2.cur.end, ps3))
  }

  /** The children loop of `#tagNode` (index.js:337-339): nodes until the current token is `</`. */
  function ParseChildren(src: string, ps: PState): (r: Result<(seq<Node>, PState), Error>)
    requires ValidP(src, ps)
    ensures NotBack(src, ps, r)
    ensures r.Ok? ==> r.value.1.cur.kind == OpenTagWithSlash
    decreases PMeasure(src, ps), 2
  {
    if ps.cur.kind == OpenTagWithSlash then Ok(([], ps))
    else
      var n :- ParseNode(src, ps);
      var rest :- ParseChildren(src, n.1);
      Ok(([n.0] + rest.0, rest.1))
  }

  /** `#node` (index.js:351-362): dispatch on the current token. Where the source's switch falls through
      and its caller loops forever, this fails with the offending token. */
  function ParseNode(src: string, ps: PState): (r: Result<(Node, PState), Error>)
    requires ValidP(src, ps)
    ensures Advanced(src, ps, r)
    ensures ps.cur.kind !in {OpenTag, Text, OpenComment, OpenMustache} ==>
              r == Err(UnexpectedNodeStart(ps.cur.kind, ps.cur.start, ps.cur.end))
    decreases PMeasure(src, ps), 1
  {
    match ps.cur.kind
    case OpenTag => ParseTag(src, ps)
    case Text => ParseText(src, ps)
    case OpenComment => ParseComment(src, ps)
    case OpenMustache => ParseMustache(src, ps)
    case _ => Err(UnexpectedNodeStart(ps.cur.kind, ps.cur.start, ps.cur.end))
  }

  /** The loop of `parse()` (index.js:367-369): nodes until the current token is EOF. */
  function ParseTop(src: string, ps: PState): (r: Result<seq<Node>, Error>)
    requires ValidP(src, ps)
    ensures r == Ok([]) <==> ps.cur.kind == EOF
    ensures ps.cur.kind !in {EOF, OpenTag, Text, OpenComment, OpenMustache} ==>
              r == Err(UnexpectedNodeStart(ps.cur.kind, ps.cur.start, ps.cur.end))
    decreases PMeasure(src, ps)
  {
    if ps.cur.kind == EOF then Ok([])
    else
      var n :- ParseNode(src, ps);
      var rest :- ParseTop(src, n.1);
      Ok([n.0] + rest)
  }

  /** `parse()` (index.js:364-372): the top-level nodes, wrapped in a template that starts where the
      current token starts and ends where the last node ends. */
  function ParseTemplate(src: string, ps: PState): (r: Result<Node, Error>)
    requires ValidP(src, ps)
    ensures ParseTop(src, ps).Err? ==> r == Err(ParseTop(src, ps).error)
    ensures r.Ok? ==> r.value.TemplateNode? && r.value.start == ps.cur.start && r.value.children == ParseTop(src, ps).value
    ensures r.Ok? && ps.cur.kind == EOF ==> r.value.children == [] && r.value.end.None?
  {
    var children :- ParseTop(src, ps);
    Ok(TemplateNode(ps.cur.start, if children == [] then None else children[|children| - 1].end, children))
  }

  /** `new Parser(src).parse()` (index.js:252-253, 364-372): pull the first token, then `parse()`. */
  function ParseDocument(src: string): (r: Result<Node, Error>)
    ensures r.Ok? ==> r.value.TemplateNode?
    ensures src == [] ==> r == Ok(TemplateNode(None, None, []))
  {
    var ps :- NextToken(src, Start);
    ParseTemplate(src, ps)
  }
}
