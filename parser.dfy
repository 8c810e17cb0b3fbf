/** The class `Parser` (index.js:246-373): the token generator and the current token, with one method
    per parsing routine of the source. Each method is proved to return what the function of ParseSpec
    with the same name computes from the state the parser was in, and to leave the parser in the state
    that function returns. */
module Parsing {
  import opened Wrappers
  import opened Tokens
  import opened ScanSpec
  import opened ScanFacts
  import opened Nodes
  import opened ParseSpec
  import opened Scanning

  /** `r` and the state after are what the spec function's result `spec` prescribes: on success the
      value it builds and the state it leaves, otherwise the same error. */
  predicate Outcome<T(==)>(spec: Result<(T, PState), Error>, r: Result<T, Error>, after: PState) {
    match spec
    case Ok(res) => r == Ok(res.0) && after == res.1
    case Err(e) => r == Err(e)
  }

  /** The same for a step that builds nothing. */
  predicate Moved(spec: Result<PState, Error>, r: Result<(), Error>, after: PState) {
    match spec
    case Ok(ps) => r == Ok(()) && after == ps
    case Err(e) => r == Err(e)
  }

  /** The values built by the earlier rounds of a loop, before those of the remaining rounds. */
  function Prepend<T>(done: seq<T>, rest: Result<(seq<T>, PState), Error>): Result<(seq<T>, PState), Error> {
    match rest
    case Ok(res) => Ok((done + res.0, res.1))
    case Err(e) => Err(e)
  }

  /** The same for the loop of `parse()`, which keeps no state. */
  function PrependTop(done: seq<Node>, rest: Result<seq<Node>, Error>): Result<seq<Node>, Error> {
    match rest
    case Ok(ns) => Ok(done + ns)
    case Err(e) => Err(e)
  }

  class Parser {
    /** `this.genToken`, the suspended generator. */
    const scanner: Scanner
    var currentToken: Token

    predicate Valid()
      reads this, scanner
    {
      scanner.Valid()
    }

    /** The parser as the functions of ParseSpec see it. */
    function State(): PState
      reads this, scanner
    {
      PState(scanner.State(), currentToken)
    }

    /** `new Parser(src)` (index.js:247-254): a generator over `src` and its first token, which the
        scanner yields without fail. */
    constructor (src: string)
      ensures Valid() && scanner.src == src && fresh(scanner)
      ensures ParseSpec.NextToken(src, Start) == Ok(State())
    {
      var sc := new Scanner(src);
      MarkupSound(src, 0);
      var t := sc.Next();
      scanner := sc;
      currentToken := t.value;
    }

    /** `#nextToken` (index.js:264-268): resume the generator. */
    method NextToken() returns (r: Result<Token, Error>)
      requires Valid()
      modifies scanner
      ensures Valid()
      ensures match ParseSpec.NextToken(scanner.src, old(scanner.State()))
              case Ok(ps) => r == Ok(ps.cur) && scanner.State() == ps.sc
              case Err(e) => r == Err(e)
    {
      var t := scanner.Next();
      match t
      case Ok(tok) => r := Ok(tok);
      case Err(e) => r := Err(ScanFailed(e));
    }

    /** `#eat` (index.js:270-276). */
    method Eat(expected: Kind) returns (r: Result<(), Error>)
      requires Valid()
      modifies this, scanner
      ensures Valid() && Moved(ParseSpec.Eat(scanner.src, old(State()), expected), r, State())
    {
      if currentToken.kind != expected {
        return Err(UnexpectedToken(expected, currentToken.kind, currentToken.start, currentToken.end));
      }
      var t :- NextToken();
      currentToken := t;
      r := Ok(());
    }

    /** `#mustacheNode` (index.js:278-286). */
    method MustacheNode() returns (r: Result<Node, Error>)
      requires Valid()
      modifies this, scanner
      ensures Valid() && Outcome(ParseMustache(scanner.src, old(State())), r, State())
    {
      var start := currentToken.start;
      var _ :- Eat(OpenMustache);
      var expr := currentToken.value;
      var _ :- Eat(MustacheValue);
      var end := currentToken.end;
      var _ :- Eat(CloseMustache);
      r := Ok(Nodes.MustacheNode(start, end, expr));
    }

    /** `#commentNode` (index.js:288-296). */
    method CommentNode() returns (r: Result<Node, Error>)
      requires Valid()
      modifies this, scanner
      ensures Valid() && Outcome(ParseComment(scanner.src, old(State())), r, State())
    {
      var start := currentToken.start;
      var _ :- Eat(OpenComment);
      var comment := currentToken.value;
      var _ :- Eat(Comment);
      var end := currentToken.end;
      var _ :- Eat(CloseComment);
      r := Ok(Nodes.CommentNode(start, end, comment));
    }

    /** `#textNode` (index.js:298-302). */
    method TextNode() returns (r: Result<Node, Error>)
      requires Valid()
      modifies this, scanner
      ensures Valid() && Outcome(ParseText(scanner.src, old(State())), r, State())
    {
      var t := currentToken;
      var _ :- Eat(Text);
      r := Ok(Nodes.TextNode(t.start, t.end, t.value));
    }

    /** One pass of the attribute loop of `#tagNode` (index.js:315-327). */
    method Attr() returns (r: Result<Node, Error>)
      requires Valid()
      modifies this, scanner
      ensures Valid() && Outcome(ParseAttr(scanner.src, old(State())), r, State())
    {
      var start := currentToken.start;
      var key := currentToken.value;
      var _ :- Eat(AttrKey);
      if currentToken.kind == Eq {
        var _ :- Eat(Eq);
        var val := currentToken.value;
        var end := currentToken.end;
        var _ :- Eat(AttrText);
        r := Ok(AttrNode(start, end, key, Quoted(val)));
      } else {
        r := Ok(AttrNode(start, currentToken.end, key, Present));
      }
    }

    /** The attribute loop of `#tagNode` (index.js:314-328). */
    method Attrs() returns (r: Result<seq<Node>, Error>)
      requires Valid()
      modifies this, scanner
      ensures Valid() && Outcome(ParseAttrs(scanner.src, old(State())), r, State())
    {
      var attrs: seq<Node> := [];
      PrependNil(ParseAttrs(scanner.src, State()));
      while currentToken.kind == AttrKey
        invariant Valid()
        invariant Prepend(attrs, ParseAttrs(scanner.src, State())) == ParseAttrs(scanner.src, old(State()))
        decreases PMeasure(scanner.src, State())
      {
        ghost var before := State();
        var a :- Attr();
        assert ParseAttrs(scanner.src, before) == Prepend([a], ParseAttrs(scanner.src, State()));
        PrependTwice(attrs, [a], ParseAttrs(scanner.src, State()));
        attrs := attrs + [a];
      }
      assert attrs + [] == attrs;
      r := Ok(attrs);
    }

    /** `#tagNode` (index.js:304-349). */
    method TagNode() returns (r: Result<Node, Error>)
      requires Valid()
      modifies this, scanner
      ensures Valid() && Outcome(ParseTag(scanner.src, old(State())), r, State())
      decreases PMeasure(scanner.src, State()), 0
    {
      var start := currentToken.start;
      var _ :- Eat(OpenTag);
      var tagName := currentToken.value;
      var _ :- Eat(TagName);
      var attrs :- Attrs();
      r := TagRest(start, tagName, attrs);
    }

    /** The rest of `#tagNode` after the attributes (index.js:330-348): a self-closing tag, or `>`, the
        children loop and the end tag. */
    method TagRest(start: Option<nat>, tagName: string, attrs: seq<Node>) returns (r: Result<Node, Error>)
      requires Valid()
      modifies this, scanner
      ensures Valid() && Outcome(ParseTagRest(scanner.src, start, tagName, attrs, old(State())), r, State())
      decreases PMeasure(scanner.src, State()), 0
    {
      if currentToken.kind == CloseTagWithSlash {
        var end := currentToken.end;
        var _ :- Eat(CloseTagWithSlash);
        return Ok(Nodes.TagNode(start, end, tagName, [], attrs));
      }
      var _ :- Eat(CloseTag);
      ghost var first := State();
      var children: seq<Node> := [];
      PrependNil(ParseChildren(scanner.src, State()));
      while currentToken.kind != OpenTagWithSlash
        invariant Valid() && PMeasure(scanner.src, State()) <= PMeasure(scanner.src, first)
        invariant Prepend(children, ParseChildren(scanner.src, State())) == ParseChildren(scanner.src, first)
        decreases PMeasure(scanner.src, State())
      {
        ghost var before := State();
        var n :- Node();
        assert ParseChildren(scanner.src, before) == Prepend([n], ParseChildren(scanner.src, State()));
        PrependTwice(children, [n], ParseChildren(scanner.src, State()));
        children := children + [n];
      }
      assert children + [] == children;
      var end :- EndTag(tagName);
      r := Ok(Nodes.TagNode(start, end, tagName, children, attrs));
    }

    /** The end tag of `#tagNode` (index.js:340-348): `</`, the start tag's name, `>`. */
    method EndTag(tagName: string) returns (r: Result<Option<nat>, Error>)
      requires Valid()
      modifies this, scanner
      ensures Valid() && Outcome(ParseEndTag(scanner.src, tagName, old(State())), r, State())
    {
      var _ :- Eat(OpenTagWithSlash);
      var endTag := currentToken.value;
      if endTag != tagName {
        return Err(TagMismatch(tagName, endTag, currentToken.start, currentToken.end));
      }
      var _ :- Eat(TagName);
      var end := currentToken.end;
      var _ :- Eat(CloseTag);
      r := Ok(end);
    }

    /** `#node` (index.js:351-362). */
    method Node() returns (r: Result<Node, Error>)
      requires Valid()
      modifies this, scanner
      ensures Valid() && Outcome(ParseNode(scanner.src, old(State())), r, State())
      decreases PMeasure(scanner.src, State()), 1
    {
      match currentToken.kind
      case OpenTag => r := TagNode();
      case Text => r := TextNode();
      case OpenComment => r := CommentNode();
      case OpenMustache => r := MustacheNode();
      case _ => r := Err(UnexpectedNodeStart(currentToken.kind, currentToken.start, currentToken.end));
    }

    /** `parse()` (index.js:364-372). */
    method Parse() returns (r: Result<Node, Error>)
      requires Valid()
      modifies this, scanner
      ensures Valid() && r == ParseTemplate(scanner.src, old(State()))
    {
      ghost var first := State();
      var start := currentToken.start;
      var children: seq<Node> := [];
      PrependTopNil(ParseTop(scanner.src, first));
      while currentToken.kind != EOF
        invariant Valid()
        invariant PrependTop(children, ParseTop(scanner.src, State())) == ParseTop(scanner.src, first)
        decreases PMeasure(scanner.src, State())
      {
        ghost var before := State();
        var n :- Node();
        assert ParseTop(scanner.src, before) == PrependTop([n], ParseTop(scanner.src, State()));
        PrependTopTwice(children, [n], ParseTop(scanner.src, State()));
        children := children + [n];
      }
      assert children + [] == children;
      assert ParseTop(scanner.src, first) == Ok(children);
      var end := if children == [] then None else children[|children| - 1].end;
      r := Ok(TemplateNode(start, end, children));
    }
  }

  /** `done + more` then the rest is `done` then `more` then the rest. */
  lemma PrependTwice<T>(done: seq<T>, more: seq<T>, rest: Result<(seq<T>, PState), Error>)
    ensures Prepend(done + more, rest) == Prepend(done, Prepend(more, rest))
  {
    if rest.Ok? {
      assert done + more + rest.value.0 == done + (more + rest.value.0);
    }
  }

  lemma PrependNil<T>(rest: Result<(seq<T>, PState), Error>)
    ensures Prepend([], rest) == rest
  {
    if rest.Ok? {
      assert [] + rest.value.0 == rest.value.0;
    }
  }

  lemma PrependTopNil(rest: Result<seq<Node>, Error>)
    ensures PrependTop([], rest) == rest
  {
    if rest.Ok? {
      assert [] + rest.value == rest.value;
    }
  }

  lemma PrependTopTwice(done: seq<Node>, more: seq<Node>, rest: Result<seq<Node>, Error>)
    ensures PrependTop(done + more, rest) == PrependTop(done, PrependTop(more, rest))
  {
    if rest.Ok? {
      assert done + more + rest.value == done + (more + rest.value);
    }
  }

  /** `new Parser(src).parse()`: the template the parser builds from `src`, or the error it throws. */
  method ParseSource(src: string) returns (r: Result<Node, Error>)
    ensures r == ParseDocument(src)
  {
    var p := new Parser(src);
    r := p.Parse();
  }
}
