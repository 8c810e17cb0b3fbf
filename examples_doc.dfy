/** Small documents worked through the model: the tested document, a self-closing tag, a comment and
    a bare attribute, which parse; the unclosed tag on which `parse()` never returns, and an end tag
    whose name does not match. */
module Examples {
  import opened Wrappers
  import opened Tokens
  import opened Lexical
  import opened ScanSpec
  import opened Nodes
  import opened ParseSpec
  import opened ScanFacts
  import opened ParseFacts

  /** The tokens of `<p>`: `<`, `p`, `>`, then EOF. */
  lemma UnclosedTokens()
    ensures Step("<p>", Start) == Yield(Tok(OpenTag, "<", 0, 1), ScanState(1, AfterOpenTag))
    ensures Step("<p>", ScanState(1, AfterOpenTag)) == Yield(Tok(TagName, "p", 1, 2), ScanState(2, InAttrs))
  {
    var src := "<p>";
    assert src[0..2] == "<p" && src[0..1] == "<";
    assert RunEnd(src, 2, NameChars) == 2 && src[1..2] == "p";
  }

  lemma UnclosedClose()
    ensures Step("<p>", ScanState(2, InAttrs)) == Yield(Tok(CloseTag, ">", 2, 3), ScanState(3, Markup))
  {
    var src := "<p>";
    assert RunEnd(src, 2, Spaces) == 2 && src[2..3] == ">";
  }

  /** `<p>` has no end tag: the children loop meets EOF, where the source loops forever. */
  lemma UnclosedTag()
    ensures ParseDocument("<p>") == Err(UnexpectedNodeStart(EOF, None, None))
  {
    UnclosedTokens();
    UnclosedChildren();
  }

  lemma UnclosedChildren()
    ensures ParseTag("<p>", PState(ScanState(1, AfterOpenTag), Tok(OpenTag, "<", 0, 1)))
      == Err(UnexpectedNodeStart(EOF, None, None))
  {
    UnclosedTokens();
    UnclosedClose();
    assert Step("<p>", ScanState(3, Markup)) == Yield(EofToken, ScanState(3, Finished));
  }

  /** The tokens of `<a></b>` up to the end tag's name. */
  lemma MismatchOpen()
    ensures Step("<a></b>", Start) == Yield(Tok(OpenTag, "<", 0, 1), ScanState(1, AfterOpenTag))
    ensures Step("<a></b>", ScanState(1, AfterOpenTag)) == Yield(Tok(TagName, "a", 1, 2), ScanState(2, InAttrs))
  {
    var src := "<a></b>";
    assert src[0..4] == "<a><" && src[0..2] == "<a" && src[0..1] == "<";
    assert RunEnd(src, 2, NameChars) == 2 && src[1..2] == "a";
  }

  lemma MismatchClose()
    ensures Step("<a></b>", ScanState(2, InAttrs)) == Yield(Tok(CloseTag, ">", 2, 3), ScanState(3, Markup))
  {
    var src := "<a></b>";
    assert RunEnd(src, 2, Spaces) == 2;
    assert src[2..4] == "><" && src[2..3] == ">";
  }

  lemma MismatchEnd()
    ensures Step("<a></b>", ScanState(3, Markup)) == Yield(Tok(OpenTagWithSlash, "</", 3, 5), ScanState(5, AfterOpenTag))
    ensures Step("<a></b>", ScanState(5, AfterOpenTag)) == Yield(Tok(TagName, "b", 5, 6), ScanState(6, InAttrs))
  {
    var src := "<a></b>";
    assert src[3..7] == "</b>" && src[3..5] == "</";
    assert RunEnd(src, 6, NameChars) == 6 && src[5..6] == "b";
  }

  /** `<a></b>` fails on the end tag's name, with that name's span, before the rest is scanned. */
  lemma MismatchedEndTag()
    ensures ParseDocument("<a></b>") == Err(TagMismatch("a", "b", Some(5), Some(6)))
  {
    MismatchOpen();
    MismatchTag();
  }

  lemma MismatchTag()
    ensures ParseTag("<a></b>", PState(ScanState(1, AfterOpenTag), Tok(OpenTag, "<", 0, 1)))
      == Err(TagMismatch("a", "b", Some(5), Some(6)))
  {
    MismatchOpen();
    MismatchClose();
    MismatchEnd();
  }

  // Tokens at known places. Each lemma gives the exact resumption of the generator for a piece of
  // text whose shape is known, so that a whole document can be scanned piece by piece.

  /** A `<` followed by a letter: the markup expression takes the `<` alternative. */
  lemma OpenTagScan(src: string, p: nat)
    requires p + 1 < |src| && src[p] == '<' && IsAsciiLetter(src[p + 1])
    ensures Step(src, ScanState(p, Markup)) == Yield(Tok(OpenTag, "<", p, p + 1), ScanState(p + 1, AfterOpenTag))
  {
    assert src[p..p + 1] == "<";
    assert p + 2 <= |src| ==> src[p..p + 2][1] == src[p + 1];
    assert p + 4 <= |src| ==> src[p..p + 4][1] == src[p + 1];
    assert MarkupMatch(src, p) == Some(OpenTag);
  }

  lemma EndTagOpenScan(src: string, p: nat)
    requires HasAt(src, p, "</")
    ensures Step(src, ScanState(p, Markup)) == Yield(Tok(OpenTagWithSlash, "</", p, p + 2), ScanState(p + 2, AfterOpenTag))
  {
    assert MarkupMatch(src, p) == Some(OpenTagWithSlash);
  }

  /** A tag name that no name character continues. */
  lemma TagNameScan(src: string, p: nat, name: string)
    requires IsTagName(name) && HasAt(src, p, name) && (p + |name| < |src| ==> !IsNameChar(src[p + |name|]))
    ensures Step(src, ScanState(p, AfterOpenTag)) == Yield(Tok(TagName, name, p, p + |name|), ScanState(p + |name|, InAttrs))
  {
    forall k | p + 1 <= k < p + |name|
      ensures IsNameChar(src[k])
    {
      assert src[k] == src[p..p + |name|][k - p];
    }
    assert src[p] == src[p..p + |name|][0];
    RunEndUnique(src, p + 1, NameChars, p + |name|);
  }

  /** Attribute mode at `pos` skips the white space up to `p`. */
  predicate SkipsTo(src: string, pos: nat, p: nat) {
    Blank(src, pos, p) && (p < |src| ==> !IsSpace(src[p]))
  }

  lemma AttrModeAt(src: string, pos: nat, p: nat)
    requires SkipsTo(src, pos, p)
    ensures Step(src, ScanState(pos, InAttrs)) == AttrStep(src, p)
  {
    RunEndUnique(src, pos, Spaces, p);
  }

  lemma CloseTagScan(src: string, pos: nat, p: nat)
    requires SkipsTo(src, pos, p) && HasAt(src, p, ">")
    ensures Step(src, ScanState(pos, InAttrs)) == Yield(Tok(CloseTag, ">", p, p + 1), ScanState(p + 1, Markup))
  {
    AttrModeAt(src, pos, p);
    HasAtHead(src, p, "/>");
  }

  lemma SelfCloseScan(src: string, pos: nat, p: nat)
    requires SkipsTo(src, pos, p) && HasAt(src, p, "/>")
    ensures Step(src, ScanState(pos, InAttrs)) == Yield(Tok(CloseTagWithSlash, "/>", p, p + 2), ScanState(p + 2, Markup))
  {
    AttrModeAt(src, pos, p);
  }

  lemma EqScan(src: string, pos: nat, p: nat)
    requires SkipsTo(src, pos, p) && HasAt(src, p, "=")
    ensures Step(src, ScanState(pos, InAttrs)) == Yield(Tok(Eq, "=", p, p + 1), ScanState(p + 1, InAttrs))
  {
    AttrModeAt(src, pos, p);
    HasAtHead(src, p, "=");
    HasAtHead(src, p, "/>");
    HasAtHead(src, p, ">");
  }

  /** A key: key characters that no key character continues. */
  lemma KeyScan(src: string, pos: nat, p: nat, key: string)
    requires SkipsTo(src, pos, p) && key != [] && HasAt(src, p, key) && (forall i :: 0 <= i < |key| ==> IsKeyChar(key[i]))
    requires p + |key| < |src| ==> !IsKeyChar(src[p + |key|])
    ensures Step(src, ScanState(pos, InAttrs)) == Yield(Tok(AttrKey, key, p, p + |key|), ScanState(p + |key|, InAttrs))
  {
    AttrModeAt(src, pos, p);
    forall k | p <= k < p + |key|
      ensures IsKeyChar(src[k])
    {
      assert src[k] == src[p..p + |key|][k - p];
    }
    RunEndUnique(src, p, KeyChars, p + |key|);
    HasAtHead(src, p, "/>");
    HasAtHead(src, p, ">");
  }

  /** A quoted value `q b q` with no `q` in `b`. */
  lemma QuotedScan(src: string, pos: nat, p: nat, q: char, b: string)
    requires SkipsTo(src, pos, p) && IsQuote(q) && HasAt(src, p, [q] + b + [q]) && (forall i :: 0 <= i < |b| ==> b[i] != q)
    ensures Step(src, ScanState(pos, InAttrs))
      == Yield(Tok(AttrText, [q] + b + [q], p + 1, p + 2 + |b|), ScanState(p + 2 + |b|, InAttrs))
  {
    AttrModeAt(src, pos, p);
    QuoteEnd(src, p, q, b);
    HasAtHead(src, p, "/>");
    HasAtHead(src, p, ">");
    assert AttrStep(src, p) == QuotedStep(src, p);
  }

  lemma QuoteEnd(src: string, p: nat, q: char, b: string)
    requires HasAt(src, p, [q] + b + [q]) && (forall i :: 0 <= i < |b| ==> b[i] != q)
    ensures src[p] == q && ReadUntil(src, p + 1, QuoteChar(q)) == p + 1 + |b| && src[p..p + 2 + |b|] == [q] + b + [q]
  {
    var w := src[p..p + 2 + |b|];
    assert src[p] == w[0] && src[p + 1 + |b|] == w[1 + |b|];
    forall k | p + 1 <= k < p + 1 + |b|
      ensures !StopsAt(src, k, QuoteChar(q))
    {
      assert src[k] == w[k - p];
    }
    ReadUntilUnique(src, p + 1, QuoteChar(q), p + 1 + |b|);
  }

  lemma MustacheOpenScan(src: string, p: nat)
    requires HasAt(src, p, "{{")
    ensures Step(src, ScanState(p, Markup)) == Yield(Tok(OpenMustache, "{{", p, p + 2), ScanState(p + 2, AfterOpenMustache))
  {
    assert MarkupMatch(src, p) == Some(OpenMustache);
  }

  /** `{{x}}` with no `}` in `x`: the opener, the value and the closer. */
  lemma MustacheScan(src: string, p: nat, x: string)
    requires HasAt(src, p, "{{") && HasAt(src, p + 2, x) && HasAt(src, p + 2 + |x|, "}}")
    requires forall i :: 0 <= i < |x| ==> x[i] != '}'
    ensures Step(src, ScanState(p, Markup)) == Yield(Tok(OpenMustache, "{{", p, p + 2), ScanState(p + 2, AfterOpenMustache))
    ensures Step(src, ScanState(p + 2, AfterOpenMustache))
      == Yield(Tok(MustacheValue, x, p + 2, p + 2 + |x|), ScanState(p + 2 + |x|, AfterMustacheValue))
    ensures Step(src, ScanState(p + 2 + |x|, AfterMustacheValue))
      == Yield(Tok(CloseMustache, "}}", p + 2 + |x|, p + 4 + |x|), ScanState(p + 4 + |x|, Markup))
  {
    MustacheEnd(src, p, x);
    assert MarkupMatch(src, p) == Some(OpenMustache);
  }

  lemma MustacheEnd(src: string, p: nat, x: string)
    requires HasAt(src, p + 2, x) && HasAt(src, p + 2 + |x|, "}}")
    requires forall i :: 0 <= i < |x| ==> x[i] != '}'
    ensures ReadUntil(src, p + 2, MustacheClose) == p + 2 + |x|
  {
    forall k | p + 2 <= k < p + 2 + |x|
      ensures !HasAt(src, k, "}}")
    {
      HasAtHead(src, k, "}}");
      assert src[k] == src[p + 2..p + 2 + |x|][k - p - 2];
    }
    ReadUntilUnique(src, p + 2, MustacheClose, p + 2 + |x|);
  }

  /** `<!--c-->` with no `-` in `c`: the opener, the comment text and the closer. */
  lemma CommentScan(src: string, p: nat, c: string)
    requires HasAt(src, p, "<!--") && HasAt(src, p + 4, c) && HasAt(src, p + 4 + |c|, "-->")
    requires forall i :: 0 <= i < |c| ==> c[i] != '-'
    ensures Step(src, ScanState(p, Markup)) == Yield(Tok(OpenComment, "<!--", p, p + 4), ScanState(p + 4, AfterOpenComment))
    ensures Step(src, ScanState(p + 4, AfterOpenComment))
      == Yield(Tok(Comment, c, p + 4, p + 4 + |c|), ScanState(p + 4 + |c|, AfterCommentText))
    ensures Step(src, ScanState(p + 4 + |c|, AfterCommentText))
      == Yield(Tok(CloseComment, "-->", p + 4 + |c|, p + 7 + |c|), ScanState(p + 7 + |c|, Markup))
  {
    CommentEnd(src, p, c);
    assert MarkupMatch(src, p) == Some(OpenComment);
  }

  lemma CommentEnd(src: string, p: nat, c: string)
    requires HasAt(src, p + 4, c) && HasAt(src, p + 4 + |c|, "-->")
    requires forall i :: 0 <= i < |c| ==> c[i] != '-'
    ensures ReadUntil(src, p + 4, CommentClose) == p + 4 + |c|
  {
    forall k | p + 4 <= k < p + 4 + |c|
      ensures !HasAt(src, k, "-->")
    {
      HasAtHead(src, k, "-->");
      assert src[k] == src[p + 4..p + 4 + |c|][k - p - 4];
    }
    ReadUntilUnique(src, p + 4, CommentClose, p + 4 + |c|);
  }

  /** Text `t` holding no `<` and no `{`, ended by a marker or by the end of the input. */
  lemma TextScan(src: string, p: nat, t: string)
    requires t != [] && HasAt(src, p, t) && (forall i :: 0 <= i < |t| ==> t[i] != '<' && t[i] != '{')
    requires p + |t| < |src| ==> src[p + |t|] == '<' || HasAt(src, p + |t|, "{{")
    ensures Step(src, ScanState(p, Markup)) == Yield(Tok(Text, t, p, p + |t|), ScanState(p + |t|, Markup))
  {
    forall k | p <= k < p + |t|
      ensures !MarkupAt(src, k)
    {
      MarkupAtChars(src, k);
      HasAtHead(src, k, "{{");
      assert src[k] == src[p..p + |t|][k - p];
    }
    MarkupAtChars(src, p + |t|);
    ReadUntilUnique(src, p, MarkupStart, p + |t|);
  }

  // Parsing pieces: each parsing function, given the results of the calls it makes.

  lemma MustacheOk(src: string, ps: PState, ps1: PState, ps2: PState, ps3: PState)
    requires ValidP(src, ps) && Eat(src, ps, OpenMustache) == Ok(ps1)
    requires Eat(src, ps1, MustacheValue) == Ok(ps2) && Eat(src, ps2, CloseMustache) == Ok(ps3)
    ensures ParseNode(src, ps) == Ok((MustacheNode(ps.cur.start, ps2.cur.end, ps1.cur.value), ps3))
  {
  }

  lemma CommentOk(src: string, ps: PState, ps1: PState, ps2: PState, ps3: PState)
    requires ValidP(src, ps) && Eat(src, ps, OpenComment) == Ok(ps1)
    requires Eat(src, ps1, Comment) == Ok(ps2) && Eat(src, ps2, CloseComment) == Ok(ps3)
    ensures ParseNode(src, ps) == Ok((CommentNode(ps.cur.start, ps2.cur.end, ps1.cur.value), ps3))
  {
  }

  lemma TextOk(src: string, ps: PState, ps1: PState)
    requires ValidP(src, ps) && Eat(src, ps, Text) == Ok(ps1)
    ensures ParseNode(src, ps) == Ok((TextNode(ps.cur.start, ps.cur.end, ps.cur.value), ps1))
  {
  }

  /** `key=value`: the attribute ends where the value ends. */
  lemma QuotedAttrOk(src: string, ps: PState, ps1: PState, ps2: PState, ps3: PState)
    requires ValidP(src, ps) && Eat(src, ps, AttrKey) == Ok(ps1)
    requires Eat(src, ps1, Eq) == Ok(ps2) && Eat(src, ps2, AttrText) == Ok(ps3)
    ensures ParseAttr(src, ps) == Ok((AttrNode(ps.cur.start, ps2.cur.end, ps.cur.value, Quoted(ps2.cur.value)), ps3))
  {
  }

  /** A bare key: the attribute ends where the token after the key ends. */
  lemma BareAttrOk(src: string, ps: PState, ps1: PState)
    requires ValidP(src, ps) && Eat(src, ps, AttrKey) == Ok(ps1) && ps1.cur.kind != Eq
    ensures ParseAttr(src, ps) == Ok((AttrNode(ps.cur.start, ps1.cur.end, ps.cur.value, Present), ps1))
  {
  }

  lemma AttrsCons(src: string, ps: PState, a: Node, ps1: PState, rest: seq<Node>, ps2: PState)
    requires ValidP(src, ps) && ps.cur.kind == AttrKey && ParseAttr(src, ps) == Ok((a, ps1))
    requires ParseAttrs(src, ps1) == Ok((rest, ps2))
    ensures ParseAttrs(src, ps) == Ok(([a] + rest, ps2))
  {
  }

  lemma TagOk(src: string, ps: PState, ps1: PState, ps2: PState, attrs: seq<Node>, ps3: PState, n: Node, ps4: PState)
    requires ValidP(src, ps) && Eat(src, ps, OpenTag) == Ok(ps1) && Eat(src, ps1, TagName) == Ok(ps2)
    requires ParseAttrs(src, ps2) == Ok((attrs, ps3))
    requires ParseTagRest(src, ps.cur.start, ps1.cur.value, attrs, ps3) == Ok((n, ps4))
    ensures ParseNode(src, ps) == Ok((n, ps4))
  {
  }

  lemma SelfCloseOk(src: string, start: Option<nat>, name: string, attrs: seq<Node>, ps: PState, ps1: PState)
    requires ValidP(src, ps) && Eat(src, ps, CloseTagWithSlash) == Ok(ps1)
    ensures ParseTagRest(src, start, name, attrs, ps) == Ok((TagNode(start, ps.cur.end, name, [], attrs), ps1))
  {
  }

  lemma BodyOk(src: string, start: Option<nat>, name: string, attrs: seq<Node>, ps: PState, ps1: PState,
               cs: seq<Node>, ps2: PState, e: Option<nat>, ps3: PState)
    requires ValidP(src, ps) && ps.cur.kind == CloseTag && Eat(src, ps, CloseTag) == Ok(ps1)
    requires ParseChildren(src, ps1) == Ok((cs, ps2)) && ParseEndTag(src, name, ps2) == Ok((e, ps3))
    ensures ParseTagRest(src, start, name, attrs, ps) == Ok((TagNode(start, e, name, cs, attrs), ps3))
  {
  }

  lemma EndTagOk(src: string, name: string, ps: PState, ps1: PState, ps2: PState, ps3: PState)
    requires ValidP(src, ps) && Eat(src, ps, OpenTagWithSlash) == Ok(ps1) && ps1.cur.value == name
    requires Eat(src, ps1, TagName) == Ok(ps2) && Eat(src, ps2, CloseTag) == Ok(ps3)
    ensures ParseEndTag(src, name, ps) == Ok((ps2.cur.end, ps3))
  {
  }

  lemma ChildrenCons(src: string, ps: PState, n: Node, ps1: PState, rest: seq<Node>, ps2: PState)
    requires ValidP(src, ps) && ps.cur.kind != OpenTagWithSlash
    requires ParseNode(src, ps) == Ok((n, ps1)) && ParseChildren(src, ps1) == Ok((rest, ps2))
    ensures ParseChildren(src, ps) == Ok(([n] + rest, ps2))
  {
  }

  /** `{{x}}` and the text after it, as the next two children. */
  lemma MustacheTextKids(src: string, ps: PState, ps1: PState, ps2: PState, ps3: PState, ps4: PState,
                         rest: seq<Node>, last: PState)
    requires ValidP(src, ps) && Eat(src, ps, OpenMustache) == Ok(ps1)
    requires Eat(src, ps1, MustacheValue) == Ok(ps2) && Eat(src, ps2, CloseMustache) == Ok(ps3)
    requires Eat(src, ps3, Text) == Ok(ps4) && ParseChildren(src, ps4) == Ok((rest, last))
    ensures ParseChildren(src, ps) == Ok(([MustacheNode(ps.cur.start, ps2.cur.end, ps1.cur.value),
                                          TextNode(ps3.cur.start, ps3.cur.end, ps3.cur.value)] + rest, last))
  {
    var m := MustacheNode(ps.cur.start, ps2.cur.end, ps1.cur.value);
    var t := TextNode(ps3.cur.start, ps3.cur.end, ps3.cur.value);
    MustacheOk(src, ps, ps1, ps2, ps3);
    TextOk(src, ps3, ps4);
    ChildrenCons(src, ps3, t, ps4, rest, last);
    ChildrenCons(src, ps, m, ps3, [t] + rest, last);
    assert [m, t] + rest == [m] + ([t] + rest);
  }

  lemma TopCons(src: string, ps: PState, n: Node, ps1: PState, rest: seq<Node>)
    requires ValidP(src, ps) && ps.cur.kind != EOF
    requires ParseNode(src, ps) == Ok((n, ps1)) && ParseTop(src, ps1) == Ok(rest)
    ensures ParseTop(src, ps) == Ok([n] + rest)
  {
  }

  lemma DocumentOk(src: string, ps: PState, cs: seq<Node>)
    requires NextToken(src, Start) == Ok(ps) && ParseTop(src, ps) == Ok(cs) && cs != []
    ensures ParseDocument(src) == Ok(TemplateNode(ps.cur.start, cs[|cs| - 1].end, cs))
  {
  }

  /** The generator, suspended in `a.sc`, yields `b.cur` and is suspended in `b.sc` next: the parser
      moves from `a` to `b` when it eats `a`'s token. */
  predicate Pulls(src: string, a: PState, b: PState) {
    ValidP(src, a) && Step(src, a.sc) == Yield(b.cur, b.sc)
  }

  /** `lit` stands at `i`, character by character. */
  lemma HasAtChars(src: string, i: nat, lit: string)
    requires i + |lit| <= |src| && forall k :: 0 <= k < |lit| ==> src[i + k] == lit[k]
    ensures HasAt(src, i, lit)
  {
    assert src[i..i + |lit|] == lit;
  }

  // `<br/>`: a self-closing tag.

  /** `<br/>` is one childless tag that ends where its `/>` ends. */
  lemma SelfClosingTag()
    ensures ParseDocument("<br/>") == Ok(TemplateNode(Some(0), Some(5), [TagNode(Some(0), Some(5), "br", [], [])]))
  {
    var src := "<br/>";
    assert src[0] == '<' && src[1] == 'b' && src[2] == 'r' && src[3] == '/' && src[4] == '>';
    HasAtChars(src, 1, "br");
    HasAtChars(src, 3, "/>");
    OpenTagScan(src, 0);
    TagNameScan(src, 1, "br");
    SelfCloseScan(src, 3, 3);
    SelfClosingParse(src);
  }

  lemma SelfClosingParse(src: string)
    requires |src| == 5
    requires Step(src, Start) == Yield(Tok(OpenTag, "<", 0, 1), ScanState(1, AfterOpenTag))
    requires Step(src, ScanState(1, AfterOpenTag)) == Yield(Tok(TagName, "br", 1, 3), ScanState(3, InAttrs))
    requires Step(src, ScanState(3, InAttrs)) == Yield(Tok(CloseTagWithSlash, "/>", 3, 5), ScanState(5, Markup))
    ensures ParseDocument(src) == Ok(TemplateNode(Some(0), Some(5), [TagNode(Some(0), Some(5), "br", [], [])]))
  {
    var ps0 := PState(ScanState(1, AfterOpenTag), Tok(OpenTag, "<", 0, 1));
    var ps1 := PState(ScanState(3, InAttrs), Tok(TagName, "br", 1, 3));
    var ps2 := PState(ScanState(5, Markup), Tok(CloseTagWithSlash, "/>", 3, 5));
    var ps3 := PState(ScanState(5, Finished), EofToken);
    var tag := TagNode(Some(0), Some(5), "br", [], []);
    SelfCloseOk(src, Some(0), "br", [], ps2, ps3);
    TagOk(src, ps0, ps1, ps2, [], ps2, tag, ps3);
    TopCons(src, ps0, tag, ps3, []);
    assert [tag] + [] == [tag];
    DocumentOk(src, ps0, [tag]);
  }

  // The tested document `<p bar='foo'>{{a}} {{b}} : {{c}} :</p>` (test/index.test.js:132-146).

  const TestDoc: string := "<p bar='foo'>{{a}} {{b}} : {{c}} :</p>"

  /** Where the pieces of `<p bar='foo'>{{`, the start of the tested document, stand. */
  predicate StartTagShape(src: string) {
    && 15 <= |src| && src[2] == ' '
    && HasAt(src, 0, "<") && HasAt(src, 1, "p") && HasAt(src, 3, "bar") && HasAt(src, 6, "=")
    && HasAt(src, 7, "'foo'") && HasAt(src, 12, ">") && HasAt(src, 13, "{{")
  }

  /** Where the pieces of the tested document stand. */
  predicate TestShape(src: string) {
    && |src| == 38 && StartTagShape(src)
    && HasAt(src, 15, "a") && HasAt(src, 16, "}}") && HasAt(src, 18, " ")
    && HasAt(src, 19, "{{") && HasAt(src, 21, "b") && HasAt(src, 22, "}}") && HasAt(src, 24, " : ")
    && HasAt(src, 27, "{{") && HasAt(src, 29, "c") && HasAt(src, 30, "}}") && HasAt(src, 32, " :")
    && HasAt(src, 34, "</") && HasAt(src, 36, "p") && HasAt(src, 37, ">")
  }

  lemma TestShapeHolds()
    ensures TestShape(TestDoc)
  {
    TestShapeTag();
    TestShapeKey();
    TestShapeValue();
    TestShapeA();
    TestShapeB();
    TestShapeC();
    TestShapeEnd();
  }

  lemma TestShapeTag()
    ensures |TestDoc| == 38 && TestDoc[2] == ' ' && HasAt(TestDoc, 0, "<") && HasAt(TestDoc, 1, "p")
  {
    var s := TestDoc;
    assert s[0] == '<' && s[1] == 'p';
    HasAtChars(s, 0, "<");
    HasAtChars(s, 1, "p");
  }

  lemma TestShapeKey()
    ensures |TestDoc| == 38 && HasAt(TestDoc, 3, "bar") && HasAt(TestDoc, 6, "=")
  {
    var s := TestDoc;
    assert s[3] == 'b' && s[4] == 'a' && s[5] == 'r' && s[6] == '=';
    HasAtChars(s, 3, "bar");
    HasAtChars(s, 6, "=");
  }

  lemma TestShapeValue()
    ensures |TestDoc| == 38 && HasAt(TestDoc, 7, "'foo'") && HasAt(TestDoc, 12, ">")
  {
    var s := TestDoc;
    assert s[7] == '\'' && s[8] == 'f' && s[9] == 'o' && s[10] == 'o' && s[11] == '\'' && s[12] == '>';
    HasAtChars(s, 7, "'foo'");
    HasAtChars(s, 12, ">");
  }

  lemma TestShapeA()
    ensures |TestDoc| == 38
    ensures HasAt(TestDoc, 13, "{{") && HasAt(TestDoc, 15, "a") && HasAt(TestDoc, 16, "}}") && HasAt(TestDoc, 18, " ")
  {
    var s := TestDoc;
    assert s[13] == '{' && s[14] == '{' && s[15] == 'a' && s[16] == '}' && s[17] == '}' && s[18] == ' ';
    HasAtChars(s, 13, "{{");
    HasAtChars(s, 15, "a");
    HasAtChars(s, 16, "}}");
    HasAtChars(s, 18, " ");
  }

  lemma TestShapeB()
    ensures |TestDoc| == 38
    ensures HasAt(TestDoc, 19, "{{") && HasAt(TestDoc, 21, "b") && HasAt(TestDoc, 22, "}}") && HasAt(TestDoc, 24, " : ")
  {
    var s := TestDoc;
    assert s[19] == '{' && s[20] == '{' && s[21] == 'b' && s[22] == '}' && s[23] == '}';
    assert s[24] == ' ' && s[25] == ':' && s[26] == ' ';
    HasAtChars(s, 19, "{{");
    HasAtChars(s, 21, "b");
    HasAtChars(s, 22, "}}");
    HasAtChars(s, 24, " : ");
  }

  lemma TestShapeC()
    ensures |TestDoc| == 38
    ensures HasAt(TestDoc, 27, "{{") && HasAt(TestDoc, 29, "c") && HasAt(TestDoc, 30, "}}") && HasAt(TestDoc, 32, " :")
  {
    var s := TestDoc;
    assert s[27] == '{' && s[28] == '{' && s[29] == 'c' && s[30] == '}' && s[31] == '}' && s[32] == ' ' && s[33] == ':';
    HasAtChars(s, 27, "{{");
    HasAtChars(s, 29, "c");
    HasAtChars(s, 30, "}}");
    HasAtChars(s, 32, " :");
  }

  lemma TestShapeEnd()
    ensures |TestDoc| == 38
    ensures HasAt(TestDoc, 34, "</") && HasAt(TestDoc, 36, "p") && HasAt(TestDoc, 37, ">")
  {
    var s := TestDoc;
    assert s[34] == '<' && s[35] == '/' && s[36] == 'p' && s[37] == '>';
    HasAtChars(s, 34, "</");
    HasAtChars(s, 36, "p");
    HasAtChars(s, 37, ">");
  }

  /** The parser states of the tested document: `Tn` is the parser once its current token is the
      `n`-th token, `<` being the 0-th and EOF the 21st. */
  const T0: PState := PState(ScanState(1, AfterOpenTag), Tok(OpenTag, "<", 0, 1))
  const T1: PState := PState(ScanState(2, InAttrs), Tok(TagName, "p", 1, 2))
  const T2: PState := PState(ScanState(6, InAttrs), Tok(AttrKey, "bar", 3, 6))
  const T3: PState := PState(ScanState(7, InAttrs), Tok(Eq, "=", 6, 7))
  const T4: PState := PState(ScanState(12, InAttrs), Tok(AttrText, "'foo'", 8, 12))
  const T5: PState := PState(ScanState(13, Markup), Tok(CloseTag, ">", 12, 13))
  const T6: PState := PState(ScanState(15, AfterOpenMustache), Tok(OpenMustache, "{{", 13, 15))
  const T7: PState := PState(ScanState(16, AfterMustacheValue), Tok(MustacheValue, "a", 15, 16))
  const T8: PState := PState(ScanState(18, Markup), Tok(CloseMustache, "}}", 16, 18))
  const T9: PState := PState(ScanState(19, Markup), Tok(Text, " ", 18, 19))
  const T10: PState := PState(ScanState(21, AfterOpenMustache), Tok(OpenMustache, "{{", 19, 21))
  const T11: PState := PState(ScanState(22, AfterMustacheValue), Tok(MustacheValue, "b", 21, 22))
  const T12: PState := PState(ScanState(24, Markup), Tok(CloseMustache, "}}", 22, 24))
  const T13: PState := PState(ScanState(27, Markup), Tok(Text, " : ", 24, 27))
  const T14: PState := PState(ScanState(29, AfterOpenMustache), Tok(OpenMustache, "{{", 27, 29))
  const T15: PState := PState(ScanState(30, AfterMustacheValue), Tok(MustacheValue, "c", 29, 30))
  const T16: PState := PState(ScanState(32, Markup), Tok(CloseMustache, "}}", 30, 32))
  const T17: PState := PState(ScanState(34, Markup), Tok(Text, " :", 32, 34))
  const T18: PState := PState(ScanState(36, AfterOpenTag), Tok(OpenTagWithSlash, "</", 34, 36))
  const T19: PState := PState(ScanState(37, InAttrs), Tok(TagName, "p", 36, 37))
  const T20: PState := PState(ScanState(38, Markup), Tok(CloseTag, ">", 37, 38))
  const T21: PState := PState(ScanState(38, Finished), EofToken)

  /** The token stream of the tested document, in three parts: the start tag, the children and the
      end tag. */
  predicate TestHeadSteps(src: string) {
    && Step(src, Start) == Yield(T0.cur, T0.sc)
    && Pulls(src, T0, T1) && Pulls(src, T1, T2) && Pulls(src, T2, T3) && Pulls(src, T3, T4)
    && Pulls(src, T4, T5) && Pulls(src, T5, T6)
  }

  predicate TestKidSteps(src: string) {
    && Pulls(src, T6, T7) && Pulls(src, T7, T8) && Pulls(src, T8, T9) && Pulls(src, T9, T10)
    && Pulls(src, T10, T11) && Pulls(src, T11, T12) && Pulls(src, T12, T13) && Pulls(src, T13, T14)
    && Pulls(src, T14, T15) && Pulls(src, T15, T16) && Pulls(src, T16, T17) && Pulls(src, T17, T18)
  }

  predicate TestEndSteps(src: string) {
    Pulls(src, T18, T19) && Pulls(src, T19, T20) && Pulls(src, T20, T21)
  }

  lemma TestHeadScan(src: string)
    requires StartTagShape(src)
    ensures TestHeadSteps(src)
  {
    HasAtHead(src, 0, "<");
    HasAtHead(src, 1, "p");
    HasAtHead(src, 3, "bar");
    HasAtHead(src, 6, "=");
    HasAtHead(src, 7, "'foo'");
    HasAtHead(src, 12, ">");
    OpenTagScan(src, 0);
    TagNameScan(src, 1, "p");
    KeyScan(src, 2, 3, "bar");
    EqScan(src, 6, 6);
    assert ['\''] + "foo" + ['\''] == "'foo'";
    QuotedScan(src, 7, 7, '\'', "foo");
    CloseTagScan(src, 12, 12);
    MustacheOpenScan(src, 13);
  }

  lemma TestKidScan(src: string)
    requires TestShape(src)
    ensures TestKidSteps(src)
  {
    HasAtHead(src, 19, "{{");
    HasAtHead(src, 27, "{{");
    HasAtHead(src, 34, "</");
    MustacheScan(src, 13, "a");
    TextScan(src, 18, " ");
    MustacheScan(src, 19, "b");
    TextScan(src, 24, " : ");
    MustacheScan(src, 27, "c");
    TextScan(src, 32, " :");
    EndTagOpenScan(src, 34);
  }

  lemma TestEndScan(src: string)
    requires TestShape(src)
    ensures TestEndSteps(src)
  {
    HasAtHead(src, 37, ">");
    TagNameScan(src, 36, "p");
    CloseTagScan(src, 37, 37);
  }

  const TestAttr: Node := AttrNode(Some(3), Some(12), "bar", Quoted("'foo'"))
  const KidsC: seq<Node> := [MustacheNode(Some(27), Some(32), "c"), TextNode(Some(32), Some(34), " :")]
  const KidsB: seq<Node> := [MustacheNode(Some(19), Some(24), "b"), TextNode(Some(24), Some(27), " : ")] + KidsC
  const TestChildren: seq<Node> := [MustacheNode(Some(13), Some(18), "a"), TextNode(Some(18), Some(19), " ")] + KidsB
  const TestTag: Node := TagNode(Some(0), Some(38), "p", TestChildren, [TestAttr])

  /** The tested document parses to one `p` tag spanning the whole input, 0 to 38, with the attribute
      `bar='foo'` (quotes kept) and three mustaches, each followed by a text. */
  lemma TestDocument()
    ensures TestDoc == "<p bar='foo'>{{a}} {{b}} : {{c}} :</p>"
    ensures ParseDocument(TestDoc) == Ok(TemplateNode(Some(0), Some(38), [TestTag]))
  {
    TestShapeHolds();
    TestFromShape(TestDoc);
  }

  /** The tag's six children in document order: each mustache, then the text after it. */
  lemma TestChildrenInOrder()
    ensures TestChildren == [MustacheNode(Some(13), Some(18), "a"), TextNode(Some(18), Some(19), " "),
                             MustacheNode(Some(19), Some(24), "b"), TextNode(Some(24), Some(27), " : "),
                             MustacheNode(Some(27), Some(32), "c"), TextNode(Some(32), Some(34), " :")]
  {
  }

  lemma TestFromShape(src: string)
    requires TestShape(src)
    ensures ParseDocument(src) == Ok(TemplateNode(Some(0), Some(38), [TestTag]))
  {
    TestHeadScan(src);
    TestKidScan(src);
    TestEndScan(src);
    TestKidsParse(src);
    TestTagParse(src);
    TestParse(src);
  }

  lemma TestParse(src: string)
    requires |src| == 38 && Step(src, Start) == Yield(T0.cur, T0.sc) && ParseNode(src, T0) == Ok((TestTag, T21))
    ensures ParseDocument(src) == Ok(TemplateNode(Some(0), Some(38), [TestTag]))
  {
    TopCons(src, T0, TestTag, T21, []);
    assert [TestTag] + [] == [TestTag];
    DocumentOk(src, T0, [TestTag]);
  }

  lemma TestTagParse(src: string)
    requires |src| == 38 && TestHeadSteps(src) && TestEndSteps(src)
    requires ParseChildren(src, T6) == Ok((TestChildren, T18))
    ensures ParseNode(src, T0) == Ok((TestTag, T21))
  {
    QuotedAttrOk(src, T2, T3, T4, T5);
    AttrsCons(src, T2, TestAttr, T5, [], T5);
    assert [TestAttr] + [] == [TestAttr];
    EndTagOk(src, "p", T18, T19, T20, T21);
    BodyOk(src, Some(0), "p", [TestAttr], T5, T6, TestChildren, T18, Some(38), T21);
    TagOk(src, T0, T1, T2, [TestAttr], T5, TestTag, T21);
  }

  lemma TestKidsParse(src: string)
    requires |src| == 38 && TestKidSteps(src)
    ensures ParseChildren(src, T6) == Ok((TestChildren, T18))
  {
    KidsCParse(src);
    KidsBParse(src);
    KidsAParse(src);
  }

  lemma KidsCParse(src: string)
    requires |src| == 38 && Pulls(src, T14, T15) && Pulls(src, T15, T16) && Pulls(src, T16, T17) && Pulls(src, T17, T18)
    ensures ParseChildren(src, T14) == Ok((KidsC, T18))
  {
    assert ParseChildren(src, T18) == Ok(([], T18));
    MustacheTextKids(src, T14, T15, T16, T17, T18, [], T18);
    assert [MustacheNode(Some(27), Some(32), "c"), TextNode(Some(32), Some(34), " :")] + [] == KidsC;
  }

  lemma KidsBParse(src: string)
    requires |src| == 38 && Pulls(src, T10, T11) && Pulls(src, T11, T12) && Pulls(src, T12, T13) && Pulls(src, T13, T14)
    requires ParseChildren(src, T14) == Ok((KidsC, T18))
    ensures ParseChildren(src, T10) == Ok((KidsB, T18))
  {
    MustacheTextKids(src, T10, T11, T12, T13, T14, KidsC, T18);
  }

  lemma KidsAParse(src: string)
    requires |src| == 38 && Pulls(src, T6, T7) && Pulls(src, T7, T8) && Pulls(src, T8, T9) && Pulls(src, T9, T10)
    requires ParseChildren(src, T10) == Ok((KidsB, T18))
    ensures ParseChildren(src, T6) == Ok((TestChildren, T18))
  {
    MustacheTextKids(src, T6, T7, T8, T9, T10, KidsB, T18);
  }

  // A comment, then a tag with a bare attribute: `<!-- hi --><p a>x</p>`.

  const BareDoc: string := "<!-- hi --><p a>x</p>"

  predicate BareShape(src: string) {
    && |src| == 21 && src[13] == ' '
    && HasAt(src, 0, "<!--") && HasAt(src, 4, " hi ") && HasAt(src, 8, "-->") && HasAt(src, 11, "<") && HasAt(src, 12, "p")
    && HasAt(src, 14, "a") && HasAt(src, 15, ">") && HasAt(src, 16, "x") && HasAt(src, 17, "</") && HasAt(src, 19, "p")
    && HasAt(src, 20, ">")
  }

  lemma BareShapeHolds()
    ensures BareShape(BareDoc)
  {
    BareShapeHead();
    BareShapeTail();
  }

  lemma BareShapeHead()
    ensures |BareDoc| == 21 && BareDoc[13] == ' '
    ensures HasAt(BareDoc, 0, "<!--") && HasAt(BareDoc, 4, " hi ") && HasAt(BareDoc, 8, "-->")
  {
    var s := BareDoc;
    assert s[0] == '<' && s[1] == '!' && s[2] == '-' && s[3] == '-';
    assert s[4] == ' ' && s[5] == 'h' && s[6] == 'i' && s[7] == ' ' && s[8] == '-' && s[9] == '-' && s[10] == '>';
    HasAtChars(s, 0, "<!--");
    HasAtChars(s, 4, " hi ");
    HasAtChars(s, 8, "-->");
  }

  lemma BareShapeTail()
    ensures |BareDoc| == 21
    ensures HasAt(BareDoc, 11, "<") && HasAt(BareDoc, 12, "p") && HasAt(BareDoc, 14, "a") && HasAt(BareDoc, 15, ">")
    ensures HasAt(BareDoc, 16, "x") && HasAt(BareDoc, 17, "</") && HasAt(BareDoc, 19, "p") && HasAt(BareDoc, 20, ">")
  {
    var s := BareDoc;
    assert s[11] == '<' && s[12] == 'p' && s[14] == 'a' && s[15] == '>' && s[16] == 'x';
    assert s[17] == '<' && s[18] == '/' && s[19] == 'p' && s[20] == '>';
    HasAtChars(s, 11, "<");
    HasAtChars(s, 12, "p");
    HasAtChars(s, 14, "a");
    HasAtChars(s, 15, ">");
    HasAtChars(s, 16, "x");
    HasAtChars(s, 17, "</");
    HasAtChars(s, 19, "p");
    HasAtChars(s, 20, ">");
  }

  /** The parser states of `BareDoc`: `Bn` is the parser once its current token is the `n`-th token,
      `<!--` being the 0-th and EOF the 11th. */
  const B0: PState := PState(ScanState(4, AfterOpenComment), Tok(OpenComment, "<!--", 0, 4))
  const B1: PState := PState(ScanState(8, AfterCommentText), Tok(Comment, " hi ", 4, 8))
  const B2: PState := PState(ScanState(11, Markup), Tok(CloseComment, "-->", 8, 11))
  const B3: PState := PState(ScanState(12, AfterOpenTag), Tok(OpenTag, "<", 11, 12))
  const B4: PState := PState(ScanState(13, InAttrs), Tok(TagName, "p", 12, 13))
  const B5: PState := PState(ScanState(15, InAttrs), Tok(AttrKey, "a", 14, 15))
  const B6: PState := PState(ScanState(16, Markup), Tok(CloseTag, ">", 15, 16))
  const B7: PState := PState(ScanState(17, Markup), Tok(Text, "x", 16, 17))
  const B8: PState := PState(ScanState(19, AfterOpenTag), Tok(OpenTagWithSlash, "</", 17, 19))
  const B9: PState := PState(ScanState(20, InAttrs), Tok(TagName, "p", 19, 20))
  const B10: PState := PState(ScanState(21, Markup), Tok(CloseTag, ">", 20, 21))
  const B11: PState := PState(ScanState(21, Finished), EofToken)

  lemma BareCommentScan(src: string)
    requires BareShape(src)
    ensures Step(src, Start) == Yield(B0.cur, B0.sc) && Pulls(src, B0, B1) && Pulls(src, B1, B2) && Pulls(src, B2, B3)
  {
    HasAtHead(src, 11, "<");
    HasAtHead(src, 12, "p");
    CommentScan(src, 0, " hi ");
    OpenTagScan(src, 11);
  }

  lemma BareStartScan(src: string)
    requires BareShape(src)
    ensures Pulls(src, B3, B4) && Pulls(src, B4, B5) && Pulls(src, B5, B6) && Pulls(src, B6, B7)
  {
    HasAtHead(src, 14, "a");
    HasAtHead(src, 15, ">");
    HasAtHead(src, 17, "</");
    TagNameScan(src, 12, "p");
    KeyScan(src, 13, 14, "a");
    CloseTagScan(src, 15, 15);
    TextScan(src, 16, "x");
  }

  lemma BareEndScan(src: string)
    requires BareShape(src)
    ensures Pulls(src, B7, B8) && Pulls(src, B8, B9) && Pulls(src, B9, B10) && Pulls(src, B10, B11)
  {
    HasAtHead(src, 20, ">");
    EndTagOpenScan(src, 17);
    TagNameScan(src, 19, "p");
    CloseTagScan(src, 20, 20);
  }

  const BareAttr: Node := AttrNode(Some(14), Some(16), "a", Present)
  const BareTag: Node := TagNode(Some(11), Some(21), "p", [TextNode(Some(16), Some(17), "x")], [BareAttr])
  const BareComment: Node := CommentNode(Some(0), Some(11), " hi ")

  /** A comment, kept verbatim, then a tag with the bare attribute `a`: the attribute's value is `true`
      and it ends where the `>` after it ends. */
  lemma BareAttribute()
    ensures BareDoc == "<!-- hi --><p a>x</p>"
    ensures ParseDocument(BareDoc) == Ok(TemplateNode(Some(0), Some(21), [BareComment, BareTag]))
  {
    BareShapeHolds();
    BareFromShape(BareDoc);
  }

  lemma BareFromShape(src: string)
    requires BareShape(src)
    ensures ParseDocument(src) == Ok(TemplateNode(Some(0), Some(21), [BareComment, BareTag]))
  {
    BareCommentScan(src);
    BareStartScan(src);
    BareEndScan(src);
    BareTagParse(src);
    BareParse(src);
  }

  lemma BareParse(src: string)
    requires |src| == 21 && Step(src, Start) == Yield(B0.cur, B0.sc)
    requires Pulls(src, B0, B1) && Pulls(src, B1, B2) && Pulls(src, B2, B3) && ParseNode(src, B3) == Ok((BareTag, B11))
    ensures ParseDocument(src) == Ok(TemplateNode(Some(0), Some(21), [BareComment, BareTag]))
  {
    CommentOk(src, B0, B1, B2, B3);
    TopCons(src, B3, BareTag, B11, []);
    assert [BareTag] + [] == [BareTag];
    TopCons(src, B0, BareComment, B3, [BareTag]);
    assert [BareComment] + [BareTag] == [BareComment, BareTag];
    DocumentOk(src, B0, [BareComment, BareTag]);
  }

  lemma BareTagParse(src: string)
    requires |src| == 21 && Pulls(src, B3, B4) && Pulls(src, B4, B5) && Pulls(src, B5, B6) && Pulls(src, B6, B7)
    requires Pulls(src, B7, B8) && Pulls(src, B8, B9) && Pulls(src, B9, B10) && Pulls(src, B10, B11)
    ensures ParseNode(src, B3) == Ok((BareTag, B11))
  {
    var x := TextNode(Some(16), Some(17), "x");
    BareAttrOk(src, B5, B6);
    AttrsCons(src, B5, BareAttr, B6, [], B6);
    assert [BareAttr] + [] == [BareAttr];
    TextOk(src, B7, B8);
    ChildrenCons(src, B7, x, B8, [], B8);
    assert [x] + [] == [x];
    EndTagOk(src, "p", B8, B9, B10, B11);
    BodyOk(src, Some(11), "p", [BareAttr], B6, B7, [x], B8, Some(21), B11);
    TagOk(src, B3, B4, B5, [BareAttr], B6, BareTag, B11);
  }

  // The two documents whose scanning the tests expect to throw (test/index.test.js:54-82).

  /** A token other than EOF, then an error: draining the generator ends in that error. */
  lemma ScanFailsAfter(src: string, s: ScanState, t: Token, s': ScanState, e: ScanError)
    requires ValidState(src, s) && Step(src, s) == Yield(t, s') && t.kind != EOF && Scan(src, s') == Err(e)
    ensures Scan(src, s) == Err(e)
  {
  }

  /** Where `lit` stands and holds no `c`, no `c` stands. */
  lemma NotInLit(src: string, i: nat, lit: string, c: char)
    requires HasAt(src, i, lit) && c !in lit
    ensures forall k :: i <= k < i + |lit| ==> src[k] != c
  {
    forall k | i <= k < i + |lit|
      ensures src[k] != c
    {
      assert src[k] == src[i..i + |lit|][k - i];
    }
  }

  /** A quote that does not occur again: the value is unterminated at the end of the input. */
  lemma UnclosedQuoteScan(src: string, pos: nat, p: nat, q: char)
    requires SkipsTo(src, pos, p) && p < |src| && src[p] == q && IsQuote(q)
    requires forall k :: p < k < |src| ==> src[k] != q
    ensures Step(src, ScanState(pos, InAttrs)) == Fail(UnterminatedAttrValue(|src|))
  {
    AttrModeAt(src, pos, p);
    ReadUntilUnique(src, p + 1, QuoteChar(q), |src|);
    HasAtHead(src, p, "/>");
    HasAtHead(src, p, ">");
    assert AttrStep(src, p) == QuotedStep(src, p);
  }

  /** A mustache value with no `}` up to the end of the input: it is yielded, and then `}}` is missing. */
  lemma UnclosedMustacheScan(src: string, p: nat)
    requires p <= |src| && forall k :: p <= k < |src| ==> src[k] != '}'
    ensures Step(src, ScanState(p, AfterOpenMustache))
      == Yield(Tok(MustacheValue, src[p..|src|], p, |src|), ScanState(|src|, AfterMustacheValue))
    ensures Step(src, ScanState(|src|, AfterMustacheValue)) == Fail(UnterminatedMustache(|src|))
  {
    forall k | p <= k < |src|
      ensures !HasAt(src, k, "}}")
    {
      HasAtHead(src, k, "}}");
    }
    ReadUntilUnique(src, p, MustacheClose, |src|);
  }

  /** `<p bar='foo">...`: the value opened by `'` is closed by `"`, which is not the same quote. */
  const MixedQuotesDoc: string := "<p bar='foo\">{{a}} {{b}} : {{c}} :</p>"

  predicate MixedQuotesShape(src: string) {
    && |src| == 38 && src[2] == ' ' && src[7] == '\''
    && HasAt(src, 0, "<") && HasAt(src, 1, "p") && HasAt(src, 3, "bar") && HasAt(src, 6, "=")
    && HasAt(src, 8, "foo\">{{a}}") && HasAt(src, 18, " {{b}} : {") && HasAt(src, 28, "{c}} :</p>")
  }

  lemma MixedQuotesHead()
    ensures |MixedQuotesDoc| == 38 && MixedQuotesDoc[2] == ' ' && MixedQuotesDoc[7] == '\''
    ensures HasAt(MixedQuotesDoc, 0, "<") && HasAt(MixedQuotesDoc, 1, "p") && HasAt(MixedQuotesDoc, 3, "bar")
    ensures HasAt(MixedQuotesDoc, 6, "=")
  {
    var s := MixedQuotesDoc;
    assert s[0] == '<' && s[1] == 'p' && s[3] == 'b' && s[4] == 'a' && s[5] == 'r' && s[6] == '=';
    HasAtChars(s, 0, "<");
    HasAtChars(s, 1, "p");
    HasAtChars(s, 3, "bar");
    HasAtChars(s, 6, "=");
  }

  lemma MixedQuotesRest1()
    ensures |MixedQuotesDoc| == 38 && HasAt(MixedQuotesDoc, 8, "foo\">{{a}}")
  {
    var s := MixedQuotesDoc;
    assert s[8] == 'f' && s[9] == 'o' && s[10] == 'o' && s[11] == '"' && s[12] == '>';
    assert s[13] == '{' && s[14] == '{' && s[15] == 'a' && s[16] == '}' && s[17] == '}';
    HasAtChars(s, 8, "foo\">{{a}}");
  }

  lemma MixedQuotesRest2()
    ensures |MixedQuotesDoc| == 38 && HasAt(MixedQuotesDoc, 18, " {{b}} : {")
  {
    var s := MixedQuotesDoc;
    assert s[18] == ' ' && s[19] == '{' && s[20] == '{' && s[21] == 'b' && s[22] == '}';
    assert s[23] == '}' && s[24] == ' ' && s[25] == ':' && s[26] == ' ' && s[27] == '{';
    HasAtChars(s, 18, " {{b}} : {");
  }

  lemma MixedQuotesRest3()
    ensures |MixedQuotesDoc| == 38 && HasAt(MixedQuotesDoc, 28, "{c}} :</p>")
  {
    var s := MixedQuotesDoc;
    assert s[28] == '{' && s[29] == 'c' && s[30] == '}' && s[31] == '}' && s[32] == ' ';
    assert s[33] == ':' && s[34] == '<' && s[35] == '/' && s[36] == 'p' && s[37] == '>';
    HasAtChars(s, 28, "{c}} :</p>");
  }

  /** Draining the generator over `<p bar='foo">{{a}} {{b}} : {{c}} :</p>` throws
      `UnterminatedAttrValue` at the end of the input: no second `'` follows the first. */
  lemma MixedQuotes()
    ensures MixedQuotesDoc == "<p bar='foo\">{{a}} {{b}} : {{c}} :</p>"
    ensures Scan(MixedQuotesDoc, Start) == Err(UnterminatedAttrValue(38))
  {
    MixedQuotesHead();
    MixedQuotesRest1();
    MixedQuotesRest2();
    MixedQuotesRest3();
    MixedQuotesScan(MixedQuotesDoc);
  }

  lemma MixedQuotesScan(src: string)
    requires MixedQuotesShape(src)
    ensures Scan(src, Start) == Err(UnterminatedAttrValue(38))
  {
    NotInLit(src, 8, "foo\">{{a}}", '\'');
    NotInLit(src, 18, " {{b}} : {", '\'');
    NotInLit(src, 28, "{c}} :</p>", '\'');
    UnclosedQuoteScan(src, 7, 7, '\'');
    MixedQuotesTokens(src);
    var e := UnterminatedAttrValue(38);
    assert Scan(src, T3.sc) == Err(e);
    ScanFailsAfter(src, T2.sc, T3.cur, T3.sc, e);
    ScanFailsAfter(src, T1.sc, T2.cur, T2.sc, e);
    ScanFailsAfter(src, T0.sc, T1.cur, T1.sc, e);
    ScanFailsAfter(src, Start, T0.cur, T0.sc, e);
  }

  /** The four tokens before the quote: `<`, `p`, `bar` and `=`. */
  lemma MixedQuotesTokens(src: string)
    requires 8 <= |src| && src[2] == ' '
    requires HasAt(src, 0, "<") && HasAt(src, 1, "p") && HasAt(src, 3, "bar") && HasAt(src, 6, "=")
    requires src[7] == '\''
    ensures Step(src, Start) == Yield(T0.cur, T0.sc) && Pulls(src, T0, T1) && Pulls(src, T1, T2) && Pulls(src, T2, T3)
  {
    HasAtHead(src, 0, "<");
    HasAtHead(src, 1, "p");
    HasAtHead(src, 3, "bar");
    HasAtHead(src, 6, "=");
    OpenTagScan(src, 0);
    TagNameScan(src, 1, "p");
    KeyScan(src, 2, 3, "bar");
    EqScan(src, 6, 6);
  }

  /** `<p bar='foo'>{{abcdefg</p>`: a mustache that is never closed. */
  const OpenMustacheDoc: string := "<p bar='foo'>{{abcdefg</p>"

  lemma OpenMustachePrefix()
    ensures |OpenMustacheDoc| == 26 && OpenMustacheDoc[2] == ' '
    ensures HasAt(OpenMustacheDoc, 0, "<") && HasAt(OpenMustacheDoc, 1, "p") && HasAt(OpenMustacheDoc, 3, "bar")
    ensures HasAt(OpenMustacheDoc, 6, "=")
  {
    var s := OpenMustacheDoc;
    assert s[0] == '<' && s[1] == 'p' && s[3] == 'b' && s[4] == 'a' && s[5] == 'r' && s[6] == '=';
    HasAtChars(s, 0, "<");
    HasAtChars(s, 1, "p");
    HasAtChars(s, 3, "bar");
    HasAtChars(s, 6, "=");
  }

  lemma OpenMustacheValue()
    ensures |OpenMustacheDoc| == 26
    ensures HasAt(OpenMustacheDoc, 7, "'foo'") && HasAt(OpenMustacheDoc, 12, ">") && HasAt(OpenMustacheDoc, 13, "{{")
  {
    var s := OpenMustacheDoc;
    assert s[7] == '\'' && s[8] == 'f' && s[9] == 'o' && s[10] == 'o' && s[11] == '\'' && s[12] == '>';
    assert s[13] == '{' && s[14] == '{';
    HasAtChars(s, 7, "'foo'");
    HasAtChars(s, 12, ">");
    HasAtChars(s, 13, "{{");
  }

  lemma OpenMustacheRest()
    ensures |OpenMustacheDoc| == 26 && HasAt(OpenMustacheDoc, 15, "abcdefg</p>")
  {
    var s := OpenMustacheDoc;
    assert s[15] == 'a' && s[16] == 'b' && s[17] == 'c' && s[18] == 'd' && s[19] == 'e' && s[20] == 'f';
    assert s[21] == 'g' && s[22] == '<' && s[23] == '/' && s[24] == 'p' && s[25] == '>';
    HasAtChars(s, 15, "abcdefg</p>");
  }

  /** Draining the generator over `<p bar='foo'>{{abcdefg</p>` yields the mustache value `abcdefg</p>`,
      up to the end of the input, and then throws `UnterminatedMustache` there. */
  lemma MustacheNeverClosed()
    ensures OpenMustacheDoc == "<p bar='foo'>{{abcdefg</p>"
    ensures Step(OpenMustacheDoc, T6.sc)
      == Yield(Tok(MustacheValue, "abcdefg</p>", 15, 26), ScanState(26, AfterMustacheValue))
    ensures Scan(OpenMustacheDoc, Start) == Err(UnterminatedMustache(26))
  {
    OpenMustachePrefix();
    OpenMustacheValue();
    OpenMustacheRest();
    OpenMustacheScan(OpenMustacheDoc);
  }

  lemma OpenMustacheScan(src: string)
    requires |src| == 26 && StartTagShape(src) && HasAt(src, 15, "abcdefg</p>")
    ensures Step(src, T6.sc) == Yield(Tok(MustacheValue, "abcdefg</p>", 15, 26), ScanState(26, AfterMustacheValue))
    ensures Scan(src, Start) == Err(UnterminatedMustache(26))
  {
    TestHeadScan(src);
    NotInLit(src, 15, "abcdefg</p>", '}');
    UnclosedMustacheScan(src, 15);
    var e := UnterminatedMustache(26);
    var v := ScanState(26, AfterMustacheValue);
    ScanFailsAfter(src, T6.sc, Tok(MustacheValue, "abcdefg</p>", 15, 26), v, e);
    OpenMustacheHead(src, e);
  }

  /** Back from the token after the `{{` to the start: every token before it is not EOF. */
  lemma OpenMustacheHead(src: string, e: ScanError)
    requires 15 <= |src| && TestHeadSteps(src) && Scan(src, T6.sc) == Err(e)
    ensures Scan(src, Start) == Err(e)
  {
    ScanFailsAfter(src, T5.sc, T6.cur, T6.sc, e);
    ScanFailsAfter(src, T4.sc, T5.cur, T5.sc, e);
    ScanFailsAfter(src, T3.sc, T4.cur, T4.sc, e);
    ScanFailsAfter(src, T2.sc, T3.cur, T3.sc, e);
    ScanFailsAfter(src, T1.sc, T2.cur, T2.sc, e);
    ScanFailsAfter(src, T0.sc, T1.cur, T1.sc, e);
    ScanFailsAfter(src, Start, T0.cur, T0.sc, e);
  }
}
