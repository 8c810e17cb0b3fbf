/** What a successful parse says about the source text: each node spans exactly the text it was built
    from, the top-level nodes tile the whole input, the children of a tag tile the text between its
    start tag and its end tag, and the end tag repeats the start tag's name. */
module ParseFacts {
  import opened Wrappers
  import opened Tokens
  import opened Lexical
  import opened ScanSpec
  import opened ScanFacts
  import opened Nodes
  import opened ParseSpec

  /** The parser between two calls: the current token was read from the source and ends at the cursor,
      and the generator is suspended in the phase its kind determines. */
  predicate Inv(src: string, ps: PState) {
    ValidP(src, ps) && TokenIn(src, ps.cur, ps.sc.pos) && ps.sc.phase == PhaseAfter(ps.cur.kind)
  }

  /** The token `t` starts at `p`; for EOF, `p` is the end of the input. */
  predicate StartsAt(src: string, t: Token, p: nat) {
    if t.kind == EOF then p == |src| else t.start == Some(p)
  }

  /** `name` is what `[a-zA-Z][a-zA-Z0-9:\-]*` matches. */
  predicate IsTagName(name: string) {
    name != [] && IsAsciiLetter(name[0]) && forall i :: 0 < i < |name| ==> IsNameChar(name[i])
  }

  /** A start tag `<name` at `a`: the name is what `[a-zA-Z][a-zA-Z0-9:\-]*` matches there, taken greedily. */
  predicate StartTagAt(src: string, a: nat, name: string) {
    IsTagName(name) && HasAt(src, a, "<" + name) && (a + 1 + |name| < |src| ==> !IsNameChar(src[a + 1 + |name|]))
  }

  /** An attribute read from the source: its key, taken greedily, stands at its start. A quoted value,
      quotes included, ends at its end and is separated from the key by one `=` and white space; a bare
      attribute ends after its key. */
  predicate AttrIn(src: string, n: Node) {
    n.AttrNode? && n.start.Some? && n.end.Some? && n.end.value <= |src| && KeyAt(src, n.start.value, n.key) &&
    match n.value
    case Quoted(q) =>
      QuotedValue(q) && n.start.value + |n.key| + |q| < n.end.value && HasAt(src, n.end.value - |q|, q) &&
      EqSep(src, n.start.value + |n.key|, n.end.value - |q|)
    case Present => n.start.value + |n.key| < n.end.value
  }

  /** An attribute key at `a`: a non-empty run of key characters there, taken greedily. */
  predicate KeyAt(src: string, a: nat, key: string) {
    key != [] && (forall i :: 0 <= i < |key| ==> IsKeyChar(key[i])) && HasAt(src, a, key) &&
    (a + |key| < |src| ==> !IsKeyChar(src[a + |key|]))
  }

  /** In `[a, b)` stand one `=` and otherwise only white space. */
  predicate EqSep(src: string, a: nat, b: nat) {
    exists e :: a <= e < b && e < |src| && src[e] == '=' && Blank(src, a, e) && Blank(src, e + 1, b)
  }

  /** Where an attribute's key ends. */
  function KeyEnd(n: Node): nat {
    if n.AttrNode? && n.start.Some? then n.start.value + |n.key| else 0
  }

  /** Where an attribute's own text ends: after its value if it is quoted, after its key if bare. */
  function TextEnd(n: Node): nat {
    if n.AttrNode? && n.value.Quoted? && n.end.Some? then n.end.value else KeyEnd(n)
  }

  /** The attributes of a start tag, in source order, fill `[lo, c)` with only white space around each
      one's text, where `c` is the start of the `>` or `/>` that ends at `ce`. A bare attribute ends
      where the token after its key ends: the next attribute's key, or the `>` or `/>`. */
  predicate AttrsTile(src: string, attrs: seq<Node>, lo: nat, c: nat, ce: nat)
    decreases |attrs|
  {
    if attrs == [] then Blank(src, lo, c)
    else
      && AttrIn(src, attrs[0]) && Blank(src, lo, attrs[0].start.value)
      && (attrs[0].value.Present? ==> attrs[0].end == Some(if |attrs| == 1 then ce else KeyEnd(attrs[1])))
      && AttrsTile(src, attrs[1..], TextEnd(attrs[0]), c, ce)
  }

  /** The nodes follow one another without gap or overlap, the first starting at `p`, the last ending
      at `q`. */
  predicate Contiguous(ns: seq<Node>, p: nat, q: nat)
    decreases |ns|
  {
    if ns == [] then p == q
    else ns[0].start == Some(p) && ns[0].end.Some? && Contiguous(ns[1..], ns[0].end.value, q)
  }

  /** An end tag `</name>` spans `[q, b)`: only white space between the name and the `>`, so the
      name is the whole name the scanner reads there. */
  predicate EndTagAt(src: string, name: string, q: nat, b: nat) {
    q + 2 + |name| < b <= |src| && HasAt(src, q, "</" + name) && Blank(src, q + 2 + |name|, b - 1) &&
    HasAt(src, b - 1, ">")
  }

  /** What closes a start tag whose attributes end at `c`, up to the tag's end `b`: either `/>`, from
      `c` to `ce == b`, with no children; or `>`, from `c` to `ce`, then children tiling `[ce, q)` and
      the end tag with the tag's own name from `q` to `b`. */
  ghost predicate TagTail(src: string, name: string, cs: seq<Node>, c: nat, ce: nat, b: nat) {
    || (cs == [] && ce == c + 2 == b && HasAt(src, c, "/>"))
    || (ce == c + 1 && HasAt(src, c, ">") && exists q :: ce <= q && Contiguous(cs, ce, q) && EndTagAt(src, name, q, b))
  }

  /** A node read from the source: it spans `[start, end)` and that text is exactly the node's
      delimiters around its content. A tag starts with `<` and its name, then its attributes; it is
      either closed by `/>` with no children or has a body and an end tag with the same name. */
  ghost predicate NodeIn(src: string, n: Node)
    decreases n
  {
    n.start.Some? && n.end.Some? && n.start.value < n.end.value <= |src| &&
    var a, b := n.start.value, n.end.value;
    match n
    case TextNode(_, _, t) =>
      src[a..b] == t && forall i :: a <= i < b ==> !MarkupAt(src, i)
    case CommentNode(_, _, c) =>
      a + 7 <= b && src[a..b] == "<!--" + c + "-->" && forall i :: a + 4 <= i < b - 3 ==> !HasAt(src, i, "-->")
    case MustacheNode(_, _, x) =>
      a + 4 <= b && src[a..b] == "{{" + x + "}}" && forall i :: a + 2 <= i < b - 2 ==> !HasAt(src, i, "}}")
    case TagNode(_, _, name, cs, attrs) =>
      StartTagAt(src, a, name) && (forall i :: 0 <= i < |cs| ==> NodeIn(src, cs[i])) &&
      exists c, ce :: a + 1 + |name| <= c && AttrsTile(src, attrs, a + 1 + |name|, c, ce) && TagTail(src, name, cs, c, ce, b)
    case _ => false
  }

  /** What a successful node parse from a token starting at `start` gives: a node read from the source
      that starts there, and a parser whose current token starts where the node ends. */
  ghost predicate NodeAt(src: string, start: Option<nat>, n: Node, ps': PState) {
    NodeIn(src, n) && n.start == start && Inv(src, ps') && StartsAt(src, ps'.cur, n.end.value)
  }

  /** Pulling a token keeps the invariant, never moves the cursor back, and outside attribute mode the
      new token starts at the old cursor. */
  lemma NextTokenInv(src: string, s: ScanState, ps: PState)
    requires ValidState(src, s) && NextToken(src, s) == Ok(ps)
    ensures Inv(src, ps) && s.pos <= ps.sc.pos
    ensures s.phase != InAttrs ==> StartsAt(src, ps.cur, s.pos)
    ensures ps.cur.kind != EOF ==> s.pos <= ps.cur.start.value
    ensures ps.cur.kind == AttrText ==> s.pos < ps.cur.start.value
    ensures ps.cur.kind == EOF ==> s.phase == Markup
    ensures s.phase == InAttrs ==> ps.cur.kind in {CloseTag, CloseTagWithSlash, AttrKey, AttrText, Eq}
  {
    StepSound(src, s);
  }

  /** `#eat`: the same, for the token after a current token of the expected kind. */
  lemma EatInv(src: string, ps: PState, k: Kind, ps': PState)
    requires Inv(src, ps) && Eat(src, ps, k) == Ok(ps')
    ensures ps.cur.kind == k && Inv(src, ps') && ps.sc.pos <= ps'.sc.pos
    ensures ps.sc.phase != InAttrs ==> StartsAt(src, ps'.cur, ps.sc.pos)
    ensures ps'.cur.kind != EOF ==> ps.sc.pos <= ps'.cur.start.value
    ensures ps'.cur.kind == AttrText ==> ps.sc.pos < ps'.cur.start.value
    ensures ps'.cur.kind == EOF ==> ps.sc.phase == Markup
    ensures ps.sc.phase == InAttrs ==> ps'.cur.kind in {CloseTag, CloseTagWithSlash, AttrKey, AttrText, Eq}
  {
    NextTokenInv(src, ps.sc, ps');
  }

  lemma TextIn(src: string, ps: PState, n: Node, ps': PState)
    requires Inv(src, ps) && ParseText(src, ps) == Ok((n, ps'))
    ensures NodeAt(src, ps.cur.start, n, ps')
  {
    EatInv(src, ps, Text, ps');
  }

  /** The text `opener + content + closer` read from three consecutive slices. */
  lemma Bracketed(src: string, a: nat, c: nat, b: nat, opener: string, content: string, closer: string)
    requires a + |opener| == c - |content| && c + |closer| == b && a <= c <= b <= |src|
    requires src[a..a + |opener|] == opener && src[a + |opener|..c] == content && src[c..b] == closer
    ensures src[a..b] == opener + content + closer
  {
    assert src[a..b] == src[a..a + |opener|] + src[a + |opener|..c] + src[c..b];
  }

  /** A comment or mustache node built from the three tokens that spell it, each starting where the
      one before ends. */
  lemma BracketNodeIn(src: string, mustache: bool, t0: Token, p0: nat, t1: Token, p1: nat, t2: Token, p2: nat)
    requires t0.kind == (if mustache then OpenMustache else OpenComment) && TokenIn(src, t0, p0)
    requires t1.kind == (if mustache then MustacheValue else Comment) && TokenIn(src, t1, p1) && t1.start == Some(p0)
    requires t2.kind == (if mustache then CloseMustache else CloseComment) && TokenIn(src, t2, p2) && t2.start == Some(p1)
    ensures NodeIn(src, if mustache then MustacheNode(t0.start, t2.end, t1.value) else CommentNode(t0.start, t2.end, t1.value))
  {
    var a := t0.start.value;
    if mustache {
      Bracketed(src, a, p1, p2, "{{", t1.value, "}}");
    } else {
      Bracketed(src, a, p1, p2, "<!--", t1.value, "-->");
    }
  }

  lemma CommentIn(src: string, ps: PState, n: Node, ps': PState)
    requires Inv(src, ps) && ParseComment(src, ps) == Ok((n, ps'))
    ensures NodeAt(src, ps.cur.start, n, ps')
  {
    var ps1 := Eat(src, ps, OpenComment).value;
    var ps2 := Eat(src, ps1, Comment).value;
    EatInv(src, ps, OpenComment, ps1);
    EatInv(src, ps1, Comment, ps2);
    EatInv(src, ps2, CloseComment, ps');
    BracketNodeIn(src, false, ps.cur, ps.sc.pos, ps1.cur, ps1.sc.pos, ps2.cur, ps2.sc.pos);
  }

  lemma MustacheIn(src: string, ps: PState, n: Node, ps': PState)
    requires Inv(src, ps) && ParseMustache(src, ps) == Ok((n, ps'))
    ensures NodeAt(src, ps.cur.start, n, ps')
  {
    var ps1 := Eat(src, ps, OpenMustache).value;
    var ps2 := Eat(src, ps1, MustacheValue).value;
    EatInv(src, ps, OpenMustache, ps1);
    EatInv(src, ps1, MustacheValue, ps2);
    EatInv(src, ps2, CloseMustache, ps');
    BracketNodeIn(src, true, ps.cur, ps.sc.pos, ps1.cur, ps1.sc.pos, ps2.cur, ps2.sc.pos);
  }

  /** In attribute mode, only white space stands between the cursor and the text of the next token. */
  lemma EatGap(src: string, ps: PState, k: Kind, ps': PState)
    requires Inv(src, ps) && Eat(src, ps, k) == Ok(ps') && ps.sc.phase == InAttrs
    ensures ps'.cur.kind in {CloseTag, CloseTagWithSlash, AttrKey, AttrText, Eq}
    ensures ps'.cur.start.Some? && Blank(src, ps.sc.pos, Begin(ps'.cur))
  {
    StepSound(src, ps.sc);
  }

  /** One attribute read from the source, from the key token on: only white space follows its text up
      to the next token, and a bare attribute ends where that token ends. */
  lemma AttrInv(src: string, ps: PState, n: Node, ps': PState)
    requires Inv(src, ps) && ParseAttr(src, ps) == Ok((n, ps'))
    ensures AttrIn(src, n) && n.start == ps.cur.start && KeyEnd(n) == ps.sc.pos && Inv(src, ps')
    ensures ps.sc.pos <= ps'.sc.pos && ps'.cur.kind in {CloseTag, CloseTagWithSlash, AttrKey, AttrText, Eq}
    ensures ps'.cur.start.Some? && Blank(src, TextEnd(n), Begin(ps'.cur))
    ensures n.value.Present? ==> n.end == ps'.cur.end
  {
    var ps1 := Eat(src, ps, AttrKey).value;
    if ps1.cur.kind == Eq {
      var ps2 := Eat(src, ps1, Eq).value;
      assert Eat(src, ps2, AttrText) == Ok(ps');
      assert n == AttrNode(ps.cur.start, ps2.cur.end, ps.cur.value, Quoted(ps2.cur.value));
      QuotedAttrInv(src, ps, ps1, ps2, ps');
    } else {
      assert n == AttrNode(ps.cur.start, ps1.cur.end, ps.cur.value, Present) && ps' == ps1;
      BareAttrInv(src, ps, ps1);
    }
  }

  lemma BareAttrInv(src: string, ps: PState, ps1: PState)
    requires Inv(src, ps) && Eat(src, ps, AttrKey) == Ok(ps1) && ps1.cur.kind != Eq
    ensures AttrIn(src, AttrNode(ps.cur.start, ps1.cur.end, ps.cur.value, Present)) && Inv(src, ps1)
    ensures ps.sc.pos <= ps1.sc.pos && ps.cur.start.value + |ps.cur.value| == ps.sc.pos
    ensures ps1.cur.kind in {CloseTag, CloseTagWithSlash, AttrKey, AttrText, Eq}
    ensures ps1.cur.start.Some? && Blank(src, ps.sc.pos, Begin(ps1.cur))
  {
    assert Inv(src, ps1) && ps.sc.pos <= ps1.sc.pos && ps1.cur.start.Some? && Blank(src, ps.sc.pos, Begin(ps1.cur))
        && ps1.cur.kind in {CloseTag, CloseTagWithSlash, AttrKey, AttrText} by {
      EatInv(src, ps, AttrKey, ps1);
      EatGap(src, ps, AttrKey, ps1);
    }
    BareAttrIn(src, ps.cur, ps.sc.pos, ps1.cur, ps1.sc.pos);
  }

  lemma QuotedAttrInv(src: string, ps: PState, ps1: PState, ps2: PState, ps3: PState)
    requires Inv(src, ps) && Eat(src, ps, AttrKey) == Ok(ps1) && ps1.cur.kind == Eq
    requires Eat(src, ps1, Eq) == Ok(ps2) && Eat(src, ps2, AttrText) == Ok(ps3)
    ensures AttrIn(src, AttrNode(ps.cur.start, ps2.cur.end, ps.cur.value, Quoted(ps2.cur.value))) && Inv(src, ps3)
    ensures ps.sc.pos <= ps3.sc.pos && ps.cur.start.value + |ps.cur.value| == ps.sc.pos
    ensures ps2.cur.end == Some(ps2.sc.pos)
    ensures ps3.cur.kind in {CloseTag, CloseTagWithSlash, AttrKey, AttrText, Eq}
    ensures ps3.cur.start.Some? && Blank(src, ps2.sc.pos, Begin(ps3.cur))
  {
    KeyEqInv(src, ps, ps1, ps2);
    EatInv(src, ps2, AttrText, ps3);
    EatGap(src, ps2, AttrText, ps3);
    QuotedAttrIn(src, ps.cur, ps.sc.pos, ps1.cur.start.value, ps2.cur, ps2.sc.pos);
  }

  /** A `=` not followed by a quoted value, as in `a= b`: the attribute fails on the token after the
      `=`, expecting a value. */
  lemma EqWithoutValue(src: string, ps: PState, ps1: PState, ps2: PState)
    requires ValidP(src, ps) && Eat(src, ps, AttrKey) == Ok(ps1) && ps1.cur.kind == Eq
    requires Eat(src, ps1, Eq) == Ok(ps2) && ps2.cur.kind != AttrText
    ensures ParseAttr(src, ps) == Err(UnexpectedToken(AttrText, ps2.cur.kind, ps2.cur.start, ps2.cur.end))
  {
  }

  /** A key and the `=` after it: only white space stands around the `=`, up to the next token. */
  lemma KeyEqInv(src: string, ps: PState, ps1: PState, ps2: PState)
    requires Inv(src, ps) && Eat(src, ps, AttrKey) == Ok(ps1) && ps1.cur.kind == Eq && Eat(src, ps1, Eq) == Ok(ps2)
    ensures Inv(src, ps2) && ps.sc.pos <= ps2.sc.pos && ps1.cur.start.Some? && ps2.cur.start.Some?
    ensures ps1.cur.start.value < |src| && src[ps1.cur.start.value] == '=' && Blank(src, ps.sc.pos, ps1.cur.start.value)
    ensures Blank(src, ps1.cur.start.value + 1, Begin(ps2.cur))
  {
    EatInv(src, ps, AttrKey, ps1);
    EatGap(src, ps, AttrKey, ps1);
    EqTokenIn(src, ps1.cur, ps1.sc.pos);
    EatInv(src, ps1, Eq, ps2);
    EatGap(src, ps1, Eq, ps2);
  }

  /** A `=` token is that one character, just before the scanner's position. */
  lemma EqTokenIn(src: string, t: Token, p: nat)
    requires TokenIn(src, t, p) && t.kind == Eq
    ensures t.start.Some? && p == t.start.value + 1 && t.start.value < |src| && src[t.start.value] == '='
  {
    TokenHasAt(src, t, p);
    HasAtHead(src, t.start.value, "=");
  }

  /** A bare attribute `key` ends where the token after it ends. */
  lemma BareAttrIn(src: string, kt: Token, kp: nat, t: Token, p: nat)
    requires TokenIn(src, kt, kp) && kt.kind == AttrKey && TokenIn(src, t, p)
    requires t.kind in {CloseTag, CloseTagWithSlash, AttrKey, AttrText} && kp <= t.start.value
    ensures AttrIn(src, AttrNode(kt.start, t.end, kt.value, Present)) && t.end == Some(p)
    ensures kt.start.value + |kt.value| == kp
  {
    TokenHasAt(src, kt, kp);
  }

  /** `key = value` ends where its value token ends. */
  lemma QuotedAttrIn(src: string, kt: Token, kp: nat, eq: nat, vt: Token, vp: nat)
    requires TokenIn(src, kt, kp) && kt.kind == AttrKey && TokenIn(src, vt, vp) && vt.kind == AttrText
    requires eq < |src| && src[eq] == '=' && Blank(src, kp, eq) && Blank(src, eq + 1, Begin(vt))
    ensures AttrIn(src, AttrNode(kt.start, vt.end, kt.value, Quoted(vt.value))) && vt.end == Some(vp)
    ensures kt.start.value + |kt.value| == kp
  {
    KeyTokenIn(src, kt, kp);
    QuotedTokenIn(src, vt, vp);
    KeyValueIn(src, kt.start.value, kt.value, eq, vt.value, vp);
  }

  /** An attribute key token is a non-empty run of key characters, taken greedily, that ends just
      before the cursor. */
  lemma KeyTokenIn(src: string, t: Token, p: nat)
    requires TokenIn(src, t, p) && t.kind == AttrKey
    ensures t.start.Some? && KeyAt(src, t.start.value, t.value) && p == t.start.value + |t.value|
  {
  }

  lemma KeyValueIn(src: string, a: nat, key: string, eq: nat, v: string, e: nat)
    requires KeyAt(src, a, key) && QuotedValue(v) && e <= |src| && |v| <= e && HasAt(src, e - |v|, v)
    requires eq < |src| && src[eq] == '=' && Blank(src, a + |key|, eq) && Blank(src, eq + 1, e - |v|)
    ensures AttrIn(src, AttrNode(Some(a), Some(e), key, Quoted(v)))
  {
    assert EqSep(src, a + |key|, e - |v|);
  }

  /** An attribute value token spells its value, opening quote included, just before where it ends. */
  lemma QuotedTokenIn(src: string, t: Token, p: nat)
    requires TokenIn(src, t, p) && t.kind == AttrText
    ensures QuotedValue(t.value) && t.start == Some(p - |t.value| + 1) && |t.value| <= p
    ensures HasAt(src, p - |t.value|, t.value) && Begin(t) == p - |t.value|
  {
  }

  lemma AttrsTileCons(src: string, n: Node, rest: seq<Node>, lo: nat, c: nat, ce: nat)
    requires AttrIn(src, n) && Blank(src, lo, n.start.value)
    requires n.value.Present? ==> n.end == Some(if rest == [] then ce else KeyEnd(rest[0]))
    requires AttrsTile(src, rest, TextEnd(n), c, ce)
    ensures AttrsTile(src, [n] + rest, lo, c, ce)
  {
    assert ([n] + rest)[1..] == rest;
  }

  /** The attribute loop: the attributes, in source order, fill the text from `lo` to the token that
      stops the loop, with only white space around them; a bare attribute ends where the token after its
      key ends. */
  lemma {:induction false} AttrsInv(src: string, ps: PState, lo: nat, attrs: seq<Node>, ps': PState)
    requires Inv(src, ps) && ParseAttrs(src, ps) == Ok((attrs, ps'))
    requires ps.cur.kind in {CloseTag, CloseTagWithSlash, AttrKey, AttrText, Eq}
    requires ps.cur.start.Some? && Blank(src, lo, Begin(ps.cur))
    ensures Inv(src, ps') && ps.sc.pos <= ps'.sc.pos
    ensures ps'.cur.kind in {CloseTag, CloseTagWithSlash, AttrText, Eq} && ps'.cur.start.Some?
    ensures lo <= Begin(ps'.cur) && AttrsTile(src, attrs, lo, Begin(ps'.cur), ps'.sc.pos)
    ensures attrs == [] ==> ps' == ps
    ensures attrs != [] ==> KeyEnd(attrs[0]) == ps.sc.pos
    decreases PMeasure(src, ps)
  {
    if ps.cur.kind == AttrKey {
      var a := ParseAttr(src, ps).value;
      AttrInv(src, ps, a.0, a.1);
      var rest := ParseAttrs(src, a.1).value;
      AttrsInv(src, a.1, TextEnd(a.0), rest.0, rest.1);
      assert attrs == [a.0] + rest.0 && ps' == rest.1;
      assert a.1.cur.end == Some(a.1.sc.pos);
      AttrsTileCons(src, a.0, rest.0, lo, Begin(ps'.cur), ps'.sc.pos);
    }
  }

  lemma {:induction false} ContiguousLast(ns: seq<Node>, p: nat, q: nat)
    requires Contiguous(ns, p, q) && ns != []
    ensures ns[|ns| - 1].end == Some(q)
    decreases |ns|
  {
    if |ns| > 1 {
      ContiguousLast(ns[1..], ns[0].end.value, q);
    }
  }

  lemma ContiguousCons(n: Node, rest: seq<Node>, p: nat, q: nat)
    requires n.start == Some(p) && n.end.Some? && Contiguous(rest, n.end.value, q)
    ensures Contiguous([n] + rest, p, q)
  {
    assert ([n] + rest)[1..] == rest;
  }

  /** `#node`: the node it parses is read from the source. */
  lemma {:induction false} NodeInv(src: string, ps: PState, n: Node, ps': PState)
    requires Inv(src, ps) && ParseNode(src, ps) == Ok((n, ps'))
    ensures NodeAt(src, ps.cur.start, n, ps')
    decreases PMeasure(src, ps), 1
  {
    match ps.cur.kind
    case OpenTag => TagInv(src, ps, n, ps');
    case Text => TextIn(src, ps, n, ps');
    case OpenComment => CommentIn(src, ps, n, ps');
    case OpenMustache => MustacheIn(src, ps, n, ps');
    case _ =>
  }

  /** The children loop: from a current token starting at `p`, the children tile `[p, q)` where the
      `</` that ends the loop starts at `q`. */
  lemma {:induction false} ChildrenInv(src: string, ps: PState, p: nat, cs: seq<Node>, ps': PState)
    requires Inv(src, ps) && StartsAt(src, ps.cur, p) && ParseChildren(src, ps) == Ok((cs, ps'))
    ensures Inv(src, ps') && ps'.cur.kind == OpenTagWithSlash
    ensures p <= ps'.cur.start.value && Contiguous(cs, p, ps'.cur.start.value)
    ensures forall i :: 0 <= i < |cs| ==> NodeIn(src, cs[i])
    decreases PMeasure(src, ps), 2
  {
    if ps.cur.kind != OpenTagWithSlash {
      var n := ParseNode(src, ps).value;
      NodeInv(src, ps, n.0, n.1);
      var rest := ParseChildren(src, n.1).value;
      ChildrenInv(src, n.1, n.0.end.value, rest.0, rest.1);
      assert cs == [n.0] + rest.0 && ps' == rest.1;
      ContiguousCons(n.0, rest.0, p, ps'.cur.start.value);
    }
  }

  /** A token other than an attribute value or EOF spells its value where it starts. */
  lemma TokenHasAt(src: string, t: Token, p: nat)
    requires TokenIn(src, t, p) && t.kind != AttrText && t.kind != EOF
    ensures HasAt(src, t.start.value, t.value) && p == t.start.value + |t.value|
  {
  }

  /** Two strings read one after the other are read as their concatenation. */
  lemma HasAtConcat(src: string, a: nat, x: string, y: string)
    requires HasAt(src, a, x) && HasAt(src, a + |x|, y)
    ensures HasAt(src, a, x + y)
  {
    assert src[a..a + |x| + |y|] == src[a..a + |x|] + src[a + |x|..a + |x| + |y|];
  }

  /** The start tag up to its attributes: `<`, a tag name taken greedily, and the attributes after it,
      up to the token that stops the attribute loop. */
  lemma TagHead(src: string, ps: PState, ps1: PState, ps2: PState, ps3: PState, attrs: seq<Node>)
    requires Inv(src, ps) && Eat(src, ps, OpenTag) == Ok(ps1) && Eat(src, ps1, TagName) == Ok(ps2)
    requires ParseAttrs(src, ps2) == Ok((attrs, ps3))
    ensures StartTagAt(src, ps.cur.start.value, ps1.cur.value) && Inv(src, ps3)
    ensures ps3.cur.kind in {CloseTag, CloseTagWithSlash, AttrText, Eq} && ps3.cur.start.Some?
    ensures ps.cur.start.value + 1 + |ps1.cur.value| <= Begin(ps3.cur)
    ensures AttrsTile(src, attrs, ps.cur.start.value + 1 + |ps1.cur.value|, Begin(ps3.cur), ps3.sc.pos)
  {
    var a, name := ps.cur.start.value, ps1.cur.value;
    assert Inv(src, ps2) && StartTagAt(src, a, name) && ps2.cur.kind in {CloseTag, CloseTagWithSlash, AttrKey, AttrText, Eq}
        && ps2.cur.start.Some? && Blank(src, a + 1 + |name|, Begin(ps2.cur)) by {
      StartTagIn(src, ps, ps1, ps2);
    }
    AttrsInv(src, ps2, a + 1 + |name|, attrs, ps3);
  }

  /** `<` and a tag name, and what follows the name. */
  lemma StartTagIn(src: string, ps: PState, ps1: PState, ps2: PState)
    requires Inv(src, ps) && Eat(src, ps, OpenTag) == Ok(ps1) && Eat(src, ps1, TagName) == Ok(ps2)
    ensures StartTagAt(src, ps.cur.start.value, ps1.cur.value) && Inv(src, ps2)
    ensures ps2.cur.kind in {CloseTag, CloseTagWithSlash, AttrKey, AttrText, Eq} && ps2.cur.start.Some?
    ensures Blank(src, ps.cur.start.value + 1 + |ps1.cur.value|, Begin(ps2.cur))
  {
    OpenTagName(src, ps, ps1);
    EatInv(src, ps1, TagName, ps2);
    EatGap(src, ps1, TagName, ps2);
  }

  /** `<` and the tag name after it: a start tag, and the scanner stands just past the name. */
  lemma OpenTagName(src: string, ps: PState, ps1: PState)
    requires Inv(src, ps) && Eat(src, ps, OpenTag) == Ok(ps1) && ps1.cur.kind == TagName
    ensures Inv(src, ps1) && ps1.sc.pos == ps.cur.start.value + 1 + |ps1.cur.value|
    ensures StartTagAt(src, ps.cur.start.value, ps1.cur.value)
  {
    EatInv(src, ps, OpenTag, ps1);
    OpenTagTokenIn(src, ps.cur, ps.sc.pos);
    TagNameTokenIn(src, ps1.cur, ps1.sc.pos);
    StartTagOf(src, ps.cur.start.value, ps1.cur.value);
  }

  /** `<` followed by a tag name that no name character continues is a start tag. */
  lemma StartTagOf(src: string, a: nat, name: string)
    requires IsTagName(name) && HasAt(src, a, "<") && HasAt(src, a + 1, name)
    requires a + 1 + |name| < |src| ==> !IsNameChar(src[a + 1 + |name|])
    ensures StartTagAt(src, a, name)
  {
    HasAtConcat(src, a, "<", name);
  }

  /** A `<` token ends just after that character. */
  lemma OpenTagTokenIn(src: string, t: Token, p: nat)
    requires TokenIn(src, t, p) && t.kind == OpenTag
    ensures 1 <= p && t.start == Some(p - 1) && HasAt(src, p - 1, "<")
  {
  }

  /** A tag name token spells a tag name, taken greedily, and is the source text it spans. */
  lemma TagNameTokenIn(src: string, t: Token, p: nat)
    requires TokenIn(src, t, p) && t.kind == TagName
    ensures IsTagName(t.value) && t.start.Some? && p == t.start.value + |t.value| && HasAt(src, t.start.value, t.value)
    ensures p < |src| ==> !IsNameChar(src[p])
  {
  }

  /** A `>` token ends just after that character. */
  lemma CloseTagIn(src: string, t: Token, p: nat)
    requires TokenIn(src, t, p) && t.kind == CloseTag
    ensures t.start == Some(p - 1) && Begin(t) == p - 1 && HasAt(src, p - 1, ">")
  {
  }

  /** A `/>` token ends just after those two characters. */
  lemma SelfCloseTokenIn(src: string, t: Token, p: nat)
    requires TokenIn(src, t, p) && t.kind == CloseTagWithSlash
    ensures t.end == Some(p) && 2 <= p && t.start == Some(p - 2) && Begin(t) == p - 2 && HasAt(src, p - 2, "/>")
  {
  }

  /** The end tag: `</`, the start tag's name, white space and `>`, from the `</` that ends the
      children. */
  lemma EndTagInv(src: string, name: string, ps: PState, e: Option<nat>, ps': PState)
    requires Inv(src, ps) && ParseEndTag(src, name, ps) == Ok((e, ps'))
    ensures e.Some? && EndTagAt(src, name, ps.cur.start.value, e.value)
    ensures Inv(src, ps') && StartsAt(src, ps'.cur, e.value)
  {
    var ps1, ps2 := EndTagChain(src, name, ps, e, ps');
    EndTagTokens(src, name, ps, ps1, ps2, ps');
  }

  /** The end-tag check: from a current `</`, the end tag fails with a mismatch exactly when the name
      the scanner reads greedily after the `</` is not the start tag's name, and then with that name and
      its span. Where no name can be read, the scanner's error stands instead. */
  lemma EndTagName(src: string, name: string, ps: PState)
    requires Inv(src, ps) && ps.cur.kind == OpenTagWithSlash
    ensures ps.sc.pos < |src| && IsAsciiLetter(src[ps.sc.pos]) ==>
              var p, e := ps.sc.pos, RunEnd(src, ps.sc.pos + 1, NameChars);
              && (ParseEndTag(src, name, ps).Err? && ParseEndTag(src, name, ps).error.TagMismatch? <==> src[p..e] != name)
              && (src[p..e] != name ==> ParseEndTag(src, name, ps) == Err(TagMismatch(name, src[p..e], Some(p), Some(e))))
    ensures !(ps.sc.pos < |src| && IsAsciiLetter(src[ps.sc.pos])) ==>
              ParseEndTag(src, name, ps) == Err(ScanFailed(InvalidTagName(ps.sc.pos)))
  {
    EndTagCheck(src, name, ps);
    FirstEndTagToken(src, ps);
  }

  /** `#tagNode`'s end-tag check on the token after `</`: a different name is a mismatch with that
      token's span; the same name never is; a failed scan is passed on. */
  lemma EndTagCheck(src: string, name: string, ps: PState)
    requires ValidP(src, ps) && ps.cur.kind == OpenTagWithSlash
    ensures var r := Eat(src, ps, OpenTagWithSlash);
      && (r.Err? ==> ParseEndTag(src, name, ps) == Err(r.error))
      && (r.Ok? && r.value.cur.value != name ==>
            ParseEndTag(src, name, ps) == Err(TagMismatch(name, r.value.cur.value, r.value.cur.start, r.value.cur.end)))
      && (r.Ok? && r.value.cur.value == name ==> !(ParseEndTag(src, name, ps).Err? && ParseEndTag(src, name, ps).error.TagMismatch?))
  {
  }

  /** After `</` the scanner reads the tag name greedily, or fails where no name starts. */
  lemma FirstEndTagToken(src: string, ps: PState)
    requires ValidP(src, ps) && ps.cur.kind == OpenTagWithSlash && ps.sc.phase == AfterOpenTag
    ensures var p, r := ps.sc.pos, Eat(src, ps, OpenTagWithSlash);
      && (p < |src| && IsAsciiLetter(src[p]) ==>
            var e := RunEnd(src, p + 1, NameChars);
            r.Ok? && r.value.cur == Tok(TagName, src[p..e], p, e))
      && (!(p < |src| && IsAsciiLetter(src[p])) ==> r == Err(ScanFailed(InvalidTagName(p))))
  {
    assert ps.sc == ScanState(ps.sc.pos, AfterOpenTag);
    TagNameToken(src, ps.sc.pos);
  }

  /** The states a successful `ParseEndTag` passes through. */
  lemma EndTagChain(src: string, name: string, ps: PState, e: Option<nat>, ps': PState) returns (ps1: PState, ps2: PState)
    requires ValidP(src, ps) && ParseEndTag(src, name, ps) == Ok((e, ps'))
    ensures Eat(src, ps, OpenTagWithSlash) == Ok(ps1) && ps1.cur.value == name
    ensures Eat(src, ps1, TagName) == Ok(ps2) && Eat(src, ps2, CloseTag) == Ok(ps') && e == ps2.cur.end
  {
    ps1 := Eat(src, ps, OpenTagWithSlash).value;
    ps2 := Eat(src, ps1, TagName).value;
  }

  lemma EndTagTokens(src: string, name: string, ps: PState, ps1: PState, ps2: PState, ps': PState)
    requires Inv(src, ps) && Eat(src, ps, OpenTagWithSlash) == Ok(ps1) && ps1.cur.value == name
    requires Eat(src, ps1, TagName) == Ok(ps2) && Eat(src, ps2, CloseTag) == Ok(ps')
    ensures ps2.cur.end == Some(ps2.sc.pos) && EndTagAt(src, name, ps.cur.start.value, ps2.sc.pos)
    ensures Inv(src, ps') && StartsAt(src, ps'.cur, ps2.sc.pos)
  {
    assert Inv(src, ps1) && ps1.cur.start == Some(ps.sc.pos) by {
      EatInv(src, ps, OpenTagWithSlash, ps1);
    }
    assert Inv(src, ps2) && ps2.cur.start.Some? && Blank(src, ps1.sc.pos, ps2.cur.start.value) by {
      EatInv(src, ps1, TagName, ps2);
      EatGap(src, ps1, TagName, ps2);
    }
    assert Inv(src, ps') && StartsAt(src, ps'.cur, ps2.sc.pos) by {
      EatInv(src, ps2, CloseTag, ps');
    }
    EndTagIn(src, ps.cur, ps.sc.pos, ps1.cur, ps1.sc.pos, ps2.cur, ps2.sc.pos);
  }

  /** The tokens `</`, a name, white space and `>` spell the end tag of that name. */
  lemma EndTagIn(src: string, t0: Token, p0: nat, t1: Token, p1: nat, t2: Token, p2: nat)
    requires TokenIn(src, t0, p0) && t0.kind == OpenTagWithSlash
    requires TokenIn(src, t1, p1) && t1.kind == TagName && t1.start == Some(p0)
    requires TokenIn(src, t2, p2) && t2.kind == CloseTag && Blank(src, p1, t2.start.value)
    ensures t2.end == Some(p2) && EndTagAt(src, t1.value, t0.start.value, p2)
  {
    TokenHasAt(src, t0, p0);
    TokenHasAt(src, t1, p1);
    HasAtConcat(src, t0.start.value, "</", t1.value);
    CloseTagIn(src, t2, p2);
  }

  /** A start tag at `a`, its attributes up to `c`, and what closes it spell a tag node. */
  lemma TagNodeIn(src: string, a: nat, name: string, attrs: seq<Node>, cs: seq<Node>, c: nat, ce: nat, b: nat)
    requires StartTagAt(src, a, name) && a + 1 + |name| <= c && AttrsTile(src, attrs, a + 1 + |name|, c, ce)
    requires TagTail(src, name, cs, c, ce, b) && forall i :: 0 <= i < |cs| ==> NodeIn(src, cs[i])
    ensures NodeIn(src, TagNode(Some(a), Some(b), name, cs, attrs))
  {
  }

  /** What `#tagNode` gives after the attributes, for a tag named `name` whose attributes end at
      `c`, where the token that closes the start tag begins, and that token ends at `ce`: a tag node
      closed as `TagTail` says, whose children are read from the source, and a parser whose current
      token starts where the tag ends. */
  ghost predicate TailAt(src: string, name: string, c: nat, ce: nat, n: Node, ps': PState) {
    n.TagNode? && n.name == name && n.end.Some? && TagTail(src, name, n.children, c, ce, n.end.value) &&
    (forall i :: 0 <= i < |n.children| ==> NodeIn(src, n.children[i])) &&
    Inv(src, ps') && StartsAt(src, ps'.cur, n.end.value)
  }

  /** `#tagNode`: the tag it parses is read from the source. */
  lemma {:induction false} TagInv(src: string, ps: PState, n: Node, ps': PState)
    requires Inv(src, ps) && ParseTag(src, ps) == Ok((n, ps'))
    ensures NodeAt(src, ps.cur.start, n, ps')
    decreases PMeasure(src, ps), 0
  {
    var ps1 := Eat(src, ps, OpenTag).value;
    var ps2 := Eat(src, ps1, TagName).value;
    var at := ParseAttrs(src, ps2).value;
    TagHead(src, ps, ps1, ps2, at.1, at.0);
    TagRestInv(src, ps.cur.start, ps1.cur.value, at.0, at.1, n, ps');
    TagAt(src, ps.cur.start.value, ps1.cur.value, at.0, Begin(at.1.cur), at.1.sc.pos, n, ps');
  }

  /** The start tag and the rest of the tag together: the tag node is read from the source. */
  lemma TagAt(src: string, a: nat, name: string, attrs: seq<Node>, c: nat, ce: nat, n: Node, ps': PState)
    requires StartTagAt(src, a, name) && a + 1 + |name| <= c && AttrsTile(src, attrs, a + 1 + |name|, c, ce)
    requires n.TagNode? && n.start == Some(a) && n.attrs == attrs && TailAt(src, name, c, ce, n, ps')
    ensures NodeAt(src, Some(a), n, ps')
  {
    TagNodeIn(src, a, name, attrs, n.children, c, ce, n.end.value);
  }

  /** The rest of `#tagNode`, from the token after the attributes: with `/>` the tag has no children
      and ends where `/>` ends; otherwise `>`, children and the end tag. */
  lemma {:induction false} TagRestInv(src: string, start: Option<nat>, name: string, attrs: seq<Node>, ps: PState,
                                      n: Node, ps': PState)
    requires Inv(src, ps) && ps.cur.kind in {CloseTag, CloseTagWithSlash, AttrText, Eq}
    requires ParseTagRest(src, start, name, attrs, ps) == Ok((n, ps'))
    ensures ps.cur.start.Some? && n.TagNode? && n.start == start && n.attrs == attrs
    ensures TailAt(src, name, Begin(ps.cur), ps.sc.pos, n, ps')
    ensures ps.cur.kind == CloseTagWithSlash ==> n.children == [] && n.end == ps.cur.end
    decreases PMeasure(src, ps), 1
  {
    if ps.cur.kind == CloseTagWithSlash {
      assert Eat(src, ps, CloseTagWithSlash) == Ok(ps') && n == TagNode(start, ps.cur.end, name, [], attrs);
      SelfCloseInv(src, name, ps, ps');
    } else {
      var ps1, cs, ps2, e := BodySteps(src, start, name, attrs, ps, n, ps');
      BodyChain(src, name, ps, ps1, cs, ps2, e, ps');
    }
  }

  /** `/>`: a tag closed with no children, ending where `/>` ends. */
  lemma SelfCloseInv(src: string, name: string, ps: PState, ps': PState)
    requires Inv(src, ps) && ps.cur.kind == CloseTagWithSlash && Eat(src, ps, CloseTagWithSlash) == Ok(ps')
    ensures ps.cur.start.Some? && ps.cur.end == Some(ps.sc.pos) && TagTail(src, name, [], Begin(ps.cur), ps.sc.pos, ps.sc.pos)
    ensures Inv(src, ps') && StartsAt(src, ps'.cur, ps.sc.pos)
  {
    EatInv(src, ps, CloseTagWithSlash, ps');
    SelfCloseTokenIn(src, ps.cur, ps.sc.pos);
  }

  /** The states a tag with a body passes through after its attributes. */
  lemma BodySteps(src: string, start: Option<nat>, name: string, attrs: seq<Node>, ps: PState, n: Node, ps': PState)
    returns (ps1: PState, cs: seq<Node>, ps2: PState, e: Option<nat>)
    requires ValidP(src, ps) && ps.cur.kind != CloseTagWithSlash
    requires ParseTagRest(src, start, name, attrs, ps) == Ok((n, ps'))
    ensures Eat(src, ps, CloseTag) == Ok(ps1) && ParseChildren(src, ps1) == Ok((cs, ps2))
    ensures ParseEndTag(src, name, ps2) == Ok((e, ps')) && n == TagNode(start, e, name, cs, attrs)
  {
    ps1 := Eat(src, ps, CloseTag).value;
    var ch := ParseChildren(src, ps1).value;
    cs, ps2 := ch.0, ch.1;
    e := ParseEndTag(src, name, ps2).value.0;
  }

  /** A tag with a body: `>`, the children and the end tag. */
  lemma {:induction false} BodyChain(src: string, name: string, ps: PState, ps1: PState, cs: seq<Node>, ps2: PState,
                                     e: Option<nat>, ps': PState)
    requires Inv(src, ps) && ps.cur.kind == CloseTag && Eat(src, ps, CloseTag) == Ok(ps1)
    requires ParseChildren(src, ps1) == Ok((cs, ps2)) && ParseEndTag(src, name, ps2) == Ok((e, ps'))
    ensures ps.cur.start.Some? && e.Some? && TagTail(src, name, cs, Begin(ps.cur), ps.sc.pos, e.value)
    ensures (forall i :: 0 <= i < |cs| ==> NodeIn(src, cs[i])) && Inv(src, ps') && StartsAt(src, ps'.cur, e.value)
    decreases PMeasure(src, ps), 0
  {
    BodyOpen(src, ps, ps1);
    ChildrenInv(src, ps1, ps.sc.pos, cs, ps2);
    EndTagInv(src, name, ps2, e, ps');
    BodyTail(src, name, cs, Begin(ps.cur), ps.sc.pos, ps2.cur.start.value, e.value);
  }

  /** The `>` that opens a tag's body ends at the scanner's position. */
  lemma BodyOpen(src: string, ps: PState, ps1: PState)
    requires Inv(src, ps) && ps.cur.kind == CloseTag && Eat(src, ps, CloseTag) == Ok(ps1)
    ensures Inv(src, ps1) && StartsAt(src, ps1.cur, ps.sc.pos) && ps.cur.start.Some?
    ensures ps.sc.pos == Begin(ps.cur) + 1 && HasAt(src, Begin(ps.cur), ">")
  {
    EatInv(src, ps, CloseTag, ps1);
    CloseTagIn(src, ps.cur, ps.sc.pos);
  }

  /** `>` from `c` to `ce`, children tiling `[ce, q)` and the end tag from `q` close a tag. */
  lemma BodyTail(src: string, name: string, cs: seq<Node>, c: nat, ce: nat, q: nat, b: nat)
    requires ce == c + 1 && HasAt(src, c, ">") && ce <= q && Contiguous(cs, ce, q) && EndTagAt(src, name, q, b)
    ensures TagTail(src, name, cs, c, ce, b)
  {
  }

  /** The loop of `parse()`: from a current token starting at `p`, the nodes tile `[p, |src|)`. */
  lemma {:induction false} TopInv(src: string, ps: PState, p: nat, cs: seq<Node>)
    requires Inv(src, ps) && StartsAt(src, ps.cur, p) && ParseTop(src, ps) == Ok(cs)
    ensures Contiguous(cs, p, |src|) && forall i :: 0 <= i < |cs| ==> NodeIn(src, cs[i])
    decreases PMeasure(src, ps)
  {
    if ps.cur.kind != EOF {
      var n := ParseNode(src, ps).value;
      NodeInv(src, ps, n.0, n.1);
      var rest := ParseTop(src, n.1).value;
      TopInv(src, n.1, n.0.end.value, rest);
      assert cs == [n.0] + rest;
      ContiguousCons(n.0, rest, p, |src|);
      forall i | 0 <= i < |cs|
        ensures NodeIn(src, cs[i])
      {
        if i > 0 {
          assert cs[i] == rest[i - 1];
        }
      }
    }
  }

  /** Cursor, EOF and Template offsets: a successful parse yields a template whose children tile the
      whole input in document order, each read from the source. The template starts where the first
      token does and ends where the last child does; both are absent exactly for the empty input, and
      otherwise they are 0 and the input's length. */
  lemma DocumentCoversInput(src: string, t: Node)
    requires ParseDocument(src) == Ok(t)
    ensures t.TemplateNode?
    ensures Contiguous(t.children, 0, |src|)
    ensures forall i :: 0 <= i < |t.children| ==> NodeIn(src, t.children[i])
    ensures t.children == [] <==> src == []
    ensures t.start == (if src == [] then None else Some(0))
    ensures t.end == (if src == [] then None else Some(|src|))
  {
    var ps := NextToken(src, Start).value;
    NextTokenInv(src, Start, ps);
    TemplateCovers(src, ps, t);
  }

  /** `parse()` from a first token starting at 0. */
  lemma TemplateCovers(src: string, ps: PState, t: Node)
    requires Inv(src, ps) && StartsAt(src, ps.cur, 0) && ParseTemplate(src, ps) == Ok(t)
    ensures t.TemplateNode? && t.start == ps.cur.start
    ensures Contiguous(t.children, 0, |src|)
    ensures forall i :: 0 <= i < |t.children| ==> NodeIn(src, t.children[i])
    ensures t.children == [] <==> src == []
    ensures t.end == (if src == [] then None else Some(|src|))
  {
    var cs := ParseTop(src, ps).value;
    TopInv(src, ps, 0, cs);
    if cs != [] {
      ContiguousLast(cs, 0, |src|);
    }
  }
}
