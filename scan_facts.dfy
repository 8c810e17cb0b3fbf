/** What the scanner guarantees about the tokens it yields, stated against the source text. */
module ScanFacts {
  import opened Wrappers
  import opened Tokens
  import opened Lexical
  import opened ScanSpec

  /** A quoted attribute value as `genAttrs` builds it: both quotes included, the same quote at each
      end and nowhere in between. */
  predicate QuotedValue(v: string) {
    |v| >= 2 && IsQuote(v[0]) && v[|v| - 1] == v[0] && forall i :: 0 < i < |v| - 1 ==> v[i] != v[0]
  }

  /** The lexical shape of a token's value, by kind. */
  predicate WellShaped(t: Token) {
    (IsDelimiter(t.kind) ==> t.value == Spelling(t.kind)) &&
    (t.kind == Text ==> t.value != []) &&
    (t.kind == TagName ==> t.value != [] && IsAsciiLetter(t.value[0])
                           && forall i :: 0 < i < |t.value| ==> IsNameChar(t.value[i])) &&
    (t.kind == AttrKey ==> t.value != [] && forall i :: 0 <= i < |t.value| ==> IsKeyChar(t.value[i])) &&
    (t.kind == AttrText ==> QuotedValue(t.value))
  }

  /** The text, comment and mustache contents stop before the first marker or closer: none starts
      inside their span. Tag names and attribute keys are taken greedily: the character after them,
      if any, could not continue them. */
  predicate SpanShape(src: string, k: Kind, a: nat, e: nat) {
    (k == Text ==> forall i :: a <= i < e ==> !MarkupAt(src, i)) &&
    (k == Comment ==> forall i :: a <= i < e ==> !HasAt(src, i, "-->")) &&
    (k == MustacheValue ==> forall i :: a <= i < e ==> !HasAt(src, i, "}}")) &&
    (k == TagName && e < |src| ==> !IsNameChar(src[e])) &&
    (k == AttrKey && e < |src| ==> !IsKeyChar(src[e]))
  }

  /** Where a token's text begins in the source: its start, except for an attribute value, whose span
      starts just after the opening quote its value holds. */
  function Begin(t: Token): nat
    requires t.start.Some?
  {
    if t.kind == AttrText && 0 < t.start.value then t.start.value - 1 else t.start.value
  }

  /** `t` is a token read from `src` that ends where the cursor `p` stands afterwards: its value is the
      source text it spans, except that an attribute value's span leaves out the opening quote its value
      holds. The EOF token has no span and is yielded only at the end of the input. */
  predicate TokenIn(src: string, t: Token, p: nat) {
    if t.kind == EOF then t == EofToken && p == |src|
    else
      t.start.Some? && t.end == Some(p) && t.start.value <= p <= |src| && WellShaped(t) &&
      (t.kind != Comment && t.kind != MustacheValue ==> t.start.value < p) &&
      SpanShape(src, t.kind, t.start.value, p) &&
      if t.kind == AttrText then 1 <= t.start.value && src[t.start.value - 1..p] == t.value
      else src[t.start.value..p] == t.value
  }

  /** The content `ReadUntil` delimits holds no stop position, in the terms of SpanShape. */
  lemma ReadUntilShape(src: string, a: nat, stop: Stop, k: Kind)
    requires a <= |src|
    requires (stop, k) in {(MarkupStart, Text), (CommentClose, Comment), (MustacheClose, MustacheValue)}
    ensures SpanShape(src, k, a, ReadUntil(src, a, stop))
  {
    var e := ReadUntil(src, a, stop);
    forall i | a <= i < e
      ensures (k == Text ==> !MarkupAt(src, i)) && (k == Comment ==> !HasAt(src, i, "-->"))
      ensures k == MustacheValue ==> !HasAt(src, i, "}}")
    {
      assert !StopsAt(src, i, stop);
    }
  }

  /** The delimiter token `makeTokenAndAdvance` builds where its spelling occurs is read from the source. */
  lemma DelimiterIn(src: string, k: Kind, p: nat)
    requires IsDelimiter(k) && HasAt(src, p, Spelling(k))
    ensures TokenIn(src, Delimiter(k, p), p + |Spelling(k)|)
  {
  }

  /** A token whose value is the slice it spans (every kind but AttrText and EOF) is read from the
      source once its value has its kind's shape. */
  lemma SliceIn(src: string, k: Kind, a: nat, e: nat)
    requires a <= e <= |src| && k != AttrText && k != EOF
    requires WellShaped(Tok(k, src[a..e], a, e)) && SpanShape(src, k, a, e)
    ensures TokenIn(src, Tok(k, src[a..e], a, e), e)
  {
  }

  /** What StepSound states, for one resumption `r` from `s`. */
  predicate SoundStep(src: string, s: ScanState, r: Scanned)
    requires ValidState(src, s) && r.Yield?
  {
    && TokenIn(src, r.token, r.next.pos)
    && r.next.phase == PhaseAfter(r.token.kind)
    && s.pos <= r.next.pos
    && (r.token.kind != EOF ==> s.pos <= r.token.start.value)
    && (r.token.kind == AttrText ==> s.pos < r.token.start.value)
    && (s.phase != InAttrs && r.token.kind != EOF ==> r.token.start == Some(s.pos))
    && (r.token.kind == EOF <==> s.phase == Markup && s.pos == |src|)
    && (s.phase == InAttrs ==> r.token.kind in {CloseTag, CloseTagWithSlash, AttrKey, AttrText, Eq})
    && (s.phase == InAttrs ==> r.token.start.Some? && Begin(r.token) == RunEnd(src, s.pos, Spaces))
  }

  lemma MarkupSound(src: string, p: nat)
    requires p <= |src|
    ensures Step(src, ScanState(p, Markup)).Yield?
    ensures SoundStep(src, ScanState(p, Markup), Step(src, ScanState(p, Markup)))
  {
    if p < |src| {
      var m := MarkupMatch(src, p);
      if m.Some? {
        DelimiterIn(src, m.value, p);
      } else {
        var e := ReadUntil(src, p, MarkupStart);
        ReadUntilShape(src, p, MarkupStart, Text);
        SliceIn(src, Text, p, e);
      }
    }
  }

  lemma TagNameSound(src: string, p: nat)
    requires p <= |src| && Step(src, ScanState(p, AfterOpenTag)).Yield?
    ensures SoundStep(src, ScanState(p, AfterOpenTag), Step(src, ScanState(p, AfterOpenTag)))
  {
    var e := RunEnd(src, p + 1, NameChars);
    var v := src[p..e];
    assert forall i :: 0 < i < |v| ==> v[i] == src[p + i];
    SliceIn(src, TagName, p, e);
  }

  lemma BracketSound(src: string, s: ScanState)
    requires ValidState(src, s) && Step(src, s).Yield?
    requires s.phase in {AfterOpenComment, AfterCommentText, AfterOpenMustache, AfterMustacheValue}
    ensures SoundStep(src, s, Step(src, s))
  {
    var p := s.pos;
    match s.phase
    case AfterOpenComment =>
      ReadUntilShape(src, p, CommentClose, Comment);
      SliceIn(src, Comment, p, ReadUntil(src, p, CommentClose));
    case AfterOpenMustache =>
      ReadUntilShape(src, p, MustacheClose, MustacheValue);
      SliceIn(src, MustacheValue, p, ReadUntil(src, p, MustacheClose));
    case AfterCommentText => DelimiterIn(src, CloseComment, p);
    case AfterMustacheValue => DelimiterIn(src, CloseMustache, p);
  }

  /** Every token the generator yields is read from the source, sits at or after the cursor, and leaves
      the generator suspended in the phase that its kind determines. Outside attribute mode it starts
      exactly at the cursor. EOF is yielded exactly when the main loop finds the input exhausted, and
      the cursor never moves backwards. */
  lemma StepSound(src: string, s: ScanState)
    requires ValidState(src, s) && Step(src, s).Yield?
    ensures SoundStep(src, s, Step(src, s))
  {
    match s.phase
    case Markup => MarkupSound(src, s.pos);
    case AfterOpenTag => TagNameSound(src, s.pos);
    case InAttrs => AttrStepSound(src, RunEnd(src, s.pos, Spaces));
    case AfterOpenComment => BracketSound(src, s);
    case AfterCommentText => BracketSound(src, s);
    case AfterOpenMustache => BracketSound(src, s);
    case AfterMustacheValue => BracketSound(src, s);
  }

  lemma AttrStepSound(src: string, p: nat)
    requires p <= |src| && AttrStep(src, p).Yield?
    ensures var r := AttrStep(src, p);
      && TokenIn(src, r.token, r.next.pos)
      && r.next.phase == PhaseAfter(r.token.kind)
      && r.token.start == Some(if r.token.kind == AttrText then p + 1 else p)
      && r.token.kind in {CloseTag, CloseTagWithSlash, AttrKey, AttrText, Eq}
  {
    if HasAt(src, p, "/>") {
      DelimiterIn(src, CloseTagWithSlash, p);
    } else if HasAt(src, p, ">") {
      DelimiterIn(src, CloseTag, p);
    } else if p < |src| && IsKeyChar(src[p]) {
      KeyRunIn(src, p);
    } else if p < |src| && IsQuote(src[p]) {
      QuotedSound(src, p);
    } else {
      DelimiterIn(src, Eq, p);
    }
  }

  /** The greedy run of key characters at `p` is a key token read from the source. */
  lemma KeyRunIn(src: string, p: nat)
    requires p < |src| && IsKeyChar(src[p])
    ensures var e := RunEnd(src, p, KeyChars); TokenIn(src, Tok(AttrKey, src[p..e], p, e), e)
  {
    var e := RunEnd(src, p, KeyChars);
    var v := src[p..e];
    assert forall i :: 0 <= i < |v| ==> v[i] == src[p + i];
    SliceIn(src, AttrKey, p, e);
  }

  lemma QuotedSound(src: string, p: nat)
    requires p < |src| && IsQuote(src[p]) && QuotedStep(src, p).Yield?
    ensures var r := QuotedStep(src, p);
      && TokenIn(src, r.token, r.next.pos) && r.token.kind == AttrText && r.token.start == Some(p + 1)
  {
    var e := ReadUntil(src, p + 1, QuoteChar(src[p]));
    var v := src[p..e + 1];
    assert forall i :: 0 < i < |v| - 1 ==> v[i] == src[p + i] && !StopsAt(src, p + i, QuoteChar(src[p]));
    assert QuotedValue(v);
  }

  /** Text tokens: in markup mode a text token is yielded exactly when the input is not exhausted and
      none of `<!--`, `</`, `<`, `{{` starts at the cursor. It is non-empty, its value is the text it
      spans, and it stops at the first index where one of those markers starts, or at the end of input.
      Markup mode itself never fails. */
  lemma TextToken(src: string, p: nat)
    requires p <= |src|
    ensures var r := Step(src, ScanState(p, Markup));
      && r.Yield?
      && (r.token.kind == Text <==> p < |src| && !MarkupAt(src, p))
      && (r.token.kind == Text ==>
            var e := r.next.pos;
            && p < e && r.token == Tok(Text, src[p..e], p, e) && r.next.phase == Markup
            && (forall k :: p <= k < e ==> !MarkupAt(src, k))
            && (e == |src| || MarkupAt(src, e)))
  {
    if p < |src| && !MarkupAt(src, p) {
      var e := ReadUntil(src, p, MarkupStart);
      assert MarkupMatch(src, p).None?;
      assert Step(src, ScanState(p, Markup)) == Yield(Tok(Text, src[p..e], p, e), ScanState(e, Markup));
      forall k | p <= k < e
        ensures !MarkupAt(src, k)
      {
        assert !StopsAt(src, k, MarkupStart);
      }
    }
  }

  /** The opener, closer and token kinds of a comment (`mustache == false`) or of a mustache. */
  function Opener(mustache: bool): string { if mustache then "{{" else "<!--" }
  function Closer(mustache: bool): string { if mustache then "}}" else "-->" }
  function CloserStop(mustache: bool): Stop { if mustache then MustacheClose else CommentClose }
  function OpenKind(mustache: bool): Kind { if mustache then OpenMustache else OpenComment }
  function ValueKind(mustache: bool): Kind { if mustache then MustacheValue else Comment }
  function CloseKind(mustache: bool): Kind { if mustache then CloseMustache else CloseComment }
  function Unterminated(mustache: bool, at: nat): ScanError {
    if mustache then UnterminatedMustache(at) else UnterminatedComment(at)
  }

  /** After `<!--` or `{{` the scanner yields the content up to where `ReadUntil` finds the closer
      (the first one, by CloserSearch), then the closer; when the content runs to the end of the input,
      the third resumption throws there. */
  lemma BracketedScan(src: string, p: nat, mustache: bool)
    requires HasAt(src, p, Opener(mustache))
    ensures Step(src, ScanState(p, Markup)) == Yield(Delimiter(OpenKind(mustache), p), OpenedAt(p, mustache))
    ensures Step(src, OpenedAt(p, mustache)) == Yield(ContentToken(src, p, mustache), ContentRead(src, p, mustache))
    ensures ContentEnd(src, p, mustache) < |src| ==>
              Step(src, ContentRead(src, p, mustache))
                == Yield(Delimiter(CloseKind(mustache), ContentEnd(src, p, mustache)),
                         ScanState(ContentEnd(src, p, mustache) + |Closer(mustache)|, Markup))
    ensures ContentEnd(src, p, mustache) == |src| ==>
              Step(src, ContentRead(src, p, mustache)) == Fail(Unterminated(mustache, |src|))
  {
    OpenerStep(src, p, mustache);
    ContentStep(src, p, mustache);
    CloseStep(src, p, mustache);
  }

  /** The state after the opener at `p`, the end of the content, its token and the state after it. */
  function OpenedAt(p: nat, mustache: bool): ScanState {
    ScanState(p + |Opener(mustache)|, PhaseAfter(OpenKind(mustache)))
  }

  function ContentEnd(src: string, p: nat, mustache: bool): nat
    requires HasAt(src, p, Opener(mustache))
  {
    ReadUntil(src, p + |Opener(mustache)|, CloserStop(mustache))
  }

  function ContentToken(src: string, p: nat, mustache: bool): Token
    requires HasAt(src, p, Opener(mustache))
  {
    var a := p + |Opener(mustache)|;
    Tok(ValueKind(mustache), src[a..ContentEnd(src, p, mustache)], a, ContentEnd(src, p, mustache))
  }

  function ContentRead(src: string, p: nat, mustache: bool): ScanState
    requires HasAt(src, p, Opener(mustache))
  {
    ScanState(ContentEnd(src, p, mustache), PhaseAfter(ValueKind(mustache)))
  }

  lemma OpenerStep(src: string, p: nat, mustache: bool)
    requires HasAt(src, p, Opener(mustache))
    ensures Step(src, ScanState(p, Markup)) == Yield(Delimiter(OpenKind(mustache), p), OpenedAt(p, mustache))
  {
    assert MarkupMatch(src, p) == Some(OpenKind(mustache));
  }

  lemma ContentStep(src: string, p: nat, mustache: bool)
    requires HasAt(src, p, Opener(mustache))
    ensures Step(src, OpenedAt(p, mustache)) == Yield(ContentToken(src, p, mustache), ContentRead(src, p, mustache))
  {
    ValueStep(src, p + |Opener(mustache)|, mustache);
  }

  lemma CloseStep(src: string, p: nat, mustache: bool)
    requires HasAt(src, p, Opener(mustache))
    ensures ContentEnd(src, p, mustache) < |src| ==>
              Step(src, ContentRead(src, p, mustache))
                == Yield(Delimiter(CloseKind(mustache), ContentEnd(src, p, mustache)),
                         ScanState(ContentEnd(src, p, mustache) + |Closer(mustache)|, Markup))
    ensures ContentEnd(src, p, mustache) == |src| ==>
              Step(src, ContentRead(src, p, mustache)) == Fail(Unterminated(mustache, |src|))
  {
    CloserSearch(src, p + |Opener(mustache)|, mustache);
    CloserStep(src, ContentEnd(src, p, mustache), mustache);
  }

  lemma ValueStep(src: string, a: nat, mustache: bool)
    requires a <= |src|
    ensures var c := ReadUntil(src, a, CloserStop(mustache));
      Step(src, ScanState(a, PhaseAfter(OpenKind(mustache))))
        == Yield(Tok(ValueKind(mustache), src[a..c], a, c), ScanState(c, PhaseAfter(ValueKind(mustache))))
  {
  }

  lemma CloserStep(src: string, c: nat, mustache: bool)
    requires c <= |src| && (c < |src| ==> HasAt(src, c, Closer(mustache)))
    ensures var s2 := ScanState(c, PhaseAfter(ValueKind(mustache)));
      && (c < |src| ==> Step(src, s2) == Yield(Delimiter(CloseKind(mustache), c), ScanState(c + |Closer(mustache)|, Markup)))
      && (c == |src| ==> Step(src, s2) == Fail(Unterminated(mustache, |src|)))
  {
  }

  /** `ReadUntil` for a closer stops at its first occurrence, and before the end of the input exactly
      when there is one. */
  lemma CloserSearch(src: string, a: nat, mustache: bool)
    requires a <= |src|
    ensures var c := ReadUntil(src, a, CloserStop(mustache));
      && (forall k :: a <= k < c ==> !HasAt(src, k, Closer(mustache)))
      && (c < |src| ==> HasAt(src, c, Closer(mustache)))
      && (c < |src| <==> exists k :: a <= k <= |src| && HasAt(src, k, Closer(mustache)))
  {
    var stop, closer := CloserStop(mustache), Closer(mustache);
    assert forall k :: StopsAt(src, k, stop) <==> HasAt(src, k, closer);
    var c := ReadUntil(src, a, stop);
    if c < |src| {
      assert HasAt(src, c, closer);
    }
  }

  /** What a quote at `p` in attribute mode leads to: a value token exactly when the same quote occurs
      again; the value runs to its next occurrence and includes both quotes, its span starting after
      the opening quote; otherwise `UnterminatedAttrValue` at the end of the input. */
  predicate QuotedOutcome(src: string, p: nat, r: Scanned)
    requires p < |src|
  {
    var q := src[p];
    && ((exists k :: p < k < |src| && src[k] == q) <==> r.Yield?)
    && (r.Yield? ==> exists e ::
          && p < e < |src| && src[e] == q && (forall k :: p < k < e ==> src[k] != q)
          && r == Yield(Tok(AttrText, src[p..e + 1], p + 1, e + 1), ScanState(e + 1, InAttrs)))
    && (r.Fail? ==> r.error == UnterminatedAttrValue(|src|))
  }

  /** Quoted attribute values: from attribute mode, once white space is skipped to a quote, the
      resumption is what QuotedOutcome describes. */
  lemma QuotedAttr(src: string, pos: nat)
    requires pos <= |src|
    requires var p := RunEnd(src, pos, Spaces); p < |src| && IsQuote(src[p])
    ensures QuotedOutcome(src, RunEnd(src, pos, Spaces), Step(src, ScanState(pos, InAttrs)))
  {
    var p := RunEnd(src, pos, Spaces);
    assert Step(src, ScanState(pos, InAttrs)) == AttrStep(src, p);
    AttrQuoted(src, p);
    QuotedValueScan(src, p);
  }

  /** A quote at the cursor in attribute mode starts a quoted value. */
  lemma AttrQuoted(src: string, p: nat)
    requires p < |src| && IsQuote(src[p])
    ensures AttrStep(src, p) == QuotedStep(src, p)
  {
    HasAtHead(src, p, "/>");
    HasAtHead(src, p, ">");
  }

  lemma QuotedValueScan(src: string, p: nat)
    requires p < |src| && IsQuote(src[p])
    ensures QuotedOutcome(src, p, QuotedStep(src, p))
  {
    var q := src[p];
    var e := ReadUntil(src, p + 1, QuoteChar(q));
    assert e < |src| ==> QuotedStep(src, p) == Yield(Tok(AttrText, src[p..e + 1], p + 1, e + 1), ScanState(e + 1, InAttrs));
    if e < |src| {
      assert StopsAt(src, e, QuoteChar(q));
      assert forall k :: p < k < e ==> src[k] != q by {
        forall k | p < k < e ensures src[k] != q {
          assert !StopsAt(src, k, QuoteChar(q));
        }
      }
    } else {
      assert QuotedStep(src, p) == Fail(UnterminatedAttrValue(|src|));
      forall k | p < k < |src| ensures src[k] != q {
        assert !StopsAt(src, k, QuoteChar(q));
      }
    }
  }


  /** Tag names: after `<` or `</` a name `[a-zA-Z][a-zA-Z0-9:-]*` is required at the cursor, taken
      greedily; otherwise the scanner throws `InvalidTagName` there. */
  lemma TagNameToken(src: string, p: nat)
    requires p <= |src|
    ensures var r := Step(src, ScanState(p, AfterOpenTag));
      && (r.Yield? <==> p < |src| && IsAsciiLetter(src[p]))
      && (r.Fail? ==> r.error == InvalidTagName(p))
      && (r.Yield? ==>
            var e := r.next.pos;
            && e == RunEnd(src, p + 1, NameChars)
            && r == Yield(Tok(TagName, src[p..e], p, e), ScanState(e, InAttrs))
            && (forall k :: p < k < e ==> IsNameChar(src[k]))
            && (e == |src| || !IsNameChar(src[e])))
  {
  }

  /** The single-character delimiters occur at `p` exactly when their character stands there. */
  lemma OneCharAt(src: string, p: nat, c: char)
    ensures HasAt(src, p, [c]) <==> p < |src| && src[p] == c
  {
    if p < |src| && src[p] == c {
      assert src[p..p + 1] == [c];
    }
  }

  /** Where attribute mode throws `InvalidAttr`, white space already skipped to `p`. */
  lemma AttrStepInvalid(src: string, p: nat)
    requires p <= |src| && (p == |src| || !IsSpace(src[p]))
    ensures AttrStep(src, p) == Fail(InvalidAttr(p)) <==>
              p == |src| || (src[p] == '/' && !HasAt(src, p, "/>"))
  {
    OneCharAt(src, p, '>');
    OneCharAt(src, p, '=');
    if HasAt(src, p, "/>") {
      assert src[p] == src[p..p + 2][0];
    }
  }

  /** Attribute mode: after skipping white space to `p` it yields `>` or `/>` (and leaves attribute
      mode), a key, `=` or a quoted value. It throws `InvalidAttr` at `p` exactly when the input is
      exhausted there or a `/` stands there that is not followed by `>`. */
  lemma AttrMode(src: string, pos: nat)
    requires pos <= |src|
    ensures var p := RunEnd(src, pos, Spaces);
      var r := Step(src, ScanState(pos, InAttrs));
      && (r == Fail(InvalidAttr(p)) <==> p == |src| || (src[p] == '/' && !HasAt(src, p, "/>")))
      && (r.Yield? ==> r.token.kind in {CloseTag, CloseTagWithSlash, AttrKey, AttrText, Eq})
      && (r.Yield? ==> (r.next.phase == Markup <==> r.token.kind in {CloseTag, CloseTagWithSlash}))
      && (r.Fail? ==> r.error in {InvalidAttr(p), UnterminatedAttrValue(|src|)})
  {
    var p := RunEnd(src, pos, Spaces);
    assert Step(src, ScanState(pos, InAttrs)) == AttrStep(src, p);
    assert p == |src| || !InClass(src[p], Spaces);
    AttrStepInvalid(src, p);
    AttrStepShape(src, p);
  }

  /** What one round of the attribute loop yields from `p`, by what stands there: `/>`, `>` and `=`
      exactly where they occur, and a key exactly where a key character stands, taken greedily. Each
      of these starts at `p`. */
  predicate AttrOutcome(src: string, p: nat, r: Scanned)
    requires p <= |src|
  {
    && (r.Yield? && r.token.kind == CloseTagWithSlash <==> HasAt(src, p, "/>"))
    && (r.Yield? && r.token.kind == CloseTag <==> HasAt(src, p, ">"))
    && (r.Yield? && r.token.kind == Eq <==> HasAt(src, p, "="))
    && (r.Yield? && r.token.kind in {CloseTagWithSlash, CloseTag, Eq} ==>
          r == Yield(Delimiter(r.token.kind, p), ScanState(p + |Spelling(r.token.kind)|, PhaseAfter(r.token.kind))))
    && (r.Yield? && r.token.kind == AttrKey <==> p < |src| && IsKeyChar(src[p]))
    && (r.Yield? && r.token.kind == AttrKey ==>
          && p < r.next.pos <= |src|
          && r == Yield(Tok(AttrKey, src[p..r.next.pos], p, r.next.pos), ScanState(r.next.pos, InAttrs))
          && (forall k :: p <= k < r.next.pos ==> IsKeyChar(src[k]))
          && (r.next.pos < |src| ==> !IsKeyChar(src[r.next.pos])))
  }

  /** Attribute keys and delimiters: from attribute mode, once white space is skipped to `p`, the
      resumption is what AttrOutcome describes. */
  lemma AttrTokens(src: string, pos: nat)
    requires pos <= |src|
    ensures AttrOutcome(src, RunEnd(src, pos, Spaces), Step(src, ScanState(pos, InAttrs)))
  {
    var p := RunEnd(src, pos, Spaces);
    assert Step(src, ScanState(pos, InAttrs)) == AttrStep(src, p);
    AttrStepOutcome(src, p);
  }

  lemma AttrStepOutcome(src: string, p: nat)
    requires p <= |src|
    ensures AttrOutcome(src, p, AttrStep(src, p))
  {
    OneCharAt(src, p, '>');
    OneCharAt(src, p, '=');
    HasAtHead(src, p, "/>");
    if p < |src| && IsKeyChar(src[p]) {
      var e := RunEnd(src, p, KeyChars);
      assert AttrStep(src, p) == Yield(Tok(AttrKey, src[p..e], p, e), ScanState(e, InAttrs));
    }
  }

  /** The kinds, phases and errors of one round of the attribute loop. */
  lemma AttrStepShape(src: string, p: nat)
    requires p <= |src|
    ensures var r := AttrStep(src, p);
      && (r.Yield? ==> r.token.kind in {CloseTag, CloseTagWithSlash, AttrKey, AttrText, Eq})
      && (r.Yield? ==> (r.next.phase == Markup <==> r.token.kind in {CloseTag, CloseTagWithSlash}))
      && (r.Fail? ==> r.error in {InvalidAttr(p), UnterminatedAttrValue(|src|)})
  {
  }

  /** A drained token stream: tokens in source order, the end of each at most the start of the next,
      all of them after `p`, and exactly one EOF, at the end. */
  predicate OrderedStream(ts: seq<Token>, p: nat)
    decreases |ts|
  {
    |ts| >= 1 &&
    if |ts| == 1 then ts[0] == EofToken
    else
      && ts[0].kind != EOF && ts[0].start.Some? && ts[0].end.Some?
      && p <= ts[0].start.value <= ts[0].end.value
      && OrderedStream(ts[1..], ts[0].end.value)
  }

  /** Cursor and EOF: a stream drained without error from a state whose cursor is `s.pos` is ordered
      from `s.pos` and ends with the single EOF token; after it the generator is done. */
  lemma {:induction false} ScanOrdered(src: string, s: ScanState)
    requires ValidState(src, s) && Scan(src, s).Ok?
    ensures OrderedStream(Scan(src, s).value, s.pos)
    decreases Measure(src, s)
  {
    StepSound(src, s);
    var r := Step(src, s);
    if r.token.kind != EOF {
      ScanOrdered(src, r.next);
      assert r.next.pos == r.token.end.value;
      OrderedFrom(Scan(src, r.next).value, r.next.pos, r.token.end.value);
      assert Scan(src, s).value[1..] == Scan(src, r.next).value;
    }
  }

  lemma {:induction false} OrderedFrom(ts: seq<Token>, p: nat, q: nat)
    requires OrderedStream(ts, p) && q <= p
    ensures OrderedStream(ts, q)
  {
  }

  /** The generator is done after EOF: resuming it once more is the parser's "No more token". */
  lemma AfterEof(src: string, s: ScanState)
    requires ValidState(src, s) && Step(src, s).Yield? && Step(src, s).token.kind == EOF
    ensures Step(src, Step(src, s).next) == Fail(ExhaustedStream)
  {
  }
}
