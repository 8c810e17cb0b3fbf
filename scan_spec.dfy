/** The token generator `genToken` (index.js:29-191) as a state machine. A `ScanState` is the point at
    which the generator is suspended: the cursor `pos` and the phase, which records which `yield` of the
    generator it is suspended at. `Step` is one resumption: it produces the next token and the new
    state, or the error the generator throws. */
module ScanSpec {
  import opened Wrappers
  import opened Tokens
  import opened Lexical

  datatype Phase =
    | Markup              // at the top of the main loop (index.js:133)
    | AfterOpenComment    // `<!--` yielded; the comment text comes next (index.js:155)
    | AfterCommentText    // comment text yielded; `-->` comes next (index.js:157-159)
    | AfterOpenTag        // `<` or `</` yielded; the tag name comes next (index.js:167-169)
    | InAttrs             // inside `genAttrs` (index.js:74-131)
    | AfterOpenMustache   // `{{` yielded; the mustache value comes next (index.js:183)
    | AfterMustacheValue  // mustache value yielded; `}}` comes next (index.js:185-187)
    | Finished            // EOF yielded or an error thrown: the generator is done

  datatype ScanState = ScanState(pos: nat, phase: Phase)

  /** The errors `genToken` throws, each with the cursor at which it is thrown (`at ${pos}`), and the
      parser's "No more token" when the finished generator is resumed (index.js:266). */
  datatype ScanError =
    | InvalidTagName(at: nat)
    | InvalidAttr(at: nat)
    | UnterminatedAttrValue(at: nat)
    | UnterminatedComment(at: nat)
    | UnterminatedMustache(at: nat)
    | ExhaustedStream

  /** One resumption of the generator: a token and the state it is suspended in next, or a throw. */
  datatype Scanned = Yield(token: Token, next: ScanState) | Fail(error: ScanError)

  /** A fresh generator: `let pos = 0`, about to run the main loop. */
  const Start: ScanState := ScanState(0, Markup)

  predicate ValidState(src: string, s: ScanState) {
    s.pos <= |src|
  }

  function Rank(p: Phase): nat {
    match p
    case Finished => 0
    case AfterCommentText => 1
    case AfterMustacheValue => 1
    case AfterOpenComment => 2
    case AfterOpenMustache => 2
    case _ => 3
  }

  /** Strictly decreased by every token: the remaining input, and the phase for the tokens that may be
      empty (the EOF token, an empty comment or mustache value). */
  function Measure(src: string, s: ScanState): nat
    requires ValidState(src, s)
  {
    (|src| - s.pos) * 4 + Rank(s.phase)
  }

  /** The phase the generator is suspended in right after it yields a token of kind `k`. */
  function PhaseAfter(k: Kind): Phase {
    match k
    case OpenComment => AfterOpenComment
    case Comment => AfterCommentText
    case OpenTag => AfterOpenTag
    case OpenTagWithSlash => AfterOpenTag
    case TagName => InAttrs
    case AttrKey => InAttrs
    case AttrText => InAttrs
    case Eq => InAttrs
    case OpenMustache => AfterOpenMustache
    case MustacheValue => AfterMustacheValue
    case EOF => Finished
    case _ => Markup
  }

  /** The alternative of /(<!--)|(<\/|<)|({{)/y that matches at `i`, in the order the alternatives are
      tried, or `None` when the expression fails there. */
  function MarkupMatch(src: string, i: nat): (r: Option<Kind>)
    ensures r.None? <==> !MarkupAt(src, i)
    ensures r.Some? ==> r.value in {OpenComment, OpenTagWithSlash, OpenTag, OpenMustache}
    ensures r.Some? ==> HasAt(src, i, Spelling(r.value))
    ensures r == Some(OpenComment) <==> HasAt(src, i, "<!--")
    ensures r == Some(OpenTagWithSlash) <==> HasAt(src, i, "</")
    ensures r == Some(OpenTag) <==> HasAt(src, i, "<") && !HasAt(src, i, "<!--") && !HasAt(src, i, "</")
    ensures r == Some(OpenMustache) <==> HasAt(src, i, "{{")
  {
    MarkersDistinct(src, i);
    if HasAt(src, i, "<!--") then Some(OpenComment)
    else if HasAt(src, i, "</") then Some(OpenTagWithSlash)
    else if HasAt(src, i, "<") then Some(OpenTag)
    else if HasAt(src, i, "{{") then Some(OpenMustache)
    else None
  }

  /** `makeTokenAndAdvance` for a delimiter found at `p`: its spelling, spanning `[p, p + length)`. */
  function Delimiter(k: Kind, p: nat): Token {
    Tok(k, Spelling(k), p, p + |Spelling(k)|)
  }

  /** A quoted attribute value whose opening quote is at `p` (index.js:104-122): it runs to the next
      occurrence of the same quote; its value includes both quotes but its span starts after the
      opening one. */
  function QuotedStep(src: string, p: nat): (r: Scanned)
    requires p < |src| && IsQuote(src[p])
    ensures r.Yield? ==> p < r.next.pos <= |src| && r.next.phase == InAttrs
  {
    var e := ReadUntil(src, p + 1, QuoteChar(src[p]));
    if e >= |src| then Fail(UnterminatedAttrValue(e))
    else Yield(Tok(AttrText, src[p..e + 1], p + 1, e + 1), ScanState(e + 1, InAttrs))
  }

  /** One round of the `genAttrs` loop after the white space is skipped, the cursor standing at `p`
      (index.js:82-129). */
  function AttrStep(src: string, p: nat): (r: Scanned)
    requires p <= |src|
    ensures r.Yield? ==> p < r.next.pos <= |src| && r.next.phase in {InAttrs, Markup}
  {
    if HasAt(src, p, "/>") then
      Yield(Delimiter(CloseTagWithSlash, p), ScanState(p + 2, Markup))
    else if HasAt(src, p, ">") then
      Yield(Delimiter(CloseTag, p), ScanState(p + 1, Markup))
    else if p < |src| && IsKeyChar(src[p]) then
      var e := RunEnd(src, p, KeyChars);
      Yield(Tok(AttrKey, src[p..e], p, e), ScanState(e, InAttrs))
    else if p < |src| && IsQuote(src[p]) then
      QuotedStep(src, p)
    else if HasAt(src, p, "=") then
      Yield(Delimiter(Eq, p), ScanState(p + 1, InAttrs))
    else
      Fail(InvalidAttr(p))
  }

  /** One resumption of `genToken` from state `s`. */
  function Step(src: string, s: ScanState): (r: Scanned)
    requires ValidState(src, s)
    ensures r.Yield? ==> ValidState(src, r.next) && Measure(src, r.next) < Measure(src, s)
  {
    var p := s.pos;
    match s.phase
    case Finished => Fail(ExhaustedStream)
    case Markup =>
      if p >= |src| then Yield(EofToken, ScanState(p, Finished))
      else (
        match MarkupMatch(src, p)
        case None =>
          var e := ReadUntil(src, p, MarkupStart);
          Yield(Tok(Text, src[p..e], p, e), ScanState(e, Markup))
        case Some(k) =>
          Yield(Delimiter(k, p), ScanState(p + |Spelling(k)|, PhaseAfter(k))))
    case AfterOpenComment =>
      var e := ReadUntil(src, p, CommentClose);
      Yield(Tok(Comment, src[p..e], p, e), ScanState(e, AfterCommentText))
    case AfterCommentText =>
      if HasAt(src, p, "-->") then Yield(Delimiter(CloseComment, p), ScanState(p + 3, Markup))
      else Fail(UnterminatedComment(p))
    case AfterOpenTag =>
      if p < |src| && IsAsciiLetter(src[p]) then
        var e := RunEnd(src, p + 1, NameChars);
        Yield(Tok(TagName, src[p..e], p, e), ScanState(e, InAttrs))
      else Fail(InvalidTagName(p))
    case InAttrs =>
      AttrStep(src, RunEnd(src, p, Spaces))
    case AfterOpenMustache =>
      var e := ReadUntil(src, p, MustacheClose);
      Yield(Tok(MustacheValue, src[p..e], p, e), ScanState(e, AfterMustacheValue))
    case AfterMustacheValue =>
      if HasAt(src, p, "}}") then Yield(Delimiter(CloseMustache, p), ScanState(p + 2, Markup))
      else Fail(UnterminatedMustache(p))
  }

  /** The state a failed resumption leaves behind: the generator is done, its cursor where it threw. */
  function AfterFailure(e: ScanError, s: ScanState): ScanState {
    ScanState(if e.ExhaustedStream? then s.pos else e.at, Finished)
  }

  /** Draining the generator from `s`, as a `for ... of` loop over `genToken(src)` does: every token up
      to and including EOF, or the first error. */
  function Scan(src: string, s: ScanState): (r: Result<seq<Token>, ScanError>)
    requires ValidState(src, s)
    ensures r.Ok? ==> r.value != [] && r.value[|r.value| - 1].kind == EOF
    ensures r.Ok? ==> forall i :: 0 <= i < |r.value| - 1 ==> r.value[i].kind != EOF
    decreases Measure(src, s)
  {
    match Step(src, s)
    case Fail(e) => Err(e)
    case Yield(t, s') =>
      if t.kind == EOF then Ok([t])
      else (
        match Scan(src, s')
        case Err(e) => Err(e)
        case Ok(ts) => Ok([t] + ts))
  }
}
