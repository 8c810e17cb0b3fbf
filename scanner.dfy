/** The generator object `genToken(src)` (index.js:29-191) as a class: the source, the cursor `pos` and
    the phase at which the generator is suspended. Each method is proved to do what the state machine
    of ScanSpec prescribes. */
module Scanning {
  import opened Wrappers
  import opened Tokens
  import opened Lexical
  import opened ScanSpec

  /** `r` and the state after are what resuming the generator from `before` gives: the yielded token
      and the next suspension point, or the thrown error and a finished generator. */
  predicate Resumed(sc: Scanned, before: ScanState, r: Result<Token, ScanError>, after: ScanState) {
    match sc
    case Yield(t, n) => r == Ok(t) && after == n
    case Fail(e) => r == Err(e) && after == AfterFailure(e, before)
  }

  class Scanner {
    const src: string
    var pos: nat
    var phase: Phase

    predicate Valid()
      reads this
    {
      pos <= |src|
    }

    function State(): ScanState
      reads this
    {
      ScanState(pos, phase)
    }

    /** `genToken(src)`: a suspended generator with `pos = 0`. */
    constructor (src: string)
      ensures this.src == src && Valid() && State() == Start
    {
      this.src := src;
      pos := 0;
      phase := Markup;
    }

    /** `makeTokenAndAdvance` (index.js:53-57): a token from the cursor to the end of the match. */
    method MakeTokenAndAdvance(kind: Kind, val: string, matchEnd: nat) returns (t: Token)
      requires pos <= matchEnd <= |src|
      modifies this`pos
      ensures Valid()
      ensures t == Tok(kind, val, old(pos), matchEnd) && pos == matchEnd
    {
      t := Tok(kind, val, pos, matchEnd);
      pos := matchEnd;
    }

    /** `readUntilAndMakeToken` (index.js:59-72) without the bound check, which no caller requests:
        collects characters one by one until `stop` holds at the cursor or the input ends. */
    method ReadUntilAndMakeToken(stop: Stop, kind: Kind) returns (t: Token)
      requires Valid()
      modifies this`pos
      ensures Valid()
      ensures pos == ReadUntil(src, old(pos), stop)
      ensures t == Tok(kind, src[old(pos)..pos], old(pos), pos)
    {
      var val := "";
      var i := pos;
      while i < |src| && !StopsAt(src, i, stop)
        invariant pos <= i <= |src|
        invariant val == src[pos..i]
        invariant ReadUntil(src, i, stop) == ReadUntil(src, pos, stop)
        decreases |src| - i
      {
        assert src[pos..i + 1] == src[pos..i] + [src[i]];
        val := val + [src[i]];
        i := i + 1;
      }
      t := Tok(kind, val, pos, i);
      pos := i;
    }

    /** The quoted-value branch of `genAttrs` (index.js:104-122): copies the characters after the
        opening quote until the same quote reappears. */
    method ReadQuoted() returns (r: Result<Token, ScanError>)
      requires pos < |src| && IsQuote(src[pos]) && phase == InAttrs
      modifies this
      ensures Valid()
      ensures Resumed(QuotedStep(src, old(pos)), old(State()), r, State())
    {
      var q := src[pos];
      pos := pos + 1;
      var valueStart := pos;
      var str := [q];
      while pos < |src| && src[pos] != q
        invariant valueStart <= pos <= |src| && phase == InAttrs
        invariant str == src[valueStart - 1..pos]
        invariant ReadUntil(src, pos, QuoteChar(q)) == ReadUntil(src, valueStart, QuoteChar(q))
        decreases |src| - pos
      {
        str := str + [src[pos]];
        pos := pos + 1;
      }
      assert pos == ReadUntil(src, valueStart, QuoteChar(q));
      if pos >= |src| {
        r, phase := Err(UnterminatedAttrValue(pos)), Finished;
      } else {
        assert src[valueStart - 1..pos + 1] == src[valueStart - 1..pos] + [src[pos]];
        str := str + [src[pos]];
        pos := pos + 1;
        r := Ok(Tok(AttrText, str, valueStart, pos));
      }
    }

    /** One round of the `genAttrs` loop (index.js:75-130): skip white space, then yield a close
        delimiter, a key, a quoted value or `=`, or throw. */
    method GenAttr() returns (r: Result<Token, ScanError>)
      requires Valid() && phase == InAttrs
      modifies this
      ensures Valid()
      ensures Resumed(AttrStep(src, RunEnd(src, old(pos), Spaces)), old(State()), r, State())
    {
      pos := RunEnd(src, pos, Spaces);
      if HasAt(src, pos, "/>") {
        var t := MakeTokenAndAdvance(CloseTagWithSlash, "/>", pos + 2);
        r, phase := Ok(t), Markup;
      } else if HasAt(src, pos, ">") {
        var t := MakeTokenAndAdvance(CloseTag, ">", pos + 1);
        r, phase := Ok(t), Markup;
      } else if pos < |src| && IsKeyChar(src[pos]) {
        var t := MakeTokenAndAdvance(AttrKey, src[pos..RunEnd(src, pos, KeyChars)], RunEnd(src, pos, KeyChars));
        r := Ok(t);
      } else if pos < |src| && IsQuote(src[pos]) {
        r := ReadQuoted();
      } else if HasAt(src, pos, "=") {
        var t := MakeTokenAndAdvance(Eq, "=", pos + 1);
        r := Ok(t);
      } else {
        r, phase := Err(InvalidAttr(pos)), Finished;
      }
    }

    /** Resumes the generator: runs the main loop of `genToken` (index.js:133-190) up to its next
        `yield` or `throw`. */
    method Next() returns (r: Result<Token, ScanError>)
      requires Valid()
      modifies this
      ensures Valid()
      ensures Resumed(Step(src, old(State())), old(State()), r, State())
    {
      match phase
      case Finished =>
        r := Err(ExhaustedStream);
      case Markup =>
        if pos >= |src| {
          r, phase := Ok(EofToken), Finished;
        } else {
          var m := MarkupMatch(src, pos);
          if m.None? {
            var t := ReadUntilAndMakeToken(MarkupStart, Text);
            r := Ok(t);
          } else {
            var k := m.value;
            var t := MakeTokenAndAdvance(k, Spelling(k), pos + |Spelling(k)|);
            r, phase := Ok(t), PhaseAfter(k);
          }
        }
      case AfterOpenComment =>
        var t := ReadUntilAndMakeToken(CommentClose, Comment);
        r, phase := Ok(t), AfterCommentText;
      case AfterCommentText =>
        if HasAt(src, pos, "-->") {
          var t := MakeTokenAndAdvance(CloseComment, "-->", pos + 3);
          r, phase := Ok(t), Markup;
        } else {
          r, phase := Err(UnterminatedComment(pos)), Finished;
        }
      case AfterOpenTag =>
        if pos < |src| && IsAsciiLetter(src[pos]) {
          var e := RunEnd(src, pos + 1, NameChars);
          var t := MakeTokenAndAdvance(TagName, src[pos..e], e);
          r, phase := Ok(t), InAttrs;
        } else {
          r, phase := Err(InvalidTagName(pos)), Finished;
        }
      case InAttrs =>
        r := GenAttr();
      case AfterOpenMustache =>
        var t := ReadUntilAndMakeToken(MustacheClose, MustacheValue);
        r, phase := Ok(t), AfterMustacheValue;
      case AfterMustacheValue =>
        if HasAt(src, pos, "}}") {
          var t := MakeTokenAndAdvance(CloseMustache, "}}", pos + 2);
          r, phase := Ok(t), Markup;
        } else {
          r, phase := Err(UnterminatedMustache(pos)), Finished;
        }
    }
  }
}
