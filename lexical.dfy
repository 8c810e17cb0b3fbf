/** The character classes and the anchored ("sticky") matches the scanner is built from (index.js:32-37,
    59-72, 104-111). Each regular expression of the source becomes a prefix test or a maximal run of a
    character class, stated at an index of the source string. */
module Lexical {

  /** `lit` occurs in `src` starting at index `i`. */
  predicate HasAt(src: string, i: nat, lit: string) {
    i + |lit| <= |src| && src[i..i + |lit|] == lit
  }

  predicate IsAsciiLetter(c: char) {
    'a' <= c <= 'z' || 'A' <= c <= 'Z'
  }

  predicate IsDigit(c: char) {
    '0' <= c <= '9'
  }

  /** `[a-zA-Z0-9:\-]`, the characters after the first one of a tag name. */
  predicate IsNameChar(c: char) {
    IsAsciiLetter(c) || IsDigit(c) || c == ':' || c == '-'
  }

  /** JavaScript's `\s`: the ASCII spaces TAB..CR and SPACE, and the Unicode space separators,
      line and paragraph separators and the byte order mark. */
  predicate IsSpace(c: char) {
    c == ' ' || '\t' <= c <= '\r' || c == '\U{00A0}' || c == '\U{1680}'
    || '\U{2000}' <= c <= '\U{200A}' || c == '\U{2028}' || c == '\U{2029}'
    || c == '\U{202F}' || c == '\U{205F}' || c == '\U{3000}' || c == '\U{FEFF}'
  }

  /** Only white space stands in `[a, b)`. */
  predicate Blank(src: string, a: nat, b: nat) {
    a <= b <= |src| && forall k {:trigger IsSpace(src[k])} :: a <= k < b ==> IsSpace(src[k])
  }

  predicate IsQuote(c: char) {
    c == '\'' || c == '"'
  }

  /** `[^>/=\s'"]`, the characters of an attribute key. */
  predicate IsKeyChar(c: char) {
    c != '>' && c != '/' && c != '=' && !IsSpace(c) && !IsQuote(c)
  }

  datatype CharClass = NameChars | KeyChars | Spaces

  predicate InClass(c: char, cls: CharClass) {
    match cls
    case NameChars => IsNameChar(c)
    case KeyChars => IsKeyChar(c)
    case Spaces => IsSpace(c)
  }

  /** The end of the longest run of `cls` characters starting at `from`: the greedy `[...]*` of a sticky
      regular expression. */
  function RunEnd(src: string, from: nat, cls: CharClass): (r: nat)
    requires from <= |src|
    ensures from <= r <= |src|
    ensures forall k :: from <= k < r ==> InClass(src[k], cls)
    ensures r < |src| ==> !InClass(src[r], cls)
    decreases |src| - from
  {
    if from < |src| && InClass(src[from], cls) then RunEnd(src, from + 1, cls) else from
  }

  /** The conditions `readUntilAndMakeToken` and the attribute-value loop stop at. */
  datatype Stop =
    | MarkupStart          // /(<!--)|(<\/|<)|({{)/y matches
    | CommentClose         // /(-->)/y matches
    | MustacheClose        // /(}})/y matches
    | QuoteChar(q: char)   // src[pos] === the opening quote

  /** The markup regular expression matches at `i`: one of `<!--`, `</`, `<`, `{{` starts there. */
  predicate MarkupAt(src: string, i: nat) {
    HasAt(src, i, "<!--") || HasAt(src, i, "</") || HasAt(src, i, "<") || HasAt(src, i, "{{")
  }

  predicate StopsAt(src: string, i: nat, stop: Stop) {
    match stop
    case MarkupStart => MarkupAt(src, i)
    case CommentClose => HasAt(src, i, "-->")
    case MustacheClose => HasAt(src, i, "}}")
    case QuoteChar(q) => i < |src| && src[i] == q
  }

  /** Where the loop `while (pos < src.length && !test(re)) pos++` ends when started at `from`: the first
      index at or after `from` where `stop` holds, or the end of the input. */
  function ReadUntil(src: string, from: nat, stop: Stop): (r: nat)
    requires from <= |src|
    ensures from <= r <= |src|
    ensures forall k :: from <= k < r ==> !StopsAt(src, k, stop)
    ensures r < |src| ==> StopsAt(src, r, stop)
    decreases |src| - from
  {
    if from < |src| && !StopsAt(src, from, stop) then ReadUntil(src, from + 1, stop) else from
  }

  /** Since `<!--` and `</` both begin with `<`, the markup expression matches exactly where a `<` or a
      `{{` begins; in particular a lone `<` ends a text run. */
  lemma MarkupAtChars(src: string, i: nat)
    ensures MarkupAt(src, i) <==> (i < |src| && src[i] == '<') || HasAt(src, i, "{{")
  {
    if HasAt(src, i, "<!--") || HasAt(src, i, "</") {
      assert src[i] == src[i..i + 2][0];
    }
    if i < |src| && src[i] == '<' {
      assert src[i..i + 1] == "<";
    }
  }

  /** Where a non-empty literal occurs, its first character stands. */
  lemma HasAtHead(src: string, i: nat, lit: string)
    requires lit != []
    ensures HasAt(src, i, lit) ==> i < |src| && src[i] == lit[0]
  {
    if HasAt(src, i, lit) {
      assert src[i] == src[i..i + |lit|][0];
    }
  }

  /** No two of the markers `<!--`, `</`, `<` and `{{` occur at the same index, except `<` within the other two. */
  lemma MarkersDistinct(src: string, i: nat)
    ensures !(HasAt(src, i, "<!--") && HasAt(src, i, "</"))
    ensures HasAt(src, i, "{{") ==> !HasAt(src, i, "<") && !HasAt(src, i, "</") && !HasAt(src, i, "<!--")
  {
    if HasAt(src, i, "<!--") {
      assert src[i + 1] == src[i..i + 4][1];
    }
    if HasAt(src, i, "</") {
      assert src[i + 1] == src[i..i + 2][1];
    }
    HasAtHead(src, i, "{{");
    HasAtHead(src, i, "<");
    HasAtHead(src, i, "</");
    HasAtHead(src, i, "<!--");
  }

  /** Any index that satisfies the three defining properties of `ReadUntil` is `ReadUntil`'s result. */
  lemma {:induction false} ReadUntilUnique(src: string, from: nat, stop: Stop, r: nat)
    requires from <= r <= |src|
    requires forall k :: from <= k < r ==> !StopsAt(src, k, stop)
    requires r < |src| ==> StopsAt(src, r, stop)
    ensures ReadUntil(src, from, stop) == r
    decreases r - from
  {
    if from < r {
      ReadUntilUnique(src, from + 1, stop, r);
    }
  }

  /** Any index that satisfies the two defining properties of `RunEnd` is `RunEnd`'s result. */
  lemma {:induction false} RunEndUnique(src: string, from: nat, cls: CharClass, r: nat)
    requires from <= r <= |src|
    requires forall k :: from <= k < r ==> InClass(src[k], cls)
    requires r < |src| ==> !InClass(src[r], cls)
    ensures RunEnd(src, from, cls) == r
    decreases r - from
  {
    if from < r {
      RunEndUnique(src, from + 1, cls, r);
    }
  }
}
