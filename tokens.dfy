/** Tokens of the template language: the kind table `Token.t` and the `Token` record (index.js:1-27). */
module Tokens {
  import opened Wrappers

  /** The sixteen token kinds of `Token.t`. */
  datatype Kind =
    | OpenTag            // "<"
    | OpenTagWithSlash   // "</"
    | CloseTag           // ">"
    | CloseTagWithSlash  // "/>"
    | TagName
    | AttrKey
    | AttrText
    | Eq                 // "="
    | OpenMustache       // "{{"
    | CloseMustache      // "}}"
    | MustacheValue
    | OpenComment        // "<!--"
    | CloseComment       // "-->"
    | Comment
    | Text
    | EOF

  /** The string `Token.t` assigns to each kind. For a delimiter it is also the delimiter's text. */
  function Spelling(k: Kind): string {
    match k
    case OpenTag => "<"
    case OpenTagWithSlash => "</"
    case CloseTag => ">"
    case CloseTagWithSlash => "/>"
    case TagName => "tagName"
    case AttrKey => "attrKey"
    case AttrText => "attrText"
    case Eq => "="
    case OpenMustache => "{{"
    case CloseMustache => "}}"
    case MustacheValue => "mustacheValue"
    case OpenComment => "<!--"
    case CloseComment => "-->"
    case Comment => "comment"
    case Text => "text"
    case EOF => "EOF"
  }

  /** The kinds whose text is fixed: the token's value is always its spelling. */
  predicate IsDelimiter(k: Kind) {
    match k
    case OpenTag | OpenTagWithSlash | CloseTag | CloseTagWithSlash | Eq => true
    case OpenMustache | CloseMustache | OpenComment | CloseComment => true
    case _ => false
  }

  /** A scanned token; `start` and `end` are the half-open span, absent on the EOF token. */
  datatype Token = Token(kind: Kind, value: string, start: Option<nat>, end: Option<nat>)

  /** A token with a span, as every kind but EOF carries. */
  function Tok(k: Kind, value: string, start: nat, end: nat): Token {
    Token(k, value, Some(start), Some(end))
  }

  /** The EOF token, built without a start or end (index.js:135). */
  const EofToken: Token := Token(EOF, Spelling(EOF), None, None)
}
