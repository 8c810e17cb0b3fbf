/** The syntax tree: the node classes `Template`, `TagNode`, `AttrNode`, `TextNode`, `MustacheNode` and
    `CommentNode` (index.js:193-244) as one datatype. Offsets are optional because the source copies
    them from tokens, and the EOF token has none; the `type` string of each class is the constructor. */
module Nodes {
  import opened Wrappers

  /** An attribute's value: the quoted string with its quotes, or `true` for a bare key. */
  datatype AttrValue = Quoted(text: string) | Present

  datatype Node =
    | TemplateNode(start: Option<nat>, end: Option<nat>, children: seq<Node>)
    | TagNode(start: Option<nat>, end: Option<nat>, name: string, children: seq<Node>, attrs: seq<Node>)
    | AttrNode(start: Option<nat>, end: Option<nat>, key: string, value: AttrValue)
    | TextNode(start: Option<nat>, end: Option<nat>, text: string)
    | MustacheNode(start: Option<nat>, end: Option<nat>, expr: string)
    | CommentNode(start: Option<nat>, end: Option<nat>, comment: string)
}
