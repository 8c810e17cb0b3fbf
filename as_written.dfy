/** `#node` exactly as index.js:351-362 has it: the switch has no default case, so a token that starts
    no node makes `#node` return `undefined` without consuming anything. The loops that call it
    (index.js:337-339, 367-369) then push `undefined` and test the same current token again. */
module AsWritten {
  import opened Wrappers
  import opened Tokens
  import opened Nodes
  import opened ParseSpec

  /** The node `#node` returns, `None` standing for `undefined`, and the state it leaves. */
  function NodeAsWritten(src: string, ps: PState): (r: Result<(Option<Node>, PState), Error>)
    requires ValidP(src, ps)
    ensures r.Ok? ==> ValidP(src, r.value.1)
    ensures r.Ok? && r.value.0.None? ==> r.value.1 == ps
  {
    if ps.cur.kind in {OpenTag, Text, OpenComment, OpenMustache} then
      var n :- ParseNode(src, ps);
      Ok((Some(n.0), n.1))
    else
      Ok((None, ps))
  }

  /** `k` rounds of the children loop of `#tagNode` as written, stopping early at `</`. */
  function ChildrenRounds(src: string, ps: PState, k: nat): (r: Result<(seq<Option<Node>>, PState), Error>)
    requires ValidP(src, ps)
    ensures r.Ok? ==> ValidP(src, r.value.1) && |r.value.0| <= k
    ensures r.Ok? && |r.value.0| < k ==> r.value.1.cur.kind == OpenTagWithSlash
    decreases k
  {
    if k == 0 || ps.cur.kind == OpenTagWithSlash then Ok(([], ps))
    else
      var n :- NodeAsWritten(src, ps);
      var rest :- ChildrenRounds(src, n.1, k - 1);
      Ok(([n.0] + rest.0, rest.1))
  }

  /** `k` rounds of the loop of `parse()` as written, stopping early at EOF. */
  function TopRounds(src: string, ps: PState, k: nat): (r: Result<(seq<Option<Node>>, PState), Error>)
    requires ValidP(src, ps)
    ensures r.Ok? ==> ValidP(src, r.value.1) && |r.value.0| <= k
    ensures r.Ok? && |r.value.0| < k ==> r.value.1.cur.kind == EOF
    decreases k
  {
    if k == 0 || ps.cur.kind == EOF then Ok(([], ps))
    else
      var n :- NodeAsWritten(src, ps);
      var rest :- TopRounds(src, n.1, k - 1);
      Ok(([n.0] + rest.0, rest.1))
  }

  /** `k` copies of `undefined`. */
  function Undefineds(k: nat): (r: seq<Option<Node>>)
    ensures |r| == k && forall i :: 0 <= i < k ==> r[i].None?
  {
    if k == 0 then [] else [None] + Undefineds(k - 1)
  }

  /** Inside a tag's children, a current token that neither starts a node nor is `</` (the EOF of an
      unclosed tag) is never consumed: after any number of rounds the loop has pushed only `undefined`,
      the current token is the same, and the loop condition still holds. */
  lemma {:induction false} ChildrenLoopStuck(src: string, ps: PState, k: nat)
    requires ValidP(src, ps) && ps.cur.kind !in {OpenTag, Text, OpenComment, OpenMustache, OpenTagWithSlash}
    ensures ChildrenRounds(src, ps, k) == Ok((Undefineds(k), ps))
    decreases k
  {
    if k > 0 {
      ChildrenLoopStuck(src, ps, k - 1);
    }
  }

  /** At the top level, a current token that neither starts a node nor is EOF (a stray `</`) is never
      consumed either. */
  lemma {:induction false} TopLoopStuck(src: string, ps: PState, k: nat)
    requires ValidP(src, ps) && ps.cur.kind !in {OpenTag, Text, OpenComment, OpenMustache, EOF}
    ensures TopRounds(src, ps, k) == Ok((Undefineds(k), ps))
    decreases k
  {
    if k > 0 {
      TopLoopStuck(src, ps, k - 1);
    }
  }

  /** Where `#node` does find a node, it agrees with the corrected `ParseNode`, which fails where the
      source returns `undefined`. */
  lemma NodeAgrees(src: string, ps: PState)
    requires ValidP(src, ps)
    ensures ps.cur.kind in {OpenTag, Text, OpenComment, OpenMustache} ==>
              match ParseNode(src, ps)
              case Ok(n) => NodeAsWritten(src, ps) == Ok((Some(n.0), n.1))
              case Err(e) => NodeAsWritten(src, ps) == Err(e)
    ensures ps.cur.kind !in {OpenTag, Text, OpenComment, OpenMustache} ==>
              NodeAsWritten(src, ps) == Ok((None, ps)) &&
              ParseNode(src, ps) == Err(UnexpectedNodeStart(ps.cur.kind, ps.cur.start, ps.cur.end))
  {
  }
}
