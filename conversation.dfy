/** One turn of dialogue, as the client keeps it and the handler forwards it. */
module Conversation {

  datatype Role = User | Assistant

  datatype Exchange = Exchange(role: Role, content: string)

  /** A history made of complete user/assistant pairs, in that order. */
  ghost predicate WellPaired(h: seq<Exchange>)
  {
    && |h| % 2 == 0
    && (forall k :: 0 <= k < |h| && k % 2 == 0 ==> h[k].role == User)
    && (forall k :: 0 <= k < |h| && k % 2 == 1 ==> h[k].role == Assistant)
  }

  /** Appending one user turn and one assistant turn keeps a history well paired. */
  lemma AppendPairKeepsWellPaired(h: seq<Exchange>, question: string, answer: string)
    requires WellPaired(h)
    ensures WellPaired(h + [Exchange(User, question), Exchange(Assistant, answer)])
  {
    var h' := h + [Exchange(User, question), Exchange(Assistant, answer)];
    forall k | 0 <= k < |h'| && k % 2 == 0
      ensures h'[k].role == User
    {
      if k >= |h| { assert k == |h|; }
    }
    forall k | 0 <= k < |h'| && k % 2 == 1
      ensures h'[k].role == Assistant
    {
      if k >= |h| { assert k == |h| + 1; }
    }
  }
}
