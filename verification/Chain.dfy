/**
 The block tree that every other module walks.

 A block is identified with its hash, and a hash fixes the parent's hash, so a block is modelled as
 the whole history it commits to: two blocks are equal exactly when their hashes are. `Origin` is
 the position before the genesis block; a missing block pointer (`None`) is `Origin`.
 */
module Chain {

  /** `triggers` is the number of triggers in the block that match the subgraph's filter. */
  datatype Block = Origin | Child(parent: Block, seed: nat, triggers: nat)

  function Number(b: Block): (n: int)
    ensures n >= -1
    ensures n == -1 <==> b.Origin?
  {
    match b
    case Origin => -1
    case Child(p, _, _) => Number(p) + 1
  }

  /** The ancestor of `b` (or `b` itself) that has number `n`. */
  function At(b: Block, n: int): (a: Block)
    requires -1 <= n <= Number(b)
    ensures Number(a) == n
  {
    if n == Number(b) then b else At(b.parent, n)
  }

  /** `a` is `b` or an ancestor of `b`. */
  predicate Anc(a: Block, b: Block) {
    Number(a) <= Number(b) && At(b, Number(a)) == a
  }

  /** The genesis block below `b`; positions of one network share it. */
  predicate SameGenesis(a: Block, b: Block) {
    a.Child? && b.Child? ==> At(a, 0) == At(b, 0)
  }

  lemma {:induction false} AtAt(b: Block, m: int, n: int)
    requires -1 <= n <= m <= Number(b)
    ensures At(At(b, m), n) == At(b, n)
  {
    if m < Number(b) {
      AtAt(b.parent, m, n);
    }
  }

  lemma AtAnc(b: Block, n: int)
    requires -1 <= n <= Number(b)
    ensures Anc(At(b, n), b)
  {
  }

  lemma OriginAnc(b: Block)
    ensures Anc(Origin, b)
  {
    assert Number(At(b, -1)) == -1;
  }

  lemma AncTrans(a: Block, b: Block, c: Block)
    requires Anc(a, b) && Anc(b, c)
    ensures Anc(a, c)
  {
    AtAt(c, Number(b), Number(a));
  }

  /** The ancestors of one block are totally ordered. */
  lemma AncLinear(a: Block, b: Block, c: Block)
    requires Anc(a, c) && Anc(b, c) && Number(a) <= Number(b)
    ensures Anc(a, b)
  {
    AtAt(c, Number(b), Number(a));
  }

  lemma AncParent(a: Block, b: Block)
    requires b.Child?
    ensures Anc(a, b) && a != b ==> Anc(a, b.parent)
    ensures Anc(a, b.parent) ==> Anc(a, b)
    ensures Anc(b.parent, b)
  {
  }

  lemma AncSameGenesis(a: Block, b: Block)
    requires Anc(a, b)
    ensures SameGenesis(a, b)
  {
    if a.Child? {
      AtAt(b, Number(a), 0);
    }
  }

  /** The blocks after `a` up to and including `b`, oldest first. */
  function Path(a: Block, b: Block): (s: seq<Block>)
    requires Anc(a, b)
    ensures |s| == Number(b) - Number(a)
  {
    if a == b then [] else Path(a, b.parent) + [b]
  }

  lemma {:induction false} PathConcat(a: Block, m: Block, b: Block)
    requires Anc(a, m) && Anc(m, b)
    ensures Anc(a, b)
    ensures Path(a, b) == Path(a, m) + Path(m, b)
  {
    AncTrans(a, m, b);
    if m != b {
      AncParent(m, b);
      PathConcat(a, m, b.parent);
    }
  }

  lemma {:induction false} PathNumbers(a: Block, b: Block, i: nat)
    requires Anc(a, b) && i < Number(b) - Number(a)
    ensures Number(Path(a, b)[i]) == Number(a) + 1 + i
    ensures Anc(Path(a, b)[i], b)
  {
    if i < Number(b) - Number(a) - 1 {
      PathNumbers(a, b.parent, i);
      AncParent(Path(a, b)[i], b);
    }
  }

  /** The blocks of `s` that carry at least one trigger, in order. */
  function Bearing(s: seq<Block>): (r: seq<Block>)
  {
    if s == [] then []
    else Bearing(s[..|s|-1]) + if Carries(s[|s|-1]) then [s[|s|-1]] else []
  }

  predicate Carries(b: Block) {
    b.Child? && b.triggers > 0
  }

  /** The blocks of `s` with number at most `n`, in order. */
  function UpTo(s: seq<Block>, n: int): (r: seq<Block>)
  {
    if s == [] then []
    else UpTo(s[..|s|-1], n) + if Number(s[|s|-1]) <= n then [s[|s|-1]] else []
  }

  lemma {:induction false} BearingConcat(s: seq<Block>, t: seq<Block>)
    ensures Bearing(s + t) == Bearing(s) + Bearing(t)
  {
    if t == [] {
      assert s + t == s;
    } else {
      assert (s + t)[..|s + t|-1] == s + t[..|t|-1];
      BearingConcat(s, t[..|t|-1]);
    }
  }

  lemma {:induction false} UpToConcat(s: seq<Block>, t: seq<Block>, n: int)
    ensures UpTo(s + t, n) == UpTo(s, n) + UpTo(t, n)
  {
    if t == [] {
      assert s + t == s;
    } else {
      assert (s + t)[..|s + t|-1] == s + t[..|t|-1];
      UpToConcat(s, t[..|t|-1], n);
    }
  }

  lemma {:induction false} BearingUpTo(s: seq<Block>, n: int)
    ensures Bearing(UpTo(s, n)) == UpTo(Bearing(s), n)
  {
    if s == [] {
    } else {
      var front, last := s[..|s|-1], s[|s|-1];
      BearingUpTo(front, n);
      var keep := if Number(last) <= n then [last] else [];
      var bear := if Carries(last) then [last] else [];
      BearingConcat(UpTo(front, n), keep);
      UpToConcat(Bearing(front), bear, n);
    }
  }

  lemma {:induction false} UpToPath(a: Block, m: Block, b: Block)
    requires Anc(a, m) && Anc(m, b)
    ensures Anc(a, b)
    ensures UpTo(Path(a, b), Number(m)) == Path(a, m)
    decreases b
  {
    AncTrans(a, m, b);
    if m != b {
      AncParent(m, b);
      UpToPath(a, m, b.parent);
      assert Path(a, b)[..|Path(a, b)|-1] == Path(a, b.parent);
    } else {
      forall i | 0 <= i < |Path(a, m)| ensures Number(Path(a, m)[i]) <= Number(m) {
        PathNumbers(a, m, i);
      }
      UpToAll(Path(a, m), Number(m));
    }
  }

  lemma {:induction false} UpToAll(s: seq<Block>, n: int)
    requires forall i :: 0 <= i < |s| ==> Number(s[i]) <= n
    ensures UpTo(s, n) == s
  {
    if s == [] {
    } else {
      var front, last := s[..|s|-1], s[|s|-1];
      assert forall i :: 0 <= i < |front| ==> front[i] == s[i];
      UpToAll(front, n);
      assert s == front + [last] && Number(last) <= n;
    }
  }
}
