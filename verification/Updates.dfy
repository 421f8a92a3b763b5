/** Lists of block updates, as log_write() sees them, and the block maps they make. */
module Updates {
  import opened Bytes

  /** The block map after a list of block updates. */
  ghost function After(contents: seq<Block>, updates: seq<(nat, Block)>): (r: seq<Block>)
    ensures |r| == |contents|
  {
    if updates == [] then contents
    else
      var prior := After(contents, updates[..|updates| - 1]);
      var (bn, data) := updates[|updates| - 1];
      if bn < |contents| then prior[bn := data] else prior
  }

  lemma AfterNext(c0: seq<Block>, updates: seq<(nat, Block)>, i: nat)
    requires i < |updates| && updates[i].0 < |c0|
    ensures After(c0, updates[..i + 1]) == After(c0, updates[..i])[updates[i].0 := updates[i].1]
  {
    assert updates[..i + 1][..i] == updates[..i];
  }

  /** The distinct blocks that a list of updates writes. */
  ghost function Blocks(updates: seq<(nat, Block)>): (r: set<nat>)
    ensures forall i :: 0 <= i < |updates| ==> updates[i].0 in r
  {
    set u | u in updates :: u.0
  }

  /** One more update. */
  lemma AfterMore(c0: seq<Block>, updates: seq<(nat, Block)>, b: nat, data: Block)
    requires b < |c0|
    ensures After(c0, updates + [(b, data)]) == After(c0, updates)[b := data]
    ensures Blocks(updates + [(b, data)]) == Blocks(updates) + {b}
  {
    var more := updates + [(b, data)];
    assert more[..|more| - 1] == updates;
    assert forall u :: u in more <==> u in updates || u == (b, data);
    assert (b, data) in more;
  }

  lemma {:induction false} AfterElsewhere(c: seq<Block>, updates: seq<(nat, Block)>, b: nat)
    requires b < |c| && b !in Blocks(updates)
    ensures After(c, updates)[b] == c[b]
    decreases |updates|
  {
    if updates != [] {
      AfterElsewhere(c, updates[..|updates| - 1], b);
      assert updates[|updates| - 1].0 != b;
    }
  }

  /** The same updates on two block maps that agree from block `from` on. */
  lemma {:induction false} AfterAgree(c: seq<Block>, d: seq<Block>, updates: seq<(nat, Block)>, from: nat)
    requires |c| == |d| && forall b :: from <= b < |c| ==> c[b] == d[b]
    ensures forall b :: from <= b < |c| ==> After(c, updates)[b] == After(d, updates)[b]
    decreases |updates|
  {
    if updates != [] {
      AfterAgree(c, d, updates[..|updates| - 1], from);
    }
  }
}
