/** qu[5][NPROC] and q_index[5]: the five run queues as rows of one table, edited in place. */
module RunQueues {
  import opened Common
  import opened ProcState

  class Queues {
    const qu: array2<nat>
    const index: array<int>       // q_index: the last used column of each row, -1 for none
    ghost var lines: seq<seq<nat>>

    ghost predicate Valid()
      reads this, qu, index
    {
      && qu.Length0 == LEVELS && qu.Length1 == NPROC && index.Length == LEVELS && |lines| == LEVELS
      && forall l :: 0 <= l < LEVELS ==> Row(l)
    }

    ghost predicate Row(l: nat)
      requires l < LEVELS && qu.Length0 == LEVELS && qu.Length1 == NPROC && index.Length == LEVELS && |lines| == LEVELS
      reads this, qu, index
    {
      && index[l] + 1 == |lines[l]| && |lines[l]| <= NPROC
      && forall j :: 0 <= j < |lines[l]| ==> qu[l, j] == lines[l][j]
    }

    constructor ()
      ensures Valid() && lines == seq(LEVELS, _ => []) && fresh(qu) && fresh(index)
    {
      qu := new nat[LEVELS, NPROC];
      index := new int[LEVELS](_ => -1);
      lines := seq(LEVELS, _ => []);
    }

    /** qu[l][q_index[l] + 1] = s; q_index[l]++. */
    method Append(l: nat, s: nat)
      requires Valid() && l < LEVELS && |lines[l]| < NPROC
      modifies this`lines, qu, index
      ensures Valid() && lines == old(lines)[l := old(lines[l]) + [s]]
    {
      assert Row(l);
      qu[l, index[l] + 1] := s;
      index[l] := index[l] + 1;
      lines := lines[l := lines[l] + [s]];
      forall m | 0 <= m < LEVELS ensures Row(m) {
        assert old(Row(m));
      }
    }

    /** The loop that closes the gap at column `at` of row l. */
    method Shift(l: nat, at: nat)
      requires Valid() && l < LEVELS && at < |lines[l]| <= NPROC
      modifies qu
      ensures forall m, j :: 0 <= m < LEVELS && 0 <= j < NPROC ==>
        qu[m, j] == if m == l && at <= j < |lines[l]| - 1 then old(qu[l, j + 1]) else old(qu[m, j])
    {
      var i := at;
      assert Row(l);
      while i < index[l]
        invariant at <= i <= index[l]
        invariant forall m, j :: 0 <= m < LEVELS && 0 <= j < NPROC ==>
          qu[m, j] == if m == l && at <= j < i then old(qu[l, j + 1]) else old(qu[m, j])
      {
        qu[l, i] := qu[l, i + 1];
        i := i + 1;
      }
    }

    /** Take the entry in column `at` out of row l. */
    method RemoveAt(l: nat, at: nat)
      requires Valid() && l < LEVELS && at < |lines[l]|
      modifies this`lines, qu, index
      ensures Valid() && lines == old(lines)[l := Remove(old(lines[l]), at)]
    {
      assert Row(l);
      Shift(l, at);
      index[l] := index[l] - 1;
      lines := lines[l := Remove(lines[l], at)];
      forall m | 0 <= m < LEVELS ensures Row(m) {
        assert old(Row(m));
      }
    }

    /** The search for a pid in row l: the first column that has it, or the length of the row. */
    method Find(l: nat, procs: array<Proc>, pid: nat) returns (at: nat)
      requires Valid() && l < LEVELS && forall j :: 0 <= j < |lines[l]| ==> lines[l][j] < procs.Length
      ensures at <= |lines[l]| && (at < |lines[l]| ==> procs[lines[l][at]].pid == pid)
      ensures forall j :: 0 <= j < at ==> procs[lines[l][j]].pid != pid
    {
      assert Row(l);
      at := 0;
      while at <= index[l]
        invariant at <= |lines[l]| && forall j :: 0 <= j < at ==> procs[lines[l][j]].pid != pid
      {
        if procs[qu[l, at]].pid == pid {
          return;
        }
        at := at + 1;
      }
    }
  }
}
