/** The preallocated pool of `common/mem_pool.h`: a flag per block and a cursor that always rests on a
    free block. Failed assertions end the process; the methods report that as `ok == false`. */
module MemPool {
  import opened Types
  import opened Ring

  ghost predicate Free(free: seq<bool>) {
    exists i :: 0 <= i < |free| && free[i]
  }

  /** The first free block met going round the ring from `i`, looking at no more than `left` blocks. */
  function Probe(free: seq<bool>, i: nat, left: nat): (r: Option<nat>)
    requires i < |free|
    ensures r.Some? ==> r.value < |free| && free[r.value]
    decreases left
  {
    if left == 0 then None
    else if free[i] then Some(i)
    else Probe(free, Succ(i, |free|), left - 1)
  }

  /** How many steps round a ring of `n` lead from `i` to `j`. */
  function Steps(i: nat, j: nat, n: nat): nat
    requires i < n && j < n
  {
    if i <= j then j - i else n - i + j
  }

  /** The probe misses nothing: a free block no more than `left` steps away is found, or one before it. */
  lemma {:induction false} ProbeFinds(free: seq<bool>, i: nat, left: nat, j: nat)
    requires i < |free| && j < |free| && free[j] && Steps(i, j, |free|) < left
    ensures Probe(free, i, left).Some?
    ensures Steps(i, Probe(free, i, left).value, |free|) <= Steps(i, j, |free|)
    decreases left
  {
    if !free[i] {
      ProbeFinds(free, Succ(i, |free|), left - 1, j);
    }
  }

  /** It is the first one: no block passed on the way is free, nor is any if none is found. */
  lemma {:induction false} ProbeFirst(free: seq<bool>, i: nat)
    requires i < |free|
    ensures match Probe(free, i, |free|)
            case None => forall k :: 0 <= k < |free| ==> !free[k]
            case Some(j) =>
              && free[j]
              && if i <= j then forall k :: i <= k < j ==> !free[k]
                 else forall k :: i <= k < |free| || 0 <= k < j ==> !free[k]
  {
    forall k | 0 <= k < |free| && free[k]
      ensures Probe(free, i, |free|).Some?
      ensures Steps(i, Probe(free, i, |free|).value, |free|) <= Steps(i, k, |free|)
    {
      ProbeFinds(free, i, |free|, k);
    }
  }

  class MemPool {
    const size: nat
    const isFree: array<bool>
    var nextFree: nat

    ghost predicate Valid()
      reads this, isFree
    {
      && isFree.Length == size
      && nextFree < size
      && isFree[nextFree]
    }

    ghost predicate HasFree()
      reads isFree
    {
      exists i :: 0 <= i < isFree.Length && isFree[i]
    }

    constructor (n: nat)
      requires n > 0
      ensures Valid() && fresh(isFree) && size == n
      ensures forall i :: 0 <= i < n ==> isFree[i]
      ensures nextFree == 0
    {
      size := n;
      isFree := new bool[n](_ => true);
      nextFree := 0;
    }

    /** Hands out the block under the cursor. The process ends when that was the last free block. */
    method Allocate() returns (ok: bool, index: nat)
      requires Valid()
      modifies this`nextFree, isFree
      ensures index == old(nextFree) < size && old(isFree[index])
      ensures isFree[..] == old(isFree[..])[index := false]
      ensures ok <==> HasFree()
      ensures ok ==> Valid() && Probe(isFree[..], index, size) == Some(nextFree)
    {
      index := nextFree;
      isFree[index] := false;
      ok := UpdateNextFreeIndex();
    }

    method UpdateNextFreeIndex() returns (ok: bool)
      requires isFree.Length == size && nextFree < size && !isFree[nextFree]
      modifies this`nextFree
      ensures ok <==> HasFree()
      ensures ok ==> Valid() && Probe(isFree[..], old(nextFree), size) == Some(nextFree)
    {
      var initial := nextFree;
      ghost var left := size;
      while !isFree[nextFree]
        invariant nextFree < size
        invariant left == size - Steps(initial, nextFree, size)
        invariant Probe(isFree[..], initial, size) == Probe(isFree[..], nextFree, left)
        invariant forall j :: 0 <= j < size && Steps(initial, j, size) < Steps(initial, nextFree, size) ==> !isFree[j]
        decreases left
      {
        nextFree := nextFree + 1;
        if nextFree == size {
          nextFree := 0;
        }
        if initial == nextFree {
          assert forall j :: 0 <= j < size ==> Steps(initial, j, size) < size;
          return false;
        }
        left := left - 1;
      }
      return true;
    }

    method Deallocate(index: int) returns (ok: bool)
      requires Valid()
      modifies isFree
      ensures Valid()
      ensures ok <==> 0 <= index < size && !old(isFree[index])
      ensures isFree[..] == if ok then old(isFree[..])[index := true] else old(isFree[..])
    {
      if !(0 <= index < size) || isFree[index] {
        return false;
      }
      isFree[index] := true;
      return true;
    }
  }

  // ---------------------------------------------------------------- runs of a pool

  datatype Op = Alloc | Dealloc(index: nat)

  /** A pool together with the set of blocks handed out and not yet returned. */
  datatype State = State(free: seq<bool>, next: nat, live: set<nat>)

  ghost predicate Sound(s: State) {
    && s.next < |s.free|
    && s.free[s.next]
    && (forall i :: 0 <= i < |s.free| ==> (s.free[i] <==> i !in s.live))
    && (forall i :: i in s.live ==> i < |s.free|)
  }

  /** What one call does to flags and cursor; `None` when the process ends. */
  function Step(s: State, op: Op): Option<State>
    requires s.next < |s.free|
  {
    match op
    case Alloc =>
      var free := s.free[s.next := false];
      var next := Probe(free, s.next, |free|);
      if next.None? then None else Some(State(free, next.value, s.live + {s.next}))
    case Dealloc(i) =>
      if i < |s.free| && !s.free[i] then Some(State(s.free[i := true], s.next, s.live - {i})) else None
  }

  /** Whether a caller may make this call: it leaves a block free, or returns a block it holds. */
  predicate Allowed(s: State, op: Op) {
    match op
    case Alloc => |s.live| + 1 < |s.free|
    case Dealloc(i) => i in s.live
  }

  lemma {:induction false} FullSet(s: set<nat>, n: nat)
    requires forall i :: i in s ==> i < n
    ensures |s| <= n
    ensures |s| == n <==> forall i: nat :: i < n ==> i in s
  {
    if n == 0 {
      assert s == {};
    } else if n - 1 in s {
      var t := s - {n - 1};
      FullSet(t, n - 1);
      assert (forall i: nat :: i < n ==> i in s) <==> (forall i: nat :: i < n - 1 ==> i in t);
    } else {
      FullSet(s, n - 1);
    }
  }

  /** The allocator never hands out a live block, and keeps its cursor on a free one, as long as a
      block stays free; the process survives the call exactly when the caller was allowed to make it. */
  lemma {:induction false} StepSound(s: State, op: Op)
    requires Sound(s)
    ensures Step(s, op).Some? <==> Allowed(s, op)
    ensures Step(s, op).Some? ==> Sound(Step(s, op).value)
    ensures op.Alloc? ==> s.next !in s.live
  {
    if op.Alloc? {
      var free := s.free[s.next := false];
      var live := s.live + {s.next};
      FullSet(live, |free|);
      assert forall i: nat :: i < |free| ==> (free[i] <==> i !in live);
      if exists j: nat :: j < |free| && free[j] {
        var j: nat :| j < |free| && free[j];
        ProbeFinds(free, s.next, |free|, j);
      }
    }
  }

  function Run(s: State, ops: seq<Op>): Option<State>
    requires s.next < |s.free|
    decreases |ops|
  {
    if ops == [] then Some(s)
    else
      var r := Step(s, ops[0]);
      if r.None? || r.value.next >= |r.value.free| then None else Run(r.value, ops[1..])
  }

  /** Every call in the run is allowed in the state it meets. */
  ghost predicate RunAllowed(s: State, ops: seq<Op>)
    requires s.next < |s.free|
    decreases |ops|
  {
    ops != [] ==>
      && Allowed(s, ops[0])
      && var r := Step(s, ops[0]);
      r.Some? && r.value.next < |r.value.free| && RunAllowed(r.value, ops[1..])
  }

  /** Over whole runs: the process survives exactly the allowed runs, and every state met is sound. */
  lemma {:induction false} RunSound(s: State, ops: seq<Op>)
    requires Sound(s)
    ensures Run(s, ops).Some? <==> RunAllowed(s, ops)
    ensures Run(s, ops).Some? ==> Sound(Run(s, ops).value)
    decreases |ops|
  {
    if ops != [] {
      StepSound(s, ops[0]);
      if Step(s, ops[0]).Some? {
        RunSound(Step(s, ops[0]).value, ops[1..]);
      }
    }
  }
}
