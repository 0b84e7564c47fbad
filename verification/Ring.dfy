/** Circular doubly linked rings over pool slots: `next` and `prev` hold the links of every slot,
    and a ghost sequence lists the ring's slots from its entry point onward. */
module Ring {

  function Succ(i: nat, n: nat): nat
    requires i < n
  {
    if i + 1 == n then 0 else i + 1
  }

  function Pred(i: nat, n: nat): nat
    requires i < n
  {
    if i == 0 then n - 1 else i - 1
  }

  ghost predicate Distinct(s: seq<int>) {
    forall i, j :: 0 <= i < j < |s| ==> s[i] != s[j]
  }

  ghost predicate IsRing(next: seq<int>, prev: seq<int>, s: seq<int>) {
    && |next| == |prev|
    && |s| > 0
    && Distinct(s)
    && (forall i :: 0 <= i < |s| ==> 0 <= s[i] < |next|)
    && (forall i {:trigger next[s[i]]} :: 0 <= i < |s| ==> next[s[i]] == s[Succ(i, |s|)])
    && (forall i {:trigger prev[s[i]]} :: 0 <= i < |s| ==> prev[s[i]] == s[Pred(i, |s|)])
  }

  /** A slot that points at itself both ways is a ring of one. */
  lemma {:induction false} SelfRing(next: seq<int>, prev: seq<int>, x: int)
    requires |next| == |prev| && 0 <= x < |next|
    requires next[x] == x && prev[x] == x
    ensures IsRing(next, prev, [x])
  {
  }

  /** Writing links outside a ring leaves it a ring. */
  lemma {:induction false} RingFrame(next: seq<int>, prev: seq<int>, next': seq<int>, prev': seq<int>, s: seq<int>)
    requires IsRing(next, prev, s)
    requires |next'| == |next| && |prev'| == |prev|
    requires forall x :: x in s ==> next'[x] == next[x] && prev'[x] == prev[x]
    ensures IsRing(next', prev', s)
  {
  }

  /** Where the elements are after an insertion at `k`. */
  lemma {:induction false} InsertedAt(s: seq<int>, t: seq<int>, k: nat, x: int, i: nat)
    requires k <= |s| && t == s[..k] + [x] + s[k..] && i < |t|
    ensures t[i] == if i < k then s[i] else if i == k then x else s[i - 1]
  {
  }

  lemma {:induction false} InsertForward(next: seq<int>, next': seq<int>, s: seq<int>, t: seq<int>, k: nat, x: int)
    requires |next'| == |next| && |s| > 0 && k <= |s| && t == s[..k] + [x] + s[k..] && Distinct(s)
    requires 0 <= x < |next| && x !in s && forall i :: 0 <= i < |s| ==> 0 <= s[i] < |next|
    requires forall i {:trigger next[s[i]]} :: 0 <= i < |s| ==> next[s[i]] == s[Succ(i, |s|)]
    requires next' == next[x := s[if k == |s| then 0 else k]][s[if k == 0 then |s| - 1 else k - 1] := x]
    ensures forall i {:trigger next'[t[i]]} :: 0 <= i < |t| ==> 0 <= t[i] < |next'| && next'[t[i]] == t[Succ(i, |t|)]
  {
    forall i | 0 <= i < |t| ensures 0 <= t[i] < |next'| && next'[t[i]] == t[Succ(i, |t|)] {
      InsertedAt(s, t, k, x, i);
      InsertedAt(s, t, k, x, Succ(i, |t|));
      if i != k {
        var h := if i < k then i else i - 1;
        assert t[i] == s[h] && next[s[h]] == s[Succ(h, |s|)];
      }
    }
  }

  lemma {:induction false} InsertBackward(prev: seq<int>, prev': seq<int>, s: seq<int>, t: seq<int>, k: nat, x: int)
    requires |prev'| == |prev| && |s| > 0 && k <= |s| && t == s[..k] + [x] + s[k..] && Distinct(s)
    requires 0 <= x < |prev| && x !in s && forall i :: 0 <= i < |s| ==> 0 <= s[i] < |prev|
    requires forall i {:trigger prev[s[i]]} :: 0 <= i < |s| ==> prev[s[i]] == s[Pred(i, |s|)]
    requires prev' == prev[x := s[if k == 0 then |s| - 1 else k - 1]][s[if k == |s| then 0 else k] := x]
    ensures forall i {:trigger prev'[t[i]]} :: 0 <= i < |t| ==> 0 <= t[i] < |prev'| && prev'[t[i]] == t[Pred(i, |t|)]
  {
    forall i | 0 <= i < |t| ensures 0 <= t[i] < |prev'| && prev'[t[i]] == t[Pred(i, |t|)] {
      InsertedAt(s, t, k, x, i);
      InsertedAt(s, t, k, x, Pred(i, |t|));
      if i != k {
        var h := if i < k then i else i - 1;
        assert t[i] == s[h] && prev[s[h]] == s[Pred(h, |s|)];
      }
    }
  }

  lemma {:induction false} InsertDistinct(s: seq<int>, k: nat, x: int)
    requires Distinct(s) && k <= |s| && x !in s
    ensures Distinct(s[..k] + [x] + s[k..])
  {
    var t := s[..k] + [x] + s[k..];
    assert forall i :: 0 <= i < |t| && i != k ==> t[i] == s[if i < k then i else i - 1];
  }

  /** Splicing `x` between position `k - 1` and position `k` (both taken round the ring). */
  lemma {:induction false} RingInsert(next: seq<int>, prev: seq<int>, next': seq<int>, prev': seq<int>, s: seq<int>,
                                      k: nat, x: int)
    requires IsRing(next, prev, s)
    requires k <= |s|
    requires 0 <= x < |next| && x !in s
    requires var a := s[if k == 0 then |s| - 1 else k - 1];
             var b := s[if k == |s| then 0 else k];
             && next' == next[x := b][a := x]
             && prev' == prev[x := a][b := x]
    ensures IsRing(next', prev', s[..k] + [x] + s[k..])
  {
    var t := s[..k] + [x] + s[k..];
    InsertDistinct(s, k, x);
    InsertForward(next, next', s, t, k, x);
    InsertBackward(prev, prev', s, t, k, x);
  }

  lemma {:induction false} RemoveForward(next: seq<int>, next': seq<int>, s: seq<int>, t: seq<int>, k: nat)
    requires |next'| == |next| && k < |s| && |s| >= 2 && t == s[..k] + s[k + 1..]
    requires Distinct(s)
    requires forall i :: 0 <= i < |s| ==> 0 <= s[i] < |next|
    requires forall i {:trigger next[s[i]]} :: 0 <= i < |s| ==> next[s[i]] == s[Succ(i, |s|)]
    requires forall i {:trigger next'[s[i]]} :: 0 <= i < |s| && i != k ==>
               next'[s[i]] == if i == Pred(k, |s|) then s[Succ(k, |s|)] else next[s[i]]
    ensures forall i {:trigger next'[t[i]]} :: 0 <= i < |t| ==> next'[t[i]] == t[Succ(i, |t|)]
  {
  }

  lemma {:induction false} RemoveBackward(prev: seq<int>, prev': seq<int>, s: seq<int>, t: seq<int>, k: nat)
    requires |prev'| == |prev| && k < |s| && |s| >= 2 && t == s[..k] + s[k + 1..]
    requires Distinct(s)
    requires forall i :: 0 <= i < |s| ==> 0 <= s[i] < |prev|
    requires forall i {:trigger prev[s[i]]} :: 0 <= i < |s| ==> prev[s[i]] == s[Pred(i, |s|)]
    requires forall i {:trigger prev'[s[i]]} :: 0 <= i < |s| && i != k ==>
               prev'[s[i]] == if i == Succ(k, |s|) then s[Pred(k, |s|)] else prev[s[i]]
    ensures forall i {:trigger prev'[t[i]]} :: 0 <= i < |t| ==> prev'[t[i]] == t[Pred(i, |t|)]
  {
  }

  /** Unlinking position `k` of a ring of at least two. */
  lemma {:induction false} RingRemove(next: seq<int>, prev: seq<int>, next': seq<int>, prev': seq<int>, s: seq<int>,
                                      k: nat)
    requires IsRing(next, prev, s)
    requires k < |s| && |s| >= 2
    requires var a := s[Pred(k, |s|)];
             var b := s[Succ(k, |s|)];
             next' == next[a := b] && prev' == prev[b := a]
    ensures IsRing(next', prev', s[..k] + s[k + 1..])
  {
    var t := s[..k] + s[k + 1..];
    assert Distinct(t) && forall i :: 0 <= i < |t| ==> 0 <= t[i] < |next|;
    RemoveForward(next, next', s, t, k);
    RemoveBackward(prev, prev', s, t, k);
  }
}
