/**
 The binary heap under the timer, with each task's slot written back into the task so that it
 can be cancelled from the middle.  Tasks are named by ids; their fields are maps.
 */
module TimerHeap {
  import opened Common

  type TaskId = int

  // ---- Heap order on the fire times ----

  function Parent(c: nat): nat
    requires c > 0
  {
    (c - 1) / 2
  }

  lemma Kids(c: nat, i: nat)
    requires c > 0
    ensures Parent(c) < c && (Parent(c) == i <==> c == 2 * i + 1 || c == 2 * i + 2)
  {
  }

  ghost predicate Ordered(k: seq<int>, c: nat)
    requires 0 < c < |k|
  {
    assert Parent(c) < c by { Kids(c, 0); }
    k[Parent(c)] <= k[c]
  }

  /** Every slot but the first is no earlier than its parent. */
  ghost predicate IsHeap(k: seq<int>) {
    forall c | 0 < c < |k| :: Ordered(k, c)
  }

  /** Order holds but for the pairs slot `i` is in, and would hold with it left out. */
  ghost predicate Hole(k: seq<int>, i: nat)
    requires i < |k|
  {
    && (forall c | 0 < c < |k| && c != i && Parent(c) != i :: Ordered(k, c))
    && (i > 0 ==> forall c | 0 < c < |k| && Parent(c) == i :: k[ParentIn(k, i)] <= k[c])
  }

  function ParentIn(k: seq<int>, c: nat): (p: nat)
    requires 0 < c < |k|
    ensures p == Parent(c) && p < |k|
  {
    Kids(c, 0);
    Parent(c)
  }

  ghost predicate KidsOk(k: seq<int>, i: nat)
    requires i < |k|
  {
    forall c | 0 < c < |k| && Parent(c) == i :: Ordered(k, c)
  }

  lemma NoHole(k: seq<int>, i: nat)
    requires i < |k| && Hole(k, i) && KidsOk(k, i) && (i > 0 ==> Ordered(k, i))
    ensures IsHeap(k)
  {
  }

  /** Moving an early slot up moves the hole to its parent. */
  lemma UpStep(k: seq<int>, j: nat)
    requires 0 < j < |k| && Hole(k, j) && KidsOk(k, j) && !Ordered(k, j)
    ensures var p := ParentIn(k, j);
            Hole(Swapped(k, p, j), p) && KidsOk(Swapped(k, p, j), p)
  {
    var p := ParentIn(k, j);
    Kids(j, p);
    var k' := Swapped(k, p, j);
    forall c | 0 < c < |k'| && c != p && Parent(c) != p ensures Ordered(k', c) {
      Kids(c, j);
      assert Parent(c) == j ==> Ordered(k, c) && k[p] <= k[c];
      assert Parent(c) != j ==> Ordered(k, c);
    }
    if p > 0 {
      Kids(p, j);
      forall c | 0 < c < |k'| && Parent(c) == p ensures k'[ParentIn(k', p)] <= k'[c] {
        assert Ordered(k, p);
        assert c != j ==> Ordered(k, c);
      }
    }
    forall c | 0 < c < |k'| && Parent(c) == p ensures Ordered(k', c) {
      assert c != j ==> Ordered(k, c);
    }
  }

  /** Moving a late slot below its earlier child moves the hole there. */
  lemma DownStep(k: seq<int>, i: nat, j: nat)
    requires i < |k| && 0 < j < |k| && Parent(j) == i && Hole(k, i) && k[j] < k[i]
    requires forall c | 0 < c < |k| && Parent(c) == i :: k[j] <= k[c]
    ensures Hole(Swapped(k, i, j), j) && Ordered(Swapped(k, i, j), j)
  {
    var k' := Swapped(k, i, j);
    Kids(j, i);
    forall c | 0 < c < |k'| && c != j && Parent(c) != j ensures Ordered(k', c) {
      Kids(c, i);
      if c == i {
        assert k[ParentIn(k, i)] <= k[j];
      } else if Parent(c) != i {
        assert Ordered(k, c);
      }
    }
    forall c | 0 < c < |k'| && Parent(c) == j ensures k'[ParentIn(k', j)] <= k'[c] {
      Kids(c, j);
      assert Ordered(k, c);
    }
  }

  /** The first slot is the earliest. */
  lemma {:induction false} FirstIsEarliest(k: seq<int>, c: nat)
    requires IsHeap(k) && c < |k|
    ensures k[0] <= k[c]
    decreases c
  {
    if c > 0 {
      Kids(c, 0);
      assert Ordered(k, c);
      FirstIsEarliest(k, Parent(c));
    }
  }

  // ---- Slots of tasks ----

  /** The fire times of the first `n` slots. */
  function Keys(h: seq<TaskId>, at: map<TaskId, int>, n: nat): (k: seq<int>)
    requires n <= |h| && Known(h, at)
    ensures |k| == n
  {
    seq(n, i requires 0 <= i < n => at[h[i]])
  }

  ghost predicate Known(h: seq<TaskId>, m: map<TaskId, int>) {
    forall i | 0 <= i < |h| :: h[i] in m
  }

  /** Every task in the heap knows its slot; so no task is there twice. */
  ghost predicate Placed(h: seq<TaskId>, index: map<TaskId, int>) {
    forall i | 0 <= i < |h| :: h[i] in index && index[h[i]] == i
  }

  ghost predicate SameTasks(h: seq<TaskId>, h': seq<TaskId>) {
    |h| == |h'| && forall t :: t in h <==> t in h'
  }

  /** Only tasks of the heap got new slots. */
  ghost predicate SameElsewhere(h: seq<TaskId>, index: map<TaskId, int>, index': map<TaskId, int>) {
    index.Keys == index'.Keys && forall t | t in index && t !in h :: index'[t] == index[t]
  }

  /** The same tasks in other slots, each knowing its own. */
  ghost predicate Rearranged(h0: seq<TaskId>, index0: map<TaskId, int>, h: seq<TaskId>, index: map<TaskId, int>) {
    Placed(h, index) && SameTasks(h0, h) && SameElsewhere(h0, index0, index)
  }

  method Swap(h: seq<TaskId>, index: map<TaskId, int>, i: nat, j: nat) returns (h': seq<TaskId>, index': map<TaskId, int>)
    requires i < |h| && j < |h|
    ensures h' == Swapped(h, i, j) && index' == index[h[j] := i][h[i] := j]
  {
    h' := h[i := h[j]][j := h[i]];
    index' := index[h'[i] := i][h'[j] := j];
  }

  lemma SwapRearranges(h0: seq<TaskId>, index0: map<TaskId, int>, h: seq<TaskId>, index: map<TaskId, int>, i: nat, j: nat)
    requires Rearranged(h0, index0, h, index) && i < |h| && j < |h|
    ensures Rearranged(h0, index0, Swapped(h, i, j), index[h[j] := i][h[i] := j])
  {
    var h', index' := Swapped(h, i, j), index[h[j] := i][h[i] := j];
    forall x | 0 <= x < |h'| ensures h'[x] in index' && index'[h'[x]] == x {
      assert h'[x] == h[if x == i then j else if x == j then i else x];
    }
    SwapKeepsTasks(h, i, j);
    assert h[i] in h && h[j] in h;
  }

  lemma SwapKeepsTasks(h: seq<TaskId>, i: nat, j: nat)
    requires i < |h| && j < |h|
    ensures SameTasks(h, Swapped(h, i, j))
  {
    var h' := Swapped(h, i, j);
    forall t | t in h ensures t in h' {
      var x :| 0 <= x < |h| && h[x] == t;
      assert h'[if x == i then j else if x == j then i else x] == t;
    }
  }

  lemma SwapKeys(h: seq<TaskId>, at: map<TaskId, int>, n: nat, i: nat, j: nat)
    requires n <= |h| && Known(h, at) && i < n && j < n
    ensures Known(Swapped(h, i, j), at) && Keys(Swapped(h, i, j), at, n) == Swapped(Keys(h, at, n), i, j)
  {
  }

  /** Lets slot `j0` rise to its place among the first `n`. */
  method Up(h0: seq<TaskId>, index0: map<TaskId, int>, at: map<TaskId, int>, j0: nat, ghost n: nat)
    returns (h: seq<TaskId>, index: map<TaskId, int>)
    requires Placed(h0, index0) && Known(h0, at) && j0 < n <= |h0|
    requires Hole(Keys(h0, at, n), j0) && KidsOk(Keys(h0, at, n), j0)
    ensures Rearranged(h0, index0, h, index) && |h| == |h0| && Known(h, at) && h[n..] == h0[n..]
    ensures IsHeap(Keys(h, at, n))
    ensures h[0] != h0[0] ==> h0[j0] in at && h0[0] in at && at[h0[j0]] < at[h0[0]]
  {
    hide Hole, KidsOk, Rearranged, Known, Keys, IsHeap, Ordered;
    var j: nat := j0;
    h, index := h0, index0;
    Unmoved(h0, index0);
    while true
      invariant Rearranged(h0, index0, h, index) && |h| == |h0| && Known(h, at) && j < n && h[n..] == h0[n..]
      invariant Hole(Keys(h, at, n), j) && KidsOk(Keys(h, at, n), j)
      invariant h[j] == h0[j0] && (j > 0 ==> h[0] == h0[0])
      invariant h[0] != h0[0] ==> h0[j0] in at && h0[0] in at && at[h0[j0]] < at[h0[0]]
      decreases j
    {
      KeyAt(h, at, n);
      if j > 0 {
        Kids(j, 0);
      }
      if j == 0 || !(at[h[j]] < at[h[Parent(j)]]) {
        OrderedIs(Keys(h, at, n), j);
        NoHole(Keys(h, at, n), j);
        return;
      }
      var i := Parent(j);
      OrderedIs(Keys(h, at, n), j);
      UpStep(Keys(h, at, n), j);
      SwapKeys(h, at, n, i, j);
      SwapRearranges(h0, index0, h, index, i, j);
      h, index := Swap(h, index, i, j);
      j := i;
    }
  }

  lemma Unmoved(h: seq<TaskId>, index: map<TaskId, int>)
    requires Placed(h, index)
    ensures Rearranged(h, index, h, index)
  {
  }

  lemma KeyAt(h: seq<TaskId>, at: map<TaskId, int>, n: nat)
    requires n <= |h| && Known(h, at)
    ensures forall i | 0 <= i < |h| :: h[i] in at
    ensures forall i | 0 <= i < n :: Keys(h, at, n)[i] == at[h[i]]
  {
  }

  lemma OrderedIs(k: seq<int>, c: nat)
    requires c < |k|
    ensures c > 0 ==> Ordered(k, c) == (k[ParentIn(k, c)] <= k[c])
  {
  }

  /** Lets slot `i0` sink among the first `n` slots; tells whether it moved. */
  method Down(h0: seq<TaskId>, index0: map<TaskId, int>, at: map<TaskId, int>, i0: nat, n: nat)
    returns (h: seq<TaskId>, index: map<TaskId, int>, moved: bool)
    requires Placed(h0, index0) && Known(h0, at) && i0 < n <= |h0| && Hole(Keys(h0, at, n), i0)
    ensures Rearranged(h0, index0, h, index) && |h| == |h0| && Known(h, at) && h[n..] == h0[n..]
    ensures moved ==> IsHeap(Keys(h, at, n))
    ensures !moved ==> h == h0 && index == index0 && KidsOk(Keys(h, at, n), i0)
  {
    hide Hole, KidsOk, Rearranged, Known, Keys, IsHeap, Ordered;
    var i := i0;
    h, index := h0, index0;
    Unmoved(h0, index0);
    while true
      invariant Rearranged(h0, index0, h, index) && |h| == |h0| && Known(h, at) && i0 <= i < n && h[n..] == h0[n..]
      invariant Hole(Keys(h, at, n), i)
      invariant i == i0 ==> h == h0 && index == index0
      invariant i > i0 ==> Ordered(Keys(h, at, n), i)
      decreases n - i
    {
      KeyAt(h, at, n);
      ghost var k := Keys(h, at, n);
      var j1 := 2 * i + 1;
      if j1 >= n {
        LeafIsFine(k, i);
        break;
      }
      var j := j1;
      if j1 + 1 < n && at[h[j1 + 1]] < at[h[j1]] {
        j := j1 + 1;
      }
      EarlierKid(k, i, j);
      if !(at[h[j]] < at[h[i]]) {
        break;
      }
      DownStep(k, i, j);
      SwapKeys(h, at, n, i, j);
      SwapRearranges(h0, index0, h, index, i, j);
      h, index := Swap(h, index, i, j);
      i := j;
    }
    moved := i > i0;
    if moved {
      NoHole(Keys(h, at, n), i);
    }
  }

  lemma LeafIsFine(k: seq<int>, i: nat)
    requires i < |k| <= 2 * i + 1
    ensures KidsOk(k, i)
  {
    forall c | 0 < c < |k| ensures Parent(c) != i {
      Kids(c, i);
    }
  }

  lemma EarlierKid(k: seq<int>, i: nat, j: nat)
    requires 2 * i + 1 < |k| && j < |k| && (j == 2 * i + 1 || j == 2 * i + 2)
    requires if j == 2 * i + 1 then j + 1 < |k| ==> k[j] <= k[j + 1] else k[j] <= k[j - 1]
    ensures Parent(j) == i && forall c | 0 < c < |k| && Parent(c) == i :: k[j] <= k[c]
    ensures k[i] <= k[j] ==> KidsOk(k, i)
  {
    Kids(j, i);
    forall c | 0 < c < |k| && Parent(c) == i ensures k[j] <= k[c] && (k[i] <= k[j] ==> Ordered(k, c)) {
      Kids(c, i);
    }
  }

  // ---- Push, pop and remove ----

  /** A heap by fire time in which every task knows its slot. */
  ghost predicate Sound(h: seq<TaskId>, index: map<TaskId, int>, at: map<TaskId, int>) {
    Placed(h, index) && Known(h, at) && IsHeap(Keys(h, at, |h|))
  }

  lemma AppendLeavesHole(h: seq<TaskId>, at: map<TaskId, int>, t: TaskId)
    requires Known(h, at) && IsHeap(Keys(h, at, |h|)) && t in at
    ensures Known(h + [t], at) && Hole(Keys(h + [t], at, |h| + 1), |h|) && KidsOk(Keys(h + [t], at, |h| + 1), |h|)
  {
    var k, k' := Keys(h, at, |h|), Keys(h + [t], at, |h| + 1);
    forall c | 0 < c < |k'| ensures Parent(c) != |h| && (c != |h| ==> Ordered(k', c)) {
      Kids(c, |h|);
      if c < |h| {
        assert Ordered(k, c);
        assert k[c] == k'[c] && k[Parent(c)] == k'[Parent(c)];
      }
    }
  }

  method Push(h: seq<TaskId>, index: map<TaskId, int>, at: map<TaskId, int>, t: TaskId)
    returns (h': seq<TaskId>, index': map<TaskId, int>)
    requires Sound(h, index, at) && t !in h && t in at && t in index
    ensures Sound(h', index', at) && |h'| == |h| + 1
    ensures forall x :: x in h' <==> x in h || x == t
    ensures SameElsewhere(h', index, index')
    ensures h' != [] && (h == [] || h'[0] == h[0] || (h[0] in at && at[t] < at[h[0]]))
  {
    hide Hole, KidsOk, IsHeap, Ordered, Keys;
    AppendLeavesHole(h, at, t);
    var slotted := index[t := |h|];
    h', index' := Up(h + [t], slotted, at, |h|, |h| + 1);
  }

  lemma ReplacedLeavesHole(k: seq<int>, k': seq<int>, i: nat)
    requires IsHeap(k) && i < |k'| <= |k| && forall c | 0 <= c < |k'| && c != i :: k'[c] == k[c]
    ensures Hole(k', i)
  {
    forall c | 0 < c < |k'| && c != i && Parent(c) != i ensures Ordered(k', c) {
      Kids(c, i);
      assert Ordered(k, c);
    }
    if i > 0 {
      Kids(i, i);
      assert Ordered(k, i);
      forall c | 0 < c < |k'| && Parent(c) == i ensures k'[ParentIn(k', i)] <= k'[c] {
        Kids(c, i);
        assert Ordered(k, c);
      }
    }
  }

  /** Putting the last task in slot `i` leaves order to be restored there only. */
  lemma LastLeavesHole(h: seq<TaskId>, at: map<TaskId, int>, i: nat)
    requires Known(h, at) && IsHeap(Keys(h, at, |h|)) && i < |h| - 1
    ensures Known(Swapped(h, i, |h| - 1), at) && Hole(Keys(Swapped(h, i, |h| - 1), at, |h| - 1), i)
  {
    hide IsHeap, Hole;
    ReplacedLeavesHole(Keys(h, at, |h|), Keys(Swapped(h, i, |h| - 1), at, |h| - 1), i);
  }

  lemma ShorterHeap(h: seq<TaskId>, at: map<TaskId, int>, n: nat)
    requires Known(h, at) && n <= |h|
    ensures Known(h[..n], at) && Keys(h[..n], at, n) == Keys(h, at, n)
  {
  }

  /** Takes the task of slot `i` out. */
  method Remove(h: seq<TaskId>, index: map<TaskId, int>, at: map<TaskId, int>, i: nat)
    returns (h': seq<TaskId>, index': map<TaskId, int>, t: TaskId)
    requires Sound(h, index, at) && i < |h|
    ensures Sound(h', index', at) && |h'| == |h| - 1 && t == h[i] && t in index'
    ensures forall x :: x in h' <==> x in h && x != t
    ensures SameElsewhere(h, index, index') && index'[t] == -1
  {
    hide Hole, KidsOk, IsHeap, Ordered, Keys;
    var n := |h| - 1;
    h', index' := h, index;
    Unmoved(h, index);
    if n != i {
      LastLeavesHole(h, at, i);
      SwapRearranges(h, index, h, index, i, n);
      h', index' := Swap(h, index, i, n);
      ghost var swapped := h';
      var moved;
      h', index', moved := Down(h', index', at, i, n);
      if !moved {
        h', index' := Up(h', index', at, i, n);
      }
      assert h'[n] == h'[n..][0] == swapped[n..][0];
    } else {
      PrefixIsHeap(h, at);
    }
    LastOut(h, index, h', index', i);
    ShorterHeap(h', at, n);
    t := h'[n];
    index' := index'[t := -1];
    h' := h'[..n];
  }

  lemma PrefixIsHeap(h: seq<TaskId>, at: map<TaskId, int>)
    requires Known(h, at) && IsHeap(Keys(h, at, |h|)) && h != []
    ensures IsHeap(Keys(h, at, |h| - 1))
  {
    var n := |h| - 1;
    var k, k' := Keys(h, at, |h|), Keys(h, at, n);
    forall c | 0 < c < n ensures Ordered(k', c) {
      Kids(c, 0);
      assert Ordered(k, c);
    }
  }

  lemma LastOut(h: seq<TaskId>, index: map<TaskId, int>, h': seq<TaskId>, index': map<TaskId, int>, i: nat)
    requires Rearranged(h, index, h', index') && i < |h| && h'[|h| - 1] == h[i]
    ensures var n, t := |h| - 1, h[i];
            && Placed(h'[..n], index'[t := -1])
            && SameElsewhere(h, index, index'[t := -1])
            && (forall x :: x in h'[..n] <==> x in h && x != t)
  {
    var n, t := |h| - 1, h[i];
    assert h' == h'[..n] + [t];
    forall x | 0 <= x < n ensures h'[x] != t {
      assert index'[h'[x]] == x && index'[h'[n]] == n;
    }
    assert t in h;
  }

  /** Takes the first task out. */
  method Pop(h: seq<TaskId>, index: map<TaskId, int>, at: map<TaskId, int>)
    returns (h': seq<TaskId>, index': map<TaskId, int>, t: TaskId)
    requires Sound(h, index, at) && h != []
    ensures Sound(h', index', at) && |h'| == |h| - 1 && t == h[0] && t in index'
    ensures forall x :: x in h' <==> x in h && x != t
    ensures SameElsewhere(h, index, index') && index'[t] == -1
  {
    hide Hole, KidsOk, IsHeap, Ordered, Keys;
    var n := |h| - 1;
    h', index' := h, index;
    Unmoved(h, index);
    if n > 0 {
      LastLeavesHole(h, at, 0);
      SwapRearranges(h, index, h, index, 0, n);
      h', index' := Swap(h, index, 0, n);
      ghost var swapped := h';
      var moved;
      h', index', moved := Down(h', index', at, 0, n);
      if !moved {
        RootIsFine(Keys(h', at, n));
      }
      assert h'[n] == h'[n..][0] == swapped[n..][0];
    } else {
      PrefixIsHeap(h, at);
    }
    LastOut(h, index, h', index', 0);
    ShorterHeap(h', at, n);
    t := h'[n];
    index' := index'[t := -1];
    h' := h'[..n];
  }

  lemma RootIsFine(k: seq<int>)
    requires k != [] && Hole(k, 0) && KidsOk(k, 0)
    ensures IsHeap(k)
  {
    NoHole(k, 0);
  }
}
