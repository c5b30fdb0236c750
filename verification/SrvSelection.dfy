/**
 Choosing servers from the records of an SRV answer: the records are ordered by priority,
 and one of each priority is elected by weight (the weight rule of RFC 2782).
 */
module SrvSelection {

  datatype Target = Target(name: string, port: nat, priority: nat, weight: nat, sum: nat)

  // ---------------------------------------------------------------------------
  // Election within one priority
  // ---------------------------------------------------------------------------

  function Sum(group: seq<Target>, n: nat): nat
    requires n <= |group|
  {
    if n == 0 then 0 else Sum(group, n - 1) + group[n - 1].weight
  }

  /** The first of the group whose running sum is at least `r`. */
  function Elect(group: seq<Target>, r: nat, from: nat): (j: nat)
    requires from <= |group|
    ensures from <= j <= |group|
    decreases |group| - from
  {
    if from == |group| || Sum(group, from + 1) >= r then from else Elect(group, r, from + 1)
  }

  lemma {:induction false} SumGrows(group: seq<Target>, i: nat, j: nat)
    requires i <= j <= |group|
    ensures Sum(group, i) <= Sum(group, j)
    decreases j
  {
    if i < j {
      SumGrows(group, i, j - 1);
    }
  }

  lemma {:induction false} ElectIs(group: seq<Target>, r: nat, from: nat)
    requires from <= |group| && r <= Sum(group, |group|) && from < |group|
    requires from > 0 ==> Sum(group, from) < r
    ensures var j := Elect(group, r, from);
            j < |group| && r <= Sum(group, j + 1) && (j > 0 ==> Sum(group, j) < r)
    decreases |group| - from
  {
    if Sum(group, from + 1) < r {
      if from + 1 < |group| {
        ElectIs(group, r, from + 1);
      }
    }
  }

  /** There is always a candidate, and which one it is follows from where `r` falls among the running sums. */
  lemma {:induction false} ElectedBy(group: seq<Target>, r: nat, j: nat)
    requires group != [] && r <= Sum(group, |group|) && j < |group|
    ensures Elect(group, r, 0) < |group|
    ensures Elect(group, r, 0) == j <==> (j > 0 ==> Sum(group, j) < r) && r <= Sum(group, j + 1)
  {
    ElectIs(group, r, 0);
    var e := Elect(group, r, 0);
    if e < j {
      SumGrows(group, e + 1, j);
    } else if j < e {
      SumGrows(group, j + 1, e);
    }
  }

  /** The numbers from `lo` to below `hi`. */
  function Numbers(lo: int, hi: int): set<int> { set r | lo <= r < hi && Among(lo, hi, r) }

  predicate Among(lo: int, hi: int, r: int) { lo <= r < hi }

  lemma {:induction false} NumbersSize(lo: int, hi: int)
    requires lo <= hi
    ensures |Numbers(lo, hi)| == hi - lo
    decreases hi - lo
  {
    if lo == hi {
      assert Numbers(lo, hi) == {};
    } else {
      NumbersSize(lo, hi - 1);
      assert Numbers(lo, hi) == Numbers(lo, hi - 1) + {hi - 1};
    }
  }

  /** The random numbers, of all that can be drawn, that elect the target at `j`. */
  function Votes(group: seq<Target>, j: nat): set<int> {
    set r | 0 <= r < Sum(group, |group|) + 1 && Elect(group, r, 0) == j
  }

  /** A target is elected by as many numbers as its weight says, the first one by one more. */
  lemma {:induction false} VotesAreWeight(group: seq<Target>, j: nat)
    requires j < |group|
    ensures |Votes(group, j)| == group[j].weight + if j == 0 then 1 else 0
  {
    var lo := if j == 0 then 0 else Sum(group, j) + 1;
    var hi := Sum(group, j + 1) + 1;
    SumGrows(group, j + 1, |group|);
    forall r: int
      ensures r in Votes(group, j) <==> r in Numbers(lo, hi)
    {
      if 0 <= r <= Sum(group, |group|) {
        ElectedBy(group, r, j);
      }
    }
    assert Votes(group, j) == Numbers(lo, hi);
    NumbersSize(lo, hi);
  }

  // ---------------------------------------------------------------------------
  // All priorities
  // ---------------------------------------------------------------------------

  predicate Ordered(s: seq<Target>) {
    forall i, j :: 0 <= i < j < |s| ==> s[i].priority <= s[j].priority
  }

  /** How many targets at the front share the first one's priority. */
  function Lead(s: seq<Target>, n: nat): (r: nat)
    requires 1 <= n <= |s|
    ensures n <= r <= |s| && (r < |s| ==> s[r].priority != s[0].priority)
    ensures forall i :: n <= i < r ==> s[i].priority == s[0].priority
    decreases |s| - n
  {
    if n < |s| && s[n].priority == s[0].priority then Lead(s, n + 1) else n
  }

  /** The elected one of a group, with its running sum; a group of one needs no election. */
  function Pick(group: seq<Target>, random: nat): Target
    requires group != []
  {
    var j := if |group| == 1 then 0 else Elect(group, random % (Sum(group, |group|) + 1), 0);
    if j < |group| then group[j].(sum := Sum(group, j + 1)) else group[0]
  }

  /** One target of each priority; `random` gives the number drawn for each of them. */
  function Chosen(s: seq<Target>, random: nat -> nat, i: nat): seq<Target>
    decreases |s|
  {
    if s == [] then []
    else
      var n := Lead(s, 1);
      [Pick(s[..n], random(i))] + Chosen(s[n..], random, i + 1)
  }

  /** The same target, apart from the running sum noted in it. */
  predicate SameTarget(a: Target, b: Target) { a == b.(sum := a.sum) }

  predicate Has(s: seq<Target>, t: Target) { exists i :: 0 <= i < |s| && SameTarget(t, s[i]) }

  predicate HasPriority(s: seq<Target>, p: nat) { exists i :: 0 <= i < |s| && s[i].priority == p }

  predicate Increasing(s: seq<Target>) {
    forall i, j :: 0 <= i < j < |s| ==> s[i].priority < s[j].priority
  }

  lemma {:induction false} PickIs(group: seq<Target>, random: nat)
    requires group != []
    ensures Has(group, Pick(group, random))
  {
    var r := random % (Sum(group, |group|) + 1);
    ElectedBy(group, r, 0);
    var j := if |group| == 1 then 0 else Elect(group, r, 0);
    assert SameTarget(Pick(group, random), group[j]);
  }

  lemma {:induction false} HasMore(s: seq<Target>, lo: nat, hi: nat, t: Target)
    requires lo <= hi <= |s| && Has(s[lo..hi], t)
    ensures Has(s, t)
  {
    var i :| 0 <= i < hi - lo && SameTarget(t, s[lo..hi][i]);
    assert SameTarget(t, s[lo + i]);
  }

  lemma {:induction false} PriorityMore(s: seq<Target>, n: nat, p: nat)
    requires n <= |s|
    ensures HasPriority(s, p) <==> HasPriority(s[..n], p) || HasPriority(s[n..], p)
  {
    if HasPriority(s, p) {
      var i :| 0 <= i < |s| && s[i].priority == p;
      if i < n {
        assert s[..n][i].priority == p;
      } else {
        assert s[n..][i - n].priority == p;
      }
    }
    if HasPriority(s[n..], p) {
      var i :| 0 <= i < |s| - n && s[n..][i].priority == p;
      assert s[n + i].priority == p;
    }
    if HasPriority(s[..n], p) {
      var i :| 0 <= i < n && s[..n][i].priority == p;
      assert s[i].priority == p;
    }
  }

  /** The first group is of one priority, and everything behind it is of a higher one. */
  lemma {:induction false} LeadIs(s: seq<Target>)
    requires s != [] && Ordered(s)
    ensures var n := Lead(s, 1);
            && (forall i :: 0 <= i < n ==> s[i].priority == s[0].priority)
            && (forall i :: n <= i < |s| ==> s[i].priority > s[0].priority)
            && Ordered(s[n..])
  {
  }

  lemma {:induction false} ChosenFrom(s: seq<Target>, random: nat -> nat, i: nat, k: nat)
    requires k < |Chosen(s, random, i)|
    ensures Has(s, Chosen(s, random, i)[k])
    decreases |s|
  {
    hide Pick, Has, Lead;
    var n := Lead(s, 1);
    if k == 0 {
      PickIs(s[..n], random(i));
      HasMore(s, 0, n, Pick(s[..n], random(i)));
    } else {
      ChosenFrom(s[n..], random, i + 1, k - 1);
      assert s[n..|s|] == s[n..];
      HasMore(s, n, |s|, Chosen(s[n..], random, i + 1)[k - 1]);
    }
  }

  lemma {:induction false} ChosenAbove(s: seq<Target>, random: nat -> nat, i: nat, p: nat)
    requires forall k :: 0 <= k < |s| ==> s[k].priority > p
    ensures forall k :: 0 <= k < |Chosen(s, random, i)| ==> Chosen(s, random, i)[k].priority > p
  {
    hide Chosen;
    forall k | 0 <= k < |Chosen(s, random, i)|
      ensures Chosen(s, random, i)[k].priority > p
    {
      ChosenFrom(s, random, i, k);
    }
  }

  lemma {:induction false} PickPriority(s: seq<Target>, random: nat)
    requires s != [] && Ordered(s)
    ensures Pick(s[..Lead(s, 1)], random).priority == s[0].priority
  {
    hide Pick;
    LeadIs(s);
    PickIs(s[..Lead(s, 1)], random);
  }

  /** The chosen targets have strictly rising priorities. */
  lemma {:induction false} ChosenRises(s: seq<Target>, random: nat -> nat, i: nat)
    requires Ordered(s)
    ensures Increasing(Chosen(s, random, i))
    decreases |s|
  {
    hide Pick, Ordered, Lead;
    if s != [] {
      var n := Lead(s, 1);
      LeadIs(s);
      PickPriority(s, random(i));
      ChosenRises(s[n..], random, i + 1);
      ChosenAbove(s[n..], random, i + 1, s[0].priority);
      RisesFrom(Pick(s[..n], random(i)), Chosen(s[n..], random, i + 1));
    }
  }

  lemma {:induction false} RisesFrom(t: Target, s: seq<Target>)
    requires Increasing(s) && forall k :: 0 <= k < |s| ==> s[k].priority > t.priority
    ensures Increasing([t] + s)
  {
  }

  lemma {:induction false} PriorityOfOne(t: Target, p: nat)
    ensures HasPriority([t], p) <==> t.priority == p
  {
    if t.priority == p {
      assert [t][0].priority == p;
    }
  }

  lemma {:induction false} PriorityOfGroup(s: seq<Target>, n: nat, p: nat)
    requires 0 < n <= |s| && forall i :: 0 <= i < n ==> s[i].priority == s[0].priority
    ensures HasPriority(s[..n], p) <==> s[0].priority == p
  {
    if s[0].priority == p {
      assert s[..n][0].priority == p;
    }
  }

  /** Every priority of the records, and no other, is chosen from. */
  lemma {:induction false} ChosenCovers(s: seq<Target>, random: nat -> nat, i: nat, p: nat)
    requires Ordered(s)
    ensures HasPriority(Chosen(s, random, i), p) <==> HasPriority(s, p)
    decreases |s|
  {
    hide Pick, Ordered, Lead, HasPriority;
    if s == [] {
      NoPriority(p);
    } else {
      var n := Lead(s, 1);
      LeadIs(s);
      PickPriority(s, random(i));
      ChosenCovers(s[n..], random, i + 1, p);
      PriorityMore(s, n, p);
      PriorityOfGroup(s, n, p);
      var t, rest := Pick(s[..n], random(i)), Chosen(s[n..], random, i + 1);
      PriorityOfOne(t, p);
      PriorityMore([t] + rest, 1, p);
      assert ([t] + rest)[..1] == [t] && ([t] + rest)[1..] == rest;
    }
  }

  lemma {:induction false} NoPriority(p: nat)
    ensures !HasPriority([], p)
  {
  }

  // ---------------------------------------------------------------------------
  // Who is chosen
  // ---------------------------------------------------------------------------

  /** The targets of one priority, in order. */
  function OfPriority(s: seq<Target>, p: nat): seq<Target> {
    if s == [] then [] else (if s[0].priority == p then [s[0]] else []) + OfPriority(s[1..], p)
  }

  /** The number drawn, modulo the total weight and one, falls to target `j`. */
  predicate FallsTo(group: seq<Target>, random: nat, j: nat)
    requires j < |group|
  {
    var r := random % (Sum(group, |group|) + 1);
    |group| == 1 || ((j > 0 ==> Sum(group, j) < r) && r <= Sum(group, j + 1))
  }

  predicate Elected(group: seq<Target>, random: nat, t: Target) {
    exists j :: 0 <= j < |group| && SameTarget(t, group[j]) && FallsTo(group, random, j)
  }

  lemma {:induction false} PickIsDrawn(group: seq<Target>, random: nat)
    requires group != []
    ensures Elected(group, random, Pick(group, random))
  {
    var r := random % (Sum(group, |group|) + 1);
    ElectedBy(group, r, 0);
    var j := if |group| == 1 then 0 else Elect(group, r, 0);
    ElectedBy(group, r, j);
    assert SameTarget(Pick(group, random), group[j]) && FallsTo(group, random, j);
  }

  lemma {:induction false} PrioritySkips(s: seq<Target>, n: nat, p: nat)
    requires n <= |s|
    ensures (forall i :: 0 <= i < n ==> s[i].priority != p) ==> OfPriority(s, p) == OfPriority(s[n..], p)
    ensures (forall i :: 0 <= i < n ==> s[i].priority == p) ==> OfPriority(s, p) == s[..n] + OfPriority(s[n..], p)
    decreases |s|
  {
    if n > 0 {
      PrioritySkips(s[1..], n - 1, p);
      assert s[1..][n - 1..] == s[n..] && s[..n] == [s[0]] + s[1..][..n - 1];
      assert forall i :: 0 <= i < n - 1 ==> s[1..][i] == s[i + 1];
    } else {
      assert s[0..] == s;
    }
  }

  lemma {:induction false} NoneOfPriority(s: seq<Target>, p: nat)
    requires forall i :: 0 <= i < |s| ==> s[i].priority != p
    ensures OfPriority(s, p) == []
  {
    PrioritySkips(s, |s|, p);
    assert s[|s|..] == [];
  }

  lemma {:induction false} GroupIs(s: seq<Target>)
    requires s != [] && Ordered(s)
    ensures var n := Lead(s, 1);
            && OfPriority(s, s[0].priority) == s[..n]
            && forall p :: p != s[0].priority ==> OfPriority(s, p) == OfPriority(s[n..], p)
  {
    hide OfPriority, Lead;
    LeadIs(s);
    var n, p := Lead(s, 1), s[0].priority;
    PrioritySkips(s, n, p);
    NoneOfPriority(s[n..], p);
    assert s[..n] + [] == s[..n];
    forall q | q != p
      ensures OfPriority(s, q) == OfPriority(s[n..], q)
    {
      PrioritySkips(s, n, q);
    }
  }

  /** Each target chosen is the one, among all of its priority, to whom the number drawn falls. */
  lemma {:induction false} ChosenByWeight(s: seq<Target>, random: nat -> nat, i: nat, k: nat)
    requires Ordered(s) && k < |Chosen(s, random, i)|
    ensures var t := Chosen(s, random, i)[k]; Elected(OfPriority(s, t.priority), random(i + k), t)
    decreases |s|
  {
    hide Pick, Ordered, Lead, Elected, OfPriority;
    var n := Lead(s, 1);
    GroupIs(s);
    LeadIs(s);
    if k == 0 {
      PickPriority(s, random(i));
      PickIsDrawn(s[..n], random(i));
    } else {
      ChosenByWeight(s[n..], random, i + 1, k - 1);
      ChosenAbove(s[n..], random, i + 1, s[0].priority);
    }
  }

  // ---------------------------------------------------------------------------
  // The passes over the array
  // ---------------------------------------------------------------------------

  lemma {:induction false} SwapKeeps(s: seq<Target>, i: nat, j: nat)
    requires i < |s| && j < |s|
    ensures multiset(s[i := s[j]][j := s[i]]) == multiset(s)
  {
  }

  method Swap(a: array<Target>, i: nat, j: nat)
    requires i < a.Length && j < a.Length
    modifies a
    ensures a[..] == old(a[..])[i := old(a[j])][j := old(a[i])]
    ensures multiset(a[..]) == multiset(old(a[..]))
  {
    SwapKeeps(a[..], i, j);
    a[i], a[j] := a[j], a[i];
  }

  /** The first target of the lowest priority from `i` on. */
  method LowestFrom(a: array<Target>, i: nat) returns (min: nat)
    requires i < a.Length
    ensures i <= min < a.Length && forall k :: i <= k < a.Length ==> a[min].priority <= a[k].priority
  {
    min := i;
    for j := i + 1 to a.Length
      invariant i <= min < a.Length && forall k :: i <= k < j ==> a[min].priority <= a[k].priority
    {
      if a[j].priority < a[min].priority {
        min := j;
      }
    }
  }

  /** First pass: the targets in order of priority. */
  method OrderByPriority(a: array<Target>)
    modifies a
    ensures Ordered(a[..]) && multiset(a[..]) == multiset(old(a[..]))
  {
    var i := 0;
    while i < a.Length - 1
      invariant 0 <= i <= a.Length && multiset(a[..]) == multiset(old(a[..]))
      invariant forall j, k :: 0 <= j < i && j < k < a.Length ==> a[j].priority <= a[k].priority
    {
      var min := LowestFrom(a, i);
      ghost var s := a[..];
      Swap(a, i, min);
      StillOrdered(s, i, min, a[..]);
      i := i + 1;
    }
  }

  lemma {:induction false} StillOrdered(s: seq<Target>, i: nat, min: nat, s': seq<Target>)
    requires i <= min < |s| && s' == s[i := s[min]][min := s[i]]
    requires forall j, k :: 0 <= j < i && j < k < |s| ==> s[j].priority <= s[k].priority
    requires forall k :: i <= k < |s| ==> s[min].priority <= s[k].priority
    ensures forall j, k :: 0 <= j < i + 1 && j < k < |s'| ==> s'[j].priority <= s'[k].priority
  {
    forall j, k | 0 <= j < i + 1 && j < k < |s'|
      ensures s'[j].priority <= s'[k].priority
    {
      if j < i {
        assert s'[j] == s[j];
        if k == i {
          assert s'[k] == s[min];
        } else if k == min {
          assert s'[k] == s[i];
        } else {
          assert s'[k] == s[k];
        }
      } else if k == min {
        assert s'[k] == s[i];
      } else {
        assert s'[k] == s[k];
      }
    }
  }

  lemma {:induction false} LeadStep(s: seq<Target>, n: nat)
    requires 1 <= n <= |s| && forall i :: 0 <= i < n ==> s[i].priority == s[0].priority
    requires n < |s| ==> s[n].priority != s[0].priority
    ensures Lead(s, 1) == n
  {
  }

  function WithSums(group: seq<Target>, n: nat): (r: seq<Target>)
    requires n <= |group|
    ensures |r| == n
  {
    seq(n, k requires 0 <= k < n => group[k].(sum := Sum(group, k + 1)))
  }

  /** Notes the running sums of the group that starts at `i`; gives its size and sum. */
  method RunningSums(a: array<Target>, i: nat, cnt: nat) returns (count: nat, sum: nat)
    requires i < cnt <= a.Length
    modifies a
    ensures 1 <= count <= cnt - i && count == old(Lead(a[i..cnt], 1))
    ensures var group := old(a[i..cnt])[..count];
            sum == Sum(group, count) && a[i..i + count] == WithSums(group, count)
    ensures forall k :: 0 <= k < a.Length && !(i <= k < i + count) ==> a[k] == old(a[k])
  {
    hide Sum, WithSums, Lead;
    ghost var s := a[i..cnt];
    count := 1;
    sum := a[i].weight;
    SumFirst(s);
    a[i] := a[i].(sum := sum);
    while i + count < cnt && a[i + count].priority == a[i].priority
      invariant 1 <= count <= cnt - i && sum == Sum(s, count)
      invariant forall k :: 0 <= k < count ==> a[i + k] == s[k].(sum := Sum(s, k + 1)) && s[k].priority == s[0].priority
      invariant forall k :: 0 <= k < a.Length && !(i <= k < i + count) ==> a[k] == old(a[k])
      decreases cnt - count
    {
      SumNext(s, count);
      sum := NoteSum(a, i + count, sum);
      count := count + 1;
    }
    assert i + count < cnt ==> a[i + count] == s[count];
    LeadStep(s, count);
    SumsNoted(s, count, a[i..i + count]);
  }

  method NoteSum(a: array<Target>, k: nat, sum: nat) returns (sum': nat)
    requires k < a.Length
    modifies a
    ensures sum' == sum + old(a[k].weight) && a[k] == old(a[k]).(sum := sum')
    ensures forall j :: 0 <= j < a.Length && j != k ==> a[j] == old(a[j])
  {
    sum' := sum + a[k].weight;
    a[k] := a[k].(sum := sum');
  }

  lemma {:induction false} SumFirst(s: seq<Target>)
    requires s != []
    ensures Sum(s, 1) == s[0].weight
  {
  }

  lemma {:induction false} SumNext(s: seq<Target>, n: nat)
    requires n < |s|
    ensures Sum(s, n + 1) == Sum(s, n) + s[n].weight
  {
  }

  lemma {:induction false} SumsNoted(s: seq<Target>, n: nat, b: seq<Target>)
    requires |b| == n <= |s| && forall k :: 0 <= k < n ==> b[k] == s[k].(sum := Sum(s, k + 1))
    ensures Sum(s, n) == Sum(s[..n], n) && b == WithSums(s[..n], n)
  {
    hide Sum;
    SumOfPrefix(s, n, n);
    forall k | 0 <= k < n
      ensures b[k] == WithSums(s[..n], n)[k]
    {
      SumOfPrefix(s, n, k + 1);
    }
  }

  lemma {:induction false} SumOfPrefix(s: seq<Target>, n: nat, k: nat)
    requires k <= n <= |s|
    ensures Sum(s, k) == Sum(s[..n], k)
    decreases k
  {
    if k > 0 {
      SumOfPrefix(s, n, k - 1);
    }
  }

  /** Removes one element, moving the rest down. */
  method Erase(a: array<Target>, count: nat, pos: nat)
    requires pos < count <= a.Length
    modifies a
    ensures a[..pos] == old(a[..pos]) && a[pos..count - 1] == old(a[pos + 1..count])
  {
    var i := pos;
    while i < count - 1
      invariant pos <= i <= count - 1
      invariant forall k :: 0 <= k < pos ==> a[k] == old(a[k])
      invariant forall k :: pos <= k < i ==> a[k] == old(a[k + 1])
      invariant forall k :: i <= k < count ==> a[k] == old(a[k])
    {
      a[i] := a[i + 1];
      i := i + 1;
    }
  }

  /** Removes `n` elements, one by one. */
  method EraseMany(a: array<Target>, count: nat, pos: nat, n: nat)
    requires pos + n <= count <= a.Length
    modifies a
    ensures a[..pos] == old(a[..pos]) && a[pos..count - n] == old(a[pos + n..count])
  {
    var k := 0;
    ghost var s := a[pos..count];
    while k < n
      invariant 0 <= k <= n && a[..pos] == old(a[..pos]) && a[pos..count - k] == s[k..]
    {
      ghost var before := a[pos..count - k];
      Erase(a, count - k, pos);
      assert a[pos..count - k - 1] == before[1..];
      k := k + 1;
    }
  }

  /** The first target of the group at `i` whose noted sum is at least `r`. */
  method FindElected(a: array<Target>, i: nat, count: nat, r: nat, ghost group: seq<Target>) returns (j: nat)
    requires i + count <= a.Length && |group| == count > 0 && r <= Sum(group, count)
    requires a[i..i + count] == WithSums(group, count)
    ensures j == Elect(group, r, 0) < count
  {
    j := 0;
    ElectedBy(group, r, 0);
    while j < count && a[i + j].sum < r
      invariant j <= count && Elect(group, r, 0) == Elect(group, r, j)
      decreases count - j
    {
      assert a[i + j] == a[i..i + count][j];
      j := j + 1;
    }
    if j < count {
      assert a[i + j] == a[i..i + count][j];
    }
  }

  lemma {:induction false} NotedAt(group: seq<Target>, j: nat)
    requires j < |group|
    ensures WithSums(group, |group|)[j] == group[j].(sum := Sum(group, j + 1))
  {
  }

  lemma {:induction false} PickIsElected(group: seq<Target>, random: nat, j: nat)
    requires group != []
    requires j == if |group| == 1 then 0 else Elect(group, random % (Sum(group, |group|) + 1), 0)
    requires j < |group|
    ensures Pick(group, random) == group[j].(sum := Sum(group, j + 1))
  {
  }

  /** Brings the elected target of the group at `i` to its front; gives the size of the group. */
  method BringToFront(a: array<Target>, i: nat, cnt: nat, random: nat) returns (count: nat)
    requires i < cnt <= a.Length
    modifies a
    ensures 1 <= count <= cnt - i && count == old(Lead(a[i..cnt], 1))
    ensures a[i] == Pick(old(a[i..cnt])[..count], random)
    ensures forall k :: 0 <= k < a.Length && !(i <= k < i + count) ==> a[k] == old(a[k])
  {
    hide Lead, Elect, Sum, WithSums, Pick;
    ghost var s := a[i..cnt];
    var sum;
    count, sum := RunningSums(a, i, cnt);
    ghost var group := s[..count];
    var j := 0;
    if count > 1 {
      j := FindElected(a, i, count, random % (sum + 1), group);
    }
    PickIsElected(group, random, j);
    NotedAt(group, j);
    assert a[i + j] == a[i..i + count][j];
    ghost var b := a[..];
    Swap(a, i, i + j);
    forall k | 0 <= k < a.Length && !(i <= k < i + count)
      ensures a[k] == old(a[k])
    {
      assert a[k] == a[..][k] == b[k];
    }
    assert a[i] == a[..][i];
  }

  lemma {:induction false} SameSlice(b: seq<Target>, b': seq<Target>, i: nat, count: nat, cnt: nat)
    requires |b'| == |b| && i + count <= cnt <= |b|
    requires forall k :: 0 <= k < |b| && !(i <= k < i + count) ==> b'[k] == b[k]
    ensures b'[i + count..cnt] == b[i..cnt][count..] && b'[..i] == b[..i]
  {
    forall k | 0 <= k < cnt - i - count
      ensures b'[i + count..cnt][k] == b[i..cnt][count..][k]
    {
      assert b'[i + count + k] == b[i + count + k];
    }
  }

  /** Keeps one target of the group at `i` and removes the others. */
  method Reduce(a: array<Target>, i: nat, cnt: nat, random: nat) returns (cnt': nat)
    requires i < cnt <= a.Length
    modifies a
    ensures i < cnt' <= cnt && a[..i] == old(a[..i])
    ensures var s := old(a[i..cnt]); var n := Lead(s, 1);
            a[i] == Pick(s[..n], random) && a[i + 1..cnt'] == s[n..]
  {
    hide Lead, Pick;
    ghost var s := a[i..cnt];
    assert s == a[..][i..cnt];
    var count := BringToFront(a, i, cnt, random);
    SameSlice(old(a[..]), a[..], i, count, cnt);
    assert a[i + count..cnt] == a[..][i + count..cnt] && a[..i] == a[..][..i] && old(a[..i]) == old(a[..])[..i];
    ghost var front := a[..i + 1];
    EraseMany(a, cnt, i + 1, count - 1);
    assert a[i] == a[..i + 1][i] == front[i];
    assert a[..i] == a[..i + 1][..i] == front[..i];
    cnt' := cnt - (count - 1);
  }

  /** Second pass: one target of each priority is left at the front of the array. */
  method SelectServers(a: array<Target>, random: nat -> nat) returns (cnt: nat)
    modifies a
    ensures cnt <= a.Length && a[..cnt] == Chosen(old(a[..]), random, 0)
  {
    hide Lead, Pick, Chosen;
    cnt := a.Length;
    var i := 0;
    assert a[..0] == [] && a[0..cnt] == a[..];
    while i < cnt
      invariant 0 <= i <= cnt <= a.Length
      invariant a[..i] + Chosen(a[i..cnt], random, i) == Chosen(old(a[..]), random, 0)
      decreases cnt - i
    {
      ghost var s, done := a[i..cnt], a[..i];
      ChosenStep(s, random, i);
      cnt := Reduce(a, i, cnt, random(i));
      assert a[..i + 1] == done + [a[i]];
      i := i + 1;
    }
    NoneChosen(random, i);
    assert a[i..cnt] == [];
  }

  lemma {:induction false} ChosenStep(s: seq<Target>, random: nat -> nat, i: nat)
    requires s != []
    ensures var n := Lead(s, 1); Chosen(s, random, i) == [Pick(s[..n], random(i))] + Chosen(s[n..], random, i + 1)
  {
    hide Pick, Lead;
  }

  lemma {:induction false} NoneChosen(random: nat -> nat, i: nat)
    ensures Chosen([], random, i) == []
  {
  }

  lemma {:induction false} SameBag(s: seq<Target>, s': seq<Target>, t: Target, p: nat)
    requires multiset(s) == multiset(s')
    ensures Has(s, t) ==> Has(s', t)
    ensures HasPriority(s, p) ==> HasPriority(s', p)
  {
    if Has(s, t) {
      var i :| 0 <= i < |s| && SameTarget(t, s[i]);
      assert s[i] in multiset(s);
      var j :| 0 <= j < |s'| && s'[j] == s[i];
    }
    if HasPriority(s, p) {
      var i :| 0 <= i < |s| && s[i].priority == p;
      assert s[i] in multiset(s);
      var j :| 0 <= j < |s'| && s'[j] == s[i];
    }
  }

  /** Each target is the one, among all of its priority in `s`, to whom its number drawn falls. */
  predicate AllElected(s: seq<Target>, chosen: seq<Target>, random: nat -> nat) {
    forall k :: 0 <= k < |chosen| ==> Elected(OfPriority(s, chosen[k].priority), random(k), chosen[k])
  }

  lemma {:induction false} ChosenAllElected(s: seq<Target>, random: nat -> nat)
    requires Ordered(s)
    ensures AllElected(s, Chosen(s, random, 0), random)
  {
    hide Chosen, Elected, OfPriority, Ordered;
    forall k | 0 <= k < |Chosen(s, random, 0)|
      ensures Elected(OfPriority(s, Chosen(s, random, 0)[k].priority), random(k), Chosen(s, random, 0)[k])
    {
      ChosenByWeight(s, random, 0, k);
    }
  }

  /**
   Both passes: what is left are targets of the answer, one of each of its priorities, in rising
   order, and each elected by its weight among the targets of its priority, put in some order.
   */
  method ChooseServers(a: array<Target>, random: nat -> nat) returns (cnt: nat)
    modifies a
    ensures cnt <= a.Length && Increasing(a[..cnt])
    ensures forall k :: 0 <= k < cnt ==> Has(old(a[..]), a[k])
    ensures forall p: nat :: HasPriority(a[..cnt], p) <==> HasPriority(old(a[..]), p)
    ensures exists s :: multiset(s) == multiset(old(a[..])) && AllElected(s, a[..cnt], random)
  {
    hide Chosen, Increasing, Has, HasPriority, Ordered, AllElected;
    OrderByPriority(a);
    ghost var s := a[..];
    cnt := SelectServers(a, random);
    ChosenAllElected(s, random);
    ChosenRises(s, random, 0);
    forall k | 0 <= k < cnt
      ensures Has(old(a[..]), a[k])
    {
      ChosenFrom(s, random, 0, k);
      assert a[k] == a[..cnt][k];
      SameBag(s, old(a[..]), a[k], 0);
    }
    forall p: nat
      ensures HasPriority(a[..cnt], p) <==> HasPriority(old(a[..]), p)
    {
      ChosenCovers(s, random, 0, p);
      SameBag(s, old(a[..]), Target("", 0, 0, 0, 0), p);
      SameBag(old(a[..]), s, Target("", 0, 0, 0, 0), p);
    }
  }
}
