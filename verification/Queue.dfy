/** The order of the scheduling queue. */
module Queue {

  type Time = nat

  /** The zero time stands for a timestamp that was never set. */
  const ZERO_TIME := 0

  datatype QueuedPod = QueuedPod(
    priority: int,
    namespace: string,
    name: string,
    groupLabel: string,
    initialAttempt: Time)

  /** The PodGroup objects of a snapshot, by namespace and name, with their schedule start time. */
  type Snapshot = map<(string, string), Time>

  function NamespacedName(p: QueuedPod): string {
    p.namespace + "/" + p.name
  }

  function CreationTimestamp(groups: Snapshot, p: QueuedPod): Time {
    if p.groupLabel == "" || (p.namespace, p.groupLabel) !in groups then p.initialAttempt
    else if groups[(p.namespace, p.groupLabel)] != ZERO_TIME then groups[(p.namespace, p.groupLabel)]
    else p.initialAttempt
  }

  /** Go's `<` on strings. */
  predicate Before(a: string, b: string) {
    if b == "" then false
    else if a == "" then true
    else if a[0] != b[0] then a[0] < b[0]
    else Before(a[1..], b[1..])
  }

  predicate Less(groups: Snapshot, p: QueuedPod, q: QueuedPod) {
    if p.priority != q.priority then p.priority > q.priority
    else
      var s, t := CreationTimestamp(groups, p), CreationTimestamp(groups, q);
      if s == t then Before(NamespacedName(p), NamespacedName(q)) else s < t
  }

  lemma {:induction false} BeforeIrreflexive(a: string)
    ensures !Before(a, a)
  {
    if a != "" {
      BeforeIrreflexive(a[1..]);
    }
  }

  lemma {:induction false} BeforeTransitive(a: string, b: string, c: string)
    requires Before(a, b) && Before(b, c)
    ensures Before(a, c)
  {
    if a != "" && a[0] == b[0] == c[0] {
      BeforeTransitive(a[1..], b[1..], c[1..]);
    }
  }

  lemma {:induction false} BeforeTotal(a: string, b: string)
    ensures a == b || Before(a, b) || Before(b, a)
  {
    if a != "" && b != "" && a[0] == b[0] {
      BeforeTotal(a[1..], b[1..]);
      assert a == [a[0]] + a[1..] && b == [b[0]] + b[1..];
    }
  }

  /** Over one snapshot the order is irreflexive and transitive, and tells apart any two pods whose
      namespaced names differ. */
  lemma LessIsStrictTotalOrder(groups: Snapshot, p: QueuedPod, q: QueuedPod, r: QueuedPod)
    ensures !Less(groups, p, p)
    ensures Less(groups, p, q) && Less(groups, q, r) ==> Less(groups, p, r)
    ensures NamespacedName(p) != NamespacedName(q) ==> Less(groups, p, q) || Less(groups, q, p)
    ensures !(Less(groups, p, q) && Less(groups, q, p))
  {
    BeforeIrreflexive(NamespacedName(p));
    BeforeTotal(NamespacedName(p), NamespacedName(q));
    if Less(groups, p, q) && Less(groups, q, r) && Before(NamespacedName(p), NamespacedName(q))
      && Before(NamespacedName(q), NamespacedName(r)) {
      BeforeTransitive(NamespacedName(p), NamespacedName(q), NamespacedName(r));
    }
    if Before(NamespacedName(p), NamespacedName(q)) && Before(NamespacedName(q), NamespacedName(p)) {
      BeforeTransitive(NamespacedName(p), NamespacedName(q), NamespacedName(p));
    }
  }

  /** A proper prefix, or smaller at the first place where they differ. */
  ghost predicate FirstDiffersBelow(a: string, b: string, k: nat) {
    k <= |a| && k < |b| && a[..k] == b[..k] && (k == |a| || a[k] < b[k])
  }

  lemma DiffersOneLater(a: string, b: string, k: nat)
    requires a != "" && b != "" && a[0] == b[0]
    ensures FirstDiffersBelow(a, b, k + 1) <==> FirstDiffersBelow(a[1..], b[1..], k)
    ensures !FirstDiffersBelow(a, b, 0)
  {
    if k + 1 <= |a| && k + 1 <= |b| {
      assert a[..k + 1] == [a[0]] + a[1..][..k] && b[..k + 1] == [b[0]] + b[1..][..k];
    }
  }

  lemma DiffersAtOnce(a: string, b: string, k: nat)
    requires a == "" || b == "" || a[0] != b[0]
    ensures FirstDiffersBelow(a, b, k) <==> k == 0 && b != "" && (a == "" || a[0] < b[0])
  {
    if k >= 1 && k <= |a| && k < |b| {
      assert a[..k][0] != b[..k][0];
    }
  }

  lemma {:induction false} BeforeExactly(a: string, b: string)
    ensures Before(a, b) <==> exists k: nat :: FirstDiffersBelow(a, b, k)
  {
    hide FirstDiffersBelow;
    if a != "" && b != "" && a[0] == b[0] {
      BeforeExactly(a[1..], b[1..]);
      if k: nat :| FirstDiffersBelow(a[1..], b[1..], k) {
        DiffersOneLater(a, b, k);
      }
      if k: nat :| FirstDiffersBelow(a, b, k) {
        DiffersOneLater(a, b, if k == 0 then 0 else k - 1);
      }
    } else {
      DiffersAtOnce(a, b, 0);
      if k: nat :| FirstDiffersBelow(a, b, k) {
        DiffersAtOnce(a, b, k);
      }
    }
  }

  ghost predicate Sorted(groups: Snapshot, queue: seq<QueuedPod>) {
    forall i, j :: 0 <= i < j < |queue| ==> Less(groups, queue[i], queue[j])
  }

  /** How a sorted queue reads: higher priorities first; within a priority earlier times first, a pod's time
      being its group's start time where one is set and its own first attempt otherwise; within a time by name. */
  lemma SortedReads(groups: Snapshot, queue: seq<QueuedPod>, i: nat, j: nat)
    requires Sorted(groups, queue) && i < j < |queue|
    ensures var p, q := queue[i], queue[j];
            var g, h := (p.namespace, p.groupLabel), (q.namespace, q.groupLabel);
            var since := if p.groupLabel != "" && g in groups && groups[g] != 0 then groups[g] else p.initialAttempt;
            var until := if q.groupLabel != "" && h in groups && groups[h] != 0 then groups[h] else q.initialAttempt;
            && p.priority >= q.priority
            && (p.priority == q.priority ==> since <= until)
            && (p.priority == q.priority && since == until ==>
                  exists k: nat :: FirstDiffersBelow(p.namespace + "/" + p.name, q.namespace + "/" + q.name, k))
  {
    hide Before, FirstDiffersBelow;
    assert Less(groups, queue[i], queue[j]);
    BeforeExactly(NamespacedName(queue[i]), NamespacedName(queue[j]));
  }

  /** Same known group, with its start time set, at the same priority. */
  predicate Together(groups: Snapshot, p: QueuedPod, q: QueuedPod) {
    && p.priority == q.priority
    && p.namespace == q.namespace && p.groupLabel == q.groupLabel && p.groupLabel != ""
    && (p.namespace, p.groupLabel) in groups && groups[(p.namespace, p.groupLabel)] != ZERO_TIME
  }

  /** Whatever stands between two pods of a group has their priority and their time, and a name between theirs. */
  lemma SqueezedBetween(groups: Snapshot, queue: seq<QueuedPod>, i: nat, j: nat, k: nat)
    requires Sorted(groups, queue) && i < j < k < |queue|
    requires Together(groups, queue[i], queue[k])
    ensures queue[j].priority == queue[i].priority
    ensures CreationTimestamp(groups, queue[j]) == CreationTimestamp(groups, queue[i])
    ensures Before(NamespacedName(queue[i]), NamespacedName(queue[j]))
    ensures Before(NamespacedName(queue[j]), NamespacedName(queue[k]))
  {
    assert Less(groups, queue[i], queue[j]) && Less(groups, queue[j], queue[k]);
  }

  predicate SameGroup(p: QueuedPod, q: QueuedPod) {
    p.namespace == q.namespace && p.groupLabel == q.groupLabel
  }

  /** Same priority and time as p, and a name strictly between those of p and q. */
  predicate Between(groups: Snapshot, p: QueuedPod, x: QueuedPod, q: QueuedPod) {
    && x.priority == p.priority && CreationTimestamp(groups, x) == CreationTimestamp(groups, p)
    && Before(NamespacedName(p), NamespacedName(x)) && Before(NamespacedName(x), NamespacedName(q))
  }

  /** In a sorted queue such a pod stands between the two. */
  lemma BetweenStandsBetween(groups: Snapshot, queue: seq<QueuedPod>, i: nat, x: nat, k: nat)
    requires Sorted(groups, queue) && i < |queue| && k < |queue| && x < |queue|
    requires Together(groups, queue[i], queue[k]) && Between(groups, queue[i], queue[x], queue[k])
    ensures i < x < k
  {
    hide Before;
    var p, y, q := queue[i], queue[x], queue[k];
    assert Less(groups, p, y) && Less(groups, y, q);
    LessIsStrictTotalOrder(groups, p, y, q);
    LessIsStrictTotalOrder(groups, y, q, p);
    assert x < i ==> Less(groups, y, p);
    assert k < x ==> Less(groups, q, y);
  }

  /** All pods between two of a group are of the group if and only if no outsider shares their priority and
      time with a name between theirs. */
  lemma ContiguousExactly(groups: Snapshot, queue: seq<QueuedPod>, i: nat, k: nat)
    requires Sorted(groups, queue) && i < k < |queue|
    requires Together(groups, queue[i], queue[k])
    ensures (forall j :: i < j < k ==> Together(groups, queue[i], queue[j]))
            <==> (forall x :: 0 <= x < |queue| && Between(groups, queue[i], queue[x], queue[k])
                    ==> SameGroup(queue[x], queue[i]))
  {
    hide Before, Less, Sorted;
    forall j | i < j < k ensures Between(groups, queue[i], queue[j], queue[k]) {
      SqueezedBetween(groups, queue, i, j, k);
    }
    forall x | 0 <= x < |queue| && Between(groups, queue[i], queue[x], queue[k]) ensures i < x < k {
      BetweenStandsBetween(groups, queue, i, x, k);
    }
  }

  /** In particular, the pods of a group at one priority are contiguous whenever no pod outside the group
      has that priority and that time. */
  lemma GroupsAreContiguous(groups: Snapshot, queue: seq<QueuedPod>, i: nat, j: nat, k: nat)
    requires Sorted(groups, queue) && i < j < k < |queue|
    requires Together(groups, queue[i], queue[k])
    requires forall x :: 0 <= x < |queue| && queue[x].priority == queue[i].priority
               && CreationTimestamp(groups, queue[x]) == CreationTimestamp(groups, queue[i])
               ==> SameGroup(queue[x], queue[i])
    ensures Together(groups, queue[i], queue[j])
  {
    hide Before, Less, Sorted, CreationTimestamp;
    ContiguousExactly(groups, queue, i, k);
  }

  /** Two groups created in the same microsecond can interleave by name. */
  lemma EqualTimesInterleave()
    ensures
      var groups := map[("ns", "g") := 5, ("ns", "h") := 5];
      var a, b, c := QueuedPod(0, "ns", "a", "g", 1), QueuedPod(0, "ns", "b", "h", 1), QueuedPod(0, "ns", "c", "g", 1);
      Sorted(groups, [a, b, c]) && Together(groups, a, c) && !Together(groups, a, b)
  {
    var groups := map[("ns", "g") := 5, ("ns", "h") := 5];
    var a, b, c := QueuedPod(0, "ns", "a", "g", 1), QueuedPod(0, "ns", "b", "h", 1), QueuedPod(0, "ns", "c", "g", 1);
    LastChar("ns/", "a", "b");
    LastChar("ns/", "b", "c");
    LastChar("ns/", "a", "c");
    assert NamespacedName(a) == "ns/" + "a" && NamespacedName(b) == "ns/" + "b" && NamespacedName(c) == "ns/" + "c";
  }

  lemma {:induction false} LastChar(prefix: string, x: string, y: string)
    requires |x| == |y| == 1 && x[0] < y[0]
    ensures Before(prefix + x, prefix + y)
  {
    if prefix != "" {
      LastChar(prefix[1..], x, y);
      assert (prefix + x)[1..] == prefix[1..] + x && (prefix + y)[1..] == prefix[1..] + y;
    }
  }
}
