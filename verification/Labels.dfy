/** The labels of a restored volume: this cluster's values for the reserved keys on the VSLM path, and no
    "cns" labels at all on the CNS path. */
module Labels {
  datatype Label = Label(key: string, value: string)

  const CLUSTER_ID_KEY := "cns.containerCluster.clusterId"
  const VSPHERE_USER_KEY := "cns.containerCluster.vSphereUser"
  const CNS_PREFIX := "cns"

  /** fillInClusterSpecificParams. */
  function Reserved(clusterId: string, user: string): (r: map<string, string>)
  {
    map[CLUSTER_ID_KEY := clusterId, VSPHERE_USER_KEY := user]
  }

  /** An order in which a traversal of the map may yield its keys. */
  ghost predicate KeyOrder(order: seq<string>, m: map<string, string>)
  {
    && (forall k :: k in order <==> k in m)
    && (forall i, j :: 0 <= i < j < |order| ==> order[i] != order[j])
  }

  function Rewritten(reserved: map<string, string>, l: Label): (r: Label)
  {
    if l.key in reserved then Label(l.key, reserved[l.key]) else l
  }

  function RewrittenAll(reserved: map<string, string>, labels: seq<Label>): (r: seq<Label>)
    ensures |r| == |labels|
    ensures forall i :: 0 <= i < |labels| ==> r[i] == Rewritten(reserved, labels[i])
  {
    seq(|labels|, i requires 0 <= i < |labels| => Rewritten(reserved, labels[i]))
  }

  /** The labels at these keys, in this order. */
  function Entries(order: seq<string>, reserved: map<string, string>): (r: seq<Label>)
    requires forall k :: k in order ==> k in reserved
    ensures |r| == |order|
    ensures forall i :: 0 <= i < |order| ==> r[i] == Label(order[i], reserved[order[i]])
  {
    seq(|order|, i requires 0 <= i < |order| => Label(order[i], reserved[order[i]]))
  }

  /** The labels whose key is not in the class `drop`, in order. */
  function Dropping(drop: string -> bool, labels: seq<Label>): (r: seq<Label>)
  {
    if labels == [] then []
    else Dropping(drop, labels[..|labels| - 1]) + if drop(labels[|labels| - 1].key) then [] else [labels[|labels| - 1]]
  }

  function HasPrefix(prefix: string): (f: string -> bool) { (k: string) => prefix <= k }

  function In(m: map<string, string>): (f: string -> bool) { (k: string) => k in m }

  /** `order` is the order in which the traversal of the reserved map happens to run. */
  method FilterLabelsForVslm(labels: seq<Label>, clusterId: string, user: string, order: seq<string>)
    returns (r: seq<Label>)
    requires KeyOrder(order, Reserved(clusterId, user))
    ensures r == Entries(order, Reserved(clusterId, user)) + RewrittenAll(Reserved(clusterId, user), labels)
    ensures forall l :: l in r && l.key == "cns.containerCluster.clusterId" ==> l.value == clusterId
    ensures forall l :: l in r && l.key == "cns.containerCluster.vSphereUser" ==> l.value == user
    ensures Label("cns.containerCluster.clusterId", clusterId) in r
    ensures Label("cns.containerCluster.vSphereUser", user) in r
  {
    var reserved := Reserved(clusterId, user);
    r := [];
    var i := 0;
    while i < |order|
      invariant 0 <= i <= |order|
      invariant r == Entries(order[..i], reserved)
    {
      assert order[i] in order;
      r := r + [Label(order[i], reserved[order[i]])];
      i := i + 1;
    }
    assert order[..|order|] == order;
    ghost var front := r;
    i := 0;
    while i < |labels|
      invariant 0 <= i <= |labels|
      invariant r == front + RewrittenAll(reserved, labels[..i])
    {
      var value := if labels[i].key in reserved then reserved[labels[i].key] else labels[i].value;
      var kv := Label(labels[i].key, value);
      assert RewrittenAll(reserved, labels[..i + 1]) == RewrittenAll(reserved, labels[..i]) + [kv];
      r := r + [kv];
      i := i + 1;
    }
    assert labels[..|labels|] == labels;
    RewriteSetsReserved(reserved, order, labels, "cns.containerCluster.clusterId");
    RewriteSetsReserved(reserved, order, labels, "cns.containerCluster.vSphereUser");
  }

  method FilterLabelsForCns(labels: seq<Label>, prefix: string) returns (r: seq<Label>)
    ensures r == Dropping(HasPrefix(prefix), labels)
  {
    r := [];
    var i := 0;
    while i < |labels|
      invariant 0 <= i <= |labels|
      invariant r == Dropping(HasPrefix(prefix), labels[..i])
    {
      assert labels[..i + 1][..i] == labels[..i];
      if !(prefix <= labels[i].key) { r := r + [Label(labels[i].key, labels[i].value)]; }
      i := i + 1;
    }
    assert labels[..|labels|] == labels;
  }

  // ---------------------------------------------------------------------------------------------
  // The filter
  // ---------------------------------------------------------------------------------------------

  lemma {:induction false} DroppingAppend(drop: string -> bool, a: seq<Label>, b: seq<Label>)
    ensures Dropping(drop, a + b) == Dropping(drop, a) + Dropping(drop, b)
  {
    if b == [] {
      assert a + b == a;
    } else {
      DroppingAppend(drop, a, b[..|b| - 1]);
      assert (a + b)[..|a + b| - 1] == a + b[..|b| - 1];
    }
  }

  /** Exactly the labels outside the class survive, each as often as it was there. */
  lemma {:induction false} DroppingCounts(drop: string -> bool, labels: seq<Label>, l: Label)
    ensures multiset(Dropping(drop, labels))[l] == if drop(l.key) then 0 else multiset(labels)[l]
  {
    if labels == [] {
    } else {
      DroppingCounts(drop, labels[..|labels| - 1], l);
      assert labels == labels[..|labels| - 1] + [labels[|labels| - 1]];
    }
  }

  /** `at` picks `part` out of `whole`, at strictly increasing positions. */
  ghost predicate Picks(at: seq<int>, part: seq<Label>, whole: seq<Label>)
  {
    && |at| == |part|
    && (forall i :: 0 <= i < |at| ==> 0 <= at[i] < |whole| && part[i] == whole[at[i]])
    && (forall i, j :: 0 <= i < j < |at| ==> at[i] < at[j])
  }

  /** The positions the filter keeps. */
  function KeptAt(drop: string -> bool, labels: seq<Label>): (r: seq<int>)
  {
    if labels == [] then []
    else KeptAt(drop, labels[..|labels| - 1]) + if drop(labels[|labels| - 1].key) then [] else [|labels| - 1]
  }

  lemma {:induction false} DroppingIsSubsequence(drop: string -> bool, labels: seq<Label>)
    ensures Picks(KeptAt(drop, labels), Dropping(drop, labels), labels)
  {
    if labels == [] {
    } else {
      var init, last := labels[..|labels| - 1], labels[|labels| - 1];
      DroppingIsSubsequence(drop, init);
      PicksExtend(KeptAt(drop, init), Dropping(drop, init), init, last);
      assert labels == init + [last];
    }
  }

  lemma PicksExtend(at: seq<int>, part: seq<Label>, whole: seq<Label>, last: Label)
    requires Picks(at, part, whole)
    ensures Picks(at + [|whole|], part + [last], whole + [last]) && Picks(at, part, whole + [last])
  {}

  lemma {:induction false} NothingToDrop(drop: string -> bool, labels: seq<Label>)
    requires forall l :: l in labels ==> !drop(l.key)
    ensures Dropping(drop, labels) == labels
  {
    if labels == [] {
    } else {
      var init, last := labels[..|labels| - 1], labels[|labels| - 1];
      assert labels == init + [last];
      NothingToDrop(drop, init);
    }
  }

  lemma {:induction false} EverythingDropped(drop: string -> bool, labels: seq<Label>)
    ensures Dropping(drop, labels) == [] <==> forall l :: l in labels ==> drop(l.key)
  {
    if labels == [] {
    } else {
      var init, last := labels[..|labels| - 1], labels[|labels| - 1];
      assert labels == init + [last];
      EverythingDropped(drop, init);
    }
  }

  lemma DroppingIdempotent(drop: string -> bool, labels: seq<Label>)
    ensures Dropping(drop, Dropping(drop, labels)) == Dropping(drop, labels)
  {
    forall l | l in Dropping(drop, labels) ensures !drop(l.key) {
      DroppingCounts(drop, labels, l);
      assert multiset(Dropping(drop, labels))[l] > 0;
    }
    NothingToDrop(drop, Dropping(drop, labels));
  }

  // ---------------------------------------------------------------------------------------------
  // The rewrite, alone and followed by the filter
  // ---------------------------------------------------------------------------------------------

  lemma {:induction false} DroppingRewrite(drop: string -> bool, m: map<string, string>, labels: seq<Label>)
    ensures |Dropping(drop, RewrittenAll(m, labels))| == |Dropping(drop, labels)|
    ensures (forall k :: k in m ==> drop(k)) ==> Dropping(drop, RewrittenAll(m, labels)) == Dropping(drop, labels)
  {
    if labels == [] {
    } else {
      DroppingRewrite(drop, m, labels[..|labels| - 1]);
      assert RewrittenAll(m, labels)[..|labels| - 1] == RewrittenAll(m, labels[..|labels| - 1]);
    }
  }

  lemma EntriesDropped(drop: string -> bool, order: seq<string>, m: map<string, string>)
    requires forall k :: k in order ==> k in m
    ensures Dropping(drop, Entries(order, m)) == [] <==> forall k :: k in order ==> drop(k)
  {
    var labels := Entries(order, m);
    EverythingDropped(drop, labels);
    forall k | k in order ensures Label(k, m[k]) in labels {
      var i :| 0 <= i < |order| && order[i] == k;
      assert labels[i] == Label(k, m[k]);
    }
  }

  /** A filter cannot tell whether the rewrite was applied before it exactly when it drops every reserved key. */
  lemma FilterAfterRewrite(drop: string -> bool, m: map<string, string>, order: seq<string>, labels: seq<Label>)
    requires KeyOrder(order, m)
    ensures var hidden := Dropping(drop, Entries(order, m) + RewrittenAll(m, labels)) == Dropping(drop, labels);
            hidden <==> forall k :: k in m ==> drop(k)
  {
    DroppingAppend(drop, Entries(order, m), RewrittenAll(m, labels));
    DroppingRewrite(drop, m, labels);
    EntriesDropped(drop, order, m);
  }

  /** The two filters compose to the CNS filter alone, because the prefix in use covers both reserved keys. */
  lemma CnsFilterHidesRewrite(labels: seq<Label>, clusterId: string, user: string, order: seq<string>)
    requires KeyOrder(order, Reserved(clusterId, user))
    ensures var m, cns := Reserved(clusterId, user), HasPrefix(CNS_PREFIX);
            Dropping(cns, Entries(order, m) + RewrittenAll(m, labels)) == Dropping(cns, labels)
  {
    assert CLUSTER_ID_KEY[..3] == CNS_PREFIX && VSPHERE_USER_KEY[..3] == CNS_PREFIX;
    FilterAfterRewrite(HasPrefix(CNS_PREFIX), Reserved(clusterId, user), order, labels);
  }

  /** After the rewrite every occurrence of a reserved key carries this cluster's value, and each such key occurs. */
  lemma RewriteSetsReserved(m: map<string, string>, order: seq<string>, labels: seq<Label>, k: string)
    requires KeyOrder(order, m) && k in m
    ensures var r := Entries(order, m) + RewrittenAll(m, labels);
            Label(k, m[k]) in r && forall l :: l in r && l.key == k ==> l.value == m[k]
  {
    var front, back := Entries(order, m), RewrittenAll(m, labels);
    assert k in order;
    var i :| 0 <= i < |order| && order[i] == k;
    assert front[i] == Label(k, m[k]);
    assert forall l :: l in front ==> l.key in order && l.value == m[l.key];
    assert forall l :: l in back ==> l.key in m ==> l.value == m[l.key];
  }

  /** All other labels are kept, in order, and nothing else is added. */
  lemma RewriteKeepsOthers(m: map<string, string>, order: seq<string>, labels: seq<Label>)
    requires KeyOrder(order, m)
    ensures Dropping(In(m), Entries(order, m) + RewrittenAll(m, labels)) == Dropping(In(m), labels)
    ensures |Entries(order, m) + RewrittenAll(m, labels)| == |m| + |labels|
  {
    FilterAfterRewrite(In(m), m, order, labels);
    OrderCount(order, m.Keys);
  }

  lemma {:induction false} OrderCount(order: seq<string>, keys: set<string>)
    requires forall k :: k in order <==> k in keys
    requires forall i, j :: 0 <= i < j < |order| ==> order[i] != order[j]
    ensures |order| == |keys|
  {
    if order == [] {
      assert keys == {};
    } else {
      var init, last := order[..|order| - 1], order[|order| - 1];
      assert order == init + [last];
      OrderCount(init, keys - {last});
    }
  }
}
