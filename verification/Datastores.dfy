/** The datastores a restored volume may be placed on: those every node VM's host can reach. */
module Datastores {
  import opened Json

  type Host = string
  type Ref = string

  datatype Vm = Vm(guestHostName: string, host: Host)

  datatype FileSystem = NFS | NFS41 | Other

  /** What the calls on one datastore answer; None is a failed call (for `nasHost` also: not a NAS). */
  datatype Datastore = Datastore(
    ref: Ref, fileSystem: Option<FileSystem>, nasHost: Option<string>, attached: Option<seq<Host>>)

  /** What the finder answers for one data center. */
  datatype Listing<T> = Found(items: seq<T>) | NotFound | Failed

  datatype Error = ApiFailed | EmptyNodeName | NoHosts

  datatype Result<T> = Ok(value: T) | Err(error: Error)

  const INTERNAL_DOMAIN := "eng.vmware.com"

  predicate OccursAt(s: string, sub: string, i: nat) { i + |sub| <= |s| && s[i..i + |sub|] == sub }

  predicate Contains(s: string, sub: string) { exists i :: 0 <= i <= |s| && OccursAt(s, sub, i) }

  /** strings.Contains. */
  lemma ContainsIff(s: string, sub: string)
    ensures Contains(s, sub) <==> exists before: string, after: string :: s == before + sub + after
  {
    if Contains(s, sub) {
      var i :| 0 <= i <= |s| && OccursAt(s, sub, i);
      assert s == s[..i] + sub + s[i + |sub|..];
    }
    if exists before: string, after: string :: s == before + sub + after {
      var before: string, after: string :| s == before + sub + after;
      assert OccursAt(s, sub, |before|);
    }
  }

  // ---------------------------------------------------------------------------------------------
  // Specification
  // ---------------------------------------------------------------------------------------------

  /** The items of all data centers, in the order they are visited. */
  function Flatten<T>(lists: seq<Listing<T>>): (r: seq<T>)
  {
    if lists == [] then []
    else
      var last := lists[|lists| - 1];
      Flatten(lists[..|lists| - 1]) + if last.Found? then last.items else []
  }

  predicate OnNode(nodes: seq<string>, vm: Vm) { vm.guestHostName in nodes }

  /** The hosts node VMs run on. */
  function NodeHosts(nodes: seq<string>, vms: seq<Vm>): (r: set<Host>)
  {
    set vm | vm in vms && OnNode(nodes, vm) :: vm.host
  }

  /** Type checks: NFS 4.1 and VMware's own NFS servers are not used. */
  predicate TypeAllowed(d: Datastore)
  {
    && d.fileSystem.Some?
    && d.fileSystem.value != NFS41
    && (d.fileSystem.value == NFS ==> d.nasHost.Some? && !Contains(d.nasHost.value, INTERNAL_DOMAIN))
  }

  /** Allowed, and attached to every host of a node VM. */
  predicate Shared(hosts: set<Host>, d: Datastore)
  {
    TypeAllowed(d) && d.attached.Some? && forall h :: h in hosts ==> h in d.attached.value
  }

  /** The shared datastores among `dss`, in order. */
  function SharedRefs(hosts: set<Host>, dss: seq<Datastore>): (r: seq<Ref>)
  {
    if dss == [] then []
    else
      var init, last := dss[..|dss| - 1], dss[|dss| - 1];
      SharedRefs(hosts, init) + if Shared(hosts, last) then [last.ref] else []
  }

  lemma {:induction false} SharedRefsExact(hosts: set<Host>, dss: seq<Datastore>, ref: Ref)
    ensures ref in SharedRefs(hosts, dss) <==> exists d :: d in dss && Shared(hosts, d) && d.ref == ref
  {
    if dss == [] {
    } else {
      SharedRefsExact(hosts, dss[..|dss| - 1], ref);
      assert dss == dss[..|dss| - 1] + [dss[|dss| - 1]];
    }
  }

  /** More hosts never make more datastores eligible: adding a node can only shrink the choice. */
  lemma {:induction false} MoreHostsFewerDatastores(hosts: set<Host>, more: set<Host>, dss: seq<Datastore>, ref: Ref)
    requires hosts <= more && ref in SharedRefs(more, dss)
    ensures ref in SharedRefs(hosts, dss)
  {
    SharedRefsExact(more, dss, ref);
    var d :| d in dss && Shared(more, d) && d.ref == ref;
    assert Shared(hosts, d);
    SharedRefsExact(hosts, dss, ref);
  }

  // ---------------------------------------------------------------------------------------------
  // The loops
  // ---------------------------------------------------------------------------------------------

  predicate NoDuplicates(s: seq<Host>) { forall i, j :: 0 <= i < j < |s| ==> s[i] != s[j] }

  function Elements(s: seq<Host>): (r: set<Host>) { set h | h in s }

  lemma {:induction false} ElementsCount(s: seq<Host>)
    ensures |Elements(s)| <= |s|
    ensures NoDuplicates(s) ==> |Elements(s)| == |s|
  {
    if s == [] {
    } else {
      var init, last := s[..|s| - 1], s[|s| - 1];
      ElementsCount(init);
      assert s == init + [last];
      assert Elements(s) == Elements(init) + {last};
    }
  }

  lemma SubsetCount(a: set<Host>, b: set<Host>)
    requires a <= b
    ensures |a| <= |b|
  {
    assert b == a + (b - a);
  }

  /** Pigeonhole: a list without duplicates is no longer than any list that has all its elements, so the length
      test drops no eligible datastore. */
  lemma NoShorterCover(hosts: seq<Host>, attached: seq<Host>)
    requires NoDuplicates(hosts) && (forall h :: h in hosts ==> h in attached)
    ensures |hosts| <= |attached|
  {
    ElementsCount(hosts);
    ElementsCount(attached);
    SubsetCount(Elements(hosts), Elements(attached));
  }

  /** Go through the data centers: skip those without items, give up at the first failed call. */
  method Collect<T>(lists: seq<Listing<T>>) returns (r: Option<seq<T>>)
    ensures r.None? <==> Failed in lists
    ensures r.Some? ==> r.value == Flatten(lists)
  {
    var all: seq<T> := [];
    var i := 0;
    while i < |lists|
      invariant 0 <= i <= |lists|
      invariant Failed !in lists[..i] && all == Flatten(lists[..i])
    {
      assert lists[..i + 1] == lists[..i] + [lists[i]];
      match lists[i] {
        case Failed => return None;
        case NotFound =>
        case Found(items) => all := all + items;
      }
      i := i + 1;
    }
    assert lists[..|lists|] == lists;
    return Some(all);
  }

  /** The set of node names. */
  method NodeNames(nodes: seq<string>) returns (r: Result<map<string, bool>>)
    ensures r.Err? <==> "" in nodes
    ensures r.Err? ==> r.error == EmptyNodeName
    ensures r.Ok? ==> forall n :: n in r.value <==> n in nodes
  {
    var vmHostNameMap: map<string, bool> := map[];
    var i := 0;
    while i < |nodes|
      invariant 0 <= i <= |nodes|
      invariant "" !in nodes[..i]
      invariant forall n :: n in vmHostNameMap <==> n in nodes[..i]
    {
      assert nodes[..i + 1] == nodes[..i] + [nodes[i]];
      if nodes[i] == "" { return Err(EmptyNodeName); }
      vmHostNameMap := vmHostNameMap[nodes[i] := true];
      i := i + 1;
    }
    assert nodes[..|nodes|] == nodes;
    return Ok(vmHostNameMap);
  }

  /** `nodes` is the answer of the node list, `vmLists` that of the data centers (None if they cannot be listed), and
      `retrieved` whether the properties of the VMs could be read. */
  method FindHostsOfNodeVMs(nodes: Option<seq<string>>, vmLists: Option<seq<Listing<Vm>>>, retrieved: bool)
    returns (r: Result<seq<Host>>)
    ensures r.Err? <==> nodes.None? || "" in nodes.value || vmLists.None? || Failed in vmLists.value || !retrieved
    ensures r.Err? ==> r.error == if nodes.Some? && "" in nodes.value then EmptyNodeName else ApiFailed
    ensures r.Ok? ==>
              NoDuplicates(r.value) && Elements(r.value) == NodeHosts(nodes.value, Flatten(vmLists.value))
  {
    if nodes.None? { return Err(ApiFailed); }
    var names := NodeNames(nodes.value);
    if names.Err? { return Err(names.error); }
    if vmLists.None? { return Err(ApiFailed); }
    var found := Collect(vmLists.value);
    if found.None? || !retrieved { return Err(ApiFailed); }
    var vms := found.value;
    var hostList: seq<Host> := [];
    var hostRefMap: map<Host, bool> := map[];
    var i := 0;
    while i < |vms|
      invariant 0 <= i <= |vms|
      invariant NoDuplicates(hostList)
      invariant hostRefMap.Keys == Elements(hostList) == NodeHosts(nodes.value, vms[..i])
    {
      var vm := vms[i];
      assert vms[..i + 1] == vms[..i] + [vm];
      if vm.guestHostName in names.value && vm.host !in hostRefMap {
        hostRefMap := hostRefMap[vm.host := true];
        assert vm.host !in Elements(hostList);
        hostList := hostList + [vm.host];
      }
      i := i + 1;
    }
    assert vms[..|vms|] == vms;
    return Ok(hostList);
  }

  /** The decision on one datastore, length test included. */
  method Eligible(hosts: seq<Host>, d: Datastore) returns (eligible: bool)
    requires NoDuplicates(hosts)
    ensures eligible <==> Shared(Elements(hosts), d)
  {
    if d.fileSystem.None? || d.fileSystem.value == NFS41 { return false; }
    if d.fileSystem.value == NFS {
      if d.nasHost.None? || Contains(d.nasHost.value, "eng.vmware.com") { return false; }
    }
    if d.attached.None? { return false; }
    var attached := d.attached.value;
    if |attached| < |hosts| {
      if forall h :: h in hosts ==> h in attached { NoShorterCover(hosts, attached); }
      return false;
    }
    var attachedMap: map<Host, Ref> := map[];
    var i := 0;
    while i < |attached|
      invariant 0 <= i <= |attached|
      invariant forall h :: h in attachedMap <==> h in attached[..i]
    {
      assert attached[..i + 1] == attached[..i] + [attached[i]];
      attachedMap := attachedMap[attached[i] := d.ref];
      i := i + 1;
    }
    assert attached[..|attached|] == attached;
    i := 0;
    while i < |hosts|
      invariant 0 <= i <= |hosts|
      invariant forall h :: h in hosts[..i] ==> h in attached
    {
      assert hosts[..i + 1] == hosts[..i] + [hosts[i]];
      if hosts[i] !in attachedMap {
        assert hosts[i] in Elements(hosts);
        return false;
      }
      i := i + 1;
    }
    assert hosts[..|hosts|] == hosts;
    return true;
  }

  /** `dsLists` are the datastore listings of the hosts' data centers, in the order these are visited. The answer is
      exactly the allowed datastores attached to every node VM's host, in listing order. */
  method FindSharedDatastoresFromAllNodeVMs(nodes: Option<seq<string>>, vmLists: Option<seq<Listing<Vm>>>,
                                            retrieved: bool, dsLists: seq<Listing<Datastore>>)
    returns (r: Result<seq<Ref>>)
    ensures var unread := nodes.None? || vmLists.None? || Failed in vmLists.value || !retrieved;
            var emptyName := nodes.Some? && "" in nodes.value;
            if emptyName then r == Err(EmptyNodeName)
            else if unread then r == Err(ApiFailed)
            else
              var hosts := NodeHosts(nodes.value, Flatten(vmLists.value));
              if hosts == {} then r == Err(NoHosts)
              else if Failed in dsLists then r == Err(ApiFailed)
              else r == Ok(SharedRefs(hosts, Flatten(dsLists)))
  {
    var found := FindHostsOfNodeVMs(nodes, vmLists, retrieved);
    if found.Err? { return Err(found.error); }
    var hosts := found.value;
    ElementsCount(hosts);
    if |hosts| == 0 { return Err(NoHosts); }
    var listed := Collect(dsLists);
    if listed.None? { return Err(ApiFailed); }
    var dss, dsList: seq<Ref> := listed.value, [];
    var i := 0;
    while i < |dss|
      invariant 0 <= i <= |dss|
      invariant dsList == SharedRefs(Elements(hosts), dss[..i])
    {
      var eligible := Eligible(hosts, dss[i]);
      assert dss[..i + 1][..i] == dss[..i];
      if eligible { dsList := dsList + [dss[i].ref]; }
      i := i + 1;
    }
    assert dss[..|dss|] == dss;
    return Ok(dsList);
  }
}
