/** The data mover of one node and its map of cancel functions, over all protected entities at once, against the view
    that the protocol of each single upload has of it. */
module DataMover {
  import opened Json
  import opened UploadProtocol

  type PeId = string

  /** What a copy to the repository returns. */
  datatype CopyResult = Copied | Canceled | Failed

  /** Two views of the cancel maps that differ at most in what other nodes do. */
  ghost predicate SameHere(n: Node, c: Cancels, c': Cancels)
  {
    && (n in c.entry <==> n in c'.entry) && (n in c.entry ==> c'.entry[n] == c.entry[n])
    && (forall t: Token :: t.node == n ==> (t in c'.issued <==> t in c.issued))
    && (forall t: Token :: t.node == n ==> (t in c'.cancelled <==> t in c.cancelled))
  }

  /** A cancel function is identified by its token; calling it puts the token in `cancelled`. */
  class DataMover {
    const node: Node
    var inProgressCancelMap: map<PeId, Token>
    var cancelled: set<Token>
    var nextSerial: nat

    /** A token this data mover has made. */
    predicate Mine(t: Token)
      reads this
    {
      t.node == node && t.serial < nextSerial
    }

    ghost predicate Valid()
      reads this
    {
      && (forall pe :: pe in inProgressCancelMap ==>
            Mine(inProgressCancelMap[pe]) && inProgressCancelMap[pe] !in cancelled)
      && (forall t :: t in cancelled ==> Mine(t))
      && (forall pe, q :: pe in inProgressCancelMap && q in inProgressCancelMap && pe != q ==>
            inProgressCancelMap[pe] != inProgressCancelMap[q])
    }

    /** The upload of entity `pe` has view `c`, as far as this node is concerned: its entry here, its tokens made here
        and which of them were cancelled. Other entities' tokens are none of its own. */
    ghost predicate Shows(c: Cancels, pe: PeId)
      reads this
    {
      && (node in c.entry <==> pe in inProgressCancelMap)
      && (node in c.entry ==> c.entry[node] == inProgressCancelMap[pe] && c.entry[node] in c.issued)
      && c.cancelled <= c.issued
      && (forall t :: t in c.issued && t.node == node ==> Mine(t) && (t in c.cancelled <==> t in cancelled))
      && (forall q :: q in inProgressCancelMap && q != pe ==> inProgressCancelMap[q] !in c.issued)
    }

    constructor (n: Node)
      ensures Valid() && node == n && inProgressCancelMap == map[] && cancelled == {} && nextSerial == 0
      ensures forall pe :: Shows(Cancels(map[], {}, {}), pe)
    {
      node, inProgressCancelMap, cancelled, nextSerial := n, map[], {}, 0;
    }

    /** Steps of the upload on other nodes keep what this node shows. */
    lemma OtherNodesKeep(c: Cancels, c': Cancels, pe: PeId)
      requires Valid() && Shows(c, pe) && SameHere(node, c, c') && c'.cancelled <= c'.issued
      ensures Shows(c', pe)
    {}

    /** The answer is what every view of the entity says. */
    method IsUploading(pe: PeId) returns (r: bool)
      ensures forall c :: Shows(c, pe) ==> (r <==> node in c.entry)
      ensures r <==> pe in inProgressCancelMap
    {
      r := pe in inProgressCancelMap;
    }

    /** context.WithCancel and the registration; an entry a failed copy left behind is overwritten. */
    method RegisterOngoingUpload(pe: PeId) returns (token: Token)
      requires Valid()
      modifies this
      ensures Valid() && cancelled == old(cancelled)
      ensures token == Token(node, old(nextSerial)) && nextSerial == old(nextSerial) + 1
      ensures inProgressCancelMap == old(inProgressCancelMap)[pe := token]
      ensures forall c :: old(Shows(c, pe)) ==>
                token !in c.issued && Shows(NextCancels(c, node, CopyRegister(token)), pe)
      ensures forall c, q :: q != pe && old(Shows(c, q)) ==> Shows(c, q)
    {
      token := Token(node, nextSerial);
      nextSerial := nextSerial + 1;
      inProgressCancelMap := inProgressCancelMap[pe := token];
    }

    method UnregisterOngoingUpload(pe: PeId)
      requires Valid()
      modifies this
      ensures Valid() && cancelled == old(cancelled) && nextSerial == old(nextSerial)
      ensures inProgressCancelMap == old(inProgressCancelMap) - {pe}
      ensures forall c :: old(Shows(c, pe)) ==> Shows(NextCancels(c, node, Unregister), pe)
      ensures forall c, q :: q != pe && old(Shows(c, q)) ==> Shows(c, q)
    {
      if pe in inProgressCancelMap { inProgressCancelMap := inProgressCancelMap - {pe}; }
    }

    /** Success cancels exactly the registered copy of this entity and drops its entry. */
    method CancelUpload(pe: PeId) returns (ok: bool)
      requires Valid()
      modifies this
      ensures Valid() && nextSerial == old(nextSerial)
      ensures ok <==> pe in old(inProgressCancelMap)
      ensures inProgressCancelMap == old(inProgressCancelMap) - {pe}
      ensures cancelled == old(cancelled) + (if ok then {old(inProgressCancelMap[pe])} else {})
      ensures forall c :: old(Shows(c, pe)) ==> (ok <==> node in c.entry) && Shows(CancelEntry(c, node), pe)
      ensures forall c, q :: q != pe && old(Shows(c, q)) ==> Shows(c, q)
    {
      ok := pe in inProgressCancelMap;
      if ok {
        cancelled := cancelled + {inProgressCancelMap[pe]};
        inProgressCancelMap := inProgressCancelMap - {pe};
      }
    }

    /** A crash of the node: the map is in memory only. */
    method Restart()
      requires Valid()
      modifies this
      ensures Valid() && inProgressCancelMap == map[] && cancelled == old(cancelled) && nextSerial == old(nextSerial)
      ensures forall c, q :: old(Shows(c, q)) ==> Shows(c.(entry := c.entry - {node}), q)
    {
      inProgressCancelMap := map[];
    }

    /** What the threads working on other entities may do. */
    method OtherEntities(mine: PeId)
      requires Valid()
      modifies this
      ensures Valid() && old(nextSerial) <= nextSerial && old(cancelled) <= cancelled
      ensures mine in inProgressCancelMap <==> mine in old(inProgressCancelMap)
      ensures mine in inProgressCancelMap ==> inProgressCancelMap[mine] == old(inProgressCancelMap[mine])
      ensures forall c :: old(Shows(c, mine)) ==> Shows(c, mine)
    {
      var k: nat := *;
      while k > 0
        invariant Valid() && old(nextSerial) <= nextSerial && old(cancelled) <= cancelled
        invariant mine in inProgressCancelMap <==> mine in old(inProgressCancelMap)
        invariant mine in inProgressCancelMap ==> inProgressCancelMap[mine] == old(inProgressCancelMap[mine])
        invariant forall c :: old(Shows(c, mine)) ==> Shows(c, mine)
      {
        var pe: PeId, choice: nat := *, *;
        if pe != mine {
          if choice == 0 {
            var _ := CancelUpload(pe);
          } else if choice == 1 {
            var _ := RegisterOngoingUpload(pe);
          } else {
            UnregisterOngoingUpload(pe);
          }
        }
        k := k - 1;
      }
    }

    /** copyToRepo. A copy that got as far as registering ends owning its entry or cancelled, never both, and a failed
        copy leaves its entry behind; a cancellation is reported only to a cancelled copy. `told` are the cancel
        requests for this entity that arrive while the copy runs. */
    method CopyToRepo(pe: PeId, found: bool, told: nat) returns (r: CopyResult, token: Option<Token>)
      requires Valid()
      modifies this
      ensures Valid() && old(cancelled) <= cancelled
      ensures !found ==> r == Failed && token.None? && inProgressCancelMap == old(inProgressCancelMap)
      ensures found ==>
                && token.Some? && token.value.node == node && token.value.serial >= old(nextSerial)
                && (token.value in cancelled <==> told > 0)
                && (told == 0 <==> pe in inProgressCancelMap)
                && (told == 0 ==> inProgressCancelMap[pe] == token.value)
                && (r == Canceled ==> told > 0)
    {
      if !found { return Failed, None; }
      var t := RegisterOngoingUpload(pe);
      OtherEntities(pe);
      var i := 0;
      while i < told
        invariant i <= told && Valid() && old(cancelled) <= cancelled && Mine(t)
        invariant t in cancelled <==> i > 0
        invariant i == 0 <==> pe in inProgressCancelMap
        invariant i == 0 ==> inProgressCancelMap[pe] == t
      {
        var _ := CancelUpload(pe);
        OtherEntities(pe);
        i := i + 1;
      }
      token := Some(t);
      var error: bool, canceled: bool := *, *;
      r := if !error then Copied else if canceled && t in cancelled then Canceled else Failed;
    }
  }
}
