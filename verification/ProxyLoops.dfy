/** The loops of partition and recover in tproxy/TcpNetwork.cpp, and that they come to what ProxyState says. */
module ProxyLoops {
  import opened ProxyState

  // ---- Recovering, as the two loops of the source go

  /** The first loop has seen some entries: those with the node at their own end lost their tag, and their queues. */
  ghost function ResetSeen(v: View, node: Addr, seen: set<int>): View {
    v.(table := map f | f in v.table ::
         if f in seen && v.table[f].channel.first == node then v.table[f].(disconnected := false) else v.table[f],
       queues := map ch | ch in v.queues ::
         if ch.first == node && exists f :: f in seen && f in v.table && v.table[f].channel == ch
         then [] else v.queues[ch])
  }

  lemma ResetLinked(v: View, node: Addr, seen: set<int>)
    requires Linked(v)
    ensures Linked(ResetSeen(v, node, seen))
  {
  }

  lemma ResetNext(v: View, node: Addr, seen: set<int>, fd: int)
    requires fd in v.table
    ensures var w := ResetSeen(v, node, seen);
            ResetSeen(v, node, seen + {fd}) ==
            if v.table[fd].channel.first != node then w
            else w.(table := w.table[fd := w.table[fd].(disconnected := false)],
                    queues := if v.table[fd].channel in w.queues then w.queues[v.table[fd].channel := []] else w.queues)
  {
    var w, x := ResetSeen(v, node, seen), ResetSeen(v, node, seen + {fd});
    var ch := v.table[fd].channel;
    if ch.first == node {
      assert x.table == w.table[fd := w.table[fd].(disconnected := false)];
      assert x.queues == if ch in w.queues then w.queues[ch := []] else w.queues;
    } else {
      assert x.table == w.table;
      assert x.queues == w.queues;
    }
  }

  lemma ClosedPeer(v: View, w: View, gone: set<int>, fd: int)
    requires Linked(v) && Closed(v, w, gone) && fd in v.table && fd !in gone
    ensures fd in w.table && Peer(v, fd) in v.table && Peer(w, fd) == Peer(v, fd)
    ensures Peer(v, Peer(v, fd)) == fd
  {
    assert Peer(v, Peer(v, fd)) == fd;
  }

  lemma CloseOneMore(v: View, w: View, gone: set<int>, fd: int)
    requires Linked(v) && Closed(v, w, gone) && fd in v.table && fd !in gone
    ensures Closed(w, Close(w, fd), {fd, Peer(v, fd)}) && Close(w, fd).queues == w.queues
    ensures Peer(v, fd) in v.table && Peer(v, Peer(v, fd)) == fd
  {
    ClosedPaired(v, w, gone);
    ClosedPeer(v, w, gone, fd);
    CloseIsClosed(w, fd);
  }

  lemma CloseOther(v: View, w: View, gone: set<int>, fd: int)
    requires Linked(v) && Closed(v, w, gone) && w.queues == v.queues && fd in v.table && fd !in gone
    ensures Closed(v, Close(w, fd), gone + {fd, Peer(v, fd)}) && Close(w, fd).queues == v.queues
  {
    CloseOneMore(v, w, gone, fd);
    CloseTwice(v, w, Close(w, fd), gone, {fd, Peer(v, fd)});
  }

  /** The second loop: closing one more connection, unless it went with its peer before. */
  lemma CloseNext(v: View, w: View, gone: set<int>, fd: int)
    requires Linked(v) && Closed(v, w, gone) && w.queues == v.queues && fd in v.table
    ensures Closed(v, Close(w, fd), gone + {fd, Peer(v, fd)}) && Close(w, fd).queues == v.queues
    ensures fd in w.table <==> fd !in gone
  {
    if fd in gone {
      assert gone + {fd, Peer(v, fd)} == gone;
    } else {
      CloseOther(v, w, gone, fd);
    }
  }

  lemma CloseTwice(v: View, w: View, x: View, gone: set<int>, more: set<int>)
    requires Closed(v, w, gone) && Closed(w, x, more)
    requires forall f :: f in more ==> f in v.table && Peer(v, f) in more
    ensures Closed(v, x, gone + more)
  {
    assert v.table - gone - more == v.table - (gone + more);
    assert v.unintercepted - gone - more == v.unintercepted - (gone + more);
  }

  lemma GoneIsTouching(v: View, node: Addr, gone: set<int>)
    requires Linked(v) && gone <= v.table.Keys
    requires forall f :: f in v.table && v.table[f].channel.first == node ==> f in gone && Peer(v, f) in gone
    requires forall f :: f in gone ==> v.table[f].channel.Touches(node)
    ensures gone == Touching(v, node)
  {
    forall f | f in Touching(v, node) ensures f in gone {
      PeersMatch(v, f, f);
      assert Peer(v, Peer(v, f)) == f;
    }
    forall f | f in gone ensures f in Touching(v, node) {}
  }

  /** Both loops together come to Recover. */
  lemma LoopsRecover(v: View, w: View, node: Addr)
    requires Linked(v)
    requires var r := ResetSeen(v, node, v.table.Keys); Closed(r, w, Touching(v, node)) && w.queues == r.queues
    ensures w == Recover(v, node)
  {
    var r, x := ResetSeen(v, node, v.table.Keys), Recover(v, node);
    ResetTable(v, node);
    ResetQueues(v, node);
    assert w.fds == x.fds;
  }

  lemma ResetTable(v: View, node: Addr)
    ensures ResetSeen(v, node, v.table.Keys).table - Touching(v, node) == Recover(v, node).table
  {
    var r, x := ResetSeen(v, node, v.table.Keys), Recover(v, node);
    var t := r.table - Touching(v, node);
    forall f | f in v.table && f !in Touching(v, node) ensures r.table[f] == v.table[f] {}
    assert t.Keys == x.table.Keys;
    assert t == x.table;
  }

  lemma ResetQueues(v: View, node: Addr)
    ensures ResetSeen(v, node, v.table.Keys).queues == Recover(v, node).queues
  {
    var r, x := ResetSeen(v, node, v.table.Keys), Recover(v, node);
    forall ch | ch in v.queues ensures r.queues[ch] == x.queues[ch] {
      assert HasChannel(v.table, ch) <==> exists f :: f in v.table.Keys && f in v.table && v.table[f].channel == ch;
    }
    assert r.queues == x.queues;
  }

  /** What the second loop has closed after the first i entries of its list. */
  ghost predicate GoneSoFar(v: View, node: Addr, list: seq<int>, i: nat, gone: set<int>)
    requires i <= |list|
  {
    && (forall f :: f in gone ==>
         f in v.table && v.table[f].channel.Touches(node)
         && exists j :: 0 <= j < i && list[j] in v.table && (f == list[j] || f == Peer(v, list[j])))
    && (forall j :: 0 <= j < i && list[j] in v.table ==> list[j] in gone && Peer(v, list[j]) in gone)
  }

  /** Some entry before position i had been closed already, as the peer of an earlier one. */
  ghost predicate ClosedBefore(v: View, list: seq<int>, i: nat)
    requires i <= |list|
  {
    exists j, k :: 0 <= j < k < i && list[j] in v.table && list[k] == Peer(v, list[j])
  }

  /** The list of the first loop: every entry with the node at its own end, once. */
  ghost predicate Listed(v: View, node: Addr, list: seq<int>, seen: set<int>) {
    && (forall j, k :: 0 <= j < k < |list| ==> list[j] != list[k])
    && (forall f :: f in list <==> f in seen && f in v.table && v.table[f].channel.first == node)
  }

  lemma GoneNext(v: View, node: Addr, list: seq<int>, i: nat, gone: set<int>)
    requires Linked(v) && i < |list| && list[i] in v.table && v.table[list[i]].channel.first == node
    requires GoneSoFar(v, node, list, i, gone)
    ensures GoneSoFar(v, node, list, i + 1, gone + {list[i], Peer(v, list[i])})
  {
    var more := gone + {list[i], Peer(v, list[i])};
    PeersMatch(v, list[i], list[i]);
    forall f | f in more
      ensures f in v.table && v.table[f].channel.Touches(node)
      ensures exists j :: 0 <= j < i + 1 && list[j] in v.table && (f == list[j] || f == Peer(v, list[j]))
    {
      if f !in gone {
        assert f == list[i] || f == Peer(v, list[i]);
      }
    }
  }

  lemma ClosedBeforeNext(v: View, node: Addr, list: seq<int>, i: nat, gone: set<int>)
    requires Listed(v, node, list, v.table.Keys) && i < |list| && GoneSoFar(v, node, list, i, gone)
    ensures ClosedBefore(v, list, i + 1) <==> ClosedBefore(v, list, i) || list[i] in gone
  {
    if list[i] in gone {
      var j :| 0 <= j < i && list[j] in v.table && (list[i] == list[j] || list[i] == Peer(v, list[j]));
      assert list[i] == Peer(v, list[j]);
    }
    if ClosedBefore(v, list, i + 1) && !ClosedBefore(v, list, i) {
      var j, k :| 0 <= j < k < i + 1 && list[j] in v.table && list[k] == Peer(v, list[j]);
      assert k == i;
    }
  }

  lemma CloseListedNext(v: View, w: View, node: Addr, list: seq<int>, i: nat, gone: set<int>) returns (more: set<int>)
    requires Linked(v) && Listed(v, node, list, v.table.Keys) && i < |list|
    requires Closed(v, w, gone) && w.queues == v.queues && GoneSoFar(v, node, list, i, gone)
    ensures Linked(w)
    ensures Closed(v, Close(w, list[i]), more) && Close(w, list[i]).queues == v.queues
    ensures GoneSoFar(v, node, list, i + 1, more)
    ensures ClosedBefore(v, list, i + 1) <==> ClosedBefore(v, list, i) || list[i] !in w.table
  {
    assert list[i] in list;
    more := gone + {list[i], Peer(v, list[i])};
    GoneNext(v, node, list, i, gone);
    ClosedBeforeNext(v, node, list, i, gone);
    ClosedPaired(v, w, gone);
    CloseNext(v, w, gone, list[i]);
  }

  /** A descriptor comes up twice exactly when some connection runs from the node to itself. */
  lemma ClosedBeforeMeans(v: View, node: Addr, list: seq<int>)
    requires Linked(v) && Listed(v, node, list, v.table.Keys)
    ensures ClosedBefore(v, list, |list|) <==> HasChannel(v.table, Channel(node, node))
  {
    if ClosedBefore(v, list, |list|) {
      var j, k :| 0 <= j < k < |list| && list[j] in v.table && list[k] == Peer(v, list[j]);
      assert list[j] in list && list[k] in list;
      PeersMatch(v, list[j], list[j]);
      assert v.table[list[j]].channel == Channel(node, node);
    }
    if HasChannel(v.table, Channel(node, node)) {
      var f :| f in v.table && v.table[f].channel == Channel(node, node);
      PeersMatch(v, f, f);
      var p := Peer(v, f);
      PeersMatch(v, f, p);
      assert f in list && p in list;
      var a :| 0 <= a < |list| && list[a] == f;
      var b :| 0 <= b < |list| && list[b] == p;
      assert Peer(v, p) == f;
      assert a < b ==> list[b] == Peer(v, list[a]);
      assert b < a ==> list[a] == Peer(v, list[b]);
    }
  }

  /** The second loop. */
  function CloseAll(v: View, list: seq<int>): View {
    if list == [] then v else Close(CloseAll(v, list[..|list| - 1]), list[|list| - 1])
  }

  /** How often it closes a descriptor that is no longer in the table. */
  function Strays(v: View, list: seq<int>): nat {
    if list == [] then 0
    else
      var init, last := list[..|list| - 1], list[|list| - 1];
      Strays(v, init) + if last in CloseAll(v, init).table then 0 else 1
  }

  lemma CloseAllNext(v: View, list: seq<int>, i: nat)
    requires i < |list|
    ensures CloseAll(v, list[..i + 1]) == Close(CloseAll(v, list[..i]), list[i])
    ensures Strays(v, list[..i + 1]) == Strays(v, list[..i]) + if list[i] in CloseAll(v, list[..i]).table then 0 else 1
  {
    assert list[..i + 1][..i] == list[..i];
  }

  /** The second loop after i entries: what is closed, and whether an entry had gone before its turn. */
  ghost predicate ClosedSoFar(v: View, node: Addr, list: seq<int>, i: nat, gone: set<int>, w: View, strays: nat) {
    && i <= |list|
    && Closed(v, w, gone) && w.queues == v.queues
    && GoneSoFar(v, node, list, i, gone)
    && (strays == 0 <==> !ClosedBefore(v, list, i))
  }

  lemma ClosedSoFarNext(v: View, node: Addr, list: seq<int>, i: nat, gone: set<int>, w: View, strays: nat)
    returns (more: set<int>)
    requires Linked(v) && Listed(v, node, list, v.table.Keys) && i < |list|
    requires ClosedSoFar(v, node, list, i, gone, w, strays)
    ensures ClosedSoFar(v, node, list, i + 1, more, Close(w, list[i]), strays + if list[i] in w.table then 0 else 1)
  {
    more := CloseListedNext(v, w, node, list, i, gone);
  }

  lemma NothingClosed(v: View, node: Addr, list: seq<int>)
    ensures ClosedSoFar(v, node, list, 0, {}, v, 0)
  {
    assert v.table - {} == v.table && v.unintercepted - {} == v.unintercepted;
  }

  lemma CloseAllStep(v: View, node: Addr, list: seq<int>, i: nat, before: set<int>) returns (gone: set<int>)
    requires Linked(v) && Listed(v, node, list, v.table.Keys) && i < |list|
    requires ClosedSoFar(v, node, list, i, before, CloseAll(v, list[..i]), Strays(v, list[..i]))
    ensures ClosedSoFar(v, node, list, i + 1, gone, CloseAll(v, list[..i + 1]), Strays(v, list[..i + 1]))
  {
    gone := ClosedSoFarNext(v, node, list, i, before, CloseAll(v, list[..i]), Strays(v, list[..i]));
    CloseAllNext(v, list, i);
  }

  lemma {:induction false} CloseAllSoFar(v: View, node: Addr, list: seq<int>, i: nat) returns (gone: set<int>)
    requires Linked(v) && Listed(v, node, list, v.table.Keys) && i <= |list|
    ensures ClosedSoFar(v, node, list, i, gone, CloseAll(v, list[..i]), Strays(v, list[..i]))
  {
    if i == 0 {
      NothingClosed(v, node, list);
      assert list[..0] == [];
      gone := {};
    } else {
      var before := CloseAllSoFar(v, node, list, i - 1);
      gone := CloseAllStep(v, node, list, i - 1, before);
    }
  }

  lemma CloseAllLinked(v: View, node: Addr, list: seq<int>, i: nat)
    requires Linked(v) && Listed(v, node, list, v.table.Keys) && i <= |list|
    ensures Linked(CloseAll(v, list[..i]))
  {
    var gone := CloseAllSoFar(v, node, list, i);
    ClosedPaired(v, CloseAll(v, list[..i]), gone);
  }

  lemma ResetNone(v: View, node: Addr)
    ensures ResetSeen(v, node, {}) == v && Listed(v, node, [], {})
  {
    assert ResetSeen(v, node, {}).table == v.table;
    assert ResetSeen(v, node, {}).queues == v.queues;
  }

  lemma ListedNext(v: View, node: Addr, list: seq<int>, seen: set<int>, fd: int)
    requires Listed(v, node, list, seen) && fd in v.table && fd !in seen
    ensures Listed(v, node, if v.table[fd].channel.first == node then list + [fd] else list, seen + {fd})
  {
  }

  lemma FinishRecovery(v: View, node: Addr, list: seq<int>, gone: set<int>)
    requires Linked(v)
    requires var r := ResetSeen(v, node, v.table.Keys);
             Listed(r, node, list, r.table.Keys) && GoneSoFar(r, node, list, |list|, gone)
    ensures gone == Touching(v, node)
    ensures HasChannel(v.table, Channel(node, node))
            <==> HasChannel(ResetSeen(v, node, v.table.Keys).table, Channel(node, node))
  {
    var r := ResetSeen(v, node, v.table.Keys);
    forall f | f in v.table && v.table[f].channel.first == node ensures f in gone && Peer(v, f) in gone {
      assert f in list;
      assert Peer(r, f) == Peer(v, f);
    }
    forall f | f in gone ensures f in v.table && v.table[f].channel.Touches(node) {
      assert f in r.table;
    }
    GoneIsTouching(v, node, gone);
    if HasChannel(v.table, Channel(node, node)) {
      var f :| f in v.table && v.table[f].channel == Channel(node, node);
      assert r.table[f].channel == Channel(node, node);
    }
  }

  /** Both loops of recover come to Recover, and close a descriptor twice exactly when the node is connected with
      itself. */
  lemma RecoverLoops(v: View, node: Addr, list: seq<int>)
    requires Linked(v)
    requires var r := ResetSeen(v, node, v.table.Keys); Listed(r, node, list, r.table.Keys)
    ensures CloseAll(ResetSeen(v, node, v.table.Keys), list) == Recover(v, node)
    ensures Strays(ResetSeen(v, node, v.table.Keys), list) == 0 <==> !HasChannel(v.table, Channel(node, node))
  {
    var r := ResetSeen(v, node, v.table.Keys);
    ResetLinked(v, node, v.table.Keys);
    assert list[..|list|] == list;
    var gone := CloseAllSoFar(r, node, list, |list|);
    ClosedBeforeMeans(r, node, list);
    FinishRecovery(v, node, list, gone);
    LoopsRecover(v, CloseAll(r, list), node);
  }

  // ---- Partitioning, as the loop of the source goes

  /** The loop has seen some entries: those with the node at their own end are tagged, with their peers. */
  ghost function TagSeen(v: View, node: Addr, seen: set<int>): View {
    v.(table := map f | f in v.table ::
         if (f in seen && v.table[f].channel.first == node)
            || (Peer(v, f) in seen && Peer(v, f) in v.table && v.table[Peer(v, f)].channel.first == node)
         then v.table[f].(disconnected := true) else v.table[f])
  }

  lemma TagSeenLinked(v: View, node: Addr, seen: set<int>)
    requires Linked(v)
    ensures Linked(TagSeen(v, node, seen))
  {
  }

  lemma TagSeenAt(v: View, node: Addr, seen: set<int>, fd: int, f: int)
    requires Linked(v) && fd in v.table && f in v.table
    ensures TagSeen(v, node, seen + {fd}).table[f] ==
            if v.table[fd].channel.first == node && (f == fd || f == Peer(v, fd))
            then v.table[f].(disconnected := true) else TagSeen(v, node, seen).table[f]
  {
    PeersMatch(v, f, fd);
  }

  lemma TagNext(v: View, node: Addr, seen: set<int>, fd: int)
    requires Linked(v) && fd in v.table
    ensures TagSeen(v, node, seen + {fd}) ==
            if v.table[fd].channel.first == node then Tag(TagSeen(v, node, seen), fd) else TagSeen(v, node, seen)
  {
    var w, x := TagSeen(v, node, seen), TagSeen(v, node, seen + {fd});
    var y := if v.table[fd].channel.first == node then Tag(w, fd) else w;
    TagSeenLinked(v, node, seen);
    assert Peer(w, fd) == Peer(v, fd);
    forall f | f in v.table ensures f in y.table && x.table[f] == y.table[f] {
      TagSeenAt(v, node, seen, fd, f);
      TagAt(w, fd, f);
    }
    TagTable(w, fd);
    assert x.table == y.table;
  }

  lemma TagAt(v: View, fd: int, f: int)
    requires Linked(v) && fd in v.table && f in v.table
    ensures f in Tag(v, fd).table
    ensures Tag(v, fd).table[f] == if f == fd || f == Peer(v, fd) then v.table[f].(disconnected := true) else v.table[f]
  {
    TagTable(v, fd);
  }

  lemma TagAll(v: View, node: Addr)
    requires Linked(v)
    ensures TagSeen(v, node, v.table.Keys) == Partition(v, node)
  {
    var w := TagSeen(v, node, v.table.Keys);
    forall f | f in v.table ensures w.table[f] == Partition(v, node).table[f] {
      PeersMatch(v, f, f);
    }
    assert w.table == Partition(v, node).table;
  }
}
