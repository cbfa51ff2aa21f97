/** What the connection list means: which pairs of nodes each operator connects. */
module Connectivity {
  import opened FifoNetwork

  lemma {:induction false} SelectSeqMembers<T>(s: seq<T>, test: T -> bool)
    ensures forall x :: x in SelectSeq(s, test) <==> x in s && test(x)
    ensures SelectSeq(s, test) == [] <==> forall x :: x in s ==> !test(x)
  {
    if s != [] {
      SelectSeqMembers(s[..|s| - 1], test);
      assert s == s[..|s| - 1] + [s[|s| - 1]];
    }
  }

  /** Being connected is sharing a set of the list. */
  lemma IsConnMeans(conn: seq<set<Node>>, a: Node, b: Node)
    ensures IsConn(conn, a, b) <==> exists p :: p in conn && a in p && b in p
  {
    SelectSeqMembers(conn, (p: set<Node>) => {a, b} <= p);
    assert forall p: set<Node> :: {a, b} <= p <==> a in p && b in p;
  }

  lemma AtMostOne(nodes: set<Node>, a: Node, b: Node)
    requires |nodes| <= 1 && a in nodes && b in nodes
    ensures a == b
  {
    assert |nodes - {a}| == 0;
    assert b !in nodes - {a};
  }

  lemma TwoMembers(nodes: set<Node>) returns (a: Node, b: Node)
    requires |nodes| >= 2
    ensures a in nodes && b in nodes && a != b
  {
    a :| a in nodes;
    assert |nodes - {a}| >= 1;
    b :| b in nodes - {a};
  }

  lemma AddConnMembers(nodes: set<Node>, conn: seq<set<Node>>, p: set<Node>)
    ensures p in AddConn(nodes, conn) <==>
            if |nodes| <= 1 || exists q :: q in conn && nodes <= q then p in conn
            else p == nodes || (p in conn && !(p <= nodes))
  {
    SelectSeqMembers(conn, (q: set<Node>) => nodes <= q);
    SelectSeqMembers(conn, (q: set<Node>) => !(q <= nodes));
  }

  lemma {:induction false} DelConnMembers(nodes: set<Node>, conn: seq<set<Node>>)
    ensures forall p :: p in DelConn(nodes, conn) <==> |p| > 1 && exists q :: q in conn && p == q - nodes
  {
    if conn != [] {
      var init, last := conn[..|conn| - 1], conn[|conn| - 1];
      DelConnMembers(nodes, init);
      assert conn == init + [last];
      forall p
        ensures p in DelConn(nodes, conn) <==> |p| > 1 && exists q :: q in conn && p == q - nodes
      {
        assert (exists q :: q in conn && p == q - nodes)
          <==> (exists q :: q in init && p == q - nodes) || p == last - nodes;
      }
    }
  }

  /** _AddConn connects exactly the old pairs and the pairs inside the given nodes. */
  lemma AddConnPairs(nodes: set<Node>, conn: seq<set<Node>>, a: Node, b: Node)
    requires a != b
    ensures IsConn(AddConn(nodes, conn), a, b) <==> IsConn(conn, a, b) || (a in nodes && b in nodes)
  {
    IsConnMeans(conn, a, b);
    IsConnMeans(AddConn(nodes, conn), a, b);
    forall p ensures p in AddConn(nodes, conn) <==>
        if |nodes| <= 1 || exists q :: q in conn && nodes <= q then p in conn
        else p == nodes || (p in conn && !(p <= nodes))
    {
      AddConnMembers(nodes, conn, p);
    }
    if a in nodes && b in nodes && |nodes| <= 1 {
      AtMostOne(nodes, a, b);
    }
  }

  /** _DelConn keeps exactly the old pairs that avoid the given nodes. */
  lemma DelConnPairs(nodes: set<Node>, conn: seq<set<Node>>, a: Node, b: Node)
    requires a != b
    ensures IsConn(DelConn(nodes, conn), a, b) <==> IsConn(conn, a, b) && a !in nodes && b !in nodes
  {
    IsConnMeans(conn, a, b);
    IsConnMeans(DelConn(nodes, conn), a, b);
    DelConnMembers(nodes, conn);
    if IsConn(conn, a, b) && a !in nodes && b !in nodes {
      var q :| q in conn && a in q && b in q;
      if |q - nodes| <= 1 {
        AtMostOne(q - nodes, a, b);
      }
      assert q - nodes in DelConn(nodes, conn);
    }
  }

  /** _PartConn gives exactly the pairs inside the given nodes and the old pairs fully outside them. */
  lemma PartConnPairs(nodes: set<Node>, conn: seq<set<Node>>, a: Node, b: Node)
    requires a != b
    ensures IsConn(PartConn(nodes, conn), a, b) <==>
            (a in nodes && b in nodes) || (IsConn(conn, a, b) && a !in nodes && b !in nodes)
  {
    DelConnPairs(nodes, conn, a, b);
    AddConnPairs(nodes, DelConn(nodes, conn), a, b);
  }

  // ---- Partitions stay partitions

  /** Pairwise disjoint groups of at least two of the nodes. */
  ghost predicate Groups(nodes: set<Node>, conn: seq<set<Node>>) {
    && (forall i, j :: 0 <= i < j < |conn| ==> conn[i] !! conn[j])
    && (forall p :: p in conn ==> p <= nodes)
    && (forall p :: p in conn ==> |p| > 1 || p == nodes)
  }

  lemma GroupsSnoc(nodes: set<Node>, conn: seq<set<Node>>, p: set<Node>)
    requires Groups(nodes, conn) && p <= nodes && (|p| > 1 || p == nodes)
    requires forall q :: q in conn ==> q !! p
    ensures Groups(nodes, conn + [p])
  {
    var more := conn + [p];
    forall i, j | 0 <= i < j < |more| ensures more[i] !! more[j] {
      assert more[i] == conn[i] && conn[i] in conn;
    }
  }

  lemma GroupsPrefix(nodes: set<Node>, init: seq<set<Node>>, last: set<Node>)
    requires Groups(nodes, init + [last])
    ensures Groups(nodes, init)
    ensures forall q :: q in init ==> q !! last
    ensures last <= nodes && (|last| > 1 || last == nodes)
  {
    var conn := init + [last];
    assert conn[|init|] == last && last in conn;
    forall i | 0 <= i < |init| ensures init[i] !! last && init[i] in conn {
      assert conn[i] == init[i] && conn[i] !! conn[|init|];
    }
    forall i, j | 0 <= i < j < |init| ensures init[i] !! init[j] {
      assert conn[i] !! conn[j];
    }
  }

  lemma {:induction false} SelectSeqGroups(nodes: set<Node>, conn: seq<set<Node>>, test: set<Node> -> bool)
    requires Groups(nodes, conn)
    ensures Groups(nodes, SelectSeq(conn, test))
  {
    if conn != [] {
      var init, last := conn[..|conn| - 1], conn[|conn| - 1];
      assert conn == init + [last];
      GroupsPrefix(nodes, init, last);
      SelectSeqGroups(nodes, init, test);
      SelectSeqMembers(init, test);
      if test(last) {
        GroupsSnoc(nodes, SelectSeq(init, test), last);
      }
    }
  }

  lemma {:induction false} DelConnGroups(nodes: set<Node>, conn: seq<set<Node>>, part: set<Node>)
    requires Groups(nodes, conn)
    ensures Groups(nodes, DelConn(part, conn))
    ensures forall p :: p in DelConn(part, conn) ==> p !! part
  {
    if conn != [] {
      var init, last := conn[..|conn| - 1], conn[|conn| - 1];
      assert conn == init + [last];
      GroupsPrefix(nodes, init, last);
      DelConnGroups(nodes, init, part);
      DelConnMembers(part, init);
      if |last - part| > 1 {
        GroupsSnoc(nodes, DelConn(part, init), last - part);
      }
    }
  }

  lemma PartConnGroups(nodes: set<Node>, conn: seq<set<Node>>, part: set<Node>)
    requires Groups(nodes, conn) && part <= nodes
    ensures Groups(nodes, PartConn(part, conn))
  {
    DelConnGroups(nodes, conn, part);
    var rest := DelConn(part, conn);
    SelectSeqGroups(nodes, rest, (p: set<Node>) => !(p <= part));
    SelectSeqMembers(rest, (p: set<Node>) => !(p <= part));
    if PartConn(part, conn) != rest {
      GroupsSnoc(nodes, SelectSeq(rest, (p: set<Node>) => !(p <= part)), part);
    }
  }

  /** In a list of groups, connectivity is symmetric and transitive. */
  lemma GroupsSymTrans(nodes: set<Node>, conn: seq<set<Node>>, a: Node, b: Node, c: Node)
    requires Groups(nodes, conn)
    ensures IsConn(conn, a, b) ==> IsConn(conn, b, a)
    ensures IsConn(conn, a, b) && IsConn(conn, b, c) ==> IsConn(conn, a, c)
  {
    IsConnMeans(conn, a, b);
    IsConnMeans(conn, b, a);
    IsConnMeans(conn, b, c);
    IsConnMeans(conn, a, c);
    if IsConn(conn, a, b) && IsConn(conn, b, c) {
      var i :| 0 <= i < |conn| && a in conn[i] && b in conn[i];
      var j :| 0 <= j < |conn| && b in conn[j] && c in conn[j];
      assert i == j;
    }
  }

  /** With two or more nodes the network is parted exactly when some pair is cut off. */
  lemma IsPartedMeans(net: Net)
    requires Groups(net.msgs.Keys, net.man.conn) && |net.msgs.Keys| >= 2
    ensures IsParted(net) <==>
            exists a, b :: a in net.msgs.Keys && b in net.msgs.Keys && a != b && !IsConn(net.man.conn, a, b)
  {
    var nodes, conn := net.msgs.Keys, net.man.conn;
    forall a, b
      ensures IsConn(conn, a, b) <==> exists p :: p in conn && a in p && b in p
    {
      IsConnMeans(conn, a, b);
    }
    if !IsParted(net) {
      assert nodes == conn[0];
    } else if conn == [] {
      var a, b := TwoMembers(nodes);
      assert !IsConn(conn, a, b);
    } else {
      assert conn[0] != nodes by {
        if |conn| > 1 {
          var a, _ := TwoMembersOfGroup(nodes, conn[1]);
          assert a !in conn[0];
        }
      }
      var a, _ := TwoMembersOfGroup(nodes, conn[0]);
      assert !(nodes <= conn[0]);
      var b :| b in nodes && b !in conn[0];
      assert !IsConn(conn, a, b);
    }
  }

  lemma TwoMembersOfGroup(nodes: set<Node>, p: set<Node>) returns (a: Node, b: Node)
    requires p <= nodes && |nodes| >= 2 && (|p| > 1 || p == nodes)
    ensures a in p && b in p && a != b
  {
    a, b := TwoMembers(p);
  }
}
