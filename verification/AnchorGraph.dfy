// The nodes and links of the allocation network: which there are, and that each is listed once.
module AnchorGraph {
  import opened Sums
  import opened Anchors
  import opened AnchorNetwork

  // --- Nodes ---

  function CellNodes(cells: seq<Cell>): seq<NodeKey> {
    seq(|cells|, i requires 0 <= i < |cells| => CellNode(cells[i]))
  }

  function BinNodes(bins: seq<Bin>): seq<NodeKey> {
    seq(|bins|, i requires 0 <= i < |bins| => BinNode(bins[i]))
  }

  function TraceNodes(traces: seq<string>): seq<NodeKey> {
    seq(|traces|, i requires 0 <= i < |traces| => TraceNode(traces[i]))
  }

  function NodeKeys(P: Pools): seq<NodeKey>
    requires PoolsOk(P)
  {
    [SourceNode, SinkNode] + CellNodes(P.cells) + BinNodes(Bins(P)) + TraceNodes(P.traces)
  }

  // node_index inverts the node list.
  ghost predicate Indexes(keys: seq<NodeKey>, index: map<NodeKey, nat>) {
    && (forall i :: 0 <= i < |keys| ==> keys[i] in index && index[keys[i]] == i)
    && (forall k :: k in index ==> index[k] < |keys| && keys[index[k]] == k)
  }

  lemma KeysDistinct(P: Pools)
    requires PoolsOk(P)
    ensures Distinct(NodeKeys(P))
  {
    BinsDistinct(P, |P.cells|);
    var ends: seq<NodeKey> := [SourceNode, SinkNode];
    DistinctAppend(ends, CellNodes(P.cells));
    DistinctAppend(ends + CellNodes(P.cells), BinNodes(Bins(P)));
    DistinctAppend(ends + CellNodes(P.cells) + BinNodes(Bins(P)), TraceNodes(P.traces));
  }

  lemma KeyMembers(P: Pools)
    requires PoolsOk(P)
    ensures SourceNode in NodeKeys(P) && SinkNode in NodeKeys(P)
    ensures forall c :: CellNode(c) in NodeKeys(P) <==> c in P.cells
    ensures forall b :: BinNode(b) in NodeKeys(P) <==> b in Bins(P)
    ensures forall t :: TraceNode(t) in NodeKeys(P) <==> t in P.traces
  {
    var keys := NodeKeys(P);
    var ends: seq<NodeKey> := [SourceNode, SinkNode];
    var cells, bins, traces := CellNodes(P.cells), BinNodes(Bins(P)), TraceNodes(P.traces);
    assert keys == ends + (cells + (bins + traces));
    assert ends[0] in keys && ends[1] in keys;
    forall c
      ensures CellNode(c) in keys <==> c in P.cells
    {
      if c in P.cells {
        var i :| 0 <= i < |P.cells| && P.cells[i] == c;
        assert cells[i] == CellNode(c);
      }
    }
    forall b
      ensures BinNode(b) in keys <==> b in Bins(P)
    {
      if b in Bins(P) {
        var i :| 0 <= i < |Bins(P)| && Bins(P)[i] == b;
        assert bins[i] == BinNode(b);
      }
    }
    forall t
      ensures TraceNode(t) in keys <==> t in P.traces
    {
      if t in P.traces {
        var i :| 0 <= i < |P.traces| && P.traces[i] == t;
        assert traces[i] == TraceNode(t);
      }
    }
  }

  // --- Which links there are ---

  ghost predicate Fits(P: Pools, l: Link)
    requires PoolsOk(P)
  {
    match l
    case Supply(c) => c in P.cells
    case Marginal(b, m) => b in Bins(P) && m < 4
    case Choice(x) => x in All(P)
    case Use(t) => t in P.traces
  }

  lemma {:induction false} InStrataLinks(cell: Cell, strata: seq<Stratum>, l: Link)
    ensures l in StrataLinks(cell, strata) <==>
            l.Marginal? && l.bin.cell == cell && l.bin.stratum in strata && l.index < 4
  {
    if |strata| > 0 {
      InStrataLinks(cell, strata[..|strata| - 1], l);
      var b := Bin(cell, strata[|strata| - 1]);
      assert l in BinLinks(b) <==> l.Marginal? && l.bin == b && l.index < 4 by {
        var links := BinLinks(b);
        assert links[0] in links && links[1] in links && links[2] in links && links[3] in links;
      }
    }
  }

  lemma InChoiceLinks(pool: seq<Candidate>, l: Link)
    ensures l in ChoiceLinks(pool) <==> l.Choice? && l.x in pool
  {
    if l.Choice? && l.x in pool {
      var i :| 0 <= i < |pool| && pool[i] == l.x;
      assert ChoiceLinks(pool)[i] == l;
    }
  }

  lemma InUseLinks(traces: seq<string>, l: Link)
    ensures l in UseLinks(traces) <==> l.Use? && l.traceId in traces
  {
    if l.Use? && l.traceId in traces {
      var i :| 0 <= i < |traces| && traces[i] == l.traceId;
      assert UseLinks(traces)[i] == l;
    }
  }

  lemma InCellLinks(P: Pools, c: nat, l: Link)
    requires PoolsOk(P) && c < |P.cells|
    ensures l in CellLinks(P, c) <==>
            || l == Supply(P.cells[c])
            || (l.Marginal? && l.bin.cell == P.cells[c] && l.bin.stratum in P.strata[c] && l.index < 4)
            || (l.Choice? && l.x in P.pool[c])
  {
    InStrataLinks(P.cells[c], P.strata[c], l);
    InChoiceLinks(P.pool[c], l);
  }

  lemma {:induction false} InLinksUpTo(P: Pools, n: nat, l: Link)
    requires PoolsOk(P) && n <= |P.cells|
    ensures l in LinksUpTo(P, n) <==> exists c :: 0 <= c < n && l in CellLinks(P, c)
  {
    if n > 0 {
      InLinksUpTo(P, n - 1, l);
    }
  }

  lemma InLinks(P: Pools, l: Link)
    requires PoolsOk(P)
    ensures l in Links(P) <==> Fits(P, l)
  {
    var n := |P.cells|;
    InLinksUpTo(P, n, l);
    InUseLinks(P.traces, l);
    if l in LinksUpTo(P, n) {
      var c :| 0 <= c < n && l in CellLinks(P, c);
      InCellLinks(P, c, l);
    }
    match l
    case Supply(cell) =>
      if cell in P.cells {
        var c :| 0 <= c < n && P.cells[c] == cell;
        InCellLinks(P, c, l);
      }
    case Marginal(b, m) =>
      InBinsUpTo(P, n, b);
      if b in Bins(P) && m < 4 {
        var c :| 0 <= c < n && b.cell == P.cells[c] && b.stratum in P.strata[c];
        InCellLinks(P, c, l);
      }
    case Choice(x) =>
      InAllUpTo(P, n, x);
      if x in All(P) {
        var c :| 0 <= c < n && x in P.pool[c];
        InCellLinks(P, c, l);
      }
    case Use(_) =>
  }

  // --- No link is added twice ---

  lemma {:induction false} StrataLinksDistinct(cell: Cell, strata: seq<Stratum>)
    requires Distinct(strata)
    ensures Distinct(StrataLinks(cell, strata))
  {
    if |strata| > 0 {
      var front, b := strata[..|strata| - 1], Bin(cell, strata[|strata| - 1]);
      StrataLinksDistinct(cell, front);
      forall l | l in StrataLinks(cell, front)
        ensures l !in BinLinks(b)
      {
        InStrataLinks(cell, front, l);
      }
      DistinctAppend(StrataLinks(cell, front), BinLinks(b));
    }
  }

  lemma CellLinksDistinct(P: Pools, c: nat)
    requires PoolsOk(P) && c < |P.cells|
    ensures Distinct(CellLinks(P, c))
  {
    assert PoolOk(P, c);
    var supply, strata, choices := [Supply(P.cells[c])], StrataLinks(P.cells[c], P.strata[c]), ChoiceLinks(P.pool[c]);
    StrataLinksDistinct(P.cells[c], P.strata[c]);
    forall l | l in supply
      ensures l !in strata
    {
      InStrataLinks(P.cells[c], P.strata[c], l);
    }
    DistinctAppend(supply, strata);
    forall l | l in supply + strata
      ensures l !in choices
    {
      InStrataLinks(P.cells[c], P.strata[c], l);
      InChoiceLinks(P.pool[c], l);
    }
    DistinctAppend(supply + strata, choices);
  }

  ghost function HomeCell(l: Link): Cell
    requires !l.Use?
  {
    match l
    case Supply(cell) => cell
    case Marginal(b, _) => b.cell
    case Choice(x) => CellOf(x)
  }

  lemma HomeOfCellLink(P: Pools, c: nat, l: Link)
    requires PoolsOk(P) && c < |P.cells| && l in CellLinks(P, c)
    ensures !l.Use? && HomeCell(l) == P.cells[c]
  {
    InCellLinks(P, c, l);
    assert PoolOk(P, c);
  }

  lemma {:induction false} LinksUpToDistinct(P: Pools, n: nat)
    requires PoolsOk(P) && n <= |P.cells|
    ensures Distinct(LinksUpTo(P, n))
  {
    if n > 0 {
      LinksUpToDistinct(P, n - 1);
      CellLinksDistinct(P, n - 1);
      var before, here := LinksUpTo(P, n - 1), CellLinks(P, n - 1);
      forall l | l in before
        ensures l !in here
      {
        InLinksUpTo(P, n - 1, l);
        var c :| 0 <= c < n - 1 && l in CellLinks(P, c);
        HomeOfCellLink(P, c, l);
        if l in here {
          HomeOfCellLink(P, n - 1, l);
        }
      }
      DistinctAppend(before, here);
    }
  }

  lemma LinksDistinct(P: Pools)
    requires PoolsOk(P)
    ensures Distinct(Links(P))
  {
    var n := |P.cells|;
    LinksUpToDistinct(P, n);
    var before, uses := LinksUpTo(P, n), UseLinks(P.traces);
    forall l | l in before
      ensures l !in uses
    {
      InLinksUpTo(P, n, l);
      var c :| 0 <= c < n && l in CellLinks(P, c);
      HomeOfCellLink(P, c, l);
      InUseLinks(P.traces, l);
    }
    DistinctAppend(before, uses);
  }
}
