// The frozen manifest and validate_anchor_manifest.
module AnchorManifests {
  import opened Options
  import opened Sums
  import opened Anchors
  import opened AnchorNetwork

  datatype FrozenAnchor = FrozenAnchor(
    anchorId: string,
    traceId: string,
    sentenceClass: string,
    direction: string,
    sentenceIndex: nat,
    sentenceText: string,
    charStart: nat,
    charEnd: nat,
    initialSide: string,
    finalFlip: bool,
    provenance: string)

  datatype Manifest = Manifest(
    anchors: seq<FrozenAnchor>,
    classes: seq<string>,
    directions: seq<string>,
    perCell: int,
    seed: string,
    selectionHash: string)

  // The uninterpreted content hashes of a candidate and of a manifest.
  datatype ContentHash = ContentHash(anchorId: Candidate -> string, digest: Manifest -> string)

  // The candidate rebuilt from an anchor: eligible by default.
  function Thaw(a: FrozenAnchor): Candidate {
    Candidate(a.traceId, a.sentenceClass, a.direction, a.sentenceIndex, a.sentenceText, a.charStart, a.charEnd,
              a.initialSide, a.finalFlip, true, a.provenance)
  }

  function Freeze(h: ContentHash, x: Candidate): FrozenAnchor {
    FrozenAnchor(h.anchorId(x.(eligible := true)), x.traceId, x.sentenceClass, x.direction, x.sentenceIndex,
                 x.sentenceText, x.charStart, x.charEnd, x.initialSide, x.finalFlip, x.provenance)
  }

  function FreezeAll(h: ContentHash, xs: seq<Candidate>): seq<FrozenAnchor> {
    seq(|xs|, i requires 0 <= i < |xs| => Freeze(h, xs[i]))
  }

  function ThawAll(anchors: seq<FrozenAnchor>): seq<Candidate> {
    seq(|anchors|, i requires 0 <= i < |anchors| => Thaw(anchors[i]))
  }

  // What AnchorCandidate's constructor enforces.
  predicate WellFormed(x: Candidate) {
    && x.traceId != "" && x.sentenceClass != "" && x.direction != "" && x.initialSide != ""
    && x.charStart < x.charEnd && x.charEnd - x.charStart == |x.sentenceText|
  }

  predicate ValidDesign(classes: seq<string>, directions: seq<string>, perCell: int) {
    && |classes| == 3 && classes[0] != classes[1] && classes[0] != classes[2] && classes[1] != classes[2]
    && classes[0] != "" && classes[1] != "" && classes[2] != ""
    && |directions| == 2 && directions[0] != directions[1] && directions[0] != "" && directions[1] != ""
    && perCell == ANCHORS_PER_CELL
  }

  // A candidate has its four names, and some source text has its sentence at its offsets.
  lemma WellFormedIff(x: Candidate)
    ensures WellFormed(x) <==>
            && "" !in [x.traceId, x.sentenceClass, x.direction, x.initialSide]
            && exists source: string ::
                 x.charStart < x.charEnd <= |source| && source[x.charStart..x.charEnd] == x.sentenceText
  {
    var names := [x.traceId, x.sentenceClass, x.direction, x.initialSide];
    assert names[0] in names && names[1] in names && names[2] in names && names[3] in names;
    if WellFormed(x) {
      var source := seq(x.charStart, _ => ' ') + x.sentenceText;
      assert source[x.charStart..x.charEnd] == x.sentenceText;
    }
  }

  // Three classes and two directions, each named and none twice, and four anchors to a cell.
  lemma DesignIff(classes: seq<string>, directions: seq<string>, perCell: int)
    ensures ValidDesign(classes, directions, perCell) <==>
            && |classes| == 3 && Distinct(classes) && "" !in classes
            && |directions| == 2 && Distinct(directions) && "" !in directions && perCell == 4
  {
    if |classes| == 3 && |directions| == 2 {
      assert "" in classes <==> classes[0] == "" || classes[1] == "" || classes[2] == "";
      assert "" in directions <==> directions[0] == "" || directions[1] == "";
    }
  }

  // The six cells, class by class: every class with every direction.
  function CellsOf(classes: seq<string>, directions: seq<string>): (cells: seq<Cell>)
    requires |classes| == 3 && |directions| == 2
    ensures |cells| == 6
    ensures forall k :: 0 <= k < 6 ==>
              cells[k].sentenceClass == classes[k / 2] && cells[k].direction == directions[k % 2]
  {
    [Cell(classes[0], directions[0]), Cell(classes[0], directions[1]),
     Cell(classes[1], directions[0]), Cell(classes[1], directions[1]),
     Cell(classes[2], directions[0]), Cell(classes[2], directions[1])]
  }

  datatype ManifestError =
    | DesignError | AnchorCount | RepeatedTrace | UndeclaredCell(cell: Cell) | MalformedAnchor
    | InvalidContentId(traceId: string) | CellCount | HashMismatch

  ghost predicate ManifestValid(h: ContentHash, man: Manifest) {
    && ValidDesign(man.classes, man.directions, man.perCell)
    && (var xs := ThawAll(man.anchors);
        && |xs| == REQUIRED
        && DistinctTraces(xs)
        && (forall x :: x in xs ==> CellOf(x) in CellsOf(man.classes, man.directions) && WellFormed(x))
        && (forall i :: 0 <= i < |xs| ==> man.anchors[i].anchorId == h.anchorId(xs[i]))
        && (forall c :: c in CellsOf(man.classes, man.directions) ==> CountCell(xs, c) == ANCHORS_PER_CELL))
    && man.selectionHash == h.digest(man.(selectionHash := ""))
  }

  // len(set(ids)) != len(ids)
  method TracesRepeat(anchors: seq<FrozenAnchor>) returns (repeated: bool)
    ensures repeated <==> !DistinctTraces(ThawAll(anchors))
  {
    var seen: set<string> := {};
    var i := 0;
    while i < |anchors|
      invariant i <= |anchors|
      invariant forall j, k :: 0 <= j < k < i ==> anchors[j].traceId != anchors[k].traceId
      invariant forall t :: t in seen <==> exists j :: 0 <= j < i && anchors[j].traceId == t
    {
      if anchors[i].traceId in seen {
        var j :| 0 <= j < i && anchors[j].traceId == anchors[i].traceId;
        assert ThawAll(anchors)[j].traceId == ThawAll(anchors)[i].traceId;
        return true;
      }
      seen := seen + {anchors[i].traceId};
      i := i + 1;
    }
    return false;
  }

  ghost predicate AnchorOk(h: ContentHash, cells: seq<Cell>, a: FrozenAnchor) {
    CellOf(Thaw(a)) in cells && WellFormed(Thaw(a)) && a.anchorId == h.anchorId(Thaw(a))
  }

  // The loop over the anchors: each is checked and counted in its cell.
  method CheckAnchors(h: ContentHash, cells: seq<Cell>, anchors: seq<FrozenAnchor>)
    returns (error: Option<ManifestError>, counts: map<Cell, int>)
    ensures error.None? <==> forall i :: 0 <= i < |anchors| ==> AnchorOk(h, cells, anchors[i])
    ensures error.None? ==> forall c :: c in cells ==> c in counts && counts[c] == CountCell(ThawAll(anchors), c)
  {
    hide WellFormed;
    ghost var xs := ThawAll(anchors);
    counts := map c | c in cells :: 0;
    var i := 0;
    while i < |anchors|
      invariant i <= |anchors|
      invariant forall c :: c in counts <==> c in cells
      invariant forall c :: c in cells ==> counts[c] == CountCell(xs[..i], c)
      invariant forall k :: 0 <= k < i ==> AnchorOk(h, cells, anchors[k])
    {
      var candidate := Thaw(anchors[i]);
      if CellOf(candidate) !in counts {
        return Some(UndeclaredCell(CellOf(candidate))), counts;
      }
      CountNext(xs, i);
      counts := counts[CellOf(candidate) := counts[CellOf(candidate)] + 1];
      if !WellFormed(candidate) {
        return Some(MalformedAnchor), counts;
      }
      if anchors[i].anchorId != h.anchorId(candidate) {
        return Some(InvalidContentId(candidate.traceId)), counts;
      }
      i := i + 1;
    }
    assert xs[..i] == xs;
    return None, counts;
  }

  lemma CountNext(xs: seq<Candidate>, i: nat)
    requires i < |xs|
    ensures forall c :: CountCell(xs[..i + 1], c) == CountCell(xs[..i], c) + Ind(CellOf(xs[i]) == c)
  {
    assert xs[..i + 1][..i] == xs[..i];
  }

  method ValidateManifest(h: ContentHash, man: Manifest) returns (error: Option<ManifestError>)
    ensures error.None? <==> ManifestValid(h, man)
  {
    if !ValidDesign(man.classes, man.directions, man.perCell) {
      return Some(DesignError);
    }
    if |man.anchors| != REQUIRED {
      return Some(AnchorCount);
    }
    var repeated := TracesRepeat(man.anchors);
    if repeated {
      return Some(RepeatedTrace);
    }
    hide WellFormed, CellsOf, DistinctTraces;
    var cells := CellsOf(man.classes, man.directions);
    var counts;
    error, counts := CheckAnchors(h, cells, man.anchors);
    AnchorsOkTogether(h, cells, man.anchors);
    if error.Some? {
      return;
    }
    if exists c | c in cells :: counts[c] != man.perCell {
      return Some(CellCount);
    }
    if man.selectionHash != h.digest(man.(selectionHash := "")) {
      return Some(HashMismatch);
    }
  }

  lemma AnchorsOkTogether(h: ContentHash, cells: seq<Cell>, anchors: seq<FrozenAnchor>)
    ensures (forall i :: 0 <= i < |anchors| ==> AnchorOk(h, cells, anchors[i])) <==>
            var xs := ThawAll(anchors);
            && (forall x :: x in xs ==> CellOf(x) in cells && WellFormed(x))
            && (forall i :: 0 <= i < |xs| ==> anchors[i].anchorId == h.anchorId(xs[i]))
  {
    var xs := ThawAll(anchors);
    if (forall x :: x in xs ==> CellOf(x) in cells && WellFormed(x))
       && (forall i :: 0 <= i < |xs| ==> anchors[i].anchorId == h.anchorId(xs[i]))
    {
      forall i | 0 <= i < |anchors|
        ensures AnchorOk(h, cells, anchors[i])
      {
        assert xs[i] == Thaw(anchors[i]) && xs[i] in xs;
      }
    }
  }
}
