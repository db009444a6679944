/** The one-dimensional Cartesian mesh: real zones, nodes and corners with
 *  their connectivity, the optional ghost elements on either side, counts
 *  including ghosts, and lookups by id and by position. Element pointers
 *  are modelled as ids of real elements; lengths are exact reals. */
module CartesianMesh {
  import opened Wrappers
  import opened RealSums

  /** The exceptions the constructors and the lookups throw. */
  datatype MeshError =
    | BadMeshLength
    | BadMeshArea
    | ZeroZones
    | NegativeZoneLength(index: int, length: real)
    | ZoneDoesNotExist(zid: nat)
    | NodeDoesNotExist(nid: nat)
    | CornerDoesNotExist(cid: nat)

  /** A zone with its two nodes and two corners; None is a link not set. */
  datatype Zone = Zone(id: nat, length: real, area: real,
                       leftNode: Option<nat>, rightNode: Option<nat>,
                       leftCorner: Option<nat>, rightCorner: Option<nat>)

  /** A node at position x with the zones and corners on either side. */
  datatype Node = Node(id: nat, x: real,
                       leftZone: Option<nat>, rightZone: Option<nat>,
                       leftCorner: Option<nat>, rightCorner: Option<nat>)

  /** A corner: the half of a zone next to one of its nodes. */
  datatype Corner = Corner(id: nat, zone: Option<nat>, node: Option<nat>)

  /** A ghost element is an element of its own, with its own id, that
   *  mirrors the real element at index `ghosted`. */
  datatype GhostZone = GhostZone(zone: Zone, ghosted: nat)
  datatype GhostNode = GhostNode(node: Node, ghosted: nat)
  datatype GhostCorner = GhostCorner(corner: Corner, ghosted: nat)

  // ---------------------------------------------------------------------
  // Input checks

  /** The index of the first entry that is not positive. */
  function FirstNonPositive(s: seq<real>): (r: Option<nat>)
    ensures r.None? <==> forall i :: 0 <= i < |s| ==> s[i] > 0.0
    ensures r.Some? ==> r.value < |s| && s[r.value] <= 0.0
    ensures r.Some? ==> forall i :: 0 <= i < r.value ==> s[i] > 0.0
    decreases |s|
  {
    if s == [] then None
    else if s[0] <= 0.0 then Some(0)
    else match FirstNonPositive(s[1..])
      case None => None
      case Some(k) => Some(k + 1)
  }

  /** The checks of the uniform constructor, in the order it makes them. */
  function UniformChecks(length: real, area: real, n: nat): (r: Option<MeshError>)
    ensures r.None? <==> length > 0.0 && area > 0.0 && n > 0
    ensures length <= 0.0 ==> r == Some(BadMeshLength)
    ensures length > 0.0 && area <= 0.0 ==> r == Some(BadMeshArea)
  {
    if length <= 0.0 then Some(BadMeshLength)
    else if area <= 0.0 then Some(BadMeshArea)
    else if n == 0 then Some(ZeroZones)
    else None
  }

  /** The checks of the constructor from zone lengths; the mesh length is
   *  the sum of the zone lengths. A non-positive zone is reported with its
   *  index and its length. */
  function LengthsChecks(lengths: seq<real>, area: real): Option<MeshError>
  {
    if Sum(lengths) <= 0.0 then Some(BadMeshLength)
    else if area <= 0.0 then Some(BadMeshArea)
    else if |lengths| == 0 then Some(ZeroZones)
    else match FirstNonPositive(lengths)
      case Some(i) => Some(NegativeZoneLength(i, lengths[i]))
      case None => None
  }

  /** The number of values of the unsigned 32-bit zone id type. */
  const ID_RANGE: int := 0x1_0000_0000

  /** The same checks as the code writes them: the index of the bad zone is
   *  measured from the zone back to the first zone, so it comes out as
   *  minus the index, and storing it in the unsigned 32-bit id wraps it to
   *  2^32 minus the index. */
  function LengthsChecksAsWritten(lengths: seq<real>, area: real): (r: Option<MeshError>)
    ensures r.Some? && r.value.NegativeZoneLength? ==> 0 <= r.value.index < ID_RANGE
  {
    if Sum(lengths) <= 0.0 then Some(BadMeshLength)
    else if area <= 0.0 then Some(BadMeshArea)
    else if |lengths| == 0 then Some(ZeroZones)
    else match FirstNonPositive(lengths)
      case Some(i) => Some(NegativeZoneLength((ID_RANGE - i) % ID_RANGE, lengths[i]))
      case None => None
  }

  /** The two versions accept the same inputs and agree on every error but
   *  the non-positive zone, whose stored id is the two's complement of its
   *  index: the id plus the index is a multiple of 2^32, and the id is the
   *  index only for zone 0 and zone 2^31. The bad zone 1 of lengths [2, -1] is
   *  reported as zone 4294967295. */
  lemma NegatedZoneIndex(lengths: seq<real>, area: real)
    ensures LengthsChecksAsWritten(lengths, area).None? <==> LengthsChecks(lengths, area).None?
    ensures LengthsChecks(lengths, area).Some? && LengthsChecks(lengths, area).value.NegativeZoneLength? ==>
      var e, w := LengthsChecks(lengths, area).value, LengthsChecksAsWritten(lengths, area);
      && w.Some? && w.value.NegativeZoneLength? && w.value.length == e.length
      && (w.value.index + e.index) % ID_RANGE == 0
      && (e.index < ID_RANGE ==> (w.value.index == e.index <==> (2 * e.index) % ID_RANGE == 0))
    ensures LengthsChecks(lengths, area).Some? && !LengthsChecks(lengths, area).value.NegativeZoneLength? ==>
      LengthsChecksAsWritten(lengths, area) == LengthsChecks(lengths, area)
    ensures lengths == [2.0, -1.0] && area == 1.0 ==>
      LengthsChecks(lengths, area) == Some(NegativeZoneLength(1, -1.0)) &&
      LengthsChecksAsWritten(lengths, area) == Some(NegativeZoneLength(4294967295, -1.0))
  {
    if lengths == [2.0, -1.0] && area == 1.0 {
      assert Sum(lengths) == 1.0 by {
        var one := lengths[..|lengths| - 1];
        assert one == [2.0];
        assert one[..|one| - 1] == [];
        assert Sum(one) == 2.0;
      }
      FirstNonPositiveAt(lengths, 1);
    }
    var e := LengthsChecks(lengths, area);
    if e.Some? && e.value.NegativeZoneLength? {
      var i: int := e.value.index;
      var id := (ID_RANGE - i) % ID_RANGE;
      assert LengthsChecksAsWritten(lengths, area).value.index == id;
      if i < ID_RANGE {
        if i == 0 {
          assert id == 0;
        } else {
          assert id == ID_RANGE - i;
        }
      }
    }
  }

  /** The zone-length constructor accepts exactly a non-empty list of
   *  positive lengths over a positive area. */
  lemma LengthsChecksAccept(lengths: seq<real>, area: real)
    ensures LengthsChecks(lengths, area).None? <==>
      |lengths| > 0 && area > 0.0 && forall i :: 0 <= i < |lengths| ==> lengths[i] > 0.0
  {
    if |lengths| > 0 && area > 0.0 && forall i :: 0 <= i < |lengths| ==> lengths[i] > 0.0 {
      SumPositive(lengths);
    }
  }

  /** With a positive area and total length, a non-positive zone is
   *  reported by the index of the first one. */
  lemma LengthsChecksReject(lengths: seq<real>, area: real, i: nat)
    requires Sum(lengths) > 0.0 && area > 0.0
    requires i < |lengths| && lengths[i] <= 0.0
    requires forall j :: 0 <= j < i ==> lengths[j] > 0.0
    ensures LengthsChecks(lengths, area) == Some(NegativeZoneLength(i, lengths[i]))
  {
    FirstNonPositiveAt(lengths, i);
  }

  lemma {:induction false} FirstNonPositiveAt(s: seq<real>, i: nat)
    requires i < |s| && s[i] <= 0.0
    requires forall j :: 0 <= j < i ==> s[j] > 0.0
    ensures FirstNonPositive(s) == Some(i)
  {
    if i > 0 {
      FirstNonPositiveAt(s[1..], i - 1);
    }
  }

  /** n zones of length L/n. */
  function Uniform(length: real, n: nat): (s: seq<real>)
    ensures |s| == n
  {
    if n == 0 then [] else seq(n, _ => length / n as real)
  }

  /** The uniform zone lengths add up to the mesh length. */
  lemma UniformSum(length: real, n: nat)
    requires n > 0
    ensures Sum(Uniform(length, n)) == length
    ensures forall i :: 0 <= i < n ==> Uniform(length, n)[i] * n as real == length
  {
    SumConstant(Uniform(length, n), length / n as real);
  }

  // ---------------------------------------------------------------------
  // The real elements

  /** Zone i as created: its length and the mesh area, no links yet. */
  function CreatedZones(lengths: seq<real>, area: real): (zs: seq<Zone>)
    ensures |zs| == |lengths|
  {
    seq(|lengths|, i requires 0 <= i < |lengths| => Zone(i, lengths[i], area, None, None, None, None))
  }

  /** Node i as created: at x0 plus the first i zone lengths. */
  function CreatedNodes(lengths: seq<real>, x0: real): (ns: seq<Node>)
    ensures |ns| == |lengths| + 1
  {
    seq(|lengths| + 1, i requires 0 <= i <= |lengths| => Node(i, x0 + Sum(lengths[..i]), None, None, None, None))
  }

  /** Two corners per zone. */
  function CreatedCorners(n: nat): (cs: seq<Corner>)
    ensures |cs| == 2 * n
  {
    seq(2 * n, c requires 0 <= c < 2 * n => Corner(c, None, None))
  }

  /** Zone i links nodes i, i+1 and corners 2i, 2i+1. */
  function LinkZone(z: Zone, i: nat): Zone
  {
    z.(leftNode := Some(i), rightNode := Some(i + 1), leftCorner := Some(2 * i), rightCorner := Some(2 * i + 1))
  }

  /** Node i links zones i-1, i and corners 2i-1, 2i; the first node sets
   *  only its right links and the last node only its left links. */
  function LinkNode(v: Node, i: nat, last: nat): Node
  {
    if i == 0 then v.(rightZone := Some(0), rightCorner := Some(0))
    else if i == last then v.(leftZone := Some(i - 1), leftCorner := Some(2 * i - 1))
    else v.(leftZone := Some(i - 1), rightZone := Some(i), leftCorner := Some(2 * i - 1), rightCorner := Some(2 * i))
  }

  /** Corner c links zone c/2 and node c/2 + c%2. */
  function LinkCorner(c: Corner, k: nat): Corner
  {
    c.(zone := Some(k / 2), node := Some(k / 2 + k % 2))
  }

  function LinkZones(zs: seq<Zone>): (r: seq<Zone>)
    ensures |r| == |zs|
  {
    seq(|zs|, i requires 0 <= i < |zs| => LinkZone(zs[i], i))
  }

  function LinkNodes(ns: seq<Node>): (r: seq<Node>)
    ensures |r| == |ns|
  {
    seq(|ns|, i requires 0 <= i < |ns| => LinkNode(ns[i], i, |ns| - 1))
  }

  function LinkCorners(cs: seq<Corner>): (r: seq<Corner>)
    ensures |r| == |cs|
  {
    seq(|cs|, k requires 0 <= k < |cs| => LinkCorner(cs[k], k))
  }

  /** The real elements of a mesh built from these zone lengths. */
  function RealZones(lengths: seq<real>, area: real): seq<Zone>
  {
    LinkZones(CreatedZones(lengths, area))
  }

  function RealNodes(lengths: seq<real>, x0: real): seq<Node>
  {
    LinkNodes(CreatedNodes(lengths, x0))
  }

  function RealCorners(n: nat): seq<Corner>
  {
    LinkCorners(CreatedCorners(n))
  }

  /** A mesh of n zones has n zones, n+1 nodes and 2n corners, and every
   *  element's id is its index. */
  lemma RealCounts(lengths: seq<real>, area: real, x0: real)
    ensures |RealZones(lengths, area)| == |lengths|
    ensures |RealNodes(lengths, x0)| == |lengths| + 1
    ensures |RealCorners(|lengths|)| == 2 * |lengths|
    ensures forall i :: 0 <= i < |lengths| ==> RealZones(lengths, area)[i].id == i
    ensures forall i :: 0 <= i <= |lengths| ==> RealNodes(lengths, x0)[i].id == i
    ensures forall c :: 0 <= c < 2 * |lengths| ==> RealCorners(|lengths|)[c].id == c
  {
  }

  /** The two corners of zone i lie in zone i, at its left and right node. */
  lemma CornersOfZone(lengths: seq<real>, area: real, i: nat)
    requires i < |lengths|
    ensures var z := RealZones(lengths, area)[i];
      var cs := RealCorners(|lengths|);
      z.leftCorner.Some? && z.rightCorner.Some? &&
      z.leftCorner.value < |cs| && z.rightCorner.value < |cs| &&
      cs[z.leftCorner.value].zone == Some(i) && cs[z.rightCorner.value].zone == Some(i) &&
      cs[z.leftCorner.value].node == z.leftNode && cs[z.rightCorner.value].node == z.rightNode
  {
    var cs := RealCorners(|lengths|);
    assert cs[2 * i] == Corner(2 * i, Some(i), Some(i));
    assert cs[2 * i + 1] == Corner(2 * i + 1, Some(i), Some(i + 1));
  }

  /** Each node of zone i has zone i on its matching side. */
  lemma NodesOfZone(lengths: seq<real>, area: real, x0: real, i: nat)
    requires i < |lengths|
    ensures var z := RealZones(lengths, area)[i];
      var ns := RealNodes(lengths, x0);
      z.leftNode.Some? && z.rightNode.Some? &&
      z.leftNode.value < |ns| && z.rightNode.value < |ns| &&
      ns[z.leftNode.value].rightZone == Some(i) && ns[z.rightNode.value].leftZone == Some(i)
  {
  }

  /** Only the first node lacks a left zone and only the last a right one;
   *  every link of a node points back at it. */
  lemma ZonesOfNode(lengths: seq<real>, area: real, x0: real, v: nat)
    requires v <= |lengths| && |lengths| > 0
    ensures var nd := RealNodes(lengths, x0)[v];
      var zs := RealZones(lengths, area);
      var cs := RealCorners(|lengths|);
      (nd.leftZone.None? <==> v == 0) && (nd.rightZone.None? <==> v == |lengths|) &&
      (nd.leftZone.Some? ==> nd.leftZone.value < |zs| && zs[nd.leftZone.value].rightNode == Some(v)) &&
      (nd.rightZone.Some? ==> nd.rightZone.value < |zs| && zs[nd.rightZone.value].leftNode == Some(v)) &&
      (nd.leftCorner.Some? ==>
         (nd.leftCorner.value < |cs| &&
          cs[nd.leftCorner.value].node == Some(v) && cs[nd.leftCorner.value].zone == nd.leftZone)) &&
      (nd.rightCorner.Some? ==>
         (nd.rightCorner.value < |cs| &&
          cs[nd.rightCorner.value].node == Some(v) && cs[nd.rightCorner.value].zone == nd.rightZone))
  {
    var cs := RealCorners(|lengths|);
    if v > 0 {
      assert (2 * v - 1) / 2 == v - 1 && (2 * v - 1) % 2 == 1;
      assert cs[2 * v - 1] == Corner(2 * v - 1, Some(v - 1), Some(v));
    }
    if v < |lengths| {
      assert (2 * v) / 2 == v && (2 * v) % 2 == 0;
      assert cs[2 * v] == Corner(2 * v, Some(v), Some(v));
    }
  }

  /** Linking leaves a node where it was created. */
  lemma RealNodeX(lengths: seq<real>, x0: real, i: nat)
    requires i <= |lengths|
    ensures RealNodes(lengths, x0)[i].x == x0 + Sum(lengths[..i])
  {
    assert CreatedNodes(lengths, x0)[i].x == x0 + Sum(lengths[..i]);
    assert LinkNode(CreatedNodes(lengths, x0)[i], i, |lengths|).x == CreatedNodes(lengths, x0)[i].x;
  }

  /** Node i sits at x0 plus the first i zone lengths, so consecutive
   *  nodes are one zone length apart. */
  lemma NodePositions(lengths: seq<real>, x0: real, i: nat)
    requires i < |lengths|
    ensures RealNodes(lengths, x0)[0].x == x0
    ensures RealNodes(lengths, x0)[i + 1].x == RealNodes(lengths, x0)[i].x + lengths[i]
    ensures RealNodes(lengths, x0)[|lengths|].x == x0 + Sum(lengths)
  {
    RealNodeX(lengths, x0, 0);
    RealNodeX(lengths, x0, i);
    RealNodeX(lengths, x0, i + 1);
    RealNodeX(lengths, x0, |lengths|);
    PrefixSumSteps(lengths, i);
  }

  /** With positive zone lengths the nodes are strictly increasing. */
  lemma NodesIncreasing(lengths: seq<real>, x0: real, i: nat, j: nat)
    requires forall k :: 0 <= k < |lengths| ==> lengths[k] > 0.0
    requires i < j <= |lengths|
    ensures RealNodes(lengths, x0)[i].x < RealNodes(lengths, x0)[j].x
  {
    RealNodeX(lengths, x0, i);
    RealNodeX(lengths, x0, j);
    PrefixSumsIncrease(lengths, i, j);
  }

  /** The right node position of each zone. */
  function RightEnds(ns: seq<Node>): (xs: seq<real>)
    requires |ns| > 0
    ensures |xs| == |ns| - 1
  {
    seq(|ns| - 1, i requires 0 <= i < |ns| - 1 => ns[i + 1].x)
  }

  lemma RightEndsAt(ns: seq<Node>, r: nat)
    requires |ns| > 0 && r <= |ns| - 1
    ensures forall i :: 1 <= i <= r ==> ns[i].x == RightEnds(ns)[i - 1]
    ensures r < |ns| - 1 ==> ns[r + 1].x == RightEnds(ns)[r]
  {
  }

  /** With positive zone lengths the right ends are sorted, and the last
   *  one is x0 plus the total length. */
  lemma RightEndsSorted(lengths: seq<real>, x0: real)
    requires |lengths| > 0
    requires forall k :: 0 <= k < |lengths| ==> lengths[k] > 0.0
    ensures var xs := RightEnds(RealNodes(lengths, x0));
      (forall i, j :: 0 <= i < j < |xs| ==> xs[i] <= xs[j]) &&
      xs[|xs| - 1] == x0 + Sum(lengths)
  {
    var xs := RightEnds(RealNodes(lengths, x0));
    forall i | 0 <= i < |xs|
      ensures xs[i] == x0 + Sum(lengths[..i + 1])
    {
      RightEndX(lengths, x0, i);
    }
    PrefixSumsSorted(xs, lengths, x0);
    PrefixSumSteps(lengths, 0);
  }

  lemma RightEndX(lengths: seq<real>, x0: real, i: nat)
    requires i < |lengths|
    ensures RightEnds(RealNodes(lengths, x0))[i] == x0 + Sum(lengths[..i + 1])
  {
    RealNodeX(lengths, x0, i + 1);
  }

  /** Positions that sit at x0 plus a prefix sum of positive lengths are
   *  sorted. */
  lemma PrefixSumsSorted(xs: seq<real>, lengths: seq<real>, x0: real)
    requires |xs| == |lengths|
    requires forall k :: 0 <= k < |lengths| ==> lengths[k] > 0.0
    requires forall i :: 0 <= i < |xs| ==> xs[i] == x0 + Sum(lengths[..i + 1])
    ensures forall i, j :: 0 <= i < j < |xs| ==> xs[i] <= xs[j]
  {
    forall i, j | 0 <= i < j < |xs|
      ensures xs[i] <= xs[j]
    {
      PrefixSumsIncrease(lengths, i + 1, j + 1);
    }
  }


  // ---------------------------------------------------------------------
  // The ghost elements

  /** The lengths of a run of ghost zones. */
  function GhostLengths(gz: seq<GhostZone>): (s: seq<real>)
    ensures |s| == |gz|
  {
    seq(|gz|, i requires 0 <= i < |gz| => gz[i].zone.length)
  }

  /** Left ghost zone k mirrors zone k (ghostLeft) or zone n-1-k. */
  function LeftGhostZones(zs: seq<Zone>, nl: nat, ghostLeft: bool): (g: seq<GhostZone>)
    requires nl <= |zs|
    ensures |g| == nl
  {
    seq(nl, k requires 0 <= k < nl =>
      var src := if ghostLeft then k else |zs| - 1 - k;
      GhostZone(Zone(|zs| + k, zs[src].length, zs[src].area, None, None, None, None), src))
  }

  /** Right ghost zone k mirrors zone n-1-k (ghostRight) or zone k. */
  function RightGhostZones(zs: seq<Zone>, nl: nat, nr: nat, ghostRight: bool): (g: seq<GhostZone>)
    requires nr <= |zs|
    ensures |g| == nr
  {
    seq(nr, k requires 0 <= k < nr =>
      var src := if ghostRight then |zs| - 1 - k else k;
      GhostZone(Zone(|zs| + nl + k, zs[src].length, zs[src].area, None, None, None, None), src))
  }

  /** Left ghost node k steps left of the first node by the lengths of
   *  left ghost zones 0..k. */
  function LeftGhostNodes(ns: seq<Node>, left: seq<GhostZone>, ghostLeft: bool): (g: seq<GhostNode>)
    requires 0 < |ns| && |left| < |ns|
    ensures |g| == |left|
  {
    seq(|left|, k requires 0 <= k < |left| =>
      var src := if ghostLeft then k + 1 else |ns| - 2 - k;
      GhostNode(Node(|ns| + k, ns[0].x - Sum(GhostLengths(left[..k + 1])), None, None, None, None), src))
  }

  /** Right ghost node k steps right of the last node by the lengths of
   *  right ghost zones 0..k. */
  function RightGhostNodes(ns: seq<Node>, nl: nat, right: seq<GhostZone>, ghostRight: bool): (g: seq<GhostNode>)
    requires 0 < |ns| && |right| < |ns|
    ensures |g| == |right|
  {
    seq(|right|, k requires 0 <= k < |right| =>
      var src := if ghostRight then |ns| - 1 - k else k + 1;
      GhostNode(Node(|ns| + nl + k, ns[|ns| - 1].x + Sum(GhostLengths(right[..k + 1])), None, None, None, None), src))
  }

  function LeftGhostCorners(cs: seq<Corner>, nl: nat, ghostLeft: bool): (g: seq<GhostCorner>)
    requires 2 * nl <= |cs|
    ensures |g| == 2 * nl
  {
    seq(2 * nl, k requires 0 <= k < 2 * nl =>
      GhostCorner(Corner(|cs| + k, None, None), if ghostLeft then k else |cs| - 1 - k))
  }

  function RightGhostCorners(cs: seq<Corner>, nl: nat, nr: nat, ghostRight: bool): (g: seq<GhostCorner>)
    requires 2 * nr <= |cs|
    ensures |g| == 2 * nr
  {
    seq(2 * nr, k requires 0 <= k < 2 * nr =>
      GhostCorner(Corner(|cs| + 2 * nl + k, None, None), if ghostRight then |cs| - 1 - k else k))
  }

  /** All ghost zones: the left ones, then the right ones. */
  function GhostZonesOf(zs: seq<Zone>, nl: nat, gl: bool, nr: nat, gr: bool): (g: seq<GhostZone>)
    requires nl <= |zs| && nr <= |zs|
    ensures |g| == nl + nr
  {
    LeftGhostZones(zs, nl, gl) + RightGhostZones(zs, nl, nr, gr)
  }

  function GhostNodesOf(ns: seq<Node>, gz: seq<GhostZone>, nl: nat, gl: bool, gr: bool): (g: seq<GhostNode>)
    requires nl <= |gz| && nl < |ns| && |gz| - nl < |ns|
    ensures |g| == |gz|
  {
    LeftGhostNodes(ns, gz[..nl], gl) + RightGhostNodes(ns, nl, gz[nl..], gr)
  }

  function GhostCornersOf(cs: seq<Corner>, nl: nat, gl: bool, nr: nat, gr: bool): (g: seq<GhostCorner>)
    requires 2 * nl <= |cs| && 2 * nr <= |cs|
    ensures |g| == 2 * (nl + nr)
  {
    LeftGhostCorners(cs, nl, gl) + RightGhostCorners(cs, nl, nr, gr)
  }

  /** Left ghost zone k mirrors zone k, or zone n-1-k, and has its length
   *  and area. */
  lemma LeftGhostZoneAt(zs: seq<Zone>, nl: nat, gl: bool, k: nat)
    requires nl <= |zs| && k < nl
    ensures var g := LeftGhostZones(zs, nl, gl)[k];
      g.zone.id == |zs| + k && g.ghosted == (if gl then k else |zs| - 1 - k) &&
      g.zone.length == zs[g.ghosted].length && g.zone.area == zs[g.ghosted].area
  {
  }

  /** Right ghost zone k mirrors zone n-1-k, or zone k. */
  lemma RightGhostZoneAt(zs: seq<Zone>, nl: nat, nr: nat, gr: bool, k: nat)
    requires nr <= |zs| && k < nr
    ensures var g := RightGhostZones(zs, nl, nr, gr)[k];
      g.zone.id == |zs| + nl + k && g.ghosted == (if gr then |zs| - 1 - k else k) &&
      g.zone.length == zs[g.ghosted].length && g.zone.area == zs[g.ghosted].area
  {
  }

  /** Ghost zone ids continue the real zone ids, the left ones first, and
   *  each ghost zone has the length and area of the zone it mirrors. */
  lemma GhostZoneLayout(zs: seq<Zone>, nl: nat, gl: bool, nr: nat, gr: bool, k: nat)
    requires nl <= |zs| && nr <= |zs| && k < nl + nr
    ensures var g := GhostZonesOf(zs, nl, gl, nr, gr)[k];
      g.zone.id == |zs| + k && g.ghosted < |zs| &&
      g.zone.length == zs[g.ghosted].length && g.zone.area == zs[g.ghosted].area
  {
    if k < nl {
      LeftGhostZoneAt(zs, nl, gl, k);
    } else {
      RightGhostZoneAt(zs, nl, nr, gr, k - nl);
    }
  }

  /** The ids of all ghost elements continue the real ids. */
  lemma GhostLayout(zs: seq<Zone>, ns: seq<Node>, cs: seq<Corner>, nl: nat, gl: bool, nr: nat, gr: bool)
    requires nl + nr < |zs| && |ns| == |zs| + 1 && |cs| == 2 * |zs|
    ensures var gz := GhostZonesOf(zs, nl, gl, nr, gr);
      var gn := GhostNodesOf(ns, gz, nl, gl, gr);
      var gc := GhostCornersOf(cs, nl, gl, nr, gr);
      (forall k :: 0 <= k < nl + nr ==> gz[k].zone.id == |zs| + k) &&
      (forall k :: 0 <= k < nl + nr ==> gn[k].node.id == |zs| + 1 + k) &&
      (forall k :: 0 <= k < 2 * (nl + nr) ==> gc[k].corner.id == 2 * |zs| + k)
  {
    var gz := GhostZonesOf(zs, nl, gl, nr, gr);
    forall k | 0 <= k < nl + nr
      ensures gz[k].zone.id == |zs| + k
    {
      GhostZoneLayout(zs, nl, gl, nr, gr, k);
    }
    forall k | 0 <= k < nl + nr
      ensures GhostNodesOf(ns, gz, nl, gl, gr)[k].node.id == |zs| + 1 + k
    {
      GhostNodeIds(ns, gz, nl, gl, gr, k);
    }
    forall k | 0 <= k < 2 * (nl + nr)
      ensures GhostCornersOf(cs, nl, gl, nr, gr)[k].corner.id == 2 * |zs| + k
    {
      GhostCornerIds(cs, nl, gl, nr, gr, k);
    }
  }

  /** Ghost node ids continue the real node ids. */
  lemma GhostNodeIds(ns: seq<Node>, gz: seq<GhostZone>, nl: nat, gl: bool, gr: bool, k: nat)
    requires nl <= |gz| && nl < |ns| && |gz| - nl < |ns| && k < |gz|
    ensures GhostNodesOf(ns, gz, nl, gl, gr)[k].node.id == |ns| + k
  {
    var l, r := LeftGhostNodes(ns, gz[..nl], gl), RightGhostNodes(ns, nl, gz[nl..], gr);
    if k >= nl {
      assert (l + r)[k] == r[k - nl];
    }
  }

  /** Ghost corner ids continue the real corner ids. */
  lemma GhostCornerIds(cs: seq<Corner>, nl: nat, gl: bool, nr: nat, gr: bool, k: nat)
    requires 2 * nl <= |cs| && 2 * nr <= |cs| && k < 2 * (nl + nr)
    ensures GhostCornersOf(cs, nl, gl, nr, gr)[k].corner.id == |cs| + k
  {
    var l, r := LeftGhostCorners(cs, nl, gl), RightGhostCorners(cs, nl, nr, gr);
    if k >= 2 * nl {
      assert (l + r)[k] == r[k - 2 * nl];
    }
  }

  lemma GhostLengthsSnoc(g: seq<GhostZone>, k: nat)
    requires k < |g|
    ensures Sum(GhostLengths(g[..k + 1])) == Sum(GhostLengths(g[..k])) + g[k].zone.length
  {
    assert GhostLengths(g[..k + 1]) == GhostLengths(g[..k]) + [g[k].zone.length];
    SumSnoc(GhostLengths(g[..k]), g[k].zone.length);
  }

  /** Left ghost nodes step leftward from the first real node by the
   *  lengths of the left ghost zones. */
  lemma LeftGhostSteps(ns: seq<Node>, left: seq<GhostZone>, gl: bool, k: nat)
    requires 0 < |ns| && |left| < |ns| && k < |left|
    ensures var gn := LeftGhostNodes(ns, left, gl);
      gn[k].node.x == (if k == 0 then ns[0].x else gn[k - 1].node.x) - left[k].zone.length
  {
    GhostLengthsSnoc(left, k);
    assert left[..0] == [];
  }

  /** Right ghost nodes step rightward from the last real node by the
   *  lengths of the right ghost zones. */
  lemma RightGhostSteps(ns: seq<Node>, nl: nat, right: seq<GhostZone>, gr: bool, k: nat)
    requires 0 < |ns| && |right| < |ns| && k < |right|
    ensures var gn := RightGhostNodes(ns, nl, right, gr);
      gn[k].node.x == (if k == 0 then ns[|ns| - 1].x else gn[k - 1].node.x) + right[k].zone.length
  {
    GhostLengthsSnoc(right, k);
    assert right[..0] == [];
  }

  /** Both sides at once, over the whole ghost node container. */
  lemma GhostNodePositions(ns: seq<Node>, gz: seq<GhostZone>, nl: nat, gl: bool, gr: bool, k: nat)
    requires nl <= |gz| && nl < |ns| && |gz| - nl < |ns| && k < |gz|
    ensures var gn := GhostNodesOf(ns, gz, nl, gl, gr);
      (k < nl ==> gn[k].node.x == (if k == 0 then ns[0].x else gn[k - 1].node.x) - gz[k].zone.length) &&
      (nl <= k ==> gn[k].node.x == (if k == nl then ns[|ns| - 1].x else gn[k - 1].node.x) + gz[k].zone.length)
  {
    var l, r := LeftGhostNodes(ns, gz[..nl], gl), RightGhostNodes(ns, nl, gz[nl..], gr);
    if k < nl {
      LeftGhostSteps(ns, gz[..nl], gl, k);
    } else {
      RightGhostSteps(ns, nl, gz[nl..], gr, k - nl);
      assert (l + r)[k] == r[k - nl];
      if k > nl {
        assert (l + r)[k - 1] == r[k - 1 - nl];
      }
    }
  }

  /** The layout of a mesh's containers: n > 0 real zones, n+1 nodes and
   *  2n corners with ids equal to their indices, fewer than n ghost zones,
   *  and ghost containers that exist exactly when there are ghosts, with
   *  ids that continue the real ones. */
  ghost predicate Layout(zs: seq<Zone>, ns: seq<Node>, cs: seq<Corner>,
                         gz: Option<seq<GhostZone>>, gn: Option<seq<GhostNode>>, gc: Option<seq<GhostCorner>>, g: nat)
  {
    var n := |zs|;
    && n > 0 && |ns| == n + 1 && |cs| == 2 * n
    && (forall i :: 0 <= i < n ==> zs[i].id == i)
    && (forall i :: 0 <= i <= n ==> ns[i].id == i)
    && (forall c :: 0 <= c < 2 * n ==> cs[c].id == c)
    && (g == 0 || g < n)
    && (g == 0 ==> gz.None? && gn.None? && gc.None?)
    && (g != 0 ==>
          && gz.Some? && gn.Some? && gc.Some?
          && |gz.value| == g && |gn.value| == g && |gc.value| == 2 * g
          && (forall k :: 0 <= k < g ==> gz.value[k].zone.id == n + k)
          && (forall k :: 0 <= k < g ==> gn.value[k].node.id == n + 1 + k)
          && (forall k :: 0 <= k < 2 * g ==> gc.value[k].corner.id == 2 * n + k))
  }

  /** The elements built from non-empty zone lengths, with fewer ghost
   *  zones than real ones, are laid out as a mesh's must be. */
  lemma BuiltLayout(lengths: seq<real>, area: real, x0: real, nl: nat, gl: bool, nr: nat, gr: bool)
    requires |lengths| > 0 && (nl + nr == 0 || nl + nr < |lengths|)
    ensures var zs, ns, cs := RealZones(lengths, area), RealNodes(lengths, x0), RealCorners(|lengths|);
      var gz := GhostZonesOf(zs, nl, gl, nr, gr);
      Layout(zs, ns, cs,
             if nl + nr != 0 then Some(gz) else None,
             if nl + nr != 0 then Some(GhostNodesOf(ns, gz, nl, gl, gr)) else None,
             if nl + nr != 0 then Some(GhostCornersOf(cs, nl, gl, nr, gr)) else None,
             nl + nr)
  {
    RealCounts(lengths, area, x0);
    if nl + nr != 0 {
      GhostLayout(RealZones(lengths, area), RealNodes(lengths, x0), RealCorners(|lengths|), nl, gl, nr, gr);
    }
  }

  /** The first index whose entry is not below x, or |xs| if there is
   *  none, found by a linear scan. */
  function FirstAtLeast(xs: seq<real>, x: real): nat
    decreases |xs|
  {
    if xs == [] || x <= xs[0] then 0 else FirstAtLeast(xs[1..], x) + 1
  }

  /** The scan stops at the first entry not below x. */
  lemma {:induction false} FirstAtLeastSpec(xs: seq<real>, x: real)
    ensures FirstAtLeast(xs, x) <= |xs|
    ensures forall i :: 0 <= i < FirstAtLeast(xs, x) ==> xs[i] < x
    ensures FirstAtLeast(xs, x) < |xs| ==> x <= xs[FirstAtLeast(xs, x)]
    decreases |xs|
  {
    if xs != [] && !(x <= xs[0]) {
      FirstAtLeastSpec(xs[1..], x);
      forall i | 0 <= i < FirstAtLeast(xs, x)
        ensures xs[i] < x
      {
        if i > 0 {
          assert xs[i] == xs[1..][i - 1];
        }
      }
    }
  }

  /** Any index with the scan's two properties is the scan's result. */
  lemma FirstAtLeastUnique(xs: seq<real>, x: real, r: nat)
    requires r <= |xs|
    requires forall i :: 0 <= i < r ==> xs[i] < x
    requires r < |xs| ==> x <= xs[r]
    ensures r == FirstAtLeast(xs, x)
  {
    FirstAtLeastSpec(xs, x);
  }

  /** Binary search in a sorted sequence, as lower_bound: the first index
   *  whose entry is not below x, or |xs| if there is none. */
  method LowerBound(xs: seq<real>, x: real) returns (r: nat)
    requires forall i, j :: 0 <= i < j < |xs| ==> xs[i] <= xs[j]
    ensures r <= |xs|
    ensures forall i :: 0 <= i < r ==> xs[i] < x
    ensures forall i :: r <= i < |xs| ==> x <= xs[i]
    ensures r == FirstAtLeast(xs, x)
  {
    var lo, hi := 0, |xs|;
    while lo < hi
      invariant 0 <= lo <= hi <= |xs|
      invariant forall i :: 0 <= i < lo ==> xs[i] < x
      invariant forall i :: hi <= i < |xs| ==> x <= xs[i]
    {
      var mid := (lo + hi) / 2;
      if xs[mid] < x {
        lo := mid + 1;
      } else {
        hi := mid;
      }
    }
    r := lo;
    FirstAtLeastUnique(xs, x, r);
  }

  // ---------------------------------------------------------------------
  // The mesh

  class Mesh1D {
    /** The length of the real part of the mesh. */
    var length: real
    /** The cross-sectional area. */
    var area: real
    var zones: seq<Zone>
    var nodes: seq<Node>
    var corners: seq<Corner>
    /** The ghost containers, allocated only for a nonzero ghost count. */
    var ghostZones: Option<seq<GhostZone>>
    var ghostNodes: Option<seq<GhostNode>>
    var ghostCorners: Option<seq<GhostCorner>>
    var numLeftGhostZones: nat
    var numRightGhostZones: nat
    /** The construction inputs. */
    ghost var zoneLengths: seq<real>
    ghost var leftNode: real
    ghost var ghostLeft: bool
    ghost var ghostRight: bool

    /** The shape every mesh keeps: a positive length and area, and
     *  containers laid out as Layout says. */
    ghost predicate Valid()
      reads this
    {
      && length > 0.0 && area > 0.0
      && Layout(zones, nodes, corners, ghostZones, ghostNodes, ghostCorners, numLeftGhostZones + numRightGhostZones)
    }

    /** The mesh holds exactly the elements built from its inputs. */
    ghost predicate Built()
      reads this
    {
      && Valid()
      && |zoneLengths| > 0
      && (forall i :: 0 <= i < |zoneLengths| ==> zoneLengths[i] > 0.0)
      && length == Sum(zoneLengths)
      && zones == RealZones(zoneLengths, area)
      && nodes == RealNodes(zoneLengths, leftNode)
      && corners == RealCorners(|zoneLengths|)
      && (numLeftGhostZones + numRightGhostZones != 0 ==>
            && ghostZones == Some(GhostZonesOf(zones, numLeftGhostZones, ghostLeft, numRightGhostZones, ghostRight))
            && ghostNodes == Some(GhostNodesOf(nodes, ghostZones.value, numLeftGhostZones, ghostLeft, ghostRight))
            && ghostCorners == Some(GhostCornersOf(corners, numLeftGhostZones, ghostLeft, numRightGhostZones, ghostRight)))
    }

    /** Builds the mesh from checked zone lengths: the base constructor,
     *  the real elements, their links and the ghosts. */
    constructor (lengthIn: real, lengths: seq<real>, areaIn: real, nl: nat, gl: bool, nr: nat, gr: bool, x0: real)
      requires LengthsChecks(lengths, areaIn).None? && lengthIn == Sum(lengths)
      requires nl + nr == 0 || nl + nr < |lengths|
      ensures Built()
      ensures zoneLengths == lengths && area == areaIn && length == lengthIn && leftNode == x0
      ensures numLeftGhostZones == nl && numRightGhostZones == nr && ghostLeft == gl && ghostRight == gr
    {
      LengthsChecksAccept(lengths, areaIn);
      length := lengthIn;
      area := areaIn;
      zones := [];
      nodes := [];
      corners := [];
      ghostZones := if nl + nr != 0 then Some([]) else None;
      ghostNodes := if nl + nr != 0 then Some([]) else None;
      ghostCorners := if nl + nr != 0 then Some([]) else None;
      numLeftGhostZones := nl;
      numRightGhostZones := nr;
      zoneLengths := lengths;
      leftNode := x0;
      ghostLeft := gl;
      ghostRight := gr;
      new;
      CreateGeometricElements(lengths, x0);
      ConnectGeometricElements();
      if nl != 0 || nr != 0 {
        CreateGhostElements(gl, gr);
      }
      BuiltFromParts();
    }

    /** A mesh whose real elements are those built from its zone lengths,
     *  and whose ghost containers are those built from them, is Built. */
    lemma BuiltFromParts()
      requires LengthsChecks(zoneLengths, area).None? && length == Sum(zoneLengths)
      requires numLeftGhostZones + numRightGhostZones == 0 || numLeftGhostZones + numRightGhostZones < |zoneLengths|
      requires zones == RealZones(zoneLengths, area) && nodes == RealNodes(zoneLengths, leftNode)
      requires corners == RealCorners(|zoneLengths|)
      requires numLeftGhostZones + numRightGhostZones == 0 ==> ghostZones.None? && ghostNodes.None? && ghostCorners.None?
      requires numLeftGhostZones + numRightGhostZones != 0 ==>
        && ghostZones == Some(GhostZonesOf(zones, numLeftGhostZones, ghostLeft, numRightGhostZones, ghostRight))
        && ghostNodes == Some(GhostNodesOf(nodes, ghostZones.value, numLeftGhostZones, ghostLeft, ghostRight))
        && ghostCorners == Some(GhostCornersOf(corners, numLeftGhostZones, ghostLeft, numRightGhostZones, ghostRight))
      ensures Built()
    {
      LengthsChecksAccept(zoneLengths, area);
      SumPositive(zoneLengths);
      BuiltLayout(zoneLengths, area, leftNode, numLeftGhostZones, ghostLeft, numRightGhostZones, ghostRight);
    }

    /** Pushes the zones, the nodes at their running positions and the
     *  corners. */
    method CreateGeometricElements(lengths: seq<real>, x0: real)
      requires zones == [] && nodes == [] && corners == []
      modifies this
      ensures unchanged(this`length) && unchanged(this`area)
      ensures unchanged(this`numLeftGhostZones) && unchanged(this`numRightGhostZones)
      ensures unchanged(this`zoneLengths) && unchanged(this`leftNode)
      ensures unchanged(this`ghostLeft) && unchanged(this`ghostRight)
      ensures unchanged(this`ghostZones) && unchanged(this`ghostNodes) && unchanged(this`ghostCorners)
      ensures zones == CreatedZones(lengths, area)
      ensures nodes == CreatedNodes(lengths, x0)
      ensures corners == CreatedCorners(|lengths|)
    {
      var zs: seq<Zone> := [];
      var i := 0;
      while i < |lengths|
        invariant 0 <= i <= |lengths|
        invariant zs == CreatedZones(lengths, area)[..i]
      {
        zs := zs + [Zone(i, lengths[i], area, None, None, None, None)];
        i := i + 1;
      }
      zones := zs;
      var ns: seq<Node> := [];
      var x := x0;
      i := 0;
      assert lengths[..0] == [];
      while i < |lengths|
        invariant 0 <= i <= |lengths|
        invariant x == x0 + Sum(lengths[..i])
        invariant ns == CreatedNodes(lengths, x0)[..i]
      {
        ns := ns + [Node(i, x, None, None, None, None)];
        assert lengths[..i + 1][..i] == lengths[..i];
        x := x + lengths[i];
        i := i + 1;
      }
      nodes := ns + [Node(i, x, None, None, None, None)];
      var cs: seq<Corner> := [];
      var c := 0;
      while c < 2 * |zs|
        invariant 0 <= c <= 2 * |zs|
        invariant cs == CreatedCorners(|zs|)[..c]
      {
        cs := cs + [Corner(c, None, None)];
        c := c + 1;
      }
      corners := cs;
    }

    /** Sets the links of the zones, the nodes and the corners. */
    method ConnectGeometricElements()
      requires |nodes| == |zones| + 1 && |corners| == 2 * |zones| && |zones| > 0
      modifies this
      ensures unchanged(this`length) && unchanged(this`area)
      ensures unchanged(this`numLeftGhostZones) && unchanged(this`numRightGhostZones)
      ensures unchanged(this`zoneLengths) && unchanged(this`leftNode)
      ensures unchanged(this`ghostLeft) && unchanged(this`ghostRight)
      ensures unchanged(this`ghostZones) && unchanged(this`ghostNodes) && unchanged(this`ghostCorners)
      ensures zones == LinkZones(old(zones)) && nodes == LinkNodes(old(nodes))
      ensures corners == LinkCorners(old(corners))
    {
      var zs, z0 := zones, zones;
      var i := 0;
      while i < |zs|
        invariant 0 <= i <= |zs| == |z0|
        invariant forall k :: 0 <= k < i ==> zs[k] == LinkZone(z0[k], k)
        invariant forall k :: i <= k < |z0| ==> zs[k] == z0[k]
      {
        zs := zs[i := LinkZone(zs[i], i)];
        i := i + 1;
      }
      zones := zs;
      var ns, n0 := nodes, nodes;
      i := 0;
      while i < |ns|
        invariant 0 <= i <= |ns| == |n0|
        invariant forall k :: 0 <= k < i ==> ns[k] == LinkNode(n0[k], k, |n0| - 1)
        invariant forall k :: i <= k < |n0| ==> ns[k] == n0[k]
      {
        ns := ns[i := LinkNode(ns[i], i, |ns| - 1)];
        i := i + 1;
      }
      nodes := ns;
      var cs, c0 := corners, corners;
      i := 0;
      while i < |cs|
        invariant 0 <= i <= |cs| == |c0|
        invariant forall k :: 0 <= k < i ==> cs[k] == LinkCorner(c0[k], k)
        invariant forall k :: i <= k < |c0| ==> cs[k] == c0[k]
      {
        cs := cs[i := LinkCorner(cs[i], i)];
        i := i + 1;
      }
      corners := cs;
    }

    /** Pushes the left ghost zones, nodes and corners, then the right
     *  ones, into the empty ghost containers. */
    method CreateGhostElements(gl: bool, gr: bool)
      requires numLeftGhostZones + numRightGhostZones < |zones|
      requires |nodes| == |zones| + 1 && |corners| == 2 * |zones|
      requires ghostZones == Some([]) && ghostNodes == Some([]) && ghostCorners == Some([])
      modifies this
      ensures unchanged(this`length) && unchanged(this`area)
      ensures unchanged(this`numLeftGhostZones) && unchanged(this`numRightGhostZones)
      ensures unchanged(this`zoneLengths) && unchanged(this`leftNode)
      ensures unchanged(this`ghostLeft) && unchanged(this`ghostRight)
      ensures unchanged(this`zones) && unchanged(this`nodes) && unchanged(this`corners)
      ensures ghostZones == Some(GhostZonesOf(zones, numLeftGhostZones, gl, numRightGhostZones, gr))
      ensures ghostNodes == Some(GhostNodesOf(nodes, ghostZones.value, numLeftGhostZones, gl, gr))
      ensures ghostCorners == Some(GhostCornersOf(corners, numLeftGhostZones, gl, numRightGhostZones, gr))
    {
      var nl := numLeftGhostZones;
      var left := PushLeftGhostZones(gl);
      var right := PushRightGhostZones(gr);
      ghostZones := Some(left + right);
      var ln := PushLeftGhostNodes(left, gl);
      var rn := PushRightGhostNodes(right, gr);
      assert (left + right)[..nl] == left && (left + right)[nl..] == right;
      ghostNodes := Some(ln + rn);
      var lc := PushLeftGhostCorners(gl);
      var rc := PushRightGhostCorners(gr);
      ghostCorners := Some(lc + rc);
    }

    method PushLeftGhostZones(gl: bool) returns (g: seq<GhostZone>)
      requires numLeftGhostZones <= |zones|
      ensures g == LeftGhostZones(zones, numLeftGhostZones, gl)
    {
      g := [];
      var zs, nl := zones, numLeftGhostZones;
      ghost var spec := LeftGhostZones(zs, nl, gl);
      var k := 0;
      while k < nl
        invariant 0 <= k <= nl
        invariant |g| == k && forall i :: 0 <= i < k ==> g[i] == spec[i]
      {
        var src := if gl then k else |zs| - 1 - k;
        g := g + [GhostZone(Zone(|zs| + k, zs[src].length, zs[src].area, None, None, None, None), src)];
        k := k + 1;
      }
    }

    method PushRightGhostZones(gr: bool) returns (g: seq<GhostZone>)
      requires numRightGhostZones <= |zones|
      ensures g == RightGhostZones(zones, numLeftGhostZones, numRightGhostZones, gr)
    {
      g := [];
      var zs, nl, nr := zones, numLeftGhostZones, numRightGhostZones;
      ghost var spec := RightGhostZones(zs, nl, nr, gr);
      var k := 0;
      while k < nr
        invariant 0 <= k <= nr
        invariant |g| == k && forall i :: 0 <= i < k ==> g[i] == spec[i]
      {
        var src := if gr then |zs| - 1 - k else k;
        g := g + [GhostZone(Zone(|zs| + nl + k, zs[src].length, zs[src].area, None, None, None, None), src)];
        k := k + 1;
      }
    }

    method PushLeftGhostNodes(left: seq<GhostZone>, gl: bool) returns (g: seq<GhostNode>)
      requires 0 < |nodes| && |left| < |nodes|
      ensures g == LeftGhostNodes(nodes, left, gl)
    {
      g := [];
      var ns := nodes;
      ghost var spec := LeftGhostNodes(ns, left, gl);
      var x := ns[0].x;
      var k := 0;
      while k < |left|
        invariant 0 <= k <= |left|
        invariant x == ns[0].x - Sum(GhostLengths(left[..k]))
        invariant |g| == k && forall i :: 0 <= i < k ==> g[i] == spec[i]
      {
        assert GhostLengths(left[..k + 1])[..k] == GhostLengths(left[..k]);
        x := x - left[k].zone.length;
        var src := if gl then k + 1 else |ns| - 2 - k;
        g := g + [GhostNode(Node(|ns| + k, x, None, None, None, None), src)];
        k := k + 1;
      }
    }

    method PushRightGhostNodes(right: seq<GhostZone>, gr: bool) returns (g: seq<GhostNode>)
      requires 0 < |nodes| && |right| < |nodes|
      ensures g == RightGhostNodes(nodes, numLeftGhostZones, right, gr)
    {
      g := [];
      var ns, nl := nodes, numLeftGhostZones;
      ghost var spec := RightGhostNodes(ns, nl, right, gr);
      var x := ns[|ns| - 1].x;
      var k := 0;
      while k < |right|
        invariant 0 <= k <= |right|
        invariant x == ns[|ns| - 1].x + Sum(GhostLengths(right[..k]))
        invariant |g| == k && forall i :: 0 <= i < k ==> g[i] == spec[i]
      {
        assert GhostLengths(right[..k + 1])[..k] == GhostLengths(right[..k]);
        x := x + right[k].zone.length;
        var src := if gr then |ns| - 1 - k else k + 1;
        g := g + [GhostNode(Node(|ns| + nl + k, x, None, None, None, None), src)];
        k := k + 1;
      }
    }

    method PushLeftGhostCorners(gl: bool) returns (g: seq<GhostCorner>)
      requires 2 * numLeftGhostZones <= |corners|
      ensures g == LeftGhostCorners(corners, numLeftGhostZones, gl)
    {
      g := [];
      var cs, nl := corners, numLeftGhostZones;
      ghost var spec := LeftGhostCorners(cs, nl, gl);
      var k := 0;
      while k < 2 * nl
        invariant 0 <= k <= 2 * nl
        invariant |g| == k && forall i :: 0 <= i < k ==> g[i] == spec[i]
      {
        g := g + [GhostCorner(Corner(|cs| + k, None, None), if gl then k else |cs| - 1 - k)];
        k := k + 1;
      }
    }

    method PushRightGhostCorners(gr: bool) returns (g: seq<GhostCorner>)
      requires 2 * numRightGhostZones <= |corners|
      ensures g == RightGhostCorners(corners, numLeftGhostZones, numRightGhostZones, gr)
    {
      g := [];
      var cs, nl, nr := corners, numLeftGhostZones, numRightGhostZones;
      ghost var spec := RightGhostCorners(cs, nl, nr, gr);
      var k := 0;
      while k < 2 * nr
        invariant 0 <= k <= 2 * nr
        invariant |g| == k && forall i :: 0 <= i < k ==> g[i] == spec[i]
      {
        g := g + [GhostCorner(Corner(|cs| + 2 * nl + k, None, None), if gr then |cs| - 1 - k else k)];
        k := k + 1;
      }
    }

    // -------------------------------------------------------------------
    // Counts

    function NumGhostZones(): nat
      reads this
    {
      if ghostZones.None? then 0 else |ghostZones.value|
    }

    function NumGhostNodes(): nat
      reads this
    {
      if ghostNodes.None? then 0 else |ghostNodes.value|
    }

    function NumGhostCorners(): nat
      reads this
    {
      if ghostCorners.None? then 0 else |ghostCorners.value|
    }

    /** Real plus ghost zones. */
    function NumZones(): nat
      reads this
    {
      |zones| + NumGhostZones()
    }

    function NumNodes(): nat
      reads this
    {
      |nodes| + NumGhostNodes()
    }

    function NumCorners(): nat
      reads this
    {
      |corners| + NumGhostCorners()
    }

    /** The counts agree with the constructor arguments: n zones, n+1
     *  nodes and 2n corners, one ghost node and two ghost corners per
     *  ghost zone, and no ghosts where none was asked for. */
    lemma Counts()
      requires Valid()
      ensures NumGhostZones() == numLeftGhostZones + numRightGhostZones
      ensures NumGhostNodes() == NumGhostZones() && NumGhostCorners() == 2 * NumGhostZones()
      ensures NumZones() == |zones| + NumGhostZones()
      ensures NumNodes() == |zones| + 1 + NumGhostZones()
      ensures NumCorners() == 2 * (|zones| + NumGhostZones())
      ensures NumLeftGhostNodes() == numLeftGhostZones && NumRightGhostNodes() == numRightGhostZones
      ensures NumLeftGhostCorners() + NumRightGhostCorners() == NumGhostCorners()
    {
    }

    function NumLeftGhostNodes(): nat
      reads this
    {
      numLeftGhostZones
    }

    function NumRightGhostNodes(): nat
      reads this
    {
      numRightGhostZones
    }

    function NumLeftGhostCorners(): nat
      reads this
    {
      2 * numLeftGhostZones
    }

    function NumRightGhostCorners(): nat
      reads this
    {
      2 * numRightGhostZones
    }

    /** Length times area. */
    function Volume(): (v: real)
      reads this
      requires Valid()
      ensures v > 0.0
    {
      length * area
    }

    // -------------------------------------------------------------------
    // Lookups

    /** The zone with this id, real or ghost. */
    function GetZone(id: nat): (r: Result<Zone, MeshError>)
      reads this
      requires Valid()
      ensures r.Ok? <==> id < NumZones()
      ensures r.Ok? ==> r.value.id == id
      ensures r.Err? ==> r.error == ZoneDoesNotExist(id)
    {
      if id >= |zones| + numLeftGhostZones + numRightGhostZones then Err(ZoneDoesNotExist(id))
      else if id < |zones| then Ok(zones[id])
      else Ok(ghostZones.value[id - |zones|].zone)
    }

    /** The node with this id; there are as many ghost nodes as ghost zones. */
    function GetNode(id: nat): (r: Result<Node, MeshError>)
      reads this
      requires Valid()
      ensures r.Ok? <==> id < NumNodes()
      ensures r.Ok? ==> r.value.id == id
      ensures r.Err? ==> r.error == NodeDoesNotExist(id)
    {
      if id >= |nodes| + numLeftGhostZones + numRightGhostZones then Err(NodeDoesNotExist(id))
      else if id < |nodes| then Ok(nodes[id])
      else Ok(ghostNodes.value[id - |nodes|].node)
    }

    /** The corner with this id; two ghost corners per ghost zone. */
    function GetCorner(id: nat): (r: Result<Corner, MeshError>)
      reads this
      requires Valid()
      ensures r.Ok? <==> id < NumCorners()
      ensures r.Ok? ==> r.value.id == id
      ensures r.Err? ==> r.error == CornerDoesNotExist(id)
    {
      if id >= |corners| + 2 * (numLeftGhostZones + numRightGhostZones) then Err(CornerDoesNotExist(id))
      else if id < |corners| then Ok(corners[id])
      else Ok(ghostCorners.value[id - |corners|].corner)
    }

    /** The first zone whose right node is at or beyond x. The search
     *  runs as lower_bound does; for a point of [0, length] on a mesh
     *  starting at a non-negative position it is a real zone. */
    method ZoneAt(x: real) returns (r: nat)
      requires Built()
      requires 0.0 <= x <= length
      ensures r <= |zones|
      ensures forall i :: 1 <= i <= r ==> nodes[i].x < x
      ensures r < |zones| ==> x <= nodes[r + 1].x
      ensures leftNode >= 0.0 ==> r < |zones|
    {
      RightEndsSorted(zoneLengths, leftNode);
      r := LowerBound(RightEnds(nodes), x);
      RightEndsAt(nodes, r);
    }

    /** The position a sweep starts from: the first zone when mu > 0,
     *  otherwise the end of the zones. */
    function SweepBegin(mu: real): (p: nat)
      reads this
      ensures p == 0 || p == |zones|
    {
      if mu > 0.0 then 0 else |zones|
    }

    /** The position a sweep ends at, the other end. */
    function SweepEnd(mu: real): (p: nat)
      reads this
      ensures p == 0 || p == |zones|
    {
      if mu > 0.0 then |zones| else 0
    }

    /** A sweep covers all zones, left to right exactly when mu > 0. */
    lemma SweepEnds(mu: real)
      requires Valid()
      ensures SweepBegin(mu) + SweepEnd(mu) == |zones|
      ensures SweepBegin(mu) < SweepEnd(mu) <==> mu > 0.0
    {
    }
  }

  // ---------------------------------------------------------------------
  // Constructors with their input checks

  /** The constructor from zone lengths: the mesh length is their sum. */
  method NewMesh(lengths: seq<real>, area: real, nl: nat, gl: bool, nr: nat, gr: bool, x0: real)
    returns (r: Result<Mesh1D, MeshError>)
    requires LengthsChecks(lengths, area).None? ==> nl + nr == 0 || nl + nr < |lengths|
    ensures r.Err? <==> LengthsChecks(lengths, area).Some?
    ensures r.Err? ==> r.error == LengthsChecks(lengths, area).value
    ensures r.Ok? ==> fresh(r.value) && r.value.Built() && r.value.zoneLengths == lengths
    ensures r.Ok? ==> r.value.length == Sum(lengths) && r.value.area == area && r.value.leftNode == x0
  {
    var e := LengthsChecks(lengths, area);
    if e.Some? {
      return Err(e.value);
    }
    var m := new Mesh1D(Sum(lengths), lengths, area, nl, gl, nr, gr, x0);
    return Ok(m);
  }

  /** The uniform constructor: n zones of length L/n and mesh length L. */
  method NewUniformMesh(length: real, area: real, n: nat, nl: nat, gl: bool, nr: nat, gr: bool, x0: real)
    returns (r: Result<Mesh1D, MeshError>)
    requires UniformChecks(length, area, n).None? ==> nl + nr == 0 || nl + nr < n
    ensures r.Err? <==> UniformChecks(length, area, n).Some?
    ensures r.Err? ==> r.error == UniformChecks(length, area, n).value
    ensures r.Ok? ==> fresh(r.value) && r.value.Built() && r.value.zoneLengths == Uniform(length, n)
    ensures r.Ok? ==> r.value.length == length && r.value.area == area && r.value.leftNode == x0
  {
    var e := UniformChecks(length, area, n);
    if e.Some? {
      return Err(e.value);
    }
    var lengths := Uniform(length, n);
    UniformSum(length, n);
    assert forall i :: 0 <= i < n ==> lengths[i] > 0.0 by {
      forall i | 0 <= i < n
        ensures lengths[i] > 0.0
      {
        assert lengths[i] == length / n as real;
      }
    }
    LengthsChecksAccept(lengths, area);
    var m := new Mesh1D(length, lengths, area, nl, gl, nr, gr, x0);
    return Ok(m);
  }
}
