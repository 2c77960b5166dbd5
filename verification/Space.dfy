/** Placement of axis-aligned boxes inside a parent space. Coordinates are exact reals. */
module Space {
  import opened Common

  datatype Vec3 = Vec3(x: real, y: real, z: real)

  datatype AABB = AABB(min: Vec3, max: Vec3) {
    function Width(): real { max.x - min.x }

    function Height(): real { max.y - min.y }

    function Depth(): real { max.z - min.z }

    function Volume(): real { Width() * Height() * Depth() }

    predicate Valid() {
      min.x < max.x && min.y < max.y && min.z < max.z
    }

    predicate Intersects(b: AABB) {
      && min.x < b.max.x && max.x > b.min.x
      && min.y < b.max.y && max.y > b.min.y
      && min.z < b.max.z && max.z > b.min.z
    }

    predicate Contains(b: AABB) {
      && min.x <= b.min.x && max.x >= b.max.x
      && min.y <= b.min.y && max.y >= b.max.y
      && min.z <= b.min.z && max.z >= b.max.z
    }

    /** The point lies in the interior, off every face. */
    predicate Surrounds(p: Vec3) {
      && min.x < p.x < max.x
      && min.y < p.y < max.y
      && min.z < p.z < max.z
    }
  }

  datatype Placement = Placement(id: string, box: AABB)

  datatype PlacementError =
    | InvalidBounds(id: string)
    | OutOfBounds(id: string, object: AABB, space: AABB)
    | Collision(placedId: string, collidesId: string, placedBox: AABB, collidesBox: AABB)

  // ---------- Checking one placement ----------

  predicate Fits(box: AABB, parentBounds: Option<AABB>) {
    parentBounds.Some? ==> parentBounds.value.Contains(box)
  }

  predicate Blocks(newObj: Placement, sib: Placement) {
    sib.id != newObj.id && newObj.box.Intersects(sib.box)
  }

  ghost predicate Accepted(newObj: Placement, parentBounds: Option<AABB>, siblings: seq<Placement>) {
    && newObj.box.Valid()
    && Fits(newObj.box, parentBounds)
    && forall k :: 0 <= k < |siblings| ==> !Blocks(newObj, siblings[k])
  }

  /** The checks in order; a collision names the first blocking sibling. */
  method ValidatePlacement(newObj: Placement, parentBounds: Option<AABB>, siblings: seq<Placement>)
    returns (err: Option<PlacementError>)
    ensures err.None? <==> Accepted(newObj, parentBounds, siblings)
    ensures !newObj.box.Valid() ==> err == Some(InvalidBounds(newObj.id))
    ensures newObj.box.Valid() && !Fits(newObj.box, parentBounds)
            ==> err == Some(OutOfBounds(newObj.id, newObj.box, parentBounds.value))
    ensures newObj.box.Valid() && Fits(newObj.box, parentBounds) && err.Some?
            ==> exists k :: 0 <= k < |siblings| && Blocks(newObj, siblings[k])
                         && (forall j :: 0 <= j < k ==> !Blocks(newObj, siblings[j]))
                         && err == Some(Collision(newObj.id, siblings[k].id, newObj.box, siblings[k].box))
  {
    if !newObj.box.Valid() {
      return Some(InvalidBounds(newObj.id));
    }
    if parentBounds.Some? {
      if !parentBounds.value.Contains(newObj.box) {
        return Some(OutOfBounds(newObj.id, newObj.box, parentBounds.value));
      }
    }
    for i := 0 to |siblings|
      invariant forall k :: 0 <= k < i ==> !Blocks(newObj, siblings[k])
    {
      var sib := siblings[i];
      if sib.id == newObj.id {
        continue;
      }
      if newObj.box.Intersects(sib.box) {
        return Some(Collision(newObj.id, sib.id, newObj.box, sib.box));
      }
    }
    return None;
  }

  /** `Intersects` on valid boxes is the existence of a common interior point; touching faces do not count. */
  lemma IntersectsMeansSharedInterior(a: AABB, b: AABB)
    requires a.Valid() && b.Valid()
    ensures a.Intersects(b) <==> exists p: Vec3 :: a.Surrounds(p) && b.Surrounds(p)
  {
    if a.Intersects(b) {
      var p := Vec3(Between(a.min.x, b.min.x, a.max.x, b.max.x),
                    Between(a.min.y, b.min.y, a.max.y, b.max.y),
                    Between(a.min.z, b.min.z, a.max.z, b.max.z));
      assert a.Surrounds(p) && b.Surrounds(p);
    }
  }

  /** A box is valid when it has an interior, and one valid box contains another when it surrounds all of its
      interior. */
  lemma ContainsInteriors(a: AABB, b: AABB)
    ensures a.Valid() <==> exists p: Vec3 :: a.Surrounds(p)
    ensures a.Valid() && b.Valid() ==> (a.Contains(b) <==> forall p: Vec3 :: b.Surrounds(p) ==> a.Surrounds(p))
  {
    if a.Valid() {
      assert a.Surrounds(Middle(a));
      if b.Valid() && !a.Contains(b) {
        assert b.Surrounds(OutsidePoint(a, b)) && !a.Surrounds(OutsidePoint(a, b));
      }
    }
  }

  function Middle(a: AABB): Vec3 {
    Vec3((a.min.x + a.max.x) / 2.0, (a.min.y + a.max.y) / 2.0, (a.min.z + a.max.z) / 2.0)
  }

  /** Inside the second interval and, unless the first one covers it, outside the first. */
  function Beyond(lo1: real, hi1: real, lo2: real, hi2: real): real {
    if lo2 < lo1 then (lo2 + (if lo1 < hi2 then lo1 else hi2)) / 2.0
    else if hi2 > hi1 then (hi2 + (if hi1 > lo2 then hi1 else lo2)) / 2.0
    else (lo2 + hi2) / 2.0
  }

  function OutsidePoint(a: AABB, b: AABB): Vec3 {
    Vec3(Beyond(a.min.x, a.max.x, b.min.x, b.max.x), Beyond(a.min.y, a.max.y, b.min.y, b.max.y),
         Beyond(a.min.z, a.max.z, b.min.z, b.max.z))
  }

  /** A box whose sides are whole numbers has as much volume as it has unit cells. */
  lemma VolumeCountsCells(p: Vec3, w: nat, h: nat, d: nat)
    ensures AABB(p, Vec3(p.x + w as real, p.y + h as real, p.z + d as real)).Volume() == (w * h * d) as real
  {
    assert (w * h) as real == w as real * h as real;
    assert (w * h * d) as real == (w * h) as real * d as real;
  }

  /** Midpoint of the overlap of two intervals. */
  function Between(lo1: real, lo2: real, hi1: real, hi2: real): real {
    ((if lo1 >= lo2 then lo1 else lo2) + (if hi1 <= hi2 then hi1 else hi2)) / 2.0
  }

  // ---------- Finding all collisions ----------

  predicate Colliding(objects: seq<Placement>, i: nat, j: nat) {
    i < j < |objects| && objects[i].box.Intersects(objects[j].box)
  }

  type Hits = (nat, nat) -> bool

  function HitsOf(objects: seq<Placement>): Hits { (i: nat, j: nat) => Colliding(objects, i, j) }

  predicate Before(p: (nat, nat), q: (nat, nat)) {
    p.0 < q.0 || (p.0 == q.0 && p.1 < q.1)
  }

  ghost predicate Ascending(pairs: seq<(nat, nat)>) {
    forall a, b :: 0 <= a < b < |pairs| ==> Before(pairs[a], pairs[b])
  }

  /** The hits (i, k) with k below j. */
  function RowHits(hits: Hits, i: nat, j: nat): seq<(nat, nat)> {
    if j <= i + 1 then [] else RowHits(hits, i, j - 1) + (if hits(i, j - 1) then [(i, j - 1)] else [])
  }

  /** The hits of all rows below i, in a matrix of width n. */
  function RowsHits(hits: Hits, n: nat, i: nat): seq<(nat, nat)> {
    if i == 0 then [] else RowsHits(hits, n, i - 1) + RowHits(hits, i - 1, n)
  }

  lemma AscendingAppends(s: seq<(nat, nat)>, t: seq<(nat, nat)>)
    requires Ascending(s) && Ascending(t)
    requires forall p, q :: p in s && q in t ==> Before(p, q)
    ensures Ascending(s + t)
  {
    var u := s + t;
    forall a, b | 0 <= a < b < |u| ensures Before(u[a], u[b]) {
      if a < |s| <= b {
        assert u[a] in s && u[b] in t;
      }
    }
  }

  lemma {:induction false} RowIsListed(hits: Hits, i: nat, j: nat)
    ensures forall p :: p in RowHits(hits, i, j) <==> p.0 == i && i < p.1 < j && hits(i, p.1)
    ensures Ascending(RowHits(hits, i, j))
  {
    if j > i + 1 {
      RowIsListed(hits, i, j - 1);
      AscendingAppends(RowHits(hits, i, j - 1), if hits(i, j - 1) then [(i, j - 1)] else []);
    }
  }

  lemma {:induction false} RowsAreListed(hits: Hits, n: nat, i: nat)
    ensures forall p :: p in RowsHits(hits, n, i) <==> p.0 < i && p.0 < p.1 < n && hits(p.0, p.1)
    ensures Ascending(RowsHits(hits, n, i))
  {
    if i > 0 {
      RowsAreListed(hits, n, i - 1);
      RowIsListed(hits, i - 1, n);
      AscendingAppends(RowsHits(hits, n, i - 1), RowHits(hits, i - 1, n));
    }
  }

  function PairsAt(objects: seq<Placement>, pairs: seq<(nat, nat)>): seq<(Placement, Placement)>
    requires forall a :: 0 <= a < |pairs| ==> pairs[a].0 < |objects| && pairs[a].1 < |objects|
  {
    seq(|pairs|, a requires 0 <= a < |pairs| => (objects[pairs[a].0], objects[pairs[a].1]))
  }

  /** Reports, once each and in lexicographic order, exactly the index pairs i < j whose boxes intersect. */
  method FindCollisions(objects: seq<Placement>)
    returns (collisions: seq<(Placement, Placement)>, ghost pairs: seq<(nat, nat)>)
    ensures Ascending(pairs) && forall i: nat, j: nat :: (i, j) in pairs <==> Colliding(objects, i, j)
    ensures forall a :: 0 <= a < |pairs| ==> pairs[a].0 < |objects| && pairs[a].1 < |objects|
    ensures collisions == PairsAt(objects, pairs)
    ensures collisions == [] <==> forall i: nat, j: nat :: !Colliding(objects, i, j)
  {
    collisions, pairs := [], [];
    for i := 0 to |objects|
      invariant pairs == RowsHits(HitsOf(objects), |objects|, i)
      invariant forall a :: 0 <= a < |pairs| ==> pairs[a].0 < |objects| && pairs[a].1 < |objects|
      invariant collisions == PairsAt(objects, pairs)
    {
      ghost var rows := pairs;
      for j := i + 1 to |objects|
        invariant pairs == rows + RowHits(HitsOf(objects), i, j)
        invariant forall a :: 0 <= a < |pairs| ==> pairs[a].0 < |objects| && pairs[a].1 < |objects|
        invariant collisions == PairsAt(objects, pairs)
      {
        RowGrows(objects, i, j);
        if objects[i].box.Intersects(objects[j].box) {
          OneMorePair(objects, pairs, i, j);
          collisions := collisions + [(objects[i], objects[j])];
          pairs := pairs + [(i, j)];
        }
      }
    }
    AllListed(objects);
    NothingListed(objects, pairs);
  }

  lemma NothingListed(objects: seq<Placement>, pairs: seq<(nat, nat)>)
    requires forall i: nat, j: nat :: (i, j) in pairs <==> Colliding(objects, i, j)
    ensures pairs == [] <==> forall i: nat, j: nat :: !Colliding(objects, i, j)
  {
    if pairs != [] {
      assert (pairs[0].0, pairs[0].1) in pairs;
    }
  }

  lemma RowGrows(objects: seq<Placement>, i: nat, j: nat)
    requires i < j < |objects|
    ensures RowHits(HitsOf(objects), i, j + 1)
         == RowHits(HitsOf(objects), i, j) + (if objects[i].box.Intersects(objects[j].box) then [(i, j)] else [])
  {
  }

  lemma OneMorePair(objects: seq<Placement>, pairs: seq<(nat, nat)>, i: nat, j: nat)
    requires forall a :: 0 <= a < |pairs| ==> pairs[a].0 < |objects| && pairs[a].1 < |objects|
    requires i < |objects| && j < |objects|
    ensures PairsAt(objects, pairs + [(i, j)]) == PairsAt(objects, pairs) + [(objects[i], objects[j])]
  {
  }

  lemma AllListed(objects: seq<Placement>)
    ensures var pairs := RowsHits(HitsOf(objects), |objects|, |objects|);
            Ascending(pairs) && forall i: nat, j: nat :: (i, j) in pairs <==> Colliding(objects, i, j)
  {
    var hits := HitsOf(objects);
    RowsAreListed(hits, |objects|, |objects|);
    forall i: nat, j: nat ensures (i, j) in RowsHits(hits, |objects|, |objects|) <==> Colliding(objects, i, j) {
      assert hits(i, j) == Colliding(objects, i, j);
    }
  }

  // ---------- Arrangements built by accepted placements ----------

  /** Setting the bounds of `p`: the box of that id is replaced, or a new one is added. */
  function Put(arrangement: seq<Placement>, p: Placement): seq<Placement> {
    if arrangement == [] then [p]
    else if arrangement[0].id == p.id then [p] + arrangement[1..]
    else [arrangement[0]] + Put(arrangement[1..], p)
  }

  /** Every request is checked against all current boxes of the parent and refused or carried out. */
  ghost function PlaceAll(parent: AABB, requests: seq<Placement>): seq<Placement> {
    if requests == [] then []
    else
      var arrangement := PlaceAll(parent, requests[..|requests| - 1]);
      var p := requests[|requests| - 1];
      if Accepted(p, Some(parent), arrangement) then Put(arrangement, p) else arrangement
  }

  function TotalVolume(arrangement: seq<Placement>): real {
    if arrangement == [] then 0.0 else arrangement[0].box.Volume() + TotalVolume(arrangement[1..])
  }

  /** Valid, contained and pairwise apart boxes with different ids. */
  ghost predicate Packed(parent: AABB, arrangement: seq<Placement>) {
    && (forall i :: 0 <= i < |arrangement| ==> arrangement[i].box.Valid() && parent.Contains(arrangement[i].box))
    && (forall i, j :: 0 <= i < j < |arrangement| ==>
          arrangement[i].id != arrangement[j].id && !arrangement[i].box.Intersects(arrangement[j].box))
  }

  /** Any run of placements and re-placements stays collision free and within the parent's volume. */
  lemma PackingBound(parent: AABB, requests: seq<Placement>)
    ensures Packed(parent, PlaceAll(parent, requests))
    ensures forall i: nat, j: nat :: !Colliding(PlaceAll(parent, requests), i, j)
    ensures PlaceAll(parent, requests) != [] ==> TotalVolume(PlaceAll(parent, requests)) <= parent.Volume()
  {
    PlaceAllPacked(parent, requests);
    var arrangement := PlaceAll(parent, requests);
    if arrangement != [] {
      var boxes := Boxes(arrangement);
      BoxesTotal(arrangement);
      FacesCover(parent, boxes);
      CutX(parent, boxes, Faces(boxes), 2);
    }
  }

  lemma {:induction false} PlaceAllPacked(parent: AABB, requests: seq<Placement>)
    ensures Packed(parent, PlaceAll(parent, requests))
  {
    if requests != [] {
      var before := requests[..|requests| - 1];
      PlaceAllPacked(parent, before);
      var p := requests[|requests| - 1];
      if Accepted(p, Some(parent), PlaceAll(parent, before)) {
        PutPacked(parent, PlaceAll(parent, before), p);
      }
    }
  }

  lemma PackedTail(parent: AABB, arrangement: seq<Placement>)
    requires Packed(parent, arrangement) && arrangement != []
    ensures Packed(parent, arrangement[1..])
    ensures forall q :: q in arrangement[1..] ==>
              q.id != arrangement[0].id && !arrangement[0].box.Intersects(q.box)
  {
  }

  lemma PackedWithFirst(parent: AABB, first: Placement, rest: seq<Placement>)
    requires Packed(parent, rest) && first.box.Valid() && parent.Contains(first.box)
    requires forall q :: q in rest ==> q.id != first.id && !first.box.Intersects(q.box)
    ensures Packed(parent, [first] + rest)
  {
    var all := [first] + rest;
    forall i, j | 0 <= i < j < |all| ensures all[i].id != all[j].id && !all[i].box.Intersects(all[j].box) {
      assert all[j] == rest[j - 1] && all[j] in rest;
    }
  }

  lemma {:induction false} PutPacked(parent: AABB, arrangement: seq<Placement>, p: Placement)
    requires Packed(parent, arrangement)
    requires Accepted(p, Some(parent), arrangement)
    ensures Packed(parent, Put(arrangement, p))
    ensures forall q :: q in Put(arrangement, p) ==> q == p || q in arrangement
  {
    if arrangement != [] {
      var first, rest := arrangement[0], arrangement[1..];
      PackedTail(parent, arrangement);
      forall q | q in rest ensures !Blocks(p, q) {
        var k :| 0 <= k < |rest| && rest[k] == q;
        assert !Blocks(p, arrangement[k + 1]);
      }
      if first.id == p.id {
        PackedWithFirst(parent, p, rest);
      } else {
        assert !Blocks(p, first);
        PutPacked(parent, rest, p);
        PackedWithFirst(parent, first, Put(rest, p));
      }
    }
  }

  /** Checking against part of the siblings only (one fetched page) keeps the packing exactly when no sibling
      left out is hit. */
  lemma PartialSiblingCheck(parent: AABB, arrangement: seq<Placement>, page: seq<Placement>, p: Placement)
    requires Packed(parent, arrangement)
    requires forall q :: q in page ==> q in arrangement
    requires Accepted(p, Some(parent), page)
    ensures Packed(parent, Put(arrangement, p)) <==> forall q :: q in arrangement && q !in page ==> !Blocks(p, q)
  {
    if forall q :: q in arrangement && q !in page ==> !Blocks(p, q) {
      forall k | 0 <= k < |arrangement| ensures !Blocks(p, arrangement[k]) {
        assert arrangement[k] in arrangement;
        if arrangement[k] in page {
          var m :| 0 <= m < |page| && page[m] == arrangement[k];
          assert !Blocks(p, page[m]);
        }
      }
      PutPacked(parent, arrangement, p);
    } else {
      var q :| q in arrangement && q !in page && Blocks(p, q);
      PutKeeps(arrangement, p, q);
      var i :| 0 <= i < |Put(arrangement, p)| && Put(arrangement, p)[i] == p;
      var j :| 0 <= j < |Put(arrangement, p)| && Put(arrangement, p)[j] == q;
      assert p.box.Intersects(q.box) && q.box.Intersects(p.box);
    }
  }

  lemma {:induction false} PutKeeps(arrangement: seq<Placement>, p: Placement, q: Placement)
    requires q in arrangement && q.id != p.id
    ensures p in Put(arrangement, p) && q in Put(arrangement, p)
  {
    PutHas(arrangement, p);
    if arrangement[0] != q {
      assert q in arrangement[1..];
      if arrangement[0].id != p.id {
        PutKeeps(arrangement[1..], p, q);
      }
    }
  }

  lemma {:induction false} PutHas(arrangement: seq<Placement>, p: Placement)
    ensures p in Put(arrangement, p)
  {
    if arrangement != [] && arrangement[0].id != p.id {
      PutHas(arrangement[1..], p);
    }
  }

  // ---------- The packing bound by cutting along faces ----------
  // The parent is cut at a face plane of some box; boxes crossing the plane are cut with it. Volumes add up and
  // separation survives. Once no face lies strictly inside a piece, each box in it is flat or is the piece.

  function Boxes(arrangement: seq<Placement>): seq<AABB> {
    seq(|arrangement|, i requires 0 <= i < |arrangement| => arrangement[i].box)
  }

  function Total(boxes: seq<AABB>): real {
    if boxes == [] then 0.0 else boxes[0].Volume() + Total(boxes[1..])
  }

  lemma {:induction false} BoxesTotal(arrangement: seq<Placement>)
    ensures Total(Boxes(arrangement)) == TotalVolume(arrangement)
  {
    if arrangement != [] {
      assert Boxes(arrangement)[1..] == Boxes(arrangement[1..]);
      BoxesTotal(arrangement[1..]);
    }
  }

  predicate Ordered(b: AABB) {
    b.min.x <= b.max.x && b.min.y <= b.max.y && b.min.z <= b.max.z
  }

  /** Ordered, possibly flat, boxes inside `outer` that do not overlap one another. */
  ghost predicate Tiling(outer: AABB, boxes: seq<AABB>) {
    && Ordered(outer)
    && (forall i :: 0 <= i < |boxes| ==> Ordered(boxes[i]) && outer.Contains(boxes[i]))
    && (forall i, j :: 0 <= i < j < |boxes| ==> !boxes[i].Intersects(boxes[j]))
  }

  predicate OnX(outer: AABB, v: real) { v == outer.min.x || v == outer.max.x }

  predicate FlatY(outer: AABB, b: AABB) {
    (b.min.y == outer.min.y || b.min.y == outer.max.y) && (b.max.y == outer.min.y || b.max.y == outer.max.y)
  }

  predicate FlatZ(outer: AABB, b: AABB) {
    (b.min.z == outer.min.z || b.min.z == outer.max.z) && (b.max.z == outer.min.z || b.max.z == outer.max.z)
  }

  function Faces(boxes: seq<AABB>): seq<real> {
    seq(|boxes|, i requires 0 <= i < |boxes| => boxes[i].min.x)
      + seq(|boxes|, i requires 0 <= i < |boxes| => boxes[i].max.x)
  }

  /** A face at `v` is a face of `outer` or among the cuts still to make. */
  predicate Known(outer: AABB, v: real, cuts: seq<real>) { OnX(outer, v) || v in cuts }

  ghost predicate FacesIn(outer: AABB, boxes: seq<AABB>, cuts: seq<real>) {
    forall i :: 0 <= i < |boxes| ==> Known(outer, boxes[i].min.x, cuts) && Known(outer, boxes[i].max.x, cuts)
  }

  lemma FacesCover(outer: AABB, boxes: seq<AABB>)
    ensures FacesIn(outer, boxes, Faces(boxes))
  {
    forall i | 0 <= i < |boxes|
      ensures Known(outer, boxes[i].min.x, Faces(boxes)) && Known(outer, boxes[i].max.x, Faces(boxes))
    {
      assert Faces(boxes)[i] == boxes[i].min.x && Faces(boxes)[|boxes| + i] == boxes[i].max.x;
    }
  }

  function Clamp(v: real, lo: real, hi: real): real {
    if v < lo then lo else if v > hi then hi else v
  }

  function ClipX(b: AABB, lo: real, hi: real): AABB {
    AABB(b.min.(x := Clamp(b.min.x, lo, hi)), b.max.(x := Clamp(b.max.x, lo, hi)))
  }

  function ClipAll(boxes: seq<AABB>, lo: real, hi: real): seq<AABB> {
    seq(|boxes|, i requires 0 <= i < |boxes| => ClipX(boxes[i], lo, hi))
  }

  lemma VolumeSplits(w1: real, w2: real, h: real, d: real)
    ensures (w1 + w2) * h * d == w1 * h * d + w2 * h * d
  {
  }

  lemma ClipVolume(b: AABB, lo: real, c: real, hi: real)
    requires lo <= c <= hi && lo <= b.min.x <= hi && lo <= b.max.x <= hi
    ensures ClipX(b, lo, c).Volume() + ClipX(b, c, hi).Volume() == b.Volume()
  {
    VolumeSplits(ClipX(b, lo, c).Width(), ClipX(b, c, hi).Width(), b.Height(), b.Depth());
    assert ClipX(b, lo, c).Width() + ClipX(b, c, hi).Width() == b.Width();
  }

  lemma TotalOfFirst(boxes: seq<AABB>, first: AABB, rest: seq<AABB>)
    requires boxes == [first] + rest
    ensures Total(boxes) == first.Volume() + Total(rest)
  {
    assert boxes[1..] == rest;
  }

  lemma {:induction false} ClipTotal(boxes: seq<AABB>, lo: real, c: real, hi: real)
    requires lo <= c <= hi
    requires forall i :: 0 <= i < |boxes| ==> lo <= boxes[i].min.x <= hi && lo <= boxes[i].max.x <= hi
    ensures Total(ClipAll(boxes, lo, c)) + Total(ClipAll(boxes, c, hi)) == Total(boxes)
  {
    if boxes != [] {
      var b, rest := boxes[0], boxes[1..];
      ClipTotal(rest, lo, c, hi);
      ClipVolume(b, lo, c, hi);
      TotalOfFirst(boxes, b, rest);
      TotalOfFirst(ClipAll(boxes, lo, c), ClipX(b, lo, c), ClipAll(rest, lo, c));
      TotalOfFirst(ClipAll(boxes, c, hi), ClipX(b, c, hi), ClipAll(rest, c, hi));
    }
  }

  function Turn(b: AABB): AABB {
    AABB(Vec3(b.min.y, b.min.z, b.min.x), Vec3(b.max.y, b.max.z, b.max.x))
  }

  function TurnAll(boxes: seq<AABB>): seq<AABB> {
    seq(|boxes|, i requires 0 <= i < |boxes| => Turn(boxes[i]))
  }

  lemma TurnVolume(b: AABB)
    ensures Turn(b).Volume() == b.Volume()
  {
  }

  lemma {:induction false} TurnTotal(boxes: seq<AABB>)
    ensures Total(TurnAll(boxes)) == Total(boxes)
  {
    if boxes != [] {
      assert TurnAll(boxes)[1..] == TurnAll(boxes[1..]);
      TurnTotal(boxes[1..]);
      TurnVolume(boxes[0]);
    }
  }

  lemma FlatHasNoVolume(b: AABB)
    requires b.Width() == 0.0 || b.Height() == 0.0 || b.Depth() == 0.0
    ensures b.Volume() == 0.0
  {
  }

  lemma VolumeNonnegative(b: AABB)
    requires Ordered(b)
    ensures b.Volume() >= 0.0
  {
    assert b.Width() * b.Height() >= 0.0;
  }

  /** Boxes whose faces all lie on faces of `outer` are flat or equal to it, and at most one is not flat. */
  lemma {:induction false} UncutBound(outer: AABB, boxes: seq<AABB>)
    requires Tiling(outer, boxes)
    requires FacesIn(outer, boxes, [])
    requires forall i :: 0 <= i < |boxes| ==> FlatY(outer, boxes[i]) && FlatZ(outer, boxes[i])
    ensures Total(boxes) <= outer.Volume()
    ensures (forall i :: 0 <= i < |boxes| ==> boxes[i] != outer) || !outer.Valid() ==> Total(boxes) == 0.0
  {
    VolumeNonnegative(outer);
    if boxes != [] {
      UncutBound(outer, boxes[1..]);
      if boxes[0].Valid() {
        assert boxes[0] == outer;
        forall i | 0 <= i < |boxes[1..]| ensures boxes[1..][i] != outer {
          assert !boxes[0].Intersects(boxes[i + 1]);
        }
      } else {
        FlatHasNoVolume(boxes[0]);
        assert forall i :: 0 <= i < |boxes[1..]| ==> boxes[1..][i] == boxes[i + 1];
      }
    }
  }

  lemma ClipTiling(outer: AABB, boxes: seq<AABB>, piece: AABB, lo: real, hi: real)
    requires Tiling(outer, boxes)
    requires outer.min.x <= lo <= hi <= outer.max.x
    requires piece == outer.(min := outer.min.(x := lo), max := outer.max.(x := hi))
    ensures Tiling(piece, ClipAll(boxes, lo, hi))
  {
    var clipped := ClipAll(boxes, lo, hi);
    forall i, j | 0 <= i < j < |clipped| ensures !clipped[i].Intersects(clipped[j]) {
      assert !boxes[i].Intersects(boxes[j]);
    }
  }

  /** After clipping at a cut, that cut is no longer a face strictly inside the piece. */
  lemma ClipFaces(outer: AABB, boxes: seq<AABB>, piece: AABB, lo: real, hi: real, cuts: seq<real>)
    requires Tiling(outer, boxes) && cuts != []
    requires FacesIn(outer, boxes, cuts)
    requires outer.min.x <= lo <= hi <= outer.max.x
    requires (lo == cuts[0] && hi == outer.max.x) || (lo == outer.min.x && hi == cuts[0])
    requires piece == outer.(min := outer.min.(x := lo), max := outer.max.(x := hi))
    ensures FacesIn(piece, ClipAll(boxes, lo, hi), cuts[1..])
  {
    forall i | 0 <= i < |boxes|
      ensures Known(piece, ClipX(boxes[i], lo, hi).min.x, cuts[1..])
      ensures Known(piece, ClipX(boxes[i], lo, hi).max.x, cuts[1..])
    {
      assert Known(outer, boxes[i].min.x, cuts) && Known(outer, boxes[i].max.x, cuts);
    }
  }

  lemma TurnTiling(outer: AABB, boxes: seq<AABB>)
    requires Tiling(outer, boxes)
    ensures Tiling(Turn(outer), TurnAll(boxes))
  {
    var turned := TurnAll(boxes);
    forall i, j | 0 <= i < j < |turned| ensures !turned[i].Intersects(turned[j]) {
      assert !boxes[i].Intersects(boxes[j]);
    }
  }

  lemma DropCut(outer: AABB, boxes: seq<AABB>, cuts: seq<real>)
    requires Tiling(outer, boxes)
    requires FacesIn(outer, boxes, cuts)
    requires cuts != [] && !(outer.min.x < cuts[0] < outer.max.x)
    ensures FacesIn(outer, boxes, cuts[1..])
  {
    forall i | 0 <= i < |boxes|
      ensures Known(outer, boxes[i].min.x, cuts[1..]) && Known(outer, boxes[i].max.x, cuts[1..])
    {
      assert Known(outer, boxes[i].min.x, cuts) && Known(outer, boxes[i].max.x, cuts);
      assert outer.Contains(boxes[i]) && Ordered(boxes[i]);
    }
  }

  lemma HalvesVolume(b: AABB, c: real)
    ensures b.(max := b.max.(x := c)).Volume() + b.(min := b.min.(x := c)).Volume() == b.Volume()
  {
    VolumeSplits(c - b.min.x, b.max.x - c, b.Height(), b.Depth());
  }

  /** Cuts along x at every face in `cuts`, then turns to the next of the `pending` axes. */
  lemma {:induction false} CutX(outer: AABB, boxes: seq<AABB>, cuts: seq<real>, pending: nat)
    requires Tiling(outer, boxes)
    requires FacesIn(outer, boxes, cuts)
    requires pending <= 2
    requires pending <= 1 ==> forall i :: 0 <= i < |boxes| ==> FlatZ(outer, boxes[i])
    requires pending == 0 ==> forall i :: 0 <= i < |boxes| ==> FlatY(outer, boxes[i])
    ensures Total(boxes) <= outer.Volume()
    decreases pending, |cuts|
  {
    if cuts != [] {
      var c := cuts[0];
      if outer.min.x < c < outer.max.x {
        CutAt(outer, boxes, cuts, pending);
      } else {
        DropCut(outer, boxes, cuts);
        CutX(outer, boxes, cuts[1..], pending);
      }
    } else if pending == 0 {
      UncutBound(outer, boxes);
    } else {
      TurnTiling(outer, boxes);
      FacesCover(Turn(outer), TurnAll(boxes));
      CutX(Turn(outer), TurnAll(boxes), Faces(TurnAll(boxes)), pending - 1);
      TurnTotal(boxes);
      TurnVolume(outer);
    }
  }

  lemma {:induction false} CutAt(outer: AABB, boxes: seq<AABB>, cuts: seq<real>, pending: nat)
    requires Tiling(outer, boxes)
    requires FacesIn(outer, boxes, cuts)
    requires pending <= 2
    requires pending <= 1 ==> forall i :: 0 <= i < |boxes| ==> FlatZ(outer, boxes[i])
    requires pending == 0 ==> forall i :: 0 <= i < |boxes| ==> FlatY(outer, boxes[i])
    requires cuts != [] && outer.min.x < cuts[0] < outer.max.x
    ensures Total(boxes) <= outer.Volume()
    decreases pending, |cuts|, 0
  {
    var lo, c, hi := outer.min.x, cuts[0], outer.max.x;
    var left := outer.(max := outer.max.(x := c));
    var right := outer.(min := outer.min.(x := c));
    ClipTiling(outer, boxes, left, lo, c);
    ClipTiling(outer, boxes, right, c, hi);
    ClipFaces(outer, boxes, left, lo, c, cuts);
    ClipFaces(outer, boxes, right, c, hi, cuts);
    CutX(left, ClipAll(boxes, lo, c), cuts[1..], pending);
    CutX(right, ClipAll(boxes, c, hi), cuts[1..], pending);
    ClipTotal(boxes, lo, c, hi);
    HalvesVolume(outer, c);
  }
}
