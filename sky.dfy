/**
 * What the two hero canvases (ConstellationHero and BlackHoleHero) share: star
 * records, cursor proximity, the completeness test, the order in which one
 * animation frame lights stars and announces finished constellations, label
 * placement and label expiry.
 *
 * Positions are integers in hundredths of a CSS pixel. The star tables give
 * positions in hundredths of the canvas width and height, so a table star on a
 * canvas of `width` by `height` pixels lands exactly on
 * `(fx * width, fy * height)` in these units.
 */
module Sky {
  import Seqs

  /** A canvas position, in hundredths of a CSS pixel. */
  datatype Point = Point(x: int, y: int)

  /** A table position, in hundredths of the canvas width and height. */
  datatype Fraction = Fraction(x: int, y: int)

  datatype Constellation = Constellation(name: string, stars: seq<Fraction>, connections: seq<(int, int)>)

  function Place(f: Fraction, width: nat, height: nat): Point
  {
    Point(f.x * width, f.y * height)
  }

  /** `Math.sqrt(dx * dx + dy * dy) < radius`, compared without the square root. */
  predicate Near(p: Point, q: Point, radius: nat)
  {
    var dx, dy := p.x - q.x, p.y - q.y;
    dx * dx + dy * dy < radius * radius
  }

  /** Where the pointer is parked before it first moves and after it leaves: (-1000, -1000) px. */
  const AWAY := Point(-100000, -100000)

  /** A parked pointer lights nothing: no point on the canvas is near it. */
  lemma AwayIsFar(p: Point, radius: nat)
    requires p.x >= 0 && p.y >= 0 && radius <= 100000
    ensures !Near(p, AWAY, radius)
  {
    var dx: nat := p.x + 100000;
    SquareMono(radius, dx);
  }

  lemma SquareMono(a: nat, b: nat)
    requires a <= b
    ensures a * a <= b * b
  {
    assert a * a <= a * b;
  }

  /**
   * One star of a hero canvas. Background stars have `constellationIndex` and
   * `starIndex` equal to -1. `glow` is the glow intensity in thousandths; only
   * ConstellationHero uses it, BlackHoleHero keeps it at 0.
   */
  datatype Star = Star(pos: Point, isConstellation: bool, constellationIndex: int, starIndex: int,
                       activated: bool, glow: int)

  predicate InGroup(s: Star, c: int)
  {
    s.isConstellation && s.constellationIndex == c
  }

  /** `group.every(s => s.activated)`. */
  function AllActivated(group: seq<Star>): (b: bool)
    ensures b <==> forall s :: s in group ==> s.activated
    decreases |group|
  {
    if |group| == 0 then true
    else
      assert forall s :: s in group ==> s == group[0] || s in group[1..];
      group[0].activated && AllActivated(group[1..])
  }

  /** The stars drawn as members of group `c`, in table order. */
  function Members(stars: seq<Star>, c: int): (g: seq<Star>)
    ensures forall s :: s in g <==> s in stars && InGroup(s, c)
  {
    Seqs.Filter(s => InGroup(s, c), stars)
  }

  /** `checkConstellationComplete`: every member of group `c` is lit. */
  function CheckConstellationComplete(c: int, stars: seq<Star>): (b: bool)
    ensures b <==> forall i :: 0 <= i < |stars| && InGroup(stars[i], c) ==> stars[i].activated
  {
    assert forall i :: 0 <= i < |stars| ==> stars[i] in stars;
    AllActivated(Members(stars, c))
  }

  /** The same stars, differing at most in glow: the same groups and the same lit stars. */
  predicate SameFlags(a: seq<Star>, b: seq<Star>)
  {
    |a| == |b| &&
    forall i :: 0 <= i < |a| ==>
      a[i].isConstellation == b[i].isConstellation &&
      a[i].constellationIndex == b[i].constellationIndex &&
      a[i].activated == b[i].activated
  }

  /** Completeness looks only at group membership and the lit flags. */
  lemma CheckSameFlags(a: seq<Star>, b: seq<Star>, c: int)
    requires SameFlags(a, b)
    ensures CheckConstellationComplete(c, a) == CheckConstellationComplete(c, b)
  {
  }

  /** A star the cursor lights this frame: a constellation star, not yet lit, within the radius. */
  predicate Activates(s: Star, p: Point, radius: nat)
  {
    s.isConstellation && !s.activated && Near(s.pos, p, radius)
  }

  /** The lit flag of one star after the cursor at `p` passes over it. */
  function Lit(s: Star, p: Point, radius: nat): Star
  {
    if s.isConstellation && Near(s.pos, p, radius) then s.(activated := true) else s
  }

  /** The stars after the first `k` of them have been visited in one frame. */
  function Progress(mid: seq<Star>, p: Point, radius: nat, k: nat): (r: seq<Star>)
    requires k <= |mid|
    ensures |r| == |mid|
    ensures forall j :: 0 <= j < |mid| ==> r[j] == if j < k then Lit(mid[j], p, radius) else mid[j]
  {
    seq(|mid|, j requires 0 <= j < |mid| => if j < k then Lit(mid[j], p, radius) else mid[j])
  }

  /** The stars after a whole frame with the cursor at `p`. */
  function Touch(mid: seq<Star>, p: Point, radius: nat): seq<Star>
  {
    Progress(mid, p, radius, |mid|)
  }

  /**
   * A frame never puts a star out: after it a star is lit exactly when it was
   * lit before or the cursor lit it, and background stars are left as they were.
   */
  lemma TouchOnlyLights(mid: seq<Star>, p: Point, radius: nat)
    ensures |Touch(mid, p, radius)| == |mid|
    ensures forall i :: 0 <= i < |mid| ==>
      (Touch(mid, p, radius)[i].activated <==> mid[i].activated || Activates(mid[i], p, radius))
    ensures forall i :: 0 <= i < |mid| && !mid[i].isConstellation ==> Touch(mid, p, radius)[i] == mid[i]
  {
  }

  /**
   * Visiting star `i` finishes its constellation: it is lit now, and with it
   * every member of its group is lit at that moment of the frame.
   */
  predicate Emits(mid: seq<Star>, p: Point, radius: nat, i: nat)
    requires i < |mid|
  {
    Activates(mid[i], p, radius) && CheckConstellationComplete(mid[i].constellationIndex, Progress(mid, p, radius, i + 1))
  }

  /** The groups announced while visiting the first `k` stars, in announcement order. */
  function Emitted(mid: seq<Star>, p: Point, radius: nat, k: nat): (r: seq<int>)
    requires k <= |mid|
    ensures |r| <= k
  {
    if k == 0 then []
    else Emitted(mid, p, radius, k - 1) + (if Emits(mid, p, radius, k - 1) then [mid[k - 1].constellationIndex] else [])
  }

  lemma {:induction false} EmittedMembers(mid: seq<Star>, p: Point, radius: nat, k: nat)
    requires k <= |mid|
    ensures forall c :: c in Emitted(mid, p, radius, k) <==>
      exists i :: 0 <= i < k && Emits(mid, p, radius, i) && mid[i].constellationIndex == c
  {
    if k > 0 {
      EmittedMembers(mid, p, radius, k - 1);
    }
  }

  /** The last unlit member of group `c`, when there is one. */
  lemma LastUnlit(stars: seq<Star>, c: int) returns (i: nat)
    requires !CheckConstellationComplete(c, stars)
    ensures i < |stars| && InGroup(stars[i], c) && !stars[i].activated
    ensures forall j :: i < j < |stars| && InGroup(stars[j], c) ==> stars[j].activated
  {
    i := |stars| - 1;
    while !(InGroup(stars[i], c) && !stars[i].activated)
      invariant 0 <= i < |stars|
      invariant forall j :: i < j < |stars| && InGroup(stars[j], c) ==> stars[j].activated
      invariant exists j :: 0 <= j <= i && InGroup(stars[j], c) && !stars[j].activated
      decreases i
    {
      i := i - 1;
    }
  }

  /** A group announced during a frame was incomplete before it and is complete after it. */
  lemma EmittedWasCompleted(mid: seq<Star>, p: Point, radius: nat, c: int)
    requires c in Emitted(mid, p, radius, |mid|)
    ensures !CheckConstellationComplete(c, mid) && CheckConstellationComplete(c, Touch(mid, p, radius))
  {
    EmittedMembers(mid, p, radius, |mid|);
    var after := Touch(mid, p, radius);
    var i :| 0 <= i < |mid| && Emits(mid, p, radius, i) && mid[i].constellationIndex == c;
    var at := Progress(mid, p, radius, i + 1);
    forall j | 0 <= j < |mid| && InGroup(after[j], c) ensures after[j].activated {
      assert InGroup(at[j], c);
    }
  }

  /** A group that becomes complete during a frame is announced in it. */
  lemma CompletedIsEmitted(mid: seq<Star>, p: Point, radius: nat, c: int)
    requires !CheckConstellationComplete(c, mid) && CheckConstellationComplete(c, Touch(mid, p, radius))
    ensures c in Emitted(mid, p, radius, |mid|)
  {
    EmittedMembers(mid, p, radius, |mid|);
    var after := Touch(mid, p, radius);
    var i := LastUnlit(mid, c);
    assert InGroup(after[i], c);
    var at := Progress(mid, p, radius, i + 1);
    forall j | 0 <= j < |mid| && InGroup(at[j], c) ensures at[j].activated {
      assert InGroup(after[j], c);
    }
    assert Emits(mid, p, radius, i);
  }

  /**
   * A frame announces a group exactly when the group was not complete before
   * the frame and is complete after it.
   */
  lemma EmittedExactlyCompleted(mid: seq<Star>, p: Point, radius: nat, c: int)
    ensures c in Emitted(mid, p, radius, |mid|) <==>
      !CheckConstellationComplete(c, mid) && CheckConstellationComplete(c, Touch(mid, p, radius))
  {
    if c in Emitted(mid, p, radius, |mid|) {
      EmittedWasCompleted(mid, p, radius, c);
    } else if !CheckConstellationComplete(c, mid) && CheckConstellationComplete(c, Touch(mid, p, radius)) {
      CompletedIsEmitted(mid, p, radius, c);
    }
  }

  /** After a frame a group is complete exactly when it was complete before or it was announced. */
  lemma CompleteAfterFrame(mid: seq<Star>, p: Point, radius: nat, c: int)
    ensures CheckConstellationComplete(c, Touch(mid, p, radius)) <==>
      CheckConstellationComplete(c, mid) || c in Emitted(mid, p, radius, |mid|)
  {
    EmittedExactlyCompleted(mid, p, radius, c);
    var after := Touch(mid, p, radius);
    if CheckConstellationComplete(c, mid) {
      forall j | 0 <= j < |mid| && InGroup(after[j], c) ensures after[j].activated {
        assert InGroup(mid[j], c);
      }
    }
  }

  /** Every announced group is the group of some star of the frame. */
  lemma EmittedFromStars(mid: seq<Star>, p: Point, radius: nat, c: int)
    requires c in Emitted(mid, p, radius, |mid|)
    ensures exists i :: 0 <= i < |mid| && InGroup(mid[i], c)
  {
    EmittedMembers(mid, p, radius, |mid|);
  }

  /** Every group announced so far is complete at that point of the frame. */
  lemma {:induction false} EmittedStayComplete(mid: seq<Star>, p: Point, radius: nat, k: nat)
    requires k <= |mid|
    ensures forall c :: c in Emitted(mid, p, radius, k) ==> CheckConstellationComplete(c, Progress(mid, p, radius, k))
  {
    if k > 0 {
      EmittedStayComplete(mid, p, radius, k - 1);
      var before, now := Progress(mid, p, radius, k - 1), Progress(mid, p, radius, k);
      forall c | c in Emitted(mid, p, radius, k - 1)
        ensures CheckConstellationComplete(c, now)
      {
        assert forall j :: 0 <= j < |mid| && InGroup(now[j], c) ==> InGroup(before[j], c);
      }
    }
  }

  /** A frame announces each group at most once. */
  lemma {:induction false} EmittedDistinct(mid: seq<Star>, p: Point, radius: nat, k: nat)
    requires k <= |mid|
    ensures forall a, b :: 0 <= a < b < |Emitted(mid, p, radius, k)| ==>
      Emitted(mid, p, radius, k)[a] != Emitted(mid, p, radius, k)[b]
  {
    if k > 0 {
      EmittedDistinct(mid, p, radius, k - 1);
      if Emits(mid, p, radius, k - 1) {
        var c := mid[k - 1].constellationIndex;
        EmittedStayComplete(mid, p, radius, k - 1);
        assert InGroup(Progress(mid, p, radius, k - 1)[k - 1], c);
        assert c !in Emitted(mid, p, radius, k - 1);
      }
    }
  }

  /** A finished constellation's label: its name, the mean of its members' positions and the time. */
  datatype Label = Label(name: string, x: real, y: real, timestamp: int)

  /** The stars whose constellation index is `c`, the filter the label position is taken over. */
  function Indexed(stars: seq<Star>, c: int): (g: seq<Star>)
    ensures forall s :: s in g <==> s in stars && s.constellationIndex == c
  {
    Seqs.Filter((s: Star) => s.constellationIndex == c, stars)
  }

  function SumX(g: seq<Star>): int
    decreases |g|
  {
    if |g| == 0 then 0 else g[0].pos.x + SumX(g[1..])
  }

  function SumY(g: seq<Star>): int
    decreases |g|
  {
    if |g| == 0 then 0 else g[0].pos.y + SumY(g[1..])
  }

  /** The centre of group `c`: the average of the positions of the stars indexed `c`. */
  function Centroid(stars: seq<Star>, c: int): (r: (real, real))
    requires |Indexed(stars, c)| > 0
  {
    var g := Indexed(stars, c);
    (SumX(g) as real / |g| as real, SumY(g) as real / |g| as real)
  }

  lemma MulSucc(a: int, n: nat)
    ensures a * (n + 1) == a * n + a
  {
  }

  /** Sums over stars whose abscissas all fall in a range stay within count times that range. */
  lemma {:induction false} SumXBounds(g: seq<Star>, lo: int, hi: int)
    requires forall i :: 0 <= i < |g| ==> lo <= g[i].pos.x <= hi
    ensures lo * |g| <= SumX(g) <= hi * |g|
    decreases |g|
  {
    if |g| > 0 {
      var rest := g[1..];
      assert forall i :: 0 <= i < |rest| ==> rest[i] == g[i + 1];
      SumXBounds(rest, lo, hi);
      MulSucc(lo, |rest|);
      MulSucc(hi, |rest|);
    }
  }

  /** The same for ordinates. */
  lemma {:induction false} SumYBounds(g: seq<Star>, lo: int, hi: int)
    requires forall i :: 0 <= i < |g| ==> lo <= g[i].pos.y <= hi
    ensures lo * |g| <= SumY(g) <= hi * |g|
    decreases |g|
  {
    if |g| > 0 {
      var rest := g[1..];
      assert forall i :: 0 <= i < |rest| ==> rest[i] == g[i + 1];
      SumYBounds(rest, lo, hi);
      MulSucc(lo, |rest|);
      MulSucc(hi, |rest|);
    }
  }

  /** A mean of `n` values, given their sum lies within `n` times a range, lies within the range. */
  lemma MeanWithin(lo: int, sum: int, hi: int, n: nat)
    requires n > 0 && lo * n <= sum <= hi * n
    ensures lo as real <= sum as real / n as real <= hi as real
  {
    var q := sum as real / n as real;
    assert q * n as real == sum as real;
    assert (lo * n) as real == lo as real * n as real;
    assert (hi * n) as real == hi as real * n as real;
  }

  /** A label sits inside any box that holds all the stars of its group. */
  lemma CentroidWithin(stars: seq<Star>, c: int, lo: Point, hi: Point)
    requires |Indexed(stars, c)| > 0
    requires forall i :: 0 <= i < |stars| && stars[i].constellationIndex == c ==>
      lo.x <= stars[i].pos.x <= hi.x && lo.y <= stars[i].pos.y <= hi.y
    ensures lo.x as real <= Centroid(stars, c).0 <= hi.x as real
    ensures lo.y as real <= Centroid(stars, c).1 <= hi.y as real
  {
    var g := Indexed(stars, c);
    forall k | 0 <= k < |g| ensures lo.x <= g[k].pos.x <= hi.x && lo.y <= g[k].pos.y <= hi.y {
      assert g[k] in g;
      var i :| 0 <= i < |stars| && stars[i] == g[k];
    }
    SumXBounds(g, lo.x, hi.x);
    SumYBounds(g, lo.y, hi.y);
    MeanWithin(lo.x, SumX(g), hi.x, |g|);
    MeanWithin(lo.y, SumY(g), hi.y, |g|);
  }

  /** The stars have the same positions and indices. */
  predicate SamePlaces(a: seq<Star>, b: seq<Star>)
  {
    |a| == |b| &&
    forall i :: 0 <= i < |a| ==> a[i].pos == b[i].pos && a[i].constellationIndex == b[i].constellationIndex
  }

  lemma {:induction false} IndexedSamePlaces(a: seq<Star>, b: seq<Star>, c: int)
    requires SamePlaces(a, b)
    ensures |Indexed(a, c)| == |Indexed(b, c)|
    ensures SumX(Indexed(a, c)) == SumX(Indexed(b, c)) && SumY(Indexed(a, c)) == SumY(Indexed(b, c))
    decreases |a|
  {
    if |a| > 0 {
      assert SamePlaces(a[1..], b[1..]);
      IndexedSamePlaces(a[1..], b[1..], c);
    }
  }

  /** Lighting stars does not move a label: the centre depends on positions only. */
  lemma CentroidIgnoresFlags(a: seq<Star>, b: seq<Star>, c: int)
    requires SamePlaces(a, b) && |Indexed(a, c)| > 0
    ensures |Indexed(b, c)| > 0 && Centroid(a, c) == Centroid(b, c)
  {
    IndexedSamePlaces(a, b, c);
  }

  /** The constellations whose completion is more than `delay` milliseconds old at time `now`. */
  function Expired(completed: map<int, int>, now: int, delay: int): (r: set<int>)
    ensures forall c :: c in r <==> c in completed && now - completed[c] > delay
  {
    set c | c in completed && now - completed[c] > delay
  }

  /** How long a label stays on screen, in milliseconds. */
  const LABEL_LIFETIME := 2500

  /** The periodic cleanup: keep the labels younger than the lifetime, in order. */
  function ExpireLabels(labels: seq<Label>, now: int): (r: seq<Label>)
    ensures forall l :: l in r <==> l in labels && now - l.timestamp < LABEL_LIFETIME
    ensures Seqs.SubsequenceOf(r, labels)
    ensures forall l :: multiset(r)[l] == if now - l.timestamp < LABEL_LIFETIME then multiset(labels)[l] else 0
  {
    var young := (l: Label) => now - l.timestamp < LABEL_LIFETIME;
    Seqs.FilterIsSubsequence(young, labels);
    Seqs.FilterCount(young, labels);
    Seqs.Filter(young, labels)
  }

  /** Cleaning up twice is cleaning up once at the later time. */
  lemma {:induction false} ExpireLater(labels: seq<Label>, t1: int, t2: int)
    requires t1 <= t2
    ensures ExpireLabels(ExpireLabels(labels, t1), t2) == ExpireLabels(labels, t2)
    decreases |labels|
  {
    if |labels| > 0 {
      ExpireLater(labels[1..], t1, t2);
    }
  }

  /** How a connection between members `i` and `j` of a group is drawn. */
  datatype Link = Hidden | Dashed | Bright

  function LinkStyle(group: seq<Star>, ends: (int, int)): Link
  {
    var (i, j) := ends;
    if !(0 <= i < |group| && 0 <= j < |group|) then Hidden
    else if group[i].activated && group[j].activated then Bright
    else if group[i].activated || group[j].activated then Dashed
    else Hidden
  }

  /** In a complete group every connection between existing members is drawn bright. */
  lemma CompleteGroupAllBright(stars: seq<Star>, c: int, connections: seq<(int, int)>)
    requires CheckConstellationComplete(c, stars)
    ensures forall k :: 0 <= k < |connections| ==>
      var (i, j) := connections[k];
      (0 <= i < |Members(stars, c)| && 0 <= j < |Members(stars, c)| <==> LinkStyle(Members(stars, c), connections[k]) == Bright)
  {
    var g := Members(stars, c);
    forall s | s in g ensures s.activated {
      var i :| 0 <= i < |stars| && stars[i] == s;
    }
  }

  /** A group with no lit member draws no connection at all. */
  lemma DarkGroupNoLinks(stars: seq<Star>, c: int, connections: seq<(int, int)>)
    requires forall i :: 0 <= i < |stars| && InGroup(stars[i], c) ==> !stars[i].activated
    ensures forall k :: 0 <= k < |connections| ==> LinkStyle(Members(stars, c), connections[k]) == Hidden
  {
    var g := Members(stars, c);
    forall s | s in g ensures !s.activated {
      var i :| 0 <= i < |stars| && stars[i] == s;
    }
  }

  /** Every constellation star has a valid group index. */
  predicate IndicesOk(stars: seq<Star>, n: int)
  {
    forall i :: 0 <= i < |stars| && stars[i].isConstellation ==> 0 <= stars[i].constellationIndex < n
  }

  /** Announced constellations are real constellations with stars on the canvas. */
  lemma EmittedValid(t: seq<Constellation>, mid: seq<Star>, p: Point, radius: nat, k: nat)
    requires k <= |mid| && IndicesOk(mid, |t|)
    ensures forall c :: c in Emitted(mid, p, radius, k) ==>
      0 <= c < |t| && |Indexed(mid, c)| > 0
  {
    EmittedMembers(mid, p, radius, k);
    forall c | c in Emitted(mid, p, radius, k) ensures 0 <= c < |t| && |Indexed(mid, c)| > 0 {
      var i :| 0 <= i < k && Emits(mid, p, radius, i) && mid[i].constellationIndex == c;
      assert mid[i] in Indexed(mid, c);
    }
  }

  /** The label announcing constellation `c` of table `t`: its name at its centre, stamped `now`. */
  function LabelFor(t: seq<Constellation>, mid: seq<Star>, c: int, now: int): Label
    requires 0 <= c < |t| && |Indexed(mid, c)| > 0
  {
    var (x, y) := Centroid(mid, c);
    Label(t[c].name, x, y, now)
  }

  /** The labels of the constellations completed in one frame, in completion order. */
  function Announce(t: seq<Constellation>, mid: seq<Star>, emitted: seq<int>, now: int): (r: seq<Label>)
    requires Announceable(t, mid, emitted)
    ensures |r| == |emitted|
    ensures forall k :: 0 <= k < |r| ==> emitted[k] in emitted && r[k] == LabelFor(t, mid, emitted[k], now)
  {
    seq(|emitted|, k requires 0 <= k < |emitted| => assert emitted[k] in emitted; LabelFor(t, mid, emitted[k], now))
  }

  lemma AnnounceSnoc(t: seq<Constellation>, mid: seq<Star>, emitted: seq<int>, c: int, now: int)
    requires forall e :: e in emitted ==> 0 <= e < |t| && |Indexed(mid, e)| > 0
    requires 0 <= c < |t| && |Indexed(mid, c)| > 0
    ensures Announce(t, mid, emitted + [c], now) == Announce(t, mid, emitted, now) + [LabelFor(t, mid, c, now)]
  {
  }

  lemma StampSnoc(completed: map<int, int>, emitted: seq<int>, c: int, now: int)
    ensures Stamp(completed, emitted + [c], now) == Stamp(completed, emitted, now)[c := now]
  {
  }

  /** The completion timestamps after recording time `now` for each of `emitted`. */
  function Stamp(completed: map<int, int>, emitted: seq<int>, now: int): (r: map<int, int>)
    ensures forall c :: c in r <==> c in completed || c in emitted
    ensures forall c :: c in r ==> r[c] == if c in emitted then now else completed[c]
  {
    map c | c in completed.Keys + (set e | e in emitted) :: if c in emitted then now else completed[c]
  }

  /** Announced constellations are real constellations with stars on the canvas. */
  predicate Announceable(t: seq<Constellation>, mid: seq<Star>, emitted: seq<int>)
  {
    forall c :: c in emitted ==> 0 <= c < |t| && |Indexed(mid, c)| > 0
  }

  /** The bookkeeping of one iteration: the completion time and the label of an announced constellation. */
  lemma RecordStep(t: seq<Constellation>, mid: seq<Star>, p: Point, radius: nat, completed: map<int, int>, now: int, i: nat)
    requires i < |mid| && IndicesOk(mid, |t|)
    ensures Announceable(t, mid, Emitted(mid, p, radius, i)) && Announceable(t, mid, Emitted(mid, p, radius, i + 1))
    ensures var before, after := Emitted(mid, p, radius, i), Emitted(mid, p, radius, i + 1);
      var c := mid[i].constellationIndex;
      if Emits(mid, p, radius, i) then
        0 <= c < |t| && |Indexed(mid, c)| > 0 &&
        Stamp(completed, after, now) == Stamp(completed, before, now)[c := now] &&
        Announce(t, mid, after, now) == Announce(t, mid, before, now) + [LabelFor(t, mid, c, now)]
      else
        after == before
  {
    EmittedValid(t, mid, p, radius, i);
    EmittedValid(t, mid, p, radius, i + 1);
    var before := Emitted(mid, p, radius, i);
    var c := mid[i].constellationIndex;
    if Emits(mid, p, radius, i) {
      assert Emitted(mid, p, radius, i + 1) == before + [c];
      StampSnoc(completed, before, c, now);
      AnnounceSnoc(t, mid, before, c, now);
    }
  }

  /**
   * The discovery step at star `i` of the update loop of both components: a
   * constellation star within `radius` of the cursor that is not yet lit
   * becomes lit; if that completes its constellation (of table `t`), the
   * completion time `now` is recorded and a label naming the constellation
   * at its centre is added. Nothing else changes.
   */
  method LightStar(t: seq<Constellation>, radius: nat, stars: seq<Star>, p: Point, i: nat, now: int,
                   stamped: map<int, int>, newly: seq<Label>)
    returns (lit: seq<Star>, stamped': map<int, int>, newly': seq<Label>)
    requires i < |stars|
    requires stars[i].isConstellation ==> 0 <= stars[i].constellationIndex < |t|
    ensures lit == if Activates(stars[i], p, radius) then stars[i := stars[i].(activated := true)] else stars
    ensures var c := stars[i].constellationIndex;
      if Activates(stars[i], p, radius) && CheckConstellationComplete(c, lit) then
        0 <= c < |t| && |Indexed(lit, c)| > 0 &&
        stamped' == stamped[c := now] && newly' == newly + [LabelFor(t, lit, c, now)]
      else
        stamped' == stamped && newly' == newly
  {
    lit, stamped', newly' := stars, stamped, newly;
    var star := stars[i];
    if Near(star.pos, p, radius) && star.isConstellation && !star.activated {
      lit := lit[i := star.(activated := true)];
      var c := star.constellationIndex;
      if CheckConstellationComplete(c, lit) {
        assert lit[i] in Indexed(lit, c);
        var (x, y) := Centroid(lit, c);
        stamped' := stamped'[c := now];
        newly' := newly' + [Label(t[c].name, x, y, now)];
      }
    }
  }
}
