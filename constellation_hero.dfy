/**
 * ConstellationHero: the landing canvas of twelve constellations hidden among
 * eighty background stars. Passing the cursor within 70 px of a constellation
 * star lights it; lighting the last unlit star of a constellation announces
 * it with a label at the constellation's centre and counts it as discovered;
 * three seconds after completion the constellation goes dark again, and labels
 * disappear 2.5 seconds after they appear.
 *
 * Stars are values in a sequence; one animation frame is `StarField.Animate`,
 * which runs the reset phase and then the update phase, each a method on the
 * star sequence proved against a specification function.
 */
module ConstellationHero {
  import opened Sky
  import opened SkyLayout
  import Seqs

  const CONSTELLATIONS: seq<Constellation> := [
    Constellation("Orion",
      [Fraction(48, 18), Fraction(56, 18), Fraction(50, 28), Fraction(54, 28), Fraction(52, 35), Fraction(49, 36), Fraction(55, 34), Fraction(46, 48), Fraction(58, 48)],
      [(0, 2), (1, 3), (2, 3), (2, 4), (3, 6), (4, 5), (5, 6), (4, 7), (6, 8)]),
    Constellation("Ursa Major",
      [Fraction(8, 12), Fraction(12, 10), Fraction(16, 11), Fraction(20, 14), Fraction(19, 18), Fraction(24, 15), Fraction(25, 19)],
      [(0, 1), (1, 2), (2, 3), (3, 4), (4, 6), (3, 5), (5, 6)]),
    Constellation("Cassiopeia",
      [Fraction(75, 8), Fraction(78, 12), Fraction(82, 9), Fraction(86, 13), Fraction(89, 10)],
      [(0, 1), (1, 2), (2, 3), (3, 4)]),
    Constellation("Leo",
      [Fraction(82, 72), Fraction(86, 68), Fraction(90, 70), Fraction(94, 74), Fraction(88, 78), Fraction(84, 80)],
      [(0, 1), (1, 2), (2, 3), (2, 4), (4, 5), (5, 0)]),
    Constellation("Cygnus",
      [Fraction(5, 52), Fraction(8, 58), Fraction(11, 63), Fraction(6, 63), Fraction(12, 56), Fraction(14, 68)],
      [(0, 1), (1, 2), (1, 3), (1, 4), (2, 5)]),
    Constellation("Lyra",
      [Fraction(92, 42), Fraction(95, 46), Fraction(97, 50), Fraction(95, 53), Fraction(93, 50)],
      [(0, 1), (1, 2), (2, 3), (3, 4), (4, 1)]),
    Constellation("Scorpius",
      [Fraction(8, 78), Fraction(11, 82), Fraction(14, 85), Fraction(18, 87), Fraction(22, 88), Fraction(25, 85), Fraction(27, 82)],
      [(0, 1), (1, 2), (2, 3), (3, 4), (4, 5), (5, 6)]),
    Constellation("Gemini",
      [Fraction(32, 8), Fraction(35, 12), Fraction(38, 16), Fraction(36, 10), Fraction(40, 14), Fraction(42, 18)],
      [(0, 1), (1, 2), (3, 4), (4, 5), (1, 4)]),
    Constellation("Aquarius",
      [Fraction(62, 75), Fraction(65, 78), Fraction(68, 80), Fraction(66, 83), Fraction(70, 85)],
      [(0, 1), (1, 2), (2, 3), (3, 4)]),
    Constellation("Draco",
      [Fraction(40, 65), Fraction(38, 70), Fraction(35, 74), Fraction(32, 78), Fraction(28, 75)],
      [(0, 1), (1, 2), (2, 3), (3, 4)]),
    Constellation("Perseus",
      [Fraction(55, 8), Fraction(58, 11), Fraction(60, 15), Fraction(57, 14), Fraction(54, 12)],
      [(0, 1), (1, 2), (1, 3), (0, 4)]),
    Constellation("Aries",
      [Fraction(70, 55), Fraction(73, 58), Fraction(77, 56), Fraction(80, 58)],
      [(0, 1), (1, 2), (2, 3)])
  ]

  /** The cursor radius, 70 px. */
  const CURSOR_RADIUS: nat := 7000
  /** How many background stars `initStars` scatters. */
  const BACKGROUND_STAR_COUNT := 80
  /** Milliseconds a completed constellation stays lit before it is reset. */
  const CONSTELLATION_RESET_DELAY := 3000

  /** The full glow intensity, 1.0 in thousandths. */
  const FULL_GLOW := 1000
  /** The glow a lit star keeps when the cursor is away, 0.4 in thousandths. */
  const LIT_GLOW_FLOOR := 400

  function Min(a: int, b: int): int { if a < b then a else b }
  function Max(a: int, b: int): int { if a < b then b else a }

  /** The table has twelve constellations and none is empty. */
  lemma TableShape()
    ensures |CONSTELLATIONS| == 12
    ensures forall c :: 0 <= c < |CONSTELLATIONS| ==> |CONSTELLATIONS[c].stars| > 0
  {
  }

  /** The star list `initStars` builds: every constellation in table order, then the background. */
  function Initial(width: nat, height: nat, background: seq<Point>): seq<Star>
  {
    Layout(CONSTELLATIONS, |CONSTELLATIONS|, width, height) + Backdrop(background)
  }

  /** What holds of every star: glow within [0, 1], valid group index, inert background stars. */
  predicate StarOk(s: Star)
  {
    0 <= s.glow <= FULL_GLOW &&
    (s.isConstellation ==> 0 <= s.constellationIndex < |CONSTELLATIONS|) &&
    (!s.isConstellation ==> s.constellationIndex == -1 && !s.activated && s.glow == 0)
  }

  /** Every star is well formed and every constellation has a member in the list. */
  predicate StarsOk(stars: seq<Star>)
  {
    (forall i :: 0 <= i < |stars| ==> StarOk(stars[i])) &&
    (forall c :: 0 <= c < |CONSTELLATIONS| ==> HasMember(stars, c))
  }

  /** The completion timestamps hold exactly the constellations that are complete. */
  ghost predicate Matches(stars: seq<Star>, completed: map<int, int>)
  {
    forall c :: c in completed <==> 0 <= c < |CONSTELLATIONS| && CheckConstellationComplete(c, stars)
  }

  /** `initStars`: the constellation stars, then the eighty background stars at the drawn points. */
  method InitStars(width: nat, height: nat, background: seq<Point>) returns (stars: seq<Star>)
    requires |background| == BACKGROUND_STAR_COUNT
    ensures stars == Initial(width, height, background)
    ensures |stars| == Offset(CONSTELLATIONS, |CONSTELLATIONS|) + BACKGROUND_STAR_COUNT
    ensures forall i :: Offset(CONSTELLATIONS, |CONSTELLATIONS|) <= i < |stars| ==> !stars[i].isConstellation
  {
    stars := PlaceConstellations(CONSTELLATIONS, width, height);
    stars := PlaceBackground(stars, background);
  }

  /** A fresh star list is well formed and no constellation in it is complete. */
  lemma InitialValid(width: nat, height: nat, background: seq<Point>)
    ensures StarsOk(Initial(width, height, background)) && Matches(Initial(width, height, background), map[])
  {
    TableShape();
    LayoutValid(CONSTELLATIONS, width, height, background);
    var stars := Initial(width, height, background);
    assert stars == Layout(CONSTELLATIONS, |CONSTELLATIONS|, width, height) + Backdrop(background);
    assert forall c :: 0 <= c < |CONSTELLATIONS| ==> HasMember(stars, c);
    forall c | 0 <= c < |CONSTELLATIONS| ensures !CheckConstellationComplete(c, stars) {
      assert HasMember(stars, c);
      var i :| 0 <= i < |stars| && InGroup(stars[i], c);
      assert !stars[i].activated;
    }
    assert forall i :: 0 <= i < |stars| ==> StarOk(stars[i]);
  }

  /** `resetConstellation` for each group in `groups`: its stars go dark and lose their glow. */
  function ResetGroups(stars: seq<Star>, groups: set<int>): (r: seq<Star>)
    ensures |r| == |stars| && SamePlaces(r, stars)
    ensures forall i :: 0 <= i < |r| ==>
      r[i] == if InGroup(stars[i], stars[i].constellationIndex) && stars[i].constellationIndex in groups
              then stars[i].(activated := false, glow := 0) else stars[i]
  {
    seq(|stars|, i requires 0 <= i < |stars| =>
      if stars[i].isConstellation && stars[i].constellationIndex in groups
      then stars[i].(activated := false, glow := 0) else stars[i])
  }

  /** Resetting leaves the well-formedness of the stars intact, and the reset groups incomplete. */
  lemma ResetKeepsMatch(stars: seq<Star>, completed: map<int, int>, now: int)
    requires StarsOk(stars) && Matches(stars, completed)
    ensures var mid := ResetGroups(stars, Expired(completed, now, CONSTELLATION_RESET_DELAY));
      StarsOk(mid) && Matches(mid, completed - Expired(completed, now, CONSTELLATION_RESET_DELAY))
  {
    var x := Expired(completed, now, CONSTELLATION_RESET_DELAY);
    var mid := ResetGroups(stars, x);
    forall c | 0 <= c < |CONSTELLATIONS|
      ensures HasMember(mid, c) && (CheckConstellationComplete(c, mid) <==> c in completed && c !in x)
    {
      assert HasMember(stars, c);
      var i :| 0 <= i < |stars| && InGroup(stars[i], c);
      assert InGroup(mid[i], c);
      if c in x {
        assert InGroup(mid[i], c) && !mid[i].activated;
      } else {
        assert forall i :: 0 <= i < |stars| && InGroup(stars[i], c) ==> mid[i] == stars[i];
      }
    }
  }

  /** `resetConstellation(c)`: the stars of constellation `c` go dark and lose their glow. */
  method ResetConstellation(stars: seq<Star>, c: int) returns (r: seq<Star>)
    ensures r == ResetGroups(stars, {c})
  {
    r := stars;
    for i := 0 to |r|
      invariant |r| == |stars|
      invariant forall j :: 0 <= j < |r| ==> r[j] == if j < i then ResetGroups(stars, {c})[j] else stars[j]
    {
      if r[i].isConstellation && r[i].constellationIndex == c {
        r := r[i := r[i].(activated := false, glow := 0)];
      }
    }
  }

  /** The reset phase of a frame: every constellation completed too long ago is reset and forgotten. */
  method ResetPhase(stars: seq<Star>, completed: map<int, int>, now: int)
    returns (mid: seq<Star>, kept: map<int, int>)
    ensures mid == ResetGroups(stars, Expired(completed, now, CONSTELLATION_RESET_DELAY))
    ensures kept == completed - Expired(completed, now, CONSTELLATION_RESET_DELAY)
  {
    var x := Expired(completed, now, CONSTELLATION_RESET_DELAY);
    mid, kept := stars, completed;
    var todo := completed.Keys;
    while todo != {}
      invariant todo <= completed.Keys
      invariant mid == ResetGroups(stars, x - todo)
      invariant kept == completed - (x - todo)
      decreases |todo|
    {
      ghost var some := Seqs.Pick(todo);
      var c :| c in todo;
      if now - completed[c] > CONSTELLATION_RESET_DELAY {
        mid := ResetConstellation(mid, c);
        kept := kept - {c};
        assert mid == ResetGroups(stars, x - (todo - {c}));
      } else {
        assert x - (todo - {c}) == x - todo;
      }
      todo := todo - {c};
    }
    assert x - todo == x;
  }

  /**
   * One star after the cursor at `p` has passed over it in a frame: a
   * constellation star near the cursor lights up and brightens by 0.2 up to
   * 1; away from the cursor a lit star fades by 0.015 but not below 0.4, an
   * unlit one by 0.03 down to 0. Background stars only change opacity.
   */
  function Updated(s: Star, p: Point): Star
  {
    if Near(s.pos, p, CURSOR_RADIUS) then
      if s.isConstellation then s.(activated := true, glow := Min(s.glow + 200, FULL_GLOW)) else s
    else if s.isConstellation && s.activated then s.(glow := Max(s.glow - 15, LIT_GLOW_FLOOR))
    else if s.isConstellation then s.(glow := Max(s.glow - 30, 0))
    else s
  }

  /**
   * What one frame does to one star: it keeps its place and group, it lights
   * exactly as the shared discovery rule says, glow stays within [0, 1], a
   * star under the cursor does not dim, a lit star away from the cursor keeps
   * at least 0.4, an unlit one does not brighten, and background stars are
   * left alone.
   */
  lemma UpdatedSpec(s: Star, p: Point)
    ensures var r := Updated(s, p);
      r.pos == s.pos && r.isConstellation == s.isConstellation &&
      r.constellationIndex == s.constellationIndex && r.starIndex == s.starIndex &&
      r.activated == Lit(s, p, CURSOR_RADIUS).activated &&
      (StarOk(s) ==> StarOk(r)) &&
      (!s.isConstellation ==> r == s) &&
      (s.isConstellation && Near(s.pos, p, CURSOR_RADIUS) ==> r.glow >= Min(s.glow, FULL_GLOW)) &&
      (s.isConstellation && r.activated && !Near(s.pos, p, CURSOR_RADIUS) ==> r.glow >= LIT_GLOW_FLOOR) &&
      (!r.activated ==> r.glow <= Max(s.glow, 0))
  {
  }

  /** A constellation star under the cursor reaches full glow within five frames. */
  lemma {:induction false} FullGlowAfterFiveFrames(s: Star, p: Point)
    requires s.isConstellation && Near(s.pos, p, CURSOR_RADIUS) && s.glow >= 0
    ensures Updated(Updated(Updated(Updated(Updated(s, p), p), p), p), p).glow == FULL_GLOW
  {
    var s1 := Updated(s, p);
    var s2 := Updated(s1, p);
    var s3 := Updated(s2, p);
    var s4 := Updated(s3, p);
    assert s1.glow >= Min(200, FULL_GLOW) && s2.glow >= Min(400, FULL_GLOW);
    assert s3.glow >= 600 && s4.glow >= 800;
  }

  /** The stars after the first `k` of them have been visited in one frame. */
  function Partial(mid: seq<Star>, p: Point, k: nat): (r: seq<Star>)
    requires k <= |mid|
    ensures |r| == |mid|
    ensures forall j :: 0 <= j < |mid| ==> r[j] == if j < k then Updated(mid[j], p) else mid[j]
  {
    seq(|mid|, j requires 0 <= j < |mid| => if j < k then Updated(mid[j], p) else mid[j])
  }

  /** The stars after the update phase of a frame with the cursor at `p`. */
  function Frame(mid: seq<Star>, p: Point): seq<Star>
  {
    Partial(mid, p, |mid|)
  }

  /** Glow aside, visiting stars lights them exactly as the shared discovery rule says. */
  lemma PartialFlags(mid: seq<Star>, p: Point, k: nat)
    requires k <= |mid|
    ensures SameFlags(Partial(mid, p, k), Progress(mid, p, CURSOR_RADIUS, k))
    ensures SamePlaces(Partial(mid, p, k), mid)
  {
    forall j | 0 <= j < |mid| {
      UpdatedSpec(mid[j], p);
    }
  }

  /** Visiting star `i` changes that star only, as `Updated` says. */
  lemma PartialStep(mid: seq<Star>, p: Point, i: nat)
    requires i < |mid|
    ensures Partial(mid, p, i + 1) == Partial(mid, p, i)[i := Updated(mid[i], p)]
  {
  }

  /**
   * The test the update loop makes at star `i`: the star is lit now, and with
   * it lit its whole constellation is complete.
   */
  lemma EmitsWhenLastLit(mid: seq<Star>, p: Point, i: nat)
    requires i < |mid|
    ensures var stars := Partial(mid, p, i)[i := mid[i].(activated := true)];
      Emits(mid, p, CURSOR_RADIUS, i) <==>
        Activates(mid[i], p, CURSOR_RADIUS) && CheckConstellationComplete(mid[i].constellationIndex, stars)
  {
    var stars := Partial(mid, p, i)[i := mid[i].(activated := true)];
    if Activates(mid[i], p, CURSOR_RADIUS) {
      assert SameFlags(stars, Progress(mid, p, CURSOR_RADIUS, i + 1));
      CheckSameFlags(stars, Progress(mid, p, CURSOR_RADIUS, i + 1), mid[i].constellationIndex);
    }
  }

  /** Lighting star `i` during the loop leaves the centre of every constellation where it was. */
  lemma LitLabel(mid: seq<Star>, p: Point, i: nat, c: int, now: int)
    requires i < |mid| && 0 <= c < |CONSTELLATIONS|
    requires |Indexed(Partial(mid, p, i)[i := mid[i].(activated := true)], c)| > 0
    ensures |Indexed(mid, c)| > 0
    ensures LabelFor(CONSTELLATIONS, Partial(mid, p, i)[i := mid[i].(activated := true)], c, now) == LabelFor(CONSTELLATIONS, mid, c, now)
  {
    var lit := Partial(mid, p, i)[i := mid[i].(activated := true)];
    PartialFlags(mid, p, i);
    assert SamePlaces(lit, mid);
    CentroidIgnoresFlags(lit, mid, c);
  }

  /**
   * One iteration of the update loop: the discovery step at star `i`, then the
   * star's glow is updated. Star `i` ends as `Updated` says, and the step
   * records a completion and a label exactly when visiting star `i` finishes
   * its constellation.
   */
  method Visit(mid: seq<Star>, p: Point, i: nat, now: int, stars: seq<Star>, stamped: map<int, int>, newly: seq<Label>)
    returns (stars': seq<Star>, stamped': map<int, int>, newly': seq<Label>)
    requires i < |mid| && IndicesOk(mid, |CONSTELLATIONS|)
    requires stars == Partial(mid, p, i)
    ensures stars' == stars[i := Updated(mid[i], p)]
    ensures var c := mid[i].constellationIndex;
      if Emits(mid, p, CURSOR_RADIUS, i) then
        0 <= c < |CONSTELLATIONS| && |Indexed(mid, c)| > 0 &&
        stamped' == stamped[c := now] && newly' == newly + [LabelFor(CONSTELLATIONS, mid, c, now)]
      else
        stamped' == stamped && newly' == newly
  {
    EmitsWhenLastLit(mid, p, i);
    assert stars[i] == mid[i];
    var lit;
    lit, stamped', newly' := LightStar(CONSTELLATIONS, CURSOR_RADIUS, stars, p, i, now, stamped, newly);
    var c := mid[i].constellationIndex;
    if Activates(mid[i], p, CURSOR_RADIUS) && CheckConstellationComplete(c, lit) {
      LitLabel(mid, p, i, c, now);
    }
    stars' := lit[i := Updated(mid[i], p)];
  }

  /**
   * The update phase of a frame: every star is visited in list order; a star
   * that lights the last unlit star of its constellation records the
   * completion time and yields a label.
   */
  method UpdatePhase(mid: seq<Star>, p: Point, completed: map<int, int>, now: int)
    returns (stars: seq<Star>, stamped: map<int, int>, newly: seq<Label>)
    requires IndicesOk(mid, |CONSTELLATIONS|)
    ensures stars == Frame(mid, p)
    ensures stamped == Stamp(completed, Emitted(mid, p, CURSOR_RADIUS, |mid|), now)
    ensures Announceable(CONSTELLATIONS, mid, Emitted(mid, p, CURSOR_RADIUS, |mid|))
    ensures newly == Announce(CONSTELLATIONS, mid, Emitted(mid, p, CURSOR_RADIUS, |mid|), now)
  {
    stars, stamped, newly := mid, completed, [];
    assert Partial(mid, p, 0) == mid;
    for i := 0 to |mid|
      invariant stars == Partial(mid, p, i)
      invariant stamped == Stamp(completed, Emitted(mid, p, CURSOR_RADIUS, i), now)
      invariant Announceable(CONSTELLATIONS, mid, Emitted(mid, p, CURSOR_RADIUS, i))
      invariant newly == Announce(CONSTELLATIONS, mid, Emitted(mid, p, CURSOR_RADIUS, i), now)
    {
      RecordStep(CONSTELLATIONS, mid, p, CURSOR_RADIUS, completed, now, i);
      PartialStep(mid, p, i);
      stars, stamped, newly := Visit(mid, p, i, now, stars, stamped, newly);
    }
  }

  /**
   * A frame keeps the completion timestamps in step with the stars: after the
   * update phase a constellation is complete exactly when it was complete
   * before or was announced in this frame, and the announced ones are exactly
   * the ones stamped `now`.
   */
  lemma FrameKeepsMatch(mid: seq<Star>, p: Point, kept: map<int, int>, now: int)
    requires StarsOk(mid) && Matches(mid, kept)
    ensures IndicesOk(mid, |CONSTELLATIONS|)
    ensures var emitted := Emitted(mid, p, CURSOR_RADIUS, |mid|);
      StarsOk(Frame(mid, p)) && Matches(Frame(mid, p), Stamp(kept, emitted, now))
  {
    var emitted := Emitted(mid, p, CURSOR_RADIUS, |mid|);
    var after := Frame(mid, p);
    PartialFlags(mid, p, |mid|);
    EmittedValid(CONSTELLATIONS, mid, p, CURSOR_RADIUS, |mid|);
    forall i | 0 <= i < |after| ensures StarOk(after[i]) {
      UpdatedSpec(mid[i], p);
    }
    forall c | 0 <= c < |CONSTELLATIONS| ensures HasMember(after, c) {
      assert HasMember(mid, c);
      var i :| 0 <= i < |mid| && InGroup(mid[i], c);
      assert InGroup(after[i], c);
    }
    forall c ensures c in Stamp(kept, emitted, now) <==> 0 <= c < |CONSTELLATIONS| && CheckConstellationComplete(c, after) {
      CompleteAfterFrame(mid, p, CURSOR_RADIUS, c);
      CheckSameFlags(after, Touch(mid, p, CURSOR_RADIUS), c);
    }
  }

  /**
   * The state of the component: the canvas size, the star list, the
   * completion timestamps, the labels on screen, the discovery counter and
   * the last cursor position relative to the canvas.
   */
  class StarField {
    var width: nat
    var height: nat
    var stars: seq<Star>
    var completed: map<int, int>
    var labels: seq<Label>
    var totalDiscovered: nat
    var pointer: Point

    /** The stars are well formed and the timestamps name exactly the complete constellations. */
    ghost predicate Valid()
      reads this
    {
      StarsOk(stars) && Matches(stars, completed)
    }

    /**
     * Mounting: the cursor starts far off the canvas and the first resize
     * lays out the stars; `background` stands for the randomly drawn points.
     */
    constructor (width: nat, height: nat, background: seq<Point>)
      requires |background| == BACKGROUND_STAR_COUNT
      ensures Valid()
      ensures this.width == width && this.height == height
      ensures stars == Initial(width, height, background) && completed == map[]
      ensures labels == [] && totalDiscovered == 0 && pointer == AWAY
    {
      var initial := InitStars(width, height, background);
      this.width, this.height := width, height;
      stars := initial;
      completed := map[];
      labels := [];
      totalDiscovered := 0;
      pointer := AWAY;
      new;
      InitialValid(width, height, background);
    }

    /**
     * `handleResize`: new canvas size, a fresh star list, no timestamps and no
     * labels; the discovery counter and the cursor are kept.
     */
    method Resize(width: nat, height: nat, background: seq<Point>)
      requires |background| == BACKGROUND_STAR_COUNT
      modifies this
      ensures Valid()
      ensures this.width == width && this.height == height
      ensures stars == Initial(width, height, background) && completed == map[] && labels == []
      ensures totalDiscovered == old(totalDiscovered) && pointer == old(pointer)
    {
      this.width, this.height := width, height;
      stars := InitStars(width, height, background);
      completed := map[];
      labels := [];
      InitialValid(width, height, background);
    }

    /** `handleMouseMove` and `handleTouchMove`: the cursor, relative to the canvas, moves to `p`. */
    method PointerMove(p: Point)
      modifies this
      ensures pointer == p
      ensures width == old(width) && height == old(height) && stars == old(stars) && completed == old(completed)
      ensures labels == old(labels) && totalDiscovered == old(totalDiscovered)
    {
      pointer := p;
    }

    /** `handleMouseLeave` and `touchend`: the cursor is parked far off the canvas. */
    method PointerLeave()
      modifies this
      ensures pointer == AWAY
      ensures width == old(width) && height == old(height) && stars == old(stars) && completed == old(completed)
      ensures labels == old(labels) && totalDiscovered == old(totalDiscovered)
    {
      pointer := AWAY;
    }

    /**
     * `animate` at time `now`: constellations completed more than three
     * seconds ago go dark, then every star is updated under the cursor; each
     * constellation completed in this frame is stamped `now`, gets a label at
     * its centre and adds one to the discovery counter.
     */
    method Animate(now: int)
      requires Valid()
      modifies this
      ensures Valid()
      ensures var mid := ResetGroups(old(stars), Expired(old(completed), now, CONSTELLATION_RESET_DELAY));
        var emitted := Emitted(mid, pointer, CURSOR_RADIUS, |mid|);
        stars == Frame(mid, pointer) &&
        completed == Stamp(old(completed) - Expired(old(completed), now, CONSTELLATION_RESET_DELAY), emitted, now) &&
        Announceable(CONSTELLATIONS, mid, emitted) &&
        labels == old(labels) + Announce(CONSTELLATIONS, mid, emitted, now) &&
        totalDiscovered == old(totalDiscovered) + |emitted|
      ensures width == old(width) && height == old(height) && pointer == old(pointer)
    {
      var mid, kept := ResetPhase(stars, completed, now);
      ResetKeepsMatch(stars, completed, now);
      FrameKeepsMatch(mid, pointer, kept, now);
      var newly;
      stars, completed, newly := UpdatePhase(mid, pointer, kept, now);
      if |newly| > 0 {
        labels := labels + newly;
        totalDiscovered := totalDiscovered + |newly|;
      }
    }

    /** The label sweep every 100 ms: labels older than 2.5 seconds at `now` are removed. */
    method CleanLabels(now: int)
      modifies this
      ensures labels == ExpireLabels(old(labels), now)
      ensures width == old(width) && height == old(height) && stars == old(stars) && completed == old(completed)
      ensures totalDiscovered == old(totalDiscovered) && pointer == old(pointer)
    {
      labels := ExpireLabels(labels, now);
    }
  }
}
