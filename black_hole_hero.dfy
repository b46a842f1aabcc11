/**
 * BlackHoleHero: the home canvas with a black hole at its centre, four
 * constellations in the corners and a hundred and twenty background stars
 * kept out of a box around the black hole. The cursor lights constellation
 * stars within 60 px; a completed constellation is announced with a label and
 * goes dark again three seconds later. A click within one and a half black-hole
 * radii of the centre calls the page's callback, and the same test decides the
 * hover hint.
 *
 * The component has no glow: the shared star record's `glow` stays 0 here.
 */
module BlackHoleHero {
  import opened Sky
  import opened SkyLayout
  import Seqs

  const CONSTELLATIONS: seq<Constellation> := [
    Constellation("Ursa Major",
      [Fraction(5, 8), Fraction(8, 6), Fraction(11, 7), Fraction(14, 10), Fraction(13, 14), Fraction(17, 11), Fraction(18, 15)],
      [(0, 1), (1, 2), (2, 3), (3, 4), (4, 6), (3, 5), (5, 6)]),
    Constellation("Cassiopeia",
      [Fraction(88, 6), Fraction(91, 10), Fraction(94, 7), Fraction(97, 11), Fraction(99, 8)],
      [(0, 1), (1, 2), (2, 3), (3, 4)]),
    Constellation("Leo",
      [Fraction(3, 85), Fraction(6, 82), Fraction(9, 84), Fraction(12, 88), Fraction(8, 90)],
      [(0, 1), (1, 2), (2, 3), (2, 4), (4, 0)]),
    Constellation("Lyra",
      [Fraction(92, 82), Fraction(94, 86), Fraction(96, 89), Fraction(95, 92), Fraction(93, 90)],
      [(0, 1), (1, 2), (2, 3), (3, 4), (4, 1)])
  ]

  /** Background stars drawn by `initStars`. */
  const STAR_COUNT := 120
  /** The cursor radius, 60 px. */
  const CURSOR_RADIUS: nat := 6000
  /** Milliseconds a completed constellation stays lit before it is reset. */
  const RESET_DELAY := 3000

  lemma TableShape()
    ensures |CONSTELLATIONS| == 4
    ensures forall c :: 0 <= c < |CONSTELLATIONS| ==> |CONSTELLATIONS[c].stars| > 0
  {
  }

  function Abs(a: int): nat
  {
    if a < 0 then -a else a
  }

  /**
   * The box kept clear for the black hole: within a quarter of the width and a
   * fifth of the height of the centre of a `width` by `height` canvas.
   */
  predicate InExclusion(p: Point, width: nat, height: nat)
  {
    Abs(p.x - 50 * width) < 25 * width && Abs(p.y - 50 * height) < 20 * height
  }

  /** The position of the first candidate outside the box, or `|candidates|` if there is none. */
  function FirstOutside(candidates: seq<Point>, width: nat, height: nat): (k: nat)
    ensures k <= |candidates|
    ensures forall j :: 0 <= j < k ==> InExclusion(candidates[j], width, height)
    ensures k < |candidates| ==> !InExclusion(candidates[k], width, height)
    decreases |candidates|
  {
    if |candidates| == 0 || !InExclusion(candidates[0], width, height) then 0
    else 1 + FirstOutside(candidates[1..], width, height)
  }

  /** The random draws for one background star reach a point outside the box. */
  predicate Acceptable(candidates: seq<Point>, width: nat, height: nat)
  {
    FirstOutside(candidates, width, height) < |candidates|
  }

  /**
   * The do-while of `initStars`: draw points until one lies outside the box.
   * The random draws are the sequence `candidates`; the accepted point is the
   * first of them outside the box.
   */
  method SampleBackground(candidates: seq<Point>, width: nat, height: nat) returns (p: Point)
    requires Acceptable(candidates, width, height)
    ensures p == Chosen(candidates, width, height)
  {
    var k := 0;
    p := candidates[0];
    while InExclusion(p, width, height)
      invariant k <= FirstOutside(candidates, width, height) && p == candidates[k]
      decreases FirstOutside(candidates, width, height) - k
    {
      k := k + 1;
      p := candidates[k];
    }
  }

  /** The point a background star settles on: its first draw outside the box. */
  function Chosen(candidates: seq<Point>, width: nat, height: nat): (p: Point)
    requires Acceptable(candidates, width, height)
    ensures p in candidates && !InExclusion(p, width, height)
  {
    candidates[FirstOutside(candidates, width, height)]
  }

  /** The accepted point of every background star's draws. */
  function Accepted(draws: seq<seq<Point>>, width: nat, height: nat): (r: seq<Point>)
    requires forall k :: 0 <= k < |draws| ==> Acceptable(draws[k], width, height)
    ensures |r| == |draws|
    ensures forall k :: 0 <= k < |r| ==> Acceptable(draws[k], width, height) && r[k] == Chosen(draws[k], width, height)
  {
    seq(|draws|, k requires 0 <= k < |draws| => Chosen(draws[k], width, height))
  }

  /** The star list `initStars` builds from the draws. */
  function Initial(width: nat, height: nat, draws: seq<seq<Point>>): seq<Star>
    requires forall k :: 0 <= k < |draws| ==> Acceptable(draws[k], width, height)
  {
    Layout(CONSTELLATIONS, |CONSTELLATIONS|, width, height) + Backdrop(Accepted(draws, width, height))
  }

  /** `initStars`: the constellation stars, then one background star per draw sequence, 120 in all. */
  method InitStars(width: nat, height: nat, draws: seq<seq<Point>>) returns (stars: seq<Star>)
    requires |draws| == STAR_COUNT
    requires forall k :: 0 <= k < |draws| ==> Acceptable(draws[k], width, height)
    ensures stars == Initial(width, height, draws)
    ensures |stars| == Offset(CONSTELLATIONS, |CONSTELLATIONS|) + STAR_COUNT
  {
    stars := PlaceConstellations(CONSTELLATIONS, width, height);
    ghost var layout := stars;
    ghost var points := Accepted(draws, width, height);
    for k := 0 to |draws|
      invariant stars == layout + Backdrop(points)[..k]
    {
      var p := SampleBackground(draws[k], width, height);
      stars := stars + [Star(p, false, -1, -1, false, 0)];
      assert Backdrop(points)[..k + 1] == Backdrop(points)[..k] + [BackgroundStar(p)];
    }
    assert Backdrop(points)[..|draws|] == Backdrop(points);
    BackgroundClear(width, height, draws);
  }

  /**
   * After `initStars` the constellation stars come first, and every star after
   * them is a background star outside the box around the black hole.
   */
  lemma BackgroundClear(width: nat, height: nat, draws: seq<seq<Point>>)
    requires forall k :: 0 <= k < |draws| ==> Acceptable(draws[k], width, height)
    ensures var stars := Initial(width, height, draws);
      var n := Offset(CONSTELLATIONS, |CONSTELLATIONS|);
      |stars| == n + |draws| &&
      forall i :: n <= i < |stars| ==> !stars[i].isConstellation && !InExclusion(stars[i].pos, width, height)
  {
    var stars := Initial(width, height, draws);
    var n := Offset(CONSTELLATIONS, |CONSTELLATIONS|);
    var points := Accepted(draws, width, height);
    forall i | n <= i < |stars| ensures !stars[i].isConstellation && !InExclusion(stars[i].pos, width, height) {
      assert stars[i] == BackgroundStar(points[i - n]);
    }
  }

  /** What holds of every star: a valid group index, inert background stars, no glow. */
  predicate StarOk(s: Star)
  {
    s.glow == 0 &&
    (s.isConstellation ==> 0 <= s.constellationIndex < |CONSTELLATIONS|) &&
    (!s.isConstellation ==> s.constellationIndex == -1 && !s.activated)
  }

  /** Every star is well formed and every constellation has a member in the list. */
  predicate StarsOk(stars: seq<Star>)
  {
    (forall i :: 0 <= i < |stars| ==> StarOk(stars[i])) &&
    (forall c :: 0 <= c < |CONSTELLATIONS| ==> HasMember(stars, c))
  }

  /** The completion timestamps hold exactly the constellations that are complete. */
  ghost predicate Matches(stars: seq<Star>, completed: map<int, int>)
  {
    forall c :: c in completed <==> 0 <= c < |CONSTELLATIONS| && CheckConstellationComplete(c, stars)
  }

  /** A fresh star list is well formed and no constellation in it is complete. */
  lemma InitialValid(width: nat, height: nat, draws: seq<seq<Point>>)
    requires forall k :: 0 <= k < |draws| ==> Acceptable(draws[k], width, height)
    ensures StarsOk(Initial(width, height, draws)) && Matches(Initial(width, height, draws), map[])
  {
    TableShape();
    var points := Accepted(draws, width, height);
    LayoutValid(CONSTELLATIONS, width, height, points);
    var stars := Initial(width, height, draws);
    assert stars == Layout(CONSTELLATIONS, |CONSTELLATIONS|, width, height) + Backdrop(points);
    assert forall c :: 0 <= c < |CONSTELLATIONS| ==> HasMember(stars, c);
    forall c | 0 <= c < |CONSTELLATIONS| ensures !CheckConstellationComplete(c, stars) {
      assert HasMember(stars, c);
      var i :| 0 <= i < |stars| && InGroup(stars[i], c);
      assert !stars[i].activated;
    }
    assert forall i :: 0 <= i < |stars| ==> StarOk(stars[i]);
  }

  /** `resetConstellation` for each group in `groups`: its stars go dark; nothing else changes. */
  function ResetGroups(stars: seq<Star>, groups: set<int>): (r: seq<Star>)
    ensures |r| == |stars| && SamePlaces(r, stars)
    ensures forall i :: 0 <= i < |r| ==>
      r[i] == if stars[i].isConstellation && stars[i].constellationIndex in groups
              then stars[i].(activated := false) else stars[i]
  {
    seq(|stars|, i requires 0 <= i < |stars| =>
      if stars[i].isConstellation && stars[i].constellationIndex in groups
      then stars[i].(activated := false) else stars[i])
  }

  /** Resetting leaves the stars well formed, and exactly the reset groups stop being complete. */
  lemma ResetKeepsMatch(stars: seq<Star>, completed: map<int, int>, now: int)
    requires StarsOk(stars) && Matches(stars, completed)
    ensures var mid := ResetGroups(stars, Expired(completed, now, RESET_DELAY));
      StarsOk(mid) && Matches(mid, completed - Expired(completed, now, RESET_DELAY))
  {
    var x := Expired(completed, now, RESET_DELAY);
    var mid := ResetGroups(stars, x);
    forall c | 0 <= c < |CONSTELLATIONS|
      ensures HasMember(mid, c) && (CheckConstellationComplete(c, mid) <==> c in completed && c !in x)
    {
      assert HasMember(stars, c);
      var i :| 0 <= i < |stars| && InGroup(stars[i], c);
      assert InGroup(mid[i], c);
      if c in x {
        assert !mid[i].activated;
      } else {
        assert forall i :: 0 <= i < |stars| && InGroup(stars[i], c) ==> mid[i] == stars[i];
      }
    }
  }

  /** `resetConstellation(c)`: the stars of constellation `c` go dark. */
  method ResetConstellation(stars: seq<Star>, c: int) returns (r: seq<Star>)
    ensures r == ResetGroups(stars, {c})
  {
    r := stars;
    for i := 0 to |r|
      invariant |r| == |stars|
      invariant forall j :: 0 <= j < |r| ==> r[j] == if j < i then ResetGroups(stars, {c})[j] else stars[j]
    {
      if r[i].isConstellation && r[i].constellationIndex == c {
        r := r[i := r[i].(activated := false)];
      }
    }
  }

  /** The reset phase of a frame: every constellation completed more than three seconds ago is reset and forgotten. */
  method ResetPhase(stars: seq<Star>, completed: map<int, int>, now: int)
    returns (mid: seq<Star>, kept: map<int, int>)
    ensures mid == ResetGroups(stars, Expired(completed, now, RESET_DELAY))
    ensures kept == completed - Expired(completed, now, RESET_DELAY)
  {
    var x := Expired(completed, now, RESET_DELAY);
    mid, kept := stars, completed;
    var todo := completed.Keys;
    while todo != {}
      invariant todo <= completed.Keys
      invariant mid == ResetGroups(stars, x - todo)
      invariant kept == completed - (x - todo)
      decreases |todo|
    {
      ghost var some := Seqs.Pick(todo);
      var c :| c in todo;
      if now - completed[c] > RESET_DELAY {
        mid := ResetConstellation(mid, c);
        kept := kept - {c};
        assert mid == ResetGroups(stars, x - (todo - {c}));
      } else {
        assert x - (todo - {c}) == x - todo;
      }
      todo := todo - {c};
    }
    assert x - todo == x;
  }

  /** Visiting star `i` changes that star only, as the discovery rule says. */
  lemma ProgressStep(mid: seq<Star>, p: Point, i: nat)
    requires i < |mid|
    ensures Progress(mid, p, CURSOR_RADIUS, i + 1) == Progress(mid, p, CURSOR_RADIUS, i)[i := Lit(mid[i], p, CURSOR_RADIUS)]
  {
  }

  /** Lighting star `i` during the loop leaves the centre of every constellation where it was. */
  lemma LitLabel(mid: seq<Star>, p: Point, i: nat, c: int, now: int)
    requires i < |mid| && 0 <= c < |CONSTELLATIONS|
    requires |Indexed(Progress(mid, p, CURSOR_RADIUS, i)[i := mid[i].(activated := true)], c)| > 0
    ensures |Indexed(mid, c)| > 0
    ensures LabelFor(CONSTELLATIONS, Progress(mid, p, CURSOR_RADIUS, i)[i := mid[i].(activated := true)], c, now)
         == LabelFor(CONSTELLATIONS, mid, c, now)
  {
    var lit := Progress(mid, p, CURSOR_RADIUS, i)[i := mid[i].(activated := true)];
    assert SamePlaces(lit, mid);
    CentroidIgnoresFlags(lit, mid, c);
  }

  /**
   * One iteration of the update loop: star `i` is lit as the discovery rule
   * says, and the step records a completion and a label exactly when visiting
   * star `i` finishes its constellation.
   */
  method Visit(mid: seq<Star>, p: Point, i: nat, now: int, stars: seq<Star>, stamped: map<int, int>, newly: seq<Label>)
    returns (stars': seq<Star>, stamped': map<int, int>, newly': seq<Label>)
    requires i < |mid| && IndicesOk(mid, |CONSTELLATIONS|)
    requires stars == Progress(mid, p, CURSOR_RADIUS, i)
    ensures stars' == stars[i := Lit(mid[i], p, CURSOR_RADIUS)]
    ensures var c := mid[i].constellationIndex;
      if Emits(mid, p, CURSOR_RADIUS, i) then
        0 <= c < |CONSTELLATIONS| && |Indexed(mid, c)| > 0 &&
        stamped' == stamped[c := now] && newly' == newly + [LabelFor(CONSTELLATIONS, mid, c, now)]
      else
        stamped' == stamped && newly' == newly
  {
    ProgressStep(mid, p, i);
    assert stars[i] == mid[i];
    stars', stamped', newly' := LightStar(CONSTELLATIONS, CURSOR_RADIUS, stars, p, i, now, stamped, newly);
    var c := mid[i].constellationIndex;
    if Activates(mid[i], p, CURSOR_RADIUS) && CheckConstellationComplete(c, stars') {
      LitLabel(mid, p, i, c, now);
    }
  }

  /**
   * The update phase of a frame: every star is visited in list order; a star
   * that lights the last unlit star of its constellation records the
   * completion time and yields a label.
   */
  method UpdatePhase(mid: seq<Star>, p: Point, completed: map<int, int>, now: int)
    returns (stars: seq<Star>, stamped: map<int, int>, newly: seq<Label>)
    requires IndicesOk(mid, |CONSTELLATIONS|)
    ensures stars == Touch(mid, p, CURSOR_RADIUS)
    ensures stamped == Stamp(completed, Emitted(mid, p, CURSOR_RADIUS, |mid|), now)
    ensures Announceable(CONSTELLATIONS, mid, Emitted(mid, p, CURSOR_RADIUS, |mid|))
    ensures newly == Announce(CONSTELLATIONS, mid, Emitted(mid, p, CURSOR_RADIUS, |mid|), now)
  {
    stars, stamped, newly := mid, completed, [];
    assert Progress(mid, p, CURSOR_RADIUS, 0) == mid;
    for i := 0 to |mid|
      invariant stars == Progress(mid, p, CURSOR_RADIUS, i)
      invariant stamped == Stamp(completed, Emitted(mid, p, CURSOR_RADIUS, i), now)
      invariant Announceable(CONSTELLATIONS, mid, Emitted(mid, p, CURSOR_RADIUS, i))
      invariant newly == Announce(CONSTELLATIONS, mid, Emitted(mid, p, CURSOR_RADIUS, i), now)
    {
      RecordStep(CONSTELLATIONS, mid, p, CURSOR_RADIUS, completed, now, i);
      ProgressStep(mid, p, i);
      stars, stamped, newly := Visit(mid, p, i, now, stars, stamped, newly);
    }
  }

  /**
   * A frame keeps the completion timestamps in step with the stars: a
   * constellation is complete after the frame exactly when it was before or
   * was announced in the frame, and the announced ones are stamped `now`.
   */
  lemma FrameKeepsMatch(mid: seq<Star>, p: Point, kept: map<int, int>, now: int)
    requires StarsOk(mid) && Matches(mid, kept)
    ensures IndicesOk(mid, |CONSTELLATIONS|)
    ensures var emitted := Emitted(mid, p, CURSOR_RADIUS, |mid|);
      StarsOk(Touch(mid, p, CURSOR_RADIUS)) && Matches(Touch(mid, p, CURSOR_RADIUS), Stamp(kept, emitted, now))
  {
    var emitted := Emitted(mid, p, CURSOR_RADIUS, |mid|);
    var after := Touch(mid, p, CURSOR_RADIUS);
    EmittedValid(CONSTELLATIONS, mid, p, CURSOR_RADIUS, |mid|);
    forall c | 0 <= c < |CONSTELLATIONS| ensures HasMember(after, c) {
      assert HasMember(mid, c);
      var i :| 0 <= i < |mid| && InGroup(mid[i], c);
      assert InGroup(after[i], c);
    }
    forall c ensures c in Stamp(kept, emitted, now) <==> 0 <= c < |CONSTELLATIONS| && CheckConstellationComplete(c, after) {
      CompleteAfterFrame(mid, p, CURSOR_RADIUS, c);
    }
  }

  /** A connection is drawn only when both its ends are members of the group and both are lit. */
  predicate LinkDrawn(group: seq<Star>, ends: (int, int))
  {
    var (i, j) := ends;
    0 <= i < |group| && 0 <= j < |group| && group[i].activated && group[j].activated
  }

  /** Once constellation `c` is complete, every connection whose two ends exist is drawn. */
  lemma CompleteGroupAllDrawn(stars: seq<Star>, c: int)
    requires 0 <= c < |CONSTELLATIONS| && CheckConstellationComplete(c, stars)
    ensures forall k :: 0 <= k < |CONSTELLATIONS[c].connections| ==>
      var (i, j) := CONSTELLATIONS[c].connections[k];
      (0 <= i < |Members(stars, c)| && 0 <= j < |Members(stars, c)| <==> LinkDrawn(Members(stars, c), CONSTELLATIONS[c].connections[k]))
  {
    CompleteGroupAllBright(stars, c, CONSTELLATIONS[c].connections);
  }

  /** While no star of constellation `c` is lit, none of its connections is drawn. */
  lemma DarkGroupNothingDrawn(stars: seq<Star>, c: int)
    requires 0 <= c < |CONSTELLATIONS|
    requires forall i :: 0 <= i < |stars| && InGroup(stars[i], c) ==> !stars[i].activated
    ensures forall k :: 0 <= k < |CONSTELLATIONS[c].connections| ==> !LinkDrawn(Members(stars, c), CONSTELLATIONS[c].connections[k])
  {
    DarkGroupNoLinks(stars, c, CONSTELLATIONS[c].connections);
  }

  /** The black hole as `animate` records it for the hit test: centre and radius. */
  datatype Disc = Disc(x: int, y: int, radius: int)

  /** The disc recorded by a frame on a `width` by `height` canvas: the centre, radius 0.08 of the smaller side. */
  function FrameDisc(width: nat, height: nat): Disc
  {
    Disc(50 * width, 50 * height, 8 * (if width < height then width else height))
  }

  /** `dist < radius * 1.5`, compared without the square root (exact for a radius that is not negative). */
  predicate OnBlackHole(p: Point, d: Disc)
  {
    var dx, dy := p.x - d.x, p.y - d.y;
    d.radius >= 0 && 4 * (dx * dx + dy * dy) < 9 * (d.radius * d.radius)
  }

  /**
   * The state of the component: canvas size, star list, completion
   * timestamps, labels on screen, cursor, hover flag and the disc recorded by
   * the last frame.
   */
  class BlackHoleField {
    var width: nat
    var height: nat
    var stars: seq<Star>
    var completed: map<int, int>
    var labels: seq<Label>
    var pointer: Point
    var hovering: bool
    var disc: Disc

    ghost predicate Valid()
      reads this
    {
      StarsOk(stars) && Matches(stars, completed)
    }

    /** Mounting: no disc recorded yet, the cursor far away, and the first resize. */
    constructor (width: nat, height: nat, draws: seq<seq<Point>>)
      requires |draws| == STAR_COUNT
      requires forall k :: 0 <= k < |draws| ==> Acceptable(draws[k], width, height)
      ensures Valid()
      ensures this.width == width && this.height == height
      ensures stars == Initial(width, height, draws) && completed == map[] && labels == []
      ensures pointer == AWAY && !hovering && disc == Disc(0, 0, 0)
    {
      var initial := InitStars(width, height, draws);
      this.width, this.height := width, height;
      stars := initial;
      completed := map[];
      labels := [];
      pointer := AWAY;
      hovering := false;
      disc := Disc(0, 0, 0);
      new;
      InitialValid(width, height, draws);
    }

    /** `handleResize`: new canvas size, a fresh star list, no timestamps and no labels. */
    method Resize(width: nat, height: nat, draws: seq<seq<Point>>)
      requires |draws| == STAR_COUNT
      requires forall k :: 0 <= k < |draws| ==> Acceptable(draws[k], width, height)
      modifies this
      ensures Valid()
      ensures this.width == width && this.height == height
      ensures stars == Initial(width, height, draws) && completed == map[] && labels == []
      ensures pointer == old(pointer) && hovering == old(hovering) && disc == old(disc)
    {
      this.width, this.height := width, height;
      stars := InitStars(width, height, draws);
      completed := map[];
      labels := [];
      InitialValid(width, height, draws);
    }

    /** `handleMouseMove`: the cursor moves to `p`; the hover flag is the black-hole hit test. */
    method PointerMove(p: Point)
      modifies this
      ensures pointer == p && (hovering <==> OnBlackHole(p, disc))
      ensures width == old(width) && height == old(height) && stars == old(stars) && completed == old(completed)
      ensures labels == old(labels) && disc == old(disc)
    {
      pointer := p;
      var dx, dy := p.x - disc.x, p.y - disc.y;
      hovering := disc.radius >= 0 && 4 * (dx * dx + dy * dy) < 9 * (disc.radius * disc.radius);
    }

    /** `handleMouseLeave`: the cursor is parked far off the canvas and the hover hint goes away. */
    method PointerLeave()
      modifies this
      ensures pointer == AWAY && !hovering
      ensures width == old(width) && height == old(height) && stars == old(stars) && completed == old(completed)
      ensures labels == old(labels) && disc == old(disc)
    {
      pointer := AWAY;
      hovering := false;
    }

    /** `handleClick`: the callback fires exactly when one is supplied and the click is on the black hole. */
    method Click(p: Point, hasCallback: bool) returns (fires: bool)
      ensures fires <==> hasCallback && OnBlackHole(p, disc)
    {
      var dx, dy := p.x - disc.x, p.y - disc.y;
      fires := disc.radius >= 0 && 4 * (dx * dx + dy * dy) < 9 * (disc.radius * disc.radius) && hasCallback;
    }

    /**
     * `animate` at time `now`: the disc is recorded, constellations completed
     * more than three seconds ago go dark, then every star is visited under
     * the cursor; each constellation completed in this frame is stamped `now`
     * and gets a label at its centre.
     */
    method Animate(now: int)
      requires Valid()
      modifies this
      ensures Valid()
      ensures disc == FrameDisc(width, height)
      ensures var mid := ResetGroups(old(stars), Expired(old(completed), now, RESET_DELAY));
        var emitted := Emitted(mid, pointer, CURSOR_RADIUS, |mid|);
        stars == Touch(mid, pointer, CURSOR_RADIUS) &&
        completed == Stamp(old(completed) - Expired(old(completed), now, RESET_DELAY), emitted, now) &&
        Announceable(CONSTELLATIONS, mid, emitted) &&
        labels == old(labels) + Announce(CONSTELLATIONS, mid, emitted, now)
      ensures width == old(width) && height == old(height) && pointer == old(pointer) && hovering == old(hovering)
    {
      disc := FrameDisc(width, height);
      var mid, kept := ResetPhase(stars, completed, now);
      ResetKeepsMatch(stars, completed, now);
      FrameKeepsMatch(mid, pointer, kept, now);
      var newly;
      stars, completed, newly := UpdatePhase(mid, pointer, kept, now);
      if |newly| > 0 {
        labels := labels + newly;
      }
    }

    /** The label sweep every 100 ms: labels older than 2.5 seconds at `now` are removed. */
    method CleanLabels(now: int)
      modifies this
      ensures labels == ExpireLabels(old(labels), now)
      ensures width == old(width) && height == old(height) && stars == old(stars) && completed == old(completed)
      ensures pointer == old(pointer) && hovering == old(hovering) && disc == old(disc)
    {
      labels := ExpireLabels(labels, now);
    }
  }

  /** Before the first frame the recorded disc has radius 0, so nothing is on the black hole. */
  lemma NothingHitBeforeFirstFrame(p: Point)
    ensures !OnBlackHole(p, Disc(0, 0, 0))
  {
  }

  /** The parked cursor is never on the black hole of a frame, whatever the canvas size, and lights no star on the canvas. */
  lemma ParkedPointerInert(width: nat, height: nat, s: Star)
    requires 0 <= s.pos.x && 0 <= s.pos.y
    ensures !OnBlackHole(AWAY, FrameDisc(width, height))
    ensures Lit(s, AWAY, CURSOR_RADIUS) == s
  {
    AwayIsFar(s.pos, CURSOR_RADIUS);
    var d := FrameDisc(width, height);
    var m: nat := if width < height then width else height;
    var dx := AWAY.x - d.x;
    assert d.radius == 8 * m;
    assert -dx >= 50 * m;
    assert dx * dx >= (50 * m) * (50 * m) by {
      SquareAtLeast(-dx, 50 * m);
    }
    assert (50 * m) * (50 * m) == 2500 * (m * m);
    assert d.radius * d.radius == 64 * (m * m);
  }

  lemma SquareAtLeast(a: int, b: nat)
    requires a >= b
    ensures a * a >= b * b
  {
    assert a * a - b * b == (a - b) * (a + b);
  }
}
