/**
 * The star list both landing canvases build in `initStars`: the members of
 * every constellation of a table, in table order, followed by background
 * stars. The table is a parameter, so the facts hold for both components'
 * tables.
 */
module SkyLayout {
  import opened Sky

  /** Position in the star list of the first member of constellation `c` of table `t`. */
  function Offset(t: seq<Constellation>, c: nat): nat
    requires c <= |t|
  {
    if c == 0 then 0 else Offset(t, c - 1) + |t[c - 1].stars|
  }

  /** Star `s` of constellation `c` as `initStars` creates it: placed on the canvas, unlit, without glow. */
  function MemberStar(t: seq<Constellation>, c: nat, s: nat, width: nat, height: nat): Star
    requires c < |t| && s < |t[c].stars|
  {
    Star(Place(t[c].stars[s], width, height), true, c, s, false, 0)
  }

  function BackgroundStar(p: Point): Star
  {
    Star(p, false, -1, -1, false, 0)
  }

  /** The stars of constellation `c`, in table order. */
  function GroupStars(t: seq<Constellation>, c: nat, width: nat, height: nat): (g: seq<Star>)
    requires c < |t|
    ensures |g| == |t[c].stars|
    ensures forall s :: 0 <= s < |g| ==> g[s] == MemberStar(t, c, s, width, height)
  {
    seq(|t[c].stars|, s requires 0 <= s < |t[c].stars| => MemberStar(t, c, s, width, height))
  }

  /** The stars of the first `k` constellations of `t`, one constellation after the other. */
  function Layout(t: seq<Constellation>, k: nat, width: nat, height: nat): (r: seq<Star>)
    requires k <= |t|
    ensures |r| == Offset(t, k)
  {
    if k == 0 then [] else Layout(t, k - 1, width, height) + GroupStars(t, k - 1, width, height)
  }

  function Backdrop(background: seq<Point>): (r: seq<Star>)
    ensures |r| == |background|
    ensures forall i :: 0 <= i < |r| ==> r[i] == BackgroundStar(background[i])
  {
    seq(|background|, i requires 0 <= i < |background| => BackgroundStar(background[i]))
  }

  /** Member `s` of constellation `c` sits at position `Offset(t, c) + s` of any layout that includes `c`. */
  lemma {:induction false} LayoutAt(t: seq<Constellation>, k: nat, c: nat, s: nat, width: nat, height: nat)
    requires c < k <= |t| && s < |t[c].stars|
    ensures Offset(t, c) + s < Offset(t, k) && Layout(t, k, width, height)[Offset(t, c) + s] == MemberStar(t, c, s, width, height)
    decreases k
  {
    if c < k - 1 {
      LayoutAt(t, k - 1, c, s, width, height);
    }
  }

  /**
   * Every star of a layout is an unlit constellation star, without glow, of one of the first `k`
   * groups: it is member `starIndex` of group `constellationIndex`, as `MemberStar` places it.
   */
  lemma {:induction false} LayoutMembers(t: seq<Constellation>, k: nat, width: nat, height: nat)
    requires k <= |t|
    ensures forall i :: 0 <= i < Offset(t, k) ==>
      var st := Layout(t, k, width, height)[i];
      st.isConstellation && 0 <= st.constellationIndex < k && !st.activated && st.glow == 0 &&
      0 <= st.starIndex < |t[st.constellationIndex].stars| &&
      st == MemberStar(t, st.constellationIndex, st.starIndex, width, height)
    decreases k
  {
    if k > 0 {
      LayoutMembers(t, k - 1, width, height);
      var prev := Layout(t, k - 1, width, height);
      var g := GroupStars(t, k - 1, width, height);
      assert forall i :: 0 <= i < |prev| + |g| ==> (prev + g)[i] == if i < |prev| then prev[i] else g[i - |prev|];
    }
  }

  /** Some star of the list belongs to constellation `c`. */
  predicate HasMember(stars: seq<Star>, c: int)
  {
    exists i :: 0 <= i < |stars| && InGroup(stars[i], c)
  }

  /** The first loop of `initStars`: the members of every constellation of `t`, in table order. */
  method PlaceConstellations(t: seq<Constellation>, width: nat, height: nat) returns (stars: seq<Star>)
    ensures stars == Layout(t, |t|, width, height)
  {
    stars := [];
    for c := 0 to |t|
      invariant stars == Layout(t, c, width, height)
    {
      var group := t[c].stars;
      ghost var members := GroupStars(t, c, width, height);
      for s := 0 to |group|
        invariant stars == Layout(t, c, width, height) + members[..s]
      {
        stars := stars + [Star(Place(group[s], width, height), true, c, s, false, 0)];
        assert members[..s + 1] == members[..s] + [MemberStar(t, c, s, width, height)];
      }
      assert members[..|group|] == members;
    }
  }

  /** The second loop of `initStars`: one unlit background star per drawn point, appended in order. */
  method PlaceBackground(stars: seq<Star>, background: seq<Point>) returns (r: seq<Star>)
    ensures r == stars + Backdrop(background)
  {
    r := stars;
    for i := 0 to |background|
      invariant r == stars + Backdrop(background)[..i]
    {
      r := r + [Star(background[i], false, -1, -1, false, 0)];
      assert Backdrop(background)[..i + 1] == Backdrop(background)[..i] + [BackgroundStar(background[i])];
    }
    assert Backdrop(background)[..|background|] == Backdrop(background);
  }

  /**
   * A layout of a table without empty constellations, followed by background
   * stars: every star is unlit and without glow, group indices are valid for the
   * table, background stars are tagged -1, and every
   * constellation of the table has a member.
   */
  lemma LayoutValid(t: seq<Constellation>, width: nat, height: nat, background: seq<Point>)
    requires forall c :: 0 <= c < |t| ==> |t[c].stars| > 0
    ensures var stars := Layout(t, |t|, width, height) + Backdrop(background);
      (forall i :: 0 <= i < |stars| ==>
        !stars[i].activated && stars[i].glow == 0 &&
        (stars[i].isConstellation ==> 0 <= stars[i].constellationIndex < |t|) &&
        (!stars[i].isConstellation ==> stars[i].constellationIndex == -1 && stars[i].glow == 0)) &&
      (forall c :: 0 <= c < |t| ==> HasMember(stars, c))
  {
    var layout := Layout(t, |t|, width, height);
    var stars := layout + Backdrop(background);
    LayoutMembers(t, |t|, width, height);
    forall c | 0 <= c < |t| ensures HasMember(stars, c) {
      LayoutAt(t, |t|, c, 0, width, height);
      assert InGroup(stars[Offset(t, c)], c);
    }
    forall i | 0 <= i < |stars| ensures stars[i] == if i < |layout| then layout[i] else Backdrop(background)[i - |layout|] {
    }
  }
}
