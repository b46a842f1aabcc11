/**
 * Typewriter: types each string of a list one character at a time, pauses,
 * deletes it one character at a time, then moves on to the next string,
 * cycling through the list forever. The component keeps three pieces of
 * state: the index of the current string, the typed prefix shown, and
 * whether it is typing or deleting.
 */
module Typewriter {

  /** The component's default timings, in milliseconds. */
  const DEFAULT_SPEED: nat := 100
  const DEFAULT_DELETE_SPEED: nat := 50
  const DEFAULT_PAUSE: nat := 2000

  /** The three state variables: text index, typed prefix, deleting flag. */
  datatype Phase = Phase(index: nat, current: string, deleting: bool)

  predicate IsPrefix(a: string, b: string)
  {
    |a| <= |b| && a == b[..|a|]
  }

  /** The typed prefix belongs to the string the index points at. */
  predicate Inv(texts: seq<string>, s: Phase)
  {
    0 < |texts| && s.index < |texts| && IsPrefix(s.current, texts[s.index])
  }

  /**
   * One timer tick of the effect. Typing with a shorter prefix adds the next
   * character; typing with the whole string shown switches to deleting (after
   * the pause); deleting with a non-empty prefix removes the last character;
   * deleting with nothing left switches back to typing the next string.
   */
  function Next(texts: seq<string>, s: Phase): (r: Phase)
    requires Inv(texts, s)
    ensures Inv(texts, r)
    ensures !s.deleting && |s.current| < |texts[s.index]| ==>
      r.index == s.index && !r.deleting && |r.current| == |s.current| + 1 && IsPrefix(s.current, r.current)
    ensures !s.deleting && |s.current| == |texts[s.index]| ==>
      r.index == s.index && r.deleting && r.current == texts[s.index]
    ensures s.deleting && |s.current| > 0 ==>
      r.index == s.index && r.deleting && |r.current| + 1 == |s.current| && IsPrefix(r.current, s.current)
    ensures s.deleting && |s.current| == 0 ==>
      r == Phase((s.index + 1) % |texts|, "", false)
  {
    var text := texts[s.index];
    if !s.deleting then
      if |s.current| < |text| then s.(current := text[..|s.current| + 1])
      else s.(deleting := true)
    else if |s.current| > 0 then s.(current := text[..|s.current| - 1])
    else s.(deleting := false, index := (s.index + 1) % |texts|)
  }

  /** The state after `k` ticks. */
  function Run(texts: seq<string>, s: Phase, k: nat): (r: Phase)
    requires Inv(texts, s)
    ensures Inv(texts, r)
    decreases k
  {
    if k == 0 then s else Run(texts, Next(texts, s), k - 1)
  }

  lemma {:induction false} RunAdd(texts: seq<string>, s: Phase, a: nat, b: nat)
    requires Inv(texts, s)
    ensures Run(texts, s, a + b) == Run(texts, Run(texts, s, a), b)
    decreases a
  {
    if a > 0 {
      RunAdd(texts, Next(texts, s), a - 1, b);
    }
  }

  /** Typing from any prefix of string `i` reaches the whole string, still typing. */
  lemma {:induction false} TypeOut(texts: seq<string>, i: nat, j: nat)
    requires 0 < |texts| && i < |texts| && j <= |texts[i]|
    ensures Run(texts, Phase(i, texts[i][..j], false), |texts[i]| - j) == Phase(i, texts[i], false)
    decreases |texts[i]| - j
  {
    if j == |texts[i]| {
      assert texts[i][..j] == texts[i];
    } else {
      assert Next(texts, Phase(i, texts[i][..j], false)) == Phase(i, texts[i][..j + 1], false);
      TypeOut(texts, i, j + 1);
    }
  }

  /** Deleting from a prefix of length `j` empties the line in `j` ticks, still deleting. */
  lemma {:induction false} DeleteOut(texts: seq<string>, i: nat, j: nat)
    requires 0 < |texts| && i < |texts| && j <= |texts[i]|
    ensures Run(texts, Phase(i, texts[i][..j], true), j) == Phase(i, "", true)
    decreases j
  {
    if j > 0 {
      assert Next(texts, Phase(i, texts[i][..j], true)) == Phase(i, texts[i][..j - 1], true);
      DeleteOut(texts, i, j - 1);
    }
  }

  /**
   * A whole cycle: from an empty line typing string `i`, after typing every
   * character, pausing, and deleting every character, the machine is typing
   * the next string (the first again after the last) on an empty line.
   */
  lemma CycleToNext(texts: seq<string>, i: nat)
    requires 0 < |texts| && i < |texts|
    ensures Run(texts, Phase(i, "", false), 2 * |texts[i]| + 2) == Phase((i + 1) % |texts|, "", false)
  {
    var n := |texts[i]|;
    var start := Phase(i, "", false);
    assert texts[i][..0] == "";
    TypeOut(texts, i, 0);
    RunAdd(texts, start, n, n + 2);
    var full := Phase(i, texts[i], false);
    assert Next(texts, full) == Phase(i, texts[i], true);
    assert Run(texts, full, n + 2) == Run(texts, Phase(i, texts[i], true), n + 1);
    assert texts[i][..n] == texts[i];
    RunAdd(texts, Phase(i, texts[i], true), n, 1);
    DeleteOut(texts, i, n);
  }

  /** The delay before the next tick: `deleteSpeed` while deleting, `speed` while typing. */
  function TickDelay(s: Phase, speed: nat, deleteSpeed: nat): nat
  {
    if s.deleting then deleteSpeed else speed
  }

  /** The typewriter as the component holds it: its props and its three state variables. */
  class Machine {
    const texts: seq<string>
    const speed: nat
    const deleteSpeed: nat
    const pauseDuration: nat
    var index: nat
    var current: string
    var deleting: bool

    function State(): Phase
      reads this
    {
      Phase(index, current, deleting)
    }

    ghost predicate Valid()
      reads this
    {
      Inv(texts, State())
    }

    /** Mounting: index 0, nothing typed, typing. */
    constructor (texts: seq<string>, speed: nat, deleteSpeed: nat, pauseDuration: nat)
      requires 0 < |texts|
      ensures Valid()
      ensures this.texts == texts && this.speed == speed && this.deleteSpeed == deleteSpeed
      ensures this.pauseDuration == pauseDuration
      ensures State() == Phase(0, "", false)
    {
      this.texts, this.speed, this.deleteSpeed, this.pauseDuration := texts, speed, deleteSpeed, pauseDuration;
      index, current, deleting := 0, "", false;
    }

    /** Mounting with the timing props left out: the default speeds and pause. */
    constructor WithDefaults(texts: seq<string>)
      requires 0 < |texts|
      ensures Valid()
      ensures this.texts == texts && speed == DEFAULT_SPEED && deleteSpeed == DEFAULT_DELETE_SPEED
      ensures pauseDuration == DEFAULT_PAUSE
      ensures State() == Phase(0, "", false)
    {
      this.texts, speed, deleteSpeed, pauseDuration := texts, DEFAULT_SPEED, DEFAULT_DELETE_SPEED, DEFAULT_PAUSE;
      index, current, deleting := 0, "", false;
    }

    /**
     * One firing of the effect's timer. `delay` is the timeout it was
     * scheduled with; `pause` is the further wait before the change shows,
     * which is `pauseDuration` when the whole string has been typed.
     */
    method Tick() returns (delay: nat, pause: nat)
      requires Valid()
      modifies this
      ensures Valid()
      ensures State() == Next(texts, old(State()))
      ensures delay == TickDelay(old(State()), speed, deleteSpeed)
      ensures pause == if !old(deleting) && |old(current)| == |texts[old(index)]| then pauseDuration else 0
    {
      delay := if deleting then deleteSpeed else speed;
      pause := 0;
      var text := texts[index];
      if !deleting {
        if |current| < |text| {
          current := text[..|current| + 1];
        } else {
          pause := pauseDuration;
          deleting := true;
        }
      } else {
        if |current| > 0 {
          current := text[..|current| - 1];
        } else {
          deleting := false;
          index := (index + 1) % |texts|;
        }
      }
    }
  }
}
