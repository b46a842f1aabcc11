/**
 * The JavaScript string operations the components use, on strings of Unicode
 * scalar values: `trim`, `toLowerCase`, `startsWith`, `endsWith`, `includes`,
 * `indexOf`, `split('\n')`, `split(' ')`, `split(/\s+/)` and `join`.
 */
module JsString {
  import opened Wrappers
  import Seqs

  /**
   * The ECMAScript WhiteSpace and LineTerminator code points: the characters
   * `trim()` removes and the regular-expression class `\s` matches.
   */
  predicate IsSpace(ch: char)
  {
    || ch == '\t' || ch == '\n' || ch == '\U{0B}' || ch == '\U{0C}' || ch == '\r'
    || ch == ' ' || ch == '\U{A0}' || ch == '\U{1680}'
    || ('\U{2000}' <= ch <= '\U{200A}')
    || ch == '\U{2028}' || ch == '\U{2029}' || ch == '\U{202F}' || ch == '\U{205F}'
    || ch == '\U{3000}' || ch == '\U{FEFF}'
  }

  predicate AllSpace(s: string)
  {
    forall i :: 0 <= i < |s| ==> IsSpace(s[i])
  }

  predicate NoSpace(s: string)
  {
    forall i :: 0 <= i < |s| ==> !IsSpace(s[i])
  }

  /** The index of the first character of `s` satisfying `p`, or `|s|` when there is none. */
  function FirstWhere(s: string, p: char -> bool): (i: nat)
    ensures i <= |s|
    ensures forall j :: 0 <= j < i ==> !p(s[j])
    ensures i < |s| ==> p(s[i])
    decreases |s|
  {
    if |s| == 0 || p(s[0]) then 0 else 1 + FirstWhere(s[1..], p)
  }

  /** One past the last character of `s` at or after `from` that is not white space (`from` if none). */
  function LastNonSpaceEnd(s: string, from: nat): (b: nat)
    requires from <= |s|
    ensures from <= b <= |s|
    ensures forall i :: b <= i < |s| ==> IsSpace(s[i])
    ensures b > from ==> !IsSpace(s[b - 1])
    decreases |s|
  {
    if |s| == from || !IsSpace(s[|s| - 1]) then |s| else LastNonSpaceEnd(s[..|s| - 1], from)
  }

  /**
   * `s.trim()`: the slice of `s` left after removing white space at both ends.
   * Only white space is removed, and the result neither starts nor ends with it.
   */
  function Trim(s: string): (r: string)
    ensures exists a, b :: 0 <= a <= b <= |s| && r == s[a..b] && AllSpace(s[..a]) && AllSpace(s[b..])
    ensures |r| > 0 ==> !IsSpace(r[0]) && !IsSpace(r[|r| - 1])
  {
    var a := FirstWhere(s, ch => !IsSpace(ch));
    var b := LastNonSpaceEnd(s, a);
    assert a < |s| ==> a < b;
    assert AllSpace(s[..a]) && AllSpace(s[b..]);
    s[a..b]
  }

  /** `!s.trim()` in the source: the trimmed string is empty exactly when `s` is all white space. */
  lemma TrimEmptyIff(s: string)
    ensures Trim(s) == "" <==> AllSpace(s)
  {
    var a, b :| 0 <= a <= b <= |s| && Trim(s) == s[a..b] && AllSpace(s[..a]) && AllSpace(s[b..]);
    if Trim(s) == "" {
      assert a == b;
      forall i | 0 <= i < |s| ensures IsSpace(s[i]) {
        if i < a { assert s[..a][i] == s[i]; } else { assert s[b..][i - b] == s[i]; }
      }
    }
  }

  /** ASCII case folding; other characters are unchanged. */
  function LowerChar(ch: char): char
  {
    if 'A' <= ch <= 'Z' then (ch as int - 'A' as int + 'a' as int) as char else ch
  }

  predicate NoCapital(s: string)
  {
    forall i :: 0 <= i < |s| ==> !('A' <= s[i] <= 'Z')
  }

  /** `s.toLowerCase()` restricted to ASCII letters: same length, each character folded. */
  function ToLower(s: string): (r: string)
    ensures |r| == |s|
    ensures forall i :: 0 <= i < |s| ==> r[i] == LowerChar(s[i])
    ensures forall i :: 0 <= i < |r| ==> !('A' <= r[i] <= 'Z')
    decreases |s|
  {
    if |s| == 0 then "" else [LowerChar(s[0])] + ToLower(s[1..])
  }

  /** Lower-casing leaves a string without capitals as it is. */
  lemma LowerFixed(s: string)
    requires NoCapital(s)
    ensures ToLower(s) == s
  {
    var r := ToLower(s);
    assert forall i :: 0 <= i < |s| ==> r[i] == s[i];
  }

  predicate StartsWith(s: string, prefix: string)
  {
    |prefix| <= |s| && s[..|prefix|] == prefix
  }

  predicate EndsWith(s: string, suffix: string)
  {
    |suffix| <= |s| && s[|s| - |suffix|..] == suffix
  }

  /** `t` occurs in `s` starting at position `i`. */
  predicate OccursAt(s: string, t: string, i: int)
  {
    0 <= i && i + |t| <= |s| && s[i..i + |t|] == t
  }

  lemma OccursShift(s: string, t: string)
    requires |s| > 0
    ensures forall i :: 1 <= i ==> (OccursAt(s, t, i) <==> OccursAt(s[1..], t, i - 1))
  {
    forall i | 1 <= i && i + |t| <= |s|
      ensures OccursAt(s, t, i) <==> OccursAt(s[1..], t, i - 1)
    {
      var a, b := s[i..i + |t|], s[1..][i - 1..i - 1 + |t|];
      assert |a| == |b|;
      assert forall j :: 0 <= j < |a| ==> a[j] == s[i + j] == b[j];
      assert a == b;
    }
  }

  /** `s.indexOf(t)`: the first position at which `t` occurs in `s`, if any. */
  function IndexOf(s: string, t: string): (r: Option<nat>)
    ensures r.Some? ==> OccursAt(s, t, r.value)
    ensures r.Some? ==> forall i :: 0 <= i < r.value ==> !OccursAt(s, t, i)
    ensures r.None? ==> forall i :: !OccursAt(s, t, i)
    decreases |s|
  {
    if |t| > |s| then None
    else if s[..|t|] == t then Some(0)
    else
      OccursShift(s, t);
      match IndexOf(s[1..], t)
      case None => None
      case Some(k) => Some(k + 1)
  }

  /** `s.includes(t)`. */
  predicate Includes(s: string, t: string)
  {
    IndexOf(s, t).Some?
  }

  lemma IncludesEmpty(s: string)
    ensures Includes(s, "")
  {
    assert s[..0] == "";
  }

  /**
   * `t` does not occur in `s` at `k` when some character `t[i]` appears in
   * `s` only before position `i` (or not at all): the occurrence would put
   * it at `k + i`.
   */
  lemma NotAt(s: string, t: string, i: nat, k: nat)
    requires i < |t|
    requires forall j :: 0 <= j < |s| && s[j] == t[i] ==> j < i
    ensures !OccursAt(s, t, k)
  {
    if k + |t| <= |s| {
      var w := s[k..k + |t|];
      assert w[i] == s[k + i];
    }
  }

  /** Hence it does not occur in `s` at all. */
  lemma NotIncluded(s: string, t: string, i: nat)
    requires i < |t|
    requires forall j :: 0 <= j < |s| && s[j] == t[i] ==> j < i
    ensures !Includes(s, t)
  {
    if Includes(s, t) {
      NotAt(s, t, i, IndexOf(s, t).value);
    }
  }

  /** `parts.join(sep)`. */
  function Join(parts: seq<string>, sep: string): string
    decreases |parts|
  {
    if |parts| == 0 then ""
    else if |parts| == 1 then parts[0]
    else parts[0] + sep + Join(parts[1..], sep)
  }

  /** `s.split('\n')`: the lines of `s`, none holding a line feed. */
  function Lines(s: string): (r: seq<string>)
    ensures |r| >= 1
    ensures forall k :: 0 <= k < |r| ==> '\n' !in r[k]
    decreases |s|
  {
    var i := Seqs.FirstIndex(s, '\n');
    if i == |s| then [s] else [s[..i]] + Lines(s[i + 1..])
  }

  lemma JoinCons(head: string, rest: seq<string>, sep: string)
    requires |rest| >= 1
    ensures Join([head] + rest, sep) == head + sep + Join(rest, sep)
  {
    assert ([head] + rest)[1..] == rest;
  }

  /** `parts.join('')`: the parts run together. */
  function Concat(parts: seq<string>): string
    decreases |parts|
  {
    if |parts| == 0 then [] else parts[0] + Concat(parts[1..])
  }

  lemma ConcatPair(x: string, y: string, rest: seq<string>)
    ensures Concat([x, y] + rest) == x + (y + Concat(rest))
  {
    var tail := [y] + rest;
    assert ([x, y] + rest)[1..] == tail;
    assert tail[1..] == rest;
  }

  /** Splitting on line feeds loses nothing: joining the lines back gives the text. */
  lemma {:induction false} LinesJoin(s: string)
    ensures Join(Lines(s), "\n") == s
    decreases |s|
  {
    var i := Seqs.FirstIndex(s, '\n');
    if i < |s| {
      LinesJoin(s[i + 1..]);
      JoinCons(s[..i], Lines(s[i + 1..]), "\n");
      assert s == s[..i] + "\n" + s[i + 1..];
    }
  }

  /** `s.split(' ')[0]`: everything before the first space. */
  function FirstWord(s: string): (r: string)
    ensures StartsWith(s, r) && ' ' !in r
    ensures |r| < |s| ==> s[|r|] == ' '
  {
    s[..Seqs.FirstIndex(s, ' ')]
  }

  /** The first word keeps every character of a space-free start of `s`. */
  lemma WordChar(s: string, i: nat)
    requires i < |s| && forall j :: 0 <= j <= i ==> s[j] != ' '
    ensures i < |FirstWord(s)| && FirstWord(s)[i] == s[i]
  {
  }

  /**
   * `s.split(/\s+/)`: the pieces between maximal runs of white space. A run at
   * the start or the end yields an empty first or last piece, as in JavaScript.
   */
  function Words(s: string): (r: seq<string>)
    ensures |r| >= 1
    ensures forall k :: 0 <= k < |r| ==> NoSpace(r[k])
    decreases |s|
  {
    var i := FirstWhere(s, IsSpace);
    if i == |s| then [s]
    else
      var j := i + FirstWhere(s[i..], ch => !IsSpace(ch));
      [s[..i]] + Words(s[j..])
  }
}
