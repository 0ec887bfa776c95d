/** Finding the four options of one item: the `re.search` of
    `\n\s*a\)\s+(.*?)\n\s*b\)\s+(.*?)\n\s*c\)\s+(.*?)\n\s*d\)\s+(.*?)(?:\n|$)` with
    DOTALL (main.py:70-71), written out as the backtracking search Python's
    matcher performs for this one pattern. */
module OptionBlock {
  import opened Wrappers
  import opened Text

  /** The label of stage k of the pattern: a, b, c, d. */
  function Label(k: nat): (c: char)
    requires k < 4
    ensures 'a' <= c <= 'd'
  {
    "abcd"[k]
  }

  /** Where one `\n\s*x\)\s+` step of the pattern sits: the newline, the label
      letter, and the start of the captured option text. */
  datatype Cut = Cut(nl: nat, letter: nat, text: nat)

  /** c is a match of the step for label k: a newline, whitespace, the label,
      ')', and at least one whitespace character up to the option text. */
  predicate StageAt(s: string, c: Cut, k: nat)
    requires k < 4
  {
    c.nl < c.letter && c.letter + 2 < c.text <= |s|
    && s[c.nl] == '\n' && AllSpaceIn(s, c.nl + 1, c.letter)
    && s[c.letter] == Label(k) && s[c.letter + 1] == ')' && AllSpaceIn(s, c.letter + 2, c.text)
  }

  /** The steps of the pattern from one label on, and where option d ends. */
  datatype Tail = Tail(cuts: seq<Cut>, end: nat)

  /** t matches the pattern from label k to the end: its steps come in order,
      each option runs up to the next step's newline, and option d ends at a
      newline or at the end of the text. */
  predicate MatchesFrom(s: string, t: Tail, k: nat)
    requires k < 4
  {
    |t.cuts| == 4 - k
    && (forall i :: 0 <= i < |t.cuts| ==> StageAt(s, t.cuts[i], k + i))
    && (forall i :: 0 <= i < |t.cuts| - 1 ==> t.cuts[i].text <= t.cuts[i + 1].nl)
    && t.cuts[|t.cuts| - 1].text <= t.end <= |s|
    && (t.end == |s| || s[t.end] == '\n')
  }

  /** The step for label k at the newline q, its `\s+` taking all the whitespace
      there is; the matcher gives that whitespace back one character at a time
      only when the rest of the pattern fails. */
  function OpenAt(s: string, q: nat, k: nat): (r: Option<Cut>)
    requires k < 4
    ensures r.Some? ==> r.value.nl == q && r.value.letter + 2 < r.value.text <= |s|
  {
    if q < |s| && s[q] == '\n' then
      var j := SpaceRunEnd(s, q + 1);
      if j + 2 < |s| && s[j] == Label(k) && s[j + 1] == ')' && IsSpace(s[j + 2]) then
        Some(Cut(q, j, SpaceRunEnd(s, j + 2)))
      else
        None
    else
      None
  }

  /** Where the lazy `(.*?)(?:\n|$)` of option d stops: the first newline at or
      after x, or the end of the text. */
  function LineEnd(s: string, x: nat): (e: nat)
    requires x <= |s|
    ensures x <= e <= |s|
    ensures e == |s| || s[e] == '\n'
    ensures forall i :: x <= i < e ==> s[i] != '\n'
    decreases |s| - x
  {
    if x == |s| || s[x] == '\n' then x else LineEnd(s, x + 1)
  }

  /** The match of the pattern from the step for label k at q on, as Python's
      matcher finds it (see NextStep for options a, b and c). */
  function Rest(s: string, q: nat, k: nat): (r: Option<Tail>)
    requires k < 4
    ensures r.Some? ==> |r.value.cuts| == 4 - k && r.value.cuts[0].nl == q
    decreases 4 - k, 1, 0
  {
    match OpenAt(s, q, k)
    case None => None
    case Some(c) =>
      if k == 3 then
        Some(Tail([c], LineEnd(s, c.text)))
      else
        match NextStep(s, c, k)
        case None => None
        case Some(rest) =>
          var y := rest.cuts[0].nl;
          var text := if c.text <= y then c.text else y;
          Some(Tail([Cut(q, c.letter, text)] + rest.cuts, rest.end))
  }

  /** The match of the rest of the pattern after option k (a, b or c), whose
      first newline is where option k ends. The lazy `(.*?)` first tries every
      end from the greedy `\s+` on; if the rest matches from none of them, `\s+`
      backs off one character at a time, and option k is then empty, ending at
      the last newline inside that whitespace from which the rest matches. */
  function NextStep(s: string, c: Cut, k: nat): (r: Option<Tail>)
    requires k < 3 && c.letter + 2 < c.text <= |s|
    ensures r.Some? ==> |r.value.cuts| == 3 - k
    ensures r.Some? ==> c.text <= r.value.cuts[0].nl || c.letter + 3 <= r.value.cuts[0].nl < c.text
    decreases 4 - k, 0, 0
  {
    match Forward(s, c.text, k + 1)
    case Some(t) => Some(t)
    case None => Backward(s, c.letter + 3, c.text, k + 1)
  }

  /** The lazy `(.*?)` before label k: the match of the rest of the pattern
      from the first newline at or after x where it matches. */
  function Forward(s: string, x: nat, k: nat): (r: Option<Tail>)
    requires 0 < k < 4 && x <= |s|
    ensures r.Some? ==> |r.value.cuts| == 4 - k && x <= r.value.cuts[0].nl
    decreases 4 - k, 2, |s| - x
  {
    match Rest(s, x, k)
    case Some(t) => Some(t)
    case None => if x == |s| then None else Forward(s, x + 1, k)
  }

  /** The backing-off `\s+` before label k: the match of the rest of the
      pattern from the last newline in [lo, hi) where it matches. */
  function Backward(s: string, lo: nat, hi: nat, k: nat): (r: Option<Tail>)
    requires 0 < k < 4 && lo <= hi <= |s|
    ensures r.Some? ==> |r.value.cuts| == 4 - k && lo <= r.value.cuts[0].nl < hi
    decreases 4 - k, 2, hi - lo
  {
    if lo == hi then None
    else
      match Rest(s, hi - 1, k)
      case Some(t) => Some(t)
      case None => Backward(s, lo, hi - 1, k)
  }

  /** What the lazy search returns is the match of the rest from its newline. */
  lemma {:induction false} ForwardSound(s: string, x: nat, k: nat)
    requires 0 < k < 4 && x <= |s| && Forward(s, x, k).Some?
    ensures Rest(s, Forward(s, x, k).value.cuts[0].nl, k) == Forward(s, x, k)
    decreases |s| - x
  {
    if Rest(s, x, k).None? {
      ForwardSound(s, x + 1, k);
    }
  }

  /** What the backing-off search returns is the match of the rest from its newline. */
  lemma {:induction false} BackwardSound(s: string, lo: nat, hi: nat, k: nat)
    requires 0 < k < 4 && lo <= hi <= |s| && Backward(s, lo, hi, k).Some?
    ensures Rest(s, Backward(s, lo, hi, k).value.cuts[0].nl, k) == Backward(s, lo, hi, k)
    decreases hi - lo
  {
    if Rest(s, hi - 1, k).None? {
      BackwardSound(s, lo, hi - 1, k);
    }
  }

  /** The step OpenAt finds matches, and its `\s+` could not go further. */
  lemma OpenAtSound(s: string, q: nat, k: nat)
    requires k < 4 && OpenAt(s, q, k).Some?
    ensures StageAt(s, OpenAt(s, q, k).value, k)
    ensures OpenAt(s, q, k).value.text == |s| || !IsSpace(s[OpenAt(s, q, k).value.text])
  {
    SpaceRunEndIsRun(s, q + 1);
    SpaceRunEndIsRun(s, SpaceRunEnd(s, q + 1) + 2);
  }

  /** Every match of the step for label k at a newline is found by OpenAt: same
      label position, and an option text that starts within the greedy run. */
  lemma OpenAtComplete(s: string, c: Cut, k: nat)
    requires k < 4 && StageAt(s, c, k)
    ensures OpenAt(s, c.nl, k).Some?
    ensures OpenAt(s, c.nl, k).value.letter == c.letter
    ensures c.text <= OpenAt(s, c.nl, k).value.text
  {
    SpaceRunEndIsRun(s, c.nl + 1);
    var j := SpaceRunEnd(s, c.nl + 1);
    assert j == c.letter;
    SpaceRunEndIsRun(s, j + 2);
  }

  /** Option d ends at the first newline after its text starts. */
  predicate EndsAtLineEnd(s: string, t: Tail)
    requires |t.cuts| > 0 && t.cuts[|t.cuts| - 1].text <= t.end <= |s|
  {
    forall i :: t.cuts[|t.cuts| - 1].text <= i < t.end ==> s[i] != '\n'
  }

  /** A step followed by a match of the rest is a match from that step's label. */
  lemma MatchesCons(s: string, c: Cut, t: Tail, k: nat)
    requires k < 3 && StageAt(s, c, k) && MatchesFrom(s, t, k + 1) && c.text <= t.cuts[0].nl
    ensures MatchesFrom(s, Tail([c] + t.cuts, t.end), k)
  {
    var u := Tail([c] + t.cuts, t.end);
    forall i | 0 <= i < |u.cuts|
      ensures StageAt(s, u.cuts[i], k + i)
    {
      if i > 0 {
        assert u.cuts[i] == t.cuts[i - 1];
      }
    }
    forall i | 0 <= i < |u.cuts| - 1
      ensures u.cuts[i].text <= u.cuts[i + 1].nl
    {
      if i > 0 {
        assert u.cuts[i] == t.cuts[i - 1];
      }
    }
  }

  /** What NextStep returns is the match of the rest from its first newline. */
  lemma NextStepSound(s: string, c: Cut, k: nat)
    requires k < 3 && c.letter + 2 < c.text <= |s| && NextStep(s, c, k).Some?
    ensures Rest(s, NextStep(s, c, k).value.cuts[0].nl, k + 1) == NextStep(s, c, k)
  {
    if Forward(s, c.text, k + 1).Some? {
      ForwardSound(s, c.text, k + 1);
    } else {
      BackwardSound(s, c.letter + 3, c.text, k + 1);
    }
  }

  /** Rest for option a, b or c: its step, with the option text starting where
      `\s+` stopped, followed by the match of the rest. */
  lemma RestUnfold(s: string, q: nat, k: nat)
    requires k < 3 && Rest(s, q, k).Some?
    ensures OpenAt(s, q, k).Some? && NextStep(s, OpenAt(s, q, k).value, k).Some?
    ensures var c := OpenAt(s, q, k).value;
      var t := NextStep(s, c, k).value;
      var y := t.cuts[0].nl;
      Rest(s, q, k).value == Tail([Cut(q, c.letter, if c.text <= y then c.text else y)] + t.cuts, t.end)
  {
  }

  /** Rest for option d: one step, and the text up to the end of its line. */
  lemma RestLast(s: string, q: nat)
    requires Rest(s, q, 3).Some?
    ensures MatchesFrom(s, Rest(s, q, 3).value, 3)
    ensures EndsAtLineEnd(s, Rest(s, q, 3).value)
  {
    OpenAtSound(s, q, 3);
  }

  /** A step whose `\s+` stops earlier, still after one whitespace character, is a step. */
  lemma StageNarrow(s: string, c: Cut, text: nat, k: nat)
    requires k < 4 && StageAt(s, c, k) && c.letter + 2 < text <= c.text
    ensures StageAt(s, Cut(c.nl, c.letter, text), k)
  {
  }

  /** Putting a step in front of a match keeps where option d ends. */
  lemma ConsEndsAtLineEnd(s: string, c: Cut, t: Tail)
    requires |t.cuts| > 0 && t.cuts[|t.cuts| - 1].text <= t.end <= |s| && EndsAtLineEnd(s, t)
    ensures EndsAtLineEnd(s, Tail([c] + t.cuts, t.end))
  {
    assert ([c] + t.cuts)[|t.cuts|] == t.cuts[|t.cuts| - 1];
  }

  /** Rest for option a, b or c is a match once what NextStep returns is one. */
  lemma RestSoundStep(s: string, q: nat, k: nat)
    requires k < 3 && Rest(s, q, k).Some?
    requires OpenAt(s, q, k).Some? && NextStep(s, OpenAt(s, q, k).value, k).Some?
    requires MatchesFrom(s, NextStep(s, OpenAt(s, q, k).value, k).value, k + 1)
    requires EndsAtLineEnd(s, NextStep(s, OpenAt(s, q, k).value, k).value)
    ensures MatchesFrom(s, Rest(s, q, k).value, k)
    ensures EndsAtLineEnd(s, Rest(s, q, k).value)
  {
    RestUnfold(s, q, k);
    var c := OpenAt(s, q, k).value;
    OpenAtSound(s, q, k);
    var t := NextStep(s, c, k).value;
    var y := t.cuts[0].nl;
    var text := if c.text <= y then c.text else y;
    StageNarrow(s, c, text, k);
    MatchesCons(s, Cut(q, c.letter, text), t, k);
    ConsEndsAtLineEnd(s, Cut(q, c.letter, text), t);
  }

  /** What Rest returns is a match of the pattern from label k at q on, and
      option d stops at its first newline. */
  lemma {:induction false} RestSound(s: string, q: nat, k: nat)
    requires k < 4 && Rest(s, q, k).Some?
    ensures MatchesFrom(s, Rest(s, q, k).value, k)
    ensures EndsAtLineEnd(s, Rest(s, q, k).value)
    decreases 4 - k
  {
    if k == 3 {
      RestLast(s, q);
    } else {
      RestUnfold(s, q, k);
      var c := OpenAt(s, q, k).value;
      NextStepSound(s, c, k);
      RestSound(s, NextStep(s, c, k).value.cuts[0].nl, k + 1);
      RestSoundStep(s, q, k);
    }
  }

  /** If the rest of the pattern matches from some y >= x, the lazy search from x
      finds a place where it matches. */
  lemma {:induction false} ForwardComplete(s: string, x: nat, y: nat, k: nat)
    requires 0 < k < 4 && x <= y <= |s| && Rest(s, y, k).Some?
    ensures Forward(s, x, k).Some?
    decreases y - x
  {
    if x < y && Rest(s, x, k).None? {
      ForwardComplete(s, x + 1, y, k);
    }
  }

  /** If the rest of the pattern matches from some y in [lo, hi), the backing-off
      search finds a place where it matches. */
  lemma {:induction false} BackwardComplete(s: string, lo: nat, hi: nat, y: nat, k: nat)
    requires 0 < k < 4 && lo <= y < hi <= |s| && Rest(s, y, k).Some?
    ensures Backward(s, lo, hi, k).Some?
    decreases hi - lo
  {
    if y < hi - 1 && Rest(s, hi - 1, k).None? {
      BackwardComplete(s, lo, hi - 1, y, k);
    }
  }

  /** The tail of a match from label k, without its first step, is a match from
      the next label. */
  lemma MatchesTail(s: string, t: Tail, k: nat)
    requires k < 3 && MatchesFrom(s, t, k)
    ensures MatchesFrom(s, Tail(t.cuts[1..], t.end), k + 1)
  {
    var u := Tail(t.cuts[1..], t.end);
    forall i | 0 <= i < |u.cuts|
      ensures StageAt(s, u.cuts[i], k + 1 + i)
    {
      assert u.cuts[i] == t.cuts[i + 1];
      assert StageAt(s, t.cuts[i + 1], k + (i + 1));
    }
    forall i | 0 <= i < |u.cuts| - 1
      ensures u.cuts[i].text <= u.cuts[i + 1].nl
    {
      assert u.cuts[i] == t.cuts[i + 1];
    }
  }

  /** If the rest of the pattern matches from a newline past the label of c,
      NextStep finds a match of it. */
  lemma NextStepComplete(s: string, c: Cut, k: nat, y: nat)
    requires k < 3 && c.letter + 2 < c.text <= |s|
    requires c.letter + 3 <= y <= |s| && Rest(s, y, k + 1).Some?
    ensures NextStep(s, c, k).Some?
  {
    if Forward(s, c.text, k + 1).None? {
      if c.text <= y {
        ForwardComplete(s, c.text, y, k + 1);
      } else {
        BackwardComplete(s, c.letter + 3, c.text, y, k + 1);
      }
    }
  }

  /** Rest succeeds when its step is there and the rest of the pattern follows. */
  lemma RestFromStep(s: string, q: nat, k: nat)
    requires k < 4 && OpenAt(s, q, k).Some?
    requires k < 3 ==> NextStep(s, OpenAt(s, q, k).value, k).Some?
    ensures Rest(s, q, k).Some?
  {
  }

  /** Whenever the pattern matches from label k at a newline, Rest finds a match
      there: backtracking is never cut short. */
  lemma {:induction false} RestComplete(s: string, t: Tail, k: nat)
    requires k < 4 && MatchesFrom(s, t, k)
    ensures Rest(s, t.cuts[0].nl, k).Some?
    decreases 4 - k
  {
    var c := t.cuts[0];
    assert StageAt(s, c, k + 0);
    OpenAtComplete(s, c, k);
    if k < 3 {
      var o := OpenAt(s, c.nl, k).value;
      var u := Tail(t.cuts[1..], t.end);
      MatchesTail(s, t, k);
      RestComplete(s, u, k + 1);
      NextStepComplete(s, o, k, t.cuts[1].nl);
    }
    RestFromStep(s, c.nl, k);
  }

  /** Some match of the pattern from label k starts at the newline y. */
  ghost predicate MatchesAt(s: string, y: nat, k: nat)
    requires k < 4
  {
    exists t :: MatchesFrom(s, t, k) && t.cuts[0].nl == y
  }

  /** A `\s+` that stops at x took all the whitespace there was. */
  predicate RunTaken(s: string, x: nat) {
    x == |s| || (x < |s| && !IsSpace(s[x]))
  }

  /** How the matcher picks the text c of the option before label k (option a,
      b or c) and the newline y where the step for label k starts. Either `\s+` took the whole run and the lazy
      group stopped at the first newline from which the rest of the pattern
      matches; or the rest matches from no newline past y, `\s+` gave
      whitespace back, and the option is empty, ending at that last newline. */
  ghost predicate Chosen(s: string, c: Cut, y: nat, k: nat)
    requires 0 < k < 4
  {
    (RunTaken(s, c.text) && forall z: nat :: c.text <= z < y ==> !MatchesAt(s, z, k))
    || (c.text == y && forall z: nat :: y < z ==> !MatchesAt(s, z, k))
  }

  /** Every step of t from label k on is the one the matcher picks, and the
      `\s+` of option d took its whole run. */
  ghost predicate Prioritised(s: string, t: Tail, k: nat)
    requires k < 4 && |t.cuts| == 4 - k
  {
    (forall i :: 0 <= i < |t.cuts| - 1 ==> Chosen(s, t.cuts[i], t.cuts[i + 1].nl, k + i + 1))
    && RunTaken(s, t.cuts[|t.cuts| - 1].text)
  }

  /** The lazy search stops at the first place from which the rest matches,
      and fails only when the rest matches from nowhere at or after x. */
  lemma {:induction false} ForwardFirst(s: string, x: nat, k: nat)
    requires 0 < k < 4 && x <= |s|
    ensures Forward(s, x, k).Some? ==>
              forall z :: x <= z < Forward(s, x, k).value.cuts[0].nl ==> Rest(s, z, k).None?
    ensures Forward(s, x, k).None? ==> forall z: nat :: x <= z ==> Rest(s, z, k).None?
    decreases |s| - x
  {
    if x < |s| && Rest(s, x, k).None? {
      ForwardFirst(s, x + 1, k);
    }
  }

  /** The backing-off search stops at the last place below hi from which the
      rest matches. */
  lemma {:induction false} BackwardLast(s: string, lo: nat, hi: nat, k: nat)
    requires 0 < k < 4 && lo <= hi <= |s| && Backward(s, lo, hi, k).Some?
    ensures forall z :: Backward(s, lo, hi, k).value.cuts[0].nl < z < hi ==> Rest(s, z, k).None?
    decreases hi - lo
  {
    if Rest(s, hi - 1, k).None? {
      BackwardLast(s, lo, hi - 1, k);
    }
  }

  /** Where Rest fails, no match starts. */
  lemma NoMatchAt(s: string, z: nat, k: nat)
    requires k < 4 && Rest(s, z, k).None?
    ensures !MatchesAt(s, z, k)
  {
    if MatchesAt(s, z, k) {
      var t :| MatchesFrom(s, t, k) && t.cuts[0].nl == z;
      RestComplete(s, t, k);
    }
  }

  /** Rest for option a, b or c picks its first step as the matcher does. */
  lemma RestChosenStep(s: string, q: nat, k: nat)
    requires k < 3 && Rest(s, q, k).Some?
    ensures Chosen(s, Rest(s, q, k).value.cuts[0], Rest(s, q, k).value.cuts[1].nl, k + 1)
  {
    var next := k + 1;
    RestUnfold(s, q, k);
    var c := OpenAt(s, q, k).value;
    OpenAtSound(s, q, k);
    var t := NextStep(s, c, k).value;
    var y := t.cuts[0].nl;
    var r := Rest(s, q, k).value;
    assert r.cuts[1] == t.cuts[0];
    ForwardFirst(s, c.text, k + 1);
    if Forward(s, c.text, k + 1).Some? {
      assert r.cuts[0].text == c.text;
      forall z: nat | c.text <= z < y ensures !MatchesAt(s, z, next) {
        NoMatchAt(s, z, next);
      }
    } else {
      BackwardLast(s, c.letter + 3, c.text, k + 1);
      assert r.cuts[0].text == y;
      forall z: nat | y < z ensures !MatchesAt(s, z, next) {
        NoMatchAt(s, z, next);
      }
    }
  }

  /** What Rest returns is the match the matcher picks, step by step. */
  lemma {:induction false} RestChosen(s: string, q: nat, k: nat)
    requires k < 4 && Rest(s, q, k).Some?
    ensures Prioritised(s, Rest(s, q, k).value, k)
    decreases 4 - k
  {
    if k == 3 {
      OpenAtSound(s, q, 3);
    } else {
      RestUnfold(s, q, k);
      var c := OpenAt(s, q, k).value;
      var t := NextStep(s, c, k).value;
      NextStepSound(s, c, k);
      RestChosen(s, t.cuts[0].nl, k + 1);
      RestChosenStep(s, q, k);
      var r := Rest(s, q, k).value;
      forall i | 0 < i < |r.cuts| - 1 ensures Chosen(s, r.cuts[i], r.cuts[i + 1].nl, k + i + 1) {
        assert r.cuts[i] == t.cuts[i - 1] && r.cuts[i + 1] == t.cuts[i];
        assert Chosen(s, t.cuts[i - 1], t.cuts[i].nl, k + 1 + (i - 1) + 1);
      }
      assert r.cuts[|r.cuts| - 1] == t.cuts[|t.cuts| - 1];
    }
  }

  /** What the search from m returns is the match the matcher picks. */
  lemma {:induction false} SearchFromChosen(s: string, m: nat)
    requires m <= |s|
    ensures SearchFrom(s, m).Some? ==> Prioritised(s, SearchFrom(s, m).value, 0)
    decreases |s| - m
  {
    if m < |s| {
      if Rest(s, m, 0).Some? {
        RestChosen(s, m, 0);
      } else {
        SearchFromChosen(s, m + 1);
      }
    }
  }

  /** A whitespace run that was taken whole ends no earlier than any other
      whitespace run from the same place. */
  lemma RunBound(s: string, lo: nat, x: nat, x': nat)
    requires lo <= x <= |s| && RunTaken(s, x) && lo <= x' <= |s| && AllSpaceIn(s, lo, x')
    ensures x' <= x
  {
  }

  /** Two steps for the same label at the same newline put the label at the
      same place: `\s*` cannot take the label, which is no whitespace. */
  lemma LetterUnique(s: string, a: Cut, b: Cut, k: nat)
    requires k < 4 && StageAt(s, a, k) && StageAt(s, b, k) && a.nl == b.nl
    ensures a.letter == b.letter
  {
  }

  /** The texts of two steps and the newlines after them, both picked as the
      matcher does, agree when the texts do. */
  lemma ChosenSameText(s: string, a: Cut, b: Cut, y1: nat, y2: nat, k: nat)
    requires 0 < k < 4 && a.text == b.text && a.text <= y1 && b.text <= y2
    requires MatchesAt(s, y1, k) && MatchesAt(s, y2, k) && Chosen(s, a, y1, k) && Chosen(s, b, y2, k)
    ensures y1 == y2
  {
  }

  /** Two steps from the same newline, both picked as the matcher does, are the
      same step followed at the same newline. */
  lemma ChosenUnique(s: string, a: Cut, b: Cut, y1: nat, y2: nat, k: nat)
    requires k < 3 && StageAt(s, a, k) && StageAt(s, b, k) && a.nl == b.nl
    requires a.text <= y1 && b.text <= y2 && MatchesAt(s, y1, k + 1) && MatchesAt(s, y2, k + 1)
    requires Chosen(s, a, y1, k + 1) && Chosen(s, b, y2, k + 1)
    ensures a == b && y1 == y2
  {
    LetterUnique(s, a, b, k);
    if RunTaken(s, a.text) {
      RunBound(s, a.letter + 2, a.text, b.text);
    }
    if RunTaken(s, b.text) {
      RunBound(s, b.letter + 2, b.text, a.text);
    }
    if a.text == b.text {
      ChosenSameText(s, a, b, y1, y2, k + 1);
    }
  }

  /** Two matches of option d from the same newline, both with the whole
      whitespace run taken and ending at their first newline, are the same. */
  lemma LastUnique(s: string, t: Tail, u: Tail)
    requires MatchesFrom(s, t, 3) && MatchesFrom(s, u, 3) && EndsAtLineEnd(s, t) && EndsAtLineEnd(s, u)
    requires RunTaken(s, t.cuts[0].text) && RunTaken(s, u.cuts[0].text) && t.cuts[0].nl == u.cuts[0].nl
    ensures t == u
  {
    var a, b := t.cuts[0], u.cuts[0];
    assert StageAt(s, a, 3 + 0) && StageAt(s, b, 3 + 0);
    RunBound(s, a.letter + 2, a.text, b.text);
    RunBound(s, b.letter + 2, b.text, a.text);
    assert t.cuts == [a] && u.cuts == [b];
  }

  /** A match picked as the matcher does, without its first step, is still one. */
  lemma PrioritisedTail(s: string, t: Tail, k: nat)
    requires k < 3 && MatchesFrom(s, t, k) && EndsAtLineEnd(s, t) && Prioritised(s, t, k)
    ensures var t' := Tail(t.cuts[1..], t.end);
            MatchesFrom(s, t', k + 1) && EndsAtLineEnd(s, t') && Prioritised(s, t', k + 1)
  {
    var t' := Tail(t.cuts[1..], t.end);
    MatchesTail(s, t, k);
    forall i | 0 <= i < |t'.cuts| - 1 ensures Chosen(s, t'.cuts[i], t'.cuts[i + 1].nl, k + 1 + i + 1) {
      assert Chosen(s, t.cuts[i + 1], t.cuts[i + 2].nl, k + (i + 1) + 1);
    }
    assert t'.cuts[|t'.cuts| - 1] == t.cuts[|t.cuts| - 1];
  }

  /** From a given newline at most one match is the one the matcher picks:
      its steps, its option texts and the end of option d are all fixed. */
  lemma {:induction false} PrioritisedUnique(s: string, t: Tail, u: Tail, k: nat)
    requires k < 4 && MatchesFrom(s, t, k) && MatchesFrom(s, u, k)
    requires EndsAtLineEnd(s, t) && EndsAtLineEnd(s, u)
    requires Prioritised(s, t, k) && Prioritised(s, u, k) && t.cuts[0].nl == u.cuts[0].nl
    ensures t == u
    decreases 4 - k
  {
    if k == 3 {
      LastUnique(s, t, u);
    } else {
      var t', u' := Tail(t.cuts[1..], t.end), Tail(u.cuts[1..], u.end);
      FirstStepsAgree(s, t, u, k);
      PrioritisedTail(s, t, k);
      PrioritisedTail(s, u, k);
      PrioritisedUnique(s, t', u', k + 1);
      TailJoin(t);
      TailJoin(u);
    }
  }

  /** The first step of a match picked as the matcher does, and the newline
      from which the rest of it matches. */
  lemma FirstStep(s: string, t: Tail, k: nat)
    requires k < 3 && MatchesFrom(s, t, k) && Prioritised(s, t, k)
    ensures StageAt(s, t.cuts[0], k) && t.cuts[0].text <= t.cuts[1].nl
    ensures MatchesAt(s, t.cuts[1].nl, k + 1) && Chosen(s, t.cuts[0], t.cuts[1].nl, k + 1)
  {
    assert StageAt(s, t.cuts[0], k + 0);
    assert Chosen(s, t.cuts[0], t.cuts[1].nl, k + 0 + 1);
    MatchesTail(s, t, k);
    assert Tail(t.cuts[1..], t.end).cuts[0] == t.cuts[1];
  }

  /** Two matches from the same newline, both picked as the matcher does,
      share their first step and the newline after it. */
  lemma FirstStepsAgree(s: string, t: Tail, u: Tail, k: nat)
    requires k < 3 && MatchesFrom(s, t, k) && MatchesFrom(s, u, k)
    requires Prioritised(s, t, k) && Prioritised(s, u, k) && t.cuts[0].nl == u.cuts[0].nl
    ensures t.cuts[0] == u.cuts[0] && t.cuts[1].nl == u.cuts[1].nl
  {
    FirstStep(s, t, k);
    FirstStep(s, u, k);
    ChosenUnique(s, t.cuts[0], u.cuts[0], t.cuts[1].nl, u.cuts[1].nl, k);
  }

  /** A match is its first step followed by the rest of its steps. */
  lemma TailJoin(t: Tail)
    requires |t.cuts| > 0
    ensures t == Tail([t.cuts[0]] + t.cuts[1..], t.end)
  {
  }

  /** The search of `re.search` from m on: the match at the first newline from
      which the whole pattern matches. Option d of the match stops at its first
      newline. */
  function SearchFrom(s: string, m: nat): (r: Option<Tail>)
    requires m <= |s|
    ensures r.Some? ==> |r.value.cuts| == 4 && m <= r.value.cuts[0].nl
    decreases |s| - m
  {
    if m == |s| then None
    else
      match Rest(s, m, 0)
      case Some(t) => Some(t)
      case None => SearchFrom(s, m + 1)
  }

  /** What the search finds is a match, with option d stopping at its first
      newline. */
  lemma {:induction false} SearchFromSound(s: string, m: nat)
    requires m <= |s|
    ensures SearchFrom(s, m).Some? ==>
              MatchesFrom(s, SearchFrom(s, m).value, 0) && EndsAtLineEnd(s, SearchFrom(s, m).value)
    decreases |s| - m
  {
    if m < |s| {
      if Rest(s, m, 0).Some? {
        RestSound(s, m, 0);
      } else {
        SearchFromSound(s, m + 1);
      }
    }
  }

  /** One step of the search: the match at m, or else the search from m + 1. */
  lemma SearchFromStep(s: string, m: nat)
    requires m < |s|
    ensures SearchFrom(s, m) == if Rest(s, m, 0).Some? then Rest(s, m, 0) else SearchFrom(s, m + 1)
  {
  }

  /** If the pattern matches at some newline at or after m, the search finds a
      match, and one that starts no later. */
  lemma SearchFromComplete(s: string, m: nat, t: Tail)
    requires m <= |s| && MatchesFrom(s, t, 0) && m <= t.cuts[0].nl
    ensures SearchFrom(s, m).Some?
    ensures SearchFrom(s, m).value.cuts[0].nl <= t.cuts[0].nl
  {
    assert StageAt(s, t.cuts[0], 0 + 0);
    RestComplete(s, t, 0);
    SearchFromReaches(s, m, t.cuts[0].nl);
  }

  /** If the pattern matches at the newline n, the search from any m up to n
      finds a match that starts no later than n. */
  lemma {:induction false} SearchFromReaches(s: string, m: nat, n: nat)
    requires m <= n < |s| && Rest(s, n, 0).Some?
    ensures SearchFrom(s, m).Some? && SearchFrom(s, m).value.cuts[0].nl <= n
    decreases n - m
  {
    SearchFromStep(s, m);
    if m < n && Rest(s, m, 0).None? {
      SearchFromReaches(s, m + 1, n);
    }
  }

  /** `options_match` at main.py:70: the option block of an item, or None. */
  function FindOptions(s: string): (r: Option<Tail>)
    ensures r.Some? ==> MatchesFrom(s, r.value, 0) && EndsAtLineEnd(s, r.value)
  {
    SearchFromSound(s, 0);
    SearchFrom(s, 0)
  }

  /** The search misses no block and returns the leftmost one: whenever the
      pattern matches anywhere in s, FindOptions finds a match that starts at
      that newline or before it. So FindOptions(s) is None exactly when no
      a) b) c) d) block occurs in s. */
  lemma FindOptionsLeftmost(s: string, t: Tail)
    requires MatchesFrom(s, t, 0)
    ensures FindOptions(s).Some?
    ensures FindOptions(s).value.cuts[0].nl <= t.cuts[0].nl
  {
    SearchFromComplete(s, 0, t);
  }

  /** The block FindOptions returns is the one the matcher picks at its
      newline: lazy option texts a to c that stop at the first newline from
      which the rest matches, `\s+` runs taken whole unless giving whitespace
      back is the only way to match. */
  lemma FindOptionsChosen(s: string)
    requires FindOptions(s).Some?
    ensures Prioritised(s, FindOptions(s).value, 0)
  {
    SearchFromChosen(s, 0);
  }

  /** FindOptions is fully determined: a match that starts at the leftmost
      newline from which the pattern matches, whose steps are those the
      matcher picks and whose option d ends at its first newline, is the one
      FindOptions returns. */
  lemma FindOptionsIs(s: string, t: Tail)
    requires MatchesFrom(s, t, 0) && EndsAtLineEnd(s, t) && Prioritised(s, t, 0)
    requires forall z: nat :: z < t.cuts[0].nl ==> !MatchesAt(s, z, 0)
    ensures FindOptions(s) == Some(t)
  {
    FindOptionsLeftmost(s, t);
    FindOptionsChosen(s);
    var f := FindOptions(s).value;
    assert MatchesAt(s, f.cuts[0].nl, 0);
    PrioritisedUnique(s, f, t, 0);
  }

  /** The captured text of option i (0 for a up to 3 for d) of a match. */
  function OptionText(s: string, t: Tail, i: nat): (r: string)
    requires MatchesFrom(s, t, 0) && i < 4
  {
    s[t.cuts[i].text..if i < 3 then t.cuts[i + 1].nl else t.end]
  }

  /** Option d of a found block holds no newline: it stops at the end of its line. */
  lemma OptionDIsOneLine(s: string)
    requires FindOptions(s).Some?
    ensures '\n' !in OptionText(s, FindOptions(s).value, 3)
  {
    var t := FindOptions(s).value;
    var d := OptionText(s, t, 3);
    forall j | 0 <= j < |d| ensures d[j] != '\n' {
      assert d[j] == s[t.cuts[3].text + j];
    }
  }

  /** The pattern matches from no position of a piece without a newline, since
      each step begins with one. */
  lemma NoRestOffNewline(s: string, lo: nat, hi: nat, k: nat)
    requires k < 4 && lo <= hi <= |s| && '\n' !in s[lo..hi]
    ensures forall q :: lo <= q < hi ==> Rest(s, q, k).None?
  {
    forall q | lo <= q < hi ensures s[q] != '\n' {
      assert s[q] == s[lo..hi][q - lo];
    }
  }

  /** The lazy search passes over positions from which the rest does not match. */
  lemma {:induction false} ForwardSkip(s: string, x: nat, y: nat, k: nat)
    requires 0 < k < 4 && x <= y <= |s|
    requires forall q :: x <= q < y ==> Rest(s, q, k).None?
    ensures Forward(s, x, k) == Forward(s, y, k)
    decreases y - x
  {
    if x < y {
      ForwardSkip(s, x + 1, y, k);
    }
  }

  /** The search passes over positions from which the pattern does not match. */
  lemma {:induction false} SearchFromSkip(s: string, m: nat, n: nat)
    requires m <= n <= |s|
    requires forall q :: m <= q < n ==> Rest(s, q, 0).None?
    ensures SearchFrom(s, m) == SearchFrom(s, n)
    decreases n - m
  {
    if m < n {
      SearchFromSkip(s, m + 1, n);
    }
  }

  /** Option d runs up to the newline that ends its line, or to the end of s. */
  lemma LineEndAt(s: string, x: nat, y: nat)
    requires x <= y <= |s| && '\n' !in s[x..y] && (y == |s| || s[y] == '\n')
    ensures LineEnd(s, x) == y
  {
  }

  /** A step whose `\s+` runs up to a character that is not whitespace is the
      one OpenAt finds. */
  lemma OpenAtIs(s: string, c: Cut, k: nat)
    requires k < 4 && StageAt(s, c, k) && (c.text == |s| || !IsSpace(s[c.text]))
    ensures OpenAt(s, c.nl, k) == Some(c)
  {
    assert !IsSpace(s[c.letter]);
    SpaceRunEndAt(s, c.nl + 1, c.letter);
    SpaceRunEndAt(s, c.letter + 2, c.text);
  }

  /** No step starts at a newline whose next line begins with something other
      than whitespace or the label. */
  lemma NoRestAtLine(s: string, q: nat, k: nat)
    requires k < 4 && q + 1 < |s| && !IsSpace(s[q + 1]) && s[q + 1] != Label(k)
    ensures Rest(s, q, k).None?
  {
    assert SpaceRunEnd(s, q + 1) == q + 1;
  }

  /** The match of option d from a step c: its text runs to the end of its line. */
  lemma RestLastIs(s: string, c: Cut, e: nat)
    requires StageAt(s, c, 3) && (c.text == |s| || !IsSpace(s[c.text]))
    requires c.text <= e <= |s| && '\n' !in s[c.text..e] && (e == |s| || s[e] == '\n')
    ensures Rest(s, c.nl, 3) == Some(Tail([c], e))
  {
    OpenAtIs(s, c, 3);
    LineEndAt(s, c.text, e);
  }

  /** The match from a step c for option a, b or c whose text holds no newline:
      the lazy group stops at the first newline, where the rest matches as t. */
  lemma RestStepIs(s: string, c: Cut, k: nat, t: Tail)
    requires k < 3 && StageAt(s, c, k) && (c.text == |s| || !IsSpace(s[c.text]))
    requires |t.cuts| > 0 && c.text <= t.cuts[0].nl <= |s| && '\n' !in s[c.text..t.cuts[0].nl]
    requires Rest(s, t.cuts[0].nl, k + 1) == Some(t)
    ensures Rest(s, c.nl, k) == Some(Tail([c] + t.cuts, t.end))
  {
    var y := t.cuts[0].nl;
    OpenAtIs(s, c, k);
    NoRestOffNewline(s, c.text, y, k + 1);
    ForwardSkip(s, c.text, y, k + 1);
    assert Forward(s, y, k + 1) == Some(t);
    assert NextStep(s, c, k) == Some(t);
  }

  /** The option block of s is the match at the first newline from which the
      pattern matches. */
  lemma FindOptionsAt(s: string, n: nat)
    requires n < |s| && Rest(s, n, 0).Some?
    requires forall q :: 0 <= q < n ==> Rest(s, q, 0).None?
    ensures FindOptions(s) == Rest(s, n, 0)
  {
    SearchFromSkip(s, 0, n);
    SearchFromStep(s, n);
  }
}
