/** Assembling the quiz records (main.py:60-110): for each numbered item of the
    reply, its option block, its question text and its correct answer. */
module Quiz {
  import opened Wrappers
  import opened Text
  import opened Marker
  import Segmenter
  import OptionBlock

  /** The four option texts of a record. */
  datatype Choices = Choices(a: string, b: string, c: string, d: string)

  /** One quiz question as appended to `quiz_data` (main.py:100-110). */
  datatype Record = Record(id: nat, question: string, options: Choices, correctAnswer: Option<Letter>)

  /** Every text of the choices is trimmed. */
  predicate ChoicesTrimmed(o: Choices) {
    Trimmed(o.a) && Trimmed(o.b) && Trimmed(o.c) && Trimmed(o.d)
  }

  /** The question text with its own number taken off (main.py:82-84): the
      prefix `"{i+1}."` is dropped when the text begins with it, and the rest
      is trimmed. */
  function StripOrdinal(q: string, i: nat): (r: string)
    ensures Trimmed(r)
  {
    var p := Decimal(i + 1) + ".";
    Trim(if StartsWith(q, p) then q[|p|..] else q)
  }

  /** A question that begins with its own number loses exactly that prefix. */
  lemma StripOrdinalOwnNumber(x: string, i: nat)
    ensures StripOrdinal(Decimal(i + 1) + "." + x, i) == Trim(x)
  {
    var p := Decimal(i + 1) + ".";
    assert (p + x)[|p|..] == x;
  }

  /** The number at the head of a text `"{n}."...` is where its digits stop. */
  lemma OrdinalLength(q: string, n: nat)
    requires StartsWith(q, Decimal(n) + ".")
    ensures DigitRunEnd(q, 0) == |Decimal(n)|
  {
    var x := Decimal(n);
    assert forall j | 0 <= j < |x| :: q[j] == x[j];
    assert q[|x|] == '.';
    DigitRunEndIsRun(q, 0);
  }

  /** A question numbered n with n not its own position i + 1 keeps its number:
      the prefix `"{i+1}."` cannot begin it, since digits are not '.'. */
  lemma StripOrdinalOtherNumber(q: string, n: nat, i: nat)
    requires StartsWith(q, Decimal(n) + ".") && n != i + 1
    ensures StripOrdinal(q, i) == Trim(q)
  {
    if StartsWith(q, Decimal(i + 1) + ".") {
      OrdinalUnique(q, n, i + 1);
    }
  }

  /** A text begins with at most one number followed by '.'. */
  lemma OrdinalUnique(q: string, m: nat, n: nat)
    requires StartsWith(q, Decimal(m) + ".") && StartsWith(q, Decimal(n) + ".")
    ensures m == n
  {
    OrdinalLength(q, m);
    OrdinalLength(q, n);
    SamePrefix(q, Decimal(n), Decimal(m));
    DecimalInjective(m, n);
  }

  /** Two texts of the same length that begin q followed by '.' are equal. */
  lemma SamePrefix(q: string, x: string, y: string)
    requires StartsWith(q, x + ".") && StartsWith(q, y + ".") && |x| == |y|
    ensures x == y
  {
    forall j | 0 <= j < |x| ensures x[j] == y[j] {
      assert x[j] == (x + ".")[j] == q[j] == (y + ".")[j] == y[j];
    }
  }

  /** `[opt.strip() for opt in options_match.groups()]` (main.py:76): the four
      captured option texts, trimmed. */
  function Captured(seg: string, t: OptionBlock.Tail): (o: Choices)
    requires OptionBlock.MatchesFrom(seg, t, 0)
    ensures ChoicesTrimmed(o)
  {
    Choices(Trim(OptionBlock.OptionText(seg, t, 0)), Trim(OptionBlock.OptionText(seg, t, 1)),
            Trim(OptionBlock.OptionText(seg, t, 2)), Trim(OptionBlock.OptionText(seg, t, 3)))
  }

  /** One option cleaned of its correct-answer markers (main.py:94-97). */
  function CleanOption(o: string): (r: string)
    ensures Trimmed(r)
    ensures forall c :: c in r ==> c in o
  {
    var x := RemoveMarkers(o);
    var r := Trim(x);
    assert forall c | c in r :: c in x by {
      forall c | c in r ensures c in x {
        TrimKeeps(x, c);
      }
    }
    assert forall c | c in x :: c in o by {
      forall c | c in x ensures c in o {
        assert c in multiset(x);
      }
    }
    r
  }

  /** The options once the markers are removed from each of them. */
  function Clean(o: Choices): (r: Choices)
    ensures ChoicesTrimmed(r)
  {
    Choices(CleanOption(o.a), CleanOption(o.b), CleanOption(o.c), CleanOption(o.d))
  }

  /** The record the loop body builds for segment seg at index i of the
      enumeration, or None when the segment is skipped (main.py:67-110). */
  function ParseSegment(seg: string, i: nat): (r: Option<Record>)
    ensures r.None? <==> OptionBlock.FindOptions(seg).None?
    ensures r.Some? ==> r.value.id == i + 1
  {
    match OptionBlock.FindOptions(seg)
    case None => None
    case Some(t) =>
      var question := StripOrdinal(Trim(seg[..t.cuts[0].nl]), i);
      var answer := FindMarker(seg);
      var options := if answer.Some? then Clean(Captured(seg, t)) else Captured(seg, t);
      Some(Record(i + 1, question, options, answer))
  }

  /** A segment gives a record exactly when an a) b) c) d) block occurs in it
      somewhere (main.py:70-74). */
  lemma ParseSegmentSkips(seg: string, i: nat)
    ensures ParseSegment(seg, i).Some? <==> exists t :: OptionBlock.MatchesFrom(seg, t, 0)
  {
    if t :| OptionBlock.MatchesFrom(seg, t, 0) {
      OptionBlock.FindOptionsLeftmost(seg, t);
    }
  }

  /** The correct answer of a record is None exactly when its segment holds no
      marker, and otherwise the letter of the first marker of the segment,
      wherever it stands (main.py:87-91). */
  lemma ParseSegmentAnswer(seg: string, i: nat)
    requires ParseSegment(seg, i).Some?
    ensures ParseSegment(seg, i).value.correctAnswer.None? <==> !HasMarker(seg)
    ensures ParseSegment(seg, i).value.correctAnswer.Some? ==>
              exists k :: MarkerAt(seg, k) && seg[k + 3] == ParseSegment(seg, i).value.correctAnswer.value
                          && forall j :: 0 <= j < k ==> !MarkerAt(seg, j)
  {
  }

  /** Cleaning a trimmed text without markers gives it back unchanged. */
  lemma CleanUnmarked(x: string)
    requires Trimmed(x) && !HasMarker(x)
    ensures CleanOption(x) == x
  {
    RemoveMarkersNoMarker(x);
    TrimTrimmed(x);
  }

  /** A captured option of a segment without markers has no marker. */
  lemma CapturedUnmarked(seg: string, t: OptionBlock.Tail, k: nat)
    requires OptionBlock.MatchesFrom(seg, t, 0) && k < 4 && !HasMarker(seg)
    ensures !HasMarker(Trim(OptionBlock.OptionText(seg, t, k)))
  {
    var y := OptionBlock.OptionText(seg, t, k);
    NoMarkerInSlice(seg, t.cuts[k].text, if k < 3 then t.cuts[k + 1].nl else t.end);
    var lo := SpaceRunEnd(y, 0);
    NoMarkerInSlice(y, lo, lo + |Trim(y)|);
  }

  /** Each option is its captured text, trimmed, with the markers removed and
      trimmed again: without a marker in the segment the removal changes
      nothing, so the options are then just the trimmed captures (main.py:76,
      93-97). */
  lemma ParseSegmentOptions(seg: string, i: nat)
    requires ParseSegment(seg, i).Some?
    ensures ParseSegment(seg, i).value.options == Clean(Captured(seg, OptionBlock.FindOptions(seg).value))
  {
    var t := OptionBlock.FindOptions(seg).value;
    if !HasMarker(seg) {
      var o := Captured(seg, t);
      CapturedUnmarked(seg, t, 0);
      CapturedUnmarked(seg, t, 1);
      CapturedUnmarked(seg, t, 2);
      CapturedUnmarked(seg, t, 3);
      CleanUnmarked(o.a);
      CleanUnmarked(o.b);
      CleanUnmarked(o.c);
      CleanUnmarked(o.d);
    }
  }

  /** Every text of a record is trimmed, and option d holds no newline
      (main.py:70, 76, 84, 94-97). */
  lemma ParseSegmentTrimmed(seg: string, i: nat)
    requires ParseSegment(seg, i).Some?
    ensures var r := ParseSegment(seg, i).value;
            Trimmed(r.question) && ChoicesTrimmed(r.options) && '\n' !in r.options.d
  {
    var t := OptionBlock.FindOptions(seg).value;
    var d := OptionBlock.OptionText(seg, t, 3);
    OptionBlock.OptionDIsOneLine(seg);
    if '\n' in Trim(d) {
      TrimKeeps(d, '\n');
    }
  }

  /** When the markers of a captured option do not touch other '*' characters,
      the cleaned option holds no '*' and so no marker. */
  lemma CleanLeavesNoMarker(x: string)
    requires StarsOnlyInMarkers(x)
    ensures '*' !in CleanOption(x) && !HasMarker(CleanOption(x))
  {
    RemoveMarkersLeavesNoStar(x);
  }

  /** The options of a record are marker-free where the captured options'
      markers do not touch other '*' characters. */
  lemma ParseSegmentMarkerFree(seg: string, i: nat)
    requires ParseSegment(seg, i).Some?
    requires var o := Captured(seg, OptionBlock.FindOptions(seg).value);
             StarsOnlyInMarkers(o.a) && StarsOnlyInMarkers(o.b)
             && StarsOnlyInMarkers(o.c) && StarsOnlyInMarkers(o.d)
    ensures var o := ParseSegment(seg, i).value.options;
            !HasMarker(o.a) && !HasMarker(o.b) && !HasMarker(o.c) && !HasMarker(o.d)
  {
    var o := Captured(seg, OptionBlock.FindOptions(seg).value);
    ParseSegmentOptions(seg, i);
    CleanLeavesNoMarker(o.a);
    CleanLeavesNoMarker(o.b);
    CleanLeavesNoMarker(o.c);
    CleanLeavesNoMarker(o.d);
  }

  /** The result of the loop body for each index of segs: the record built for
      segment i, or None where it is skipped. */
  function Attempt(segs: seq<string>): (f: nat -> Option<Record>) {
    (i: nat) => if i < |segs| then ParseSegment(segs[i], i) else None
  }

  /** The result for an index of segs is the record of that segment. */
  lemma AttemptAt(segs: seq<string>, i: nat)
    requires i < |segs|
    ensures Attempt(segs)(i) == ParseSegment(segs[i], i)
  {
  }

  /** The records appended to the list in the first n rounds, in order: the
      present results among f(0), ..., f(n - 1). */
  function Collect(f: nat -> Option<Record>, n: nat): (r: seq<Record>) {
    if n == 0 then []
    else
      var done := Collect(f, n - 1);
      match f(n - 1)
      case None => done
      case Some(r) => done + [r]
  }

  /** One more round appends its result, if present, to what came before. */
  lemma CollectNext(f: nat -> Option<Record>, n: nat)
    ensures Collect(f, n + 1) == if f(n).None? then Collect(f, n) else Collect(f, n) + [f(n).value]
  {
  }

  /** The list is only ever appended to: what the first m rounds collected
      is a prefix of what any later round holds. */
  lemma {:induction false} CollectGrows(f: nat -> Option<Record>, m: nat, n: nat)
    requires m <= n
    ensures Collect(f, m) <= Collect(f, n)
    decreases n - m
  {
    if m < n {
      CollectGrows(f, m, n - 1);
    }
  }

  /** Result k, when present, carries id k + 1 (main.py:101). */
  predicate Numbered(f: nat -> Option<Record>, n: nat) {
    forall k :: 0 <= k < n && f(k).Some? ==> f(k).value.id == k + 1
  }

  lemma AttemptNumbered(segs: seq<string>)
    ensures Numbered(Attempt(segs), |segs|)
  {
  }

  /** The collected records: no more than the rounds, each the result its id
      points at, ids strictly increasing (skipped rounds leave gaps). */
  lemma {:induction false} CollectShape(f: nat -> Option<Record>, n: nat)
    requires Numbered(f, n)
    ensures var r := Collect(f, n);
            |r| <= n
            && (forall j :: 0 <= j < |r| ==> (1 <= r[j].id <= n && f(r[j].id - 1) == Some(r[j])))
            && (forall j :: 0 <= j < |r| - 1 ==> r[j].id < r[j + 1].id)
  {
    if n > 0 {
      CollectShape(f, n - 1);
    }
  }

  /** Every present result is collected, whatever came before it. */
  lemma {:induction false} CollectComplete(f: nat -> Option<Record>, n: nat, i: nat)
    requires Numbered(f, n) && i < n && f(i).Some?
    ensures exists j :: 0 <= j < |Collect(f, n)| && Collect(f, n)[j].id == i + 1
  {
    var r := Collect(f, n);
    if i < n - 1 {
      CollectComplete(f, n - 1, i);
      var j :| 0 <= j < |Collect(f, n - 1)| && Collect(f, n - 1)[j].id == i + 1;
      assert r[j] == Collect(f, n - 1)[j];
    } else {
      assert r[|r| - 1].id == i + 1;
    }
  }

  /** With no result missing, the ids are 1, 2, ..., n with no gap. */
  lemma {:induction false} CollectDense(f: nat -> Option<Record>, n: nat)
    requires Numbered(f, n)
    requires forall i :: 0 <= i < n ==> f(i).Some?
    ensures |Collect(f, n)| == n
    ensures forall j :: 0 <= j < n ==> Collect(f, n)[j].id == j + 1
  {
    if n > 0 {
      CollectDense(f, n - 1);
    }
  }

  /** A missing result followed by a present one leaves a gap in the ids. */
  lemma CollectGap(f: nat -> Option<Record>, n: nat, i: nat, j: nat)
    requires Numbered(f, n) && i < j < n && f(i).None? && f(j).Some?
    ensures !forall m :: 0 <= m < |Collect(f, n)| ==> Collect(f, n)[m].id == m + 1
  {
    var r := Collect(f, n);
    CollectComplete(f, n, j);
    CollectShape(f, n);
    var m :| 0 <= m < |r| && r[m].id == j + 1;
    if m == j {
      assert r[i].id != i + 1;
    }
  }

  /** The ids are 1, 2, ... with no gap when no missing result is followed by
      a present one: the skipped rounds, if any, are the last ones. */
  lemma {:induction false} CollectDenseUnlessGap(f: nat -> Option<Record>, n: nat)
    requires Numbered(f, n)
    requires forall i, j :: 0 <= i < j < n && f(i).None? ==> f(j).None?
    ensures forall m :: 0 <= m < |Collect(f, n)| ==> Collect(f, n)[m].id == m + 1
  {
    if n > 0 {
      if f(n - 1).None? {
        CollectDenseUnlessGap(f, n - 1);
      } else {
        CollectDense(f, n);
      }
    }
  }


  /** `quiz_data` after the loop (main.py:60-110): the records of all the
      numbered items of the reply. */
  function ParseQuiz(raw: string): (r: seq<Record>) {
    ParseItems(Segmenter.Segments(raw))
  }

  /** The records the loop appends for the items segs. */
  function ParseItems(segs: seq<string>): (r: seq<Record>) {
    Collect(Attempt(segs), |segs|)
  }

  /** There are no more records than numbered items; record j is the record of
      the item its id names (id = the item's index + 1); the ids strictly
      increase (main.py:67, 73-74, 101). */
  lemma ParseQuizShape(raw: string)
    ensures var segs := Segmenter.Segments(raw);
            var r := ParseQuiz(raw);
            |r| <= |segs|
            && (forall j :: 0 <= j < |r| ==>
                  1 <= r[j].id <= |segs| && ParseSegment(segs[r[j].id - 1], r[j].id - 1) == Some(r[j]))
            && (forall j :: 0 <= j < |r| - 1 ==> r[j].id < r[j + 1].id)
  {
    var segs := Segmenter.Segments(raw);
    AttemptShape(segs);
    assert ParseQuiz(raw) == ParseItems(segs);
  }

  /** The records collected from segs: no more than the segments, each the
      record of the segment its id names, ids strictly increasing. */
  lemma AttemptShape(segs: seq<string>)
    ensures var r := ParseItems(segs);
            |r| <= |segs|
            && (forall j :: 0 <= j < |r| ==>
                  1 <= r[j].id <= |segs| && ParseSegment(segs[r[j].id - 1], r[j].id - 1) == Some(r[j]))
            && (forall j :: 0 <= j < |r| - 1 ==> r[j].id < r[j + 1].id)
  {
    AttemptNumbered(segs);
    AttemptAll(segs);
    CollectShape(Attempt(segs), |segs|);
  }

  /** The result for each index of segs is the record of that segment. */
  lemma AttemptAll(segs: seq<string>)
    ensures forall i :: 0 <= i < |segs| ==> Attempt(segs)(i) == ParseSegment(segs[i], i)
  {
  }

  /** A record with id i + 1 comes from item i, which therefore gives one. */
  lemma RecordFromItem(raw: string, i: nat, j: nat)
    requires j < |ParseQuiz(raw)| && ParseQuiz(raw)[j].id == i + 1
    ensures i < |Segmenter.Segments(raw)| && ParseSegment(Segmenter.Segments(raw)[i], i).Some?
  {
    ParseQuizShape(raw);
  }

  /** An item that gives a record has it in the output. */
  lemma ItemHasRecord(raw: string, i: nat)
    requires i < |Segmenter.Segments(raw)| && ParseSegment(Segmenter.Segments(raw)[i], i).Some?
    ensures exists j :: 0 <= j < |ParseQuiz(raw)| && ParseQuiz(raw)[j].id == i + 1
  {
    var segs := Segmenter.Segments(raw);
    AttemptNumbered(segs);
    AttemptAt(segs, i);
    CollectComplete(Attempt(segs), |segs|, i);
    var j :| 0 <= j < |Collect(Attempt(segs), |segs|)| && Collect(Attempt(segs), |segs|)[j].id == i + 1;
    assert ParseQuiz(raw)[j].id == i + 1;
  }

  /** Item i has a record, with id i + 1, exactly when an a) b) c) d) block
      occurs in it, whatever the items before it held (main.py:70-74). */
  lemma ParseQuizComplete(raw: string, i: nat)
    requires i < |Segmenter.Segments(raw)|
    ensures (exists j :: 0 <= j < |ParseQuiz(raw)| && ParseQuiz(raw)[j].id == i + 1)
            <==> exists t :: OptionBlock.MatchesFrom(Segmenter.Segments(raw)[i], t, 0)
  {
    var segs := Segmenter.Segments(raw);
    ParseSegmentSkips(segs[i], i);
    if j :| 0 <= j < |ParseQuiz(raw)| && ParseQuiz(raw)[j].id == i + 1 {
      RecordFromItem(raw, i, j);
    }
    if ParseSegment(segs[i], i).Some? {
      ItemHasRecord(raw, i);
    }
  }

  /** Every segment with an option block gives a record. */
  lemma AllAttempted(segs: seq<string>)
    requires forall i :: 0 <= i < |segs| ==> OptionBlock.FindOptions(segs[i]).Some?
    ensures forall i :: 0 <= i < |segs| ==> Attempt(segs)(i).Some?
  {
    forall i | 0 <= i < |segs| ensures Attempt(segs)(i).Some? {
      AttemptAt(segs, i);
    }
  }

  /** When every item holds a block, the ids are 1, 2, ..., n with no gap. */
  lemma ParseQuizDense(raw: string)
    requires forall i :: 0 <= i < |Segmenter.Segments(raw)| ==>
               OptionBlock.FindOptions(Segmenter.Segments(raw)[i]).Some?
    ensures |ParseQuiz(raw)| == |Segmenter.Segments(raw)|
    ensures forall j :: 0 <= j < |ParseQuiz(raw)| ==> ParseQuiz(raw)[j].id == j + 1
  {
    var segs := Segmenter.Segments(raw);
    AttemptNumbered(segs);
    AllAttempted(segs);
    CollectDense(Attempt(segs), |segs|);
  }

  /** An item without an option block followed by one that gives a record
      leaves a gap in the ids. */
  lemma ParseQuizGap(raw: string, i: nat, j: nat)
    requires var segs := Segmenter.Segments(raw);
             i < j < |segs| && ParseSegment(segs[i], i).None? && ParseSegment(segs[j], j).Some?
    ensures !forall m :: 0 <= m < |ParseQuiz(raw)| ==> ParseQuiz(raw)[m].id == m + 1
  {
    var segs := Segmenter.Segments(raw);
    AttemptNumbered(segs);
    AttemptAt(segs, i);
    AttemptAt(segs, j);
    CollectGap(Attempt(segs), |segs|, i, j);
    assert ParseQuiz(raw) == Collect(Attempt(segs), |segs|);
  }

  /** The results for segs have no gap when the segments' records have none. */
  lemma AttemptNoGap(segs: seq<string>)
    requires forall i, j :: 0 <= i < j < |segs| && ParseSegment(segs[i], i).None? ==> ParseSegment(segs[j], j).None?
    ensures forall i, j :: 0 <= i < j < |segs| && Attempt(segs)(i).None? ==> Attempt(segs)(j).None?
  {
    forall i, j | 0 <= i < j < |segs| && Attempt(segs)(i).None? ensures Attempt(segs)(j).None? {
      AttemptAt(segs, i);
      AttemptAt(segs, j);
    }
  }

  /** When the skipped items, if any, are the last ones, the ids have no gap. */
  lemma ParseQuizNoGap(raw: string)
    requires var segs := Segmenter.Segments(raw);
             forall i, j :: 0 <= i < j < |segs| && ParseSegment(segs[i], i).None? ==> ParseSegment(segs[j], j).None?
    ensures forall m :: 0 <= m < |ParseQuiz(raw)| ==> ParseQuiz(raw)[m].id == m + 1
  {
    var segs := Segmenter.Segments(raw);
    var f := Attempt(segs);
    AttemptNumbered(segs);
    AttemptNoGap(segs);
    CollectDenseUnlessGap(f, |segs|);
    assert ParseQuiz(raw) == Collect(f, |segs|);
  }

  /** The ids are 1, 2, ..., |records| with no gap exactly when no item
      without an option block is followed by one that gives a record
      (main.py:67, 73-74, 101). */
  lemma ParseQuizDenseIff(raw: string)
    ensures var segs := Segmenter.Segments(raw);
            var r := ParseQuiz(raw);
            (forall m :: 0 <= m < |r| ==> r[m].id == m + 1)
            <==> !exists i, j :: 0 <= i < j < |segs| && ParseSegment(segs[i], i).None? && ParseSegment(segs[j], j).Some?
  {
    var segs := Segmenter.Segments(raw);
    if i, j :| 0 <= i < j < |segs| && ParseSegment(segs[i], i).None? && ParseSegment(segs[j], j).Some? {
      ParseQuizGap(raw, i, j);
    } else {
      ParseQuizNoGap(raw);
    }
  }

  /** Every record of the reply has trimmed texts and a one-line option d, and
      its answer is the letter of the first marker of its item, None when the
      item holds no marker. */
  lemma ParseQuizRecord(raw: string, j: nat)
    requires j < |ParseQuiz(raw)|
    ensures 1 <= ParseQuiz(raw)[j].id <= |Segmenter.Segments(raw)|
    ensures var r := ParseQuiz(raw)[j];
            Trimmed(r.question) && ChoicesTrimmed(r.options) && '\n' !in r.options.d
    ensures var r := ParseQuiz(raw)[j];
            var seg := Segmenter.Segments(raw)[r.id - 1];
            (r.correctAnswer.None? <==> !HasMarker(seg))
            && (r.correctAnswer.Some? ==>
                  exists k :: MarkerAt(seg, k) && seg[k + 3] == r.correctAnswer.value
                              && forall m :: 0 <= m < k ==> !MarkerAt(seg, m))
  {
    ParseQuizShape(raw);
    var r := ParseQuiz(raw)[j];
    var segs := Segmenter.Segments(raw);
    ParseSegmentTrimmed(segs[r.id - 1], r.id - 1);
    ParseSegmentAnswer(segs[r.id - 1], r.id - 1);
  }

  /** The body of the loop of main.py:67-110 for segment questionText at index
      i, as written: None where the loop skips the segment, and otherwise the
      record it appends after reassigning the question and the options step by
      step. */
  method BuildRecord(questionText: string, i: nat) returns (record: Option<Record>)
    ensures record == ParseSegment(questionText, i)
  {
    var optionsMatch := OptionBlock.FindOptions(questionText);
    if optionsMatch.None? {
      return None;
    }
    var t := optionsMatch.value;
    var captured := Captured(questionText, t);
    var optionA, optionB, optionC, optionD := captured.a, captured.b, captured.c, captured.d;
    var questionPart := Trim(questionText[..t.cuts[0].nl]);
    var ordinal := Decimal(i + 1) + ".";
    if StartsWith(questionPart, ordinal) {
      questionPart := questionPart[|ordinal|..];
    }
    questionPart := Trim(questionPart);
    var correctAnswer: Option<Letter> := None;
    var correctMatch := FindMarker(questionText);
    if correctMatch.Some? {
      correctAnswer := correctMatch;
      optionA := CleanOption(optionA);
      optionB := CleanOption(optionB);
      optionC := CleanOption(optionC);
      optionD := CleanOption(optionD);
    }
    record := Some(Record(i + 1, questionPart, Choices(optionA, optionB, optionC, optionD), correctAnswer));
  }

  /** The loop of main.py:60-110: it walks the segments with their index,
      skips a segment without option block and appends the record of every
      other one. */
  method BuildQuizData(raw: string) returns (quizData: seq<Record>)
    ensures quizData == ParseQuiz(raw)
  {
    quizData := [];
    var questions := Segmenter.Segments(raw);
    for i := 0 to |questions|
      invariant quizData == Collect(Attempt(questions), i)
    {
      var record := BuildRecord(questions[i], i);
      AttemptAt(questions, i);
      CollectNext(Attempt(questions), i);
      if record.None? {
        continue;
      }
      quizData := quizData + [record.value];
    }
  }
}
