/** Cutting the model's reply into numbered items: the `re.findall` of
    `(?:^|\n)(\d+\.\s+.*?)(?=\n\d+\.\s+|\Z)` with DOTALL (main.py:64-65),
    written out as a scanner over positions of the reply. */
module Segmenter {
  import opened Wrappers
  import opened Text

  /** `\d+\.\s+` matches s at k: digits in s[k..d], the '.' at d, whitespace in s[d+1..e]. */
  predicate IsHead(s: string, k: nat, d: nat, e: nat) {
    k < d && d + 1 < e <= |s| && AllDigitIn(s, k, d) && s[d] == '.' && AllSpaceIn(s, d + 1, e)
  }

  /** Where the match of `\d+\.\s+` at k ends, its `\s+` taking all the whitespace
      there is; None when the pattern does not match at k. */
  function HeadEnd(s: string, k: nat): (r: Option<nat>)
    requires k <= |s|
    ensures r.Some? ==> k + 3 <= r.value <= |s|
  {
    var d := DigitRunEnd(s, k);
    if k < d && d + 1 < |s| && s[d] == '.' && IsSpace(s[d + 1]) then
      Some(SpaceRunEnd(s, d + 1))
    else
      None
  }

  /** What HeadEnd finds is a match of `\d+\.\s+` at k, and its `\s+` could not go on. */
  lemma HeadEndSound(s: string, k: nat)
    requires k <= |s| && HeadEnd(s, k).Some?
    ensures IsHead(s, k, DigitRunEnd(s, k), HeadEnd(s, k).value)
    ensures HeadEnd(s, k).value == |s| || !IsSpace(s[HeadEnd(s, k).value])
  {
    DigitRunEndIsRun(s, k);
    SpaceRunEndIsRun(s, DigitRunEnd(s, k) + 1);
  }

  /** `\d+\.\s+` does not match at k exactly when HeadEnd says so: the digit run
      is forced to be the longest one, since '.' is not a digit. */
  lemma HeadEndComplete(s: string, k: nat, d: nat, e: nat)
    requires k <= |s| && IsHead(s, k, d, e)
    ensures HeadEnd(s, k).Some?
  {
    DigitRunEndIsRun(s, k);
    assert DigitRunEnd(s, k) == d;
  }

  /** A numbered item may start at g: the head pattern matches there, at the very
      beginning of the reply (`^`) or right after a newline. */
  predicate ItemStart(s: string, g: nat) {
    g <= |s| && HeadEnd(s, g).Some? && (g == 0 || s[g - 1] == '\n')
  }

  /** The lookahead `\n\d+\.\s+` holds at q: a newline that begins the next item. */
  predicate Boundary(s: string, q: nat) {
    q < |s| && ItemStart(s, q + 1)
  }

  /** The item starts a scan from p can find: the start of the reply when p is 0,
      otherwise positions after a newline at or beyond p. */
  predicate Scanned(p: nat, g: nat) {
    (p == 0 && g == 0) || p < g
  }

  /** The search of `findall` from p for its next match: where the first item
      at or after p starts. */
  function NextStart(s: string, p: nat): (r: Option<nat>)
    requires p <= |s|
    ensures r.Some? ==> Scanned(p, r.value) && ItemStart(s, r.value)
    decreases |s| - p
  {
    if p == 0 && HeadEnd(s, 0).Some? then Some(0)
    else if p < |s| && s[p] == '\n' && HeadEnd(s, p + 1).Some? then Some(p + 1)
    else if p < |s| then NextStart(s, p + 1)
    else None
  }

  /** NextStart misses no item: none starts in the scanned range before what it
      finds, nor anywhere in that range when it finds nothing. */
  lemma {:induction false} NextStartIsFirst(s: string, p: nat)
    requires p <= |s|
    ensures NextStart(s, p).Some? ==>
              forall g: nat :: Scanned(p, g) && g < NextStart(s, p).value ==> !ItemStart(s, g)
    ensures NextStart(s, p).None? ==> forall g: nat :: Scanned(p, g) ==> !ItemStart(s, g)
    decreases |s| - p
  {
    if !(p == 0 && HeadEnd(s, 0).Some?) && !(p < |s| && s[p] == '\n' && HeadEnd(s, p + 1).Some?) && p < |s| {
      NextStartIsFirst(s, p + 1);
    }
  }

  /** Where the lazy `.*?` of an item whose head ends at e stops: the first
      boundary at or after e, or the end of the reply (`\Z`). */
  function SegmentEnd(s: string, e: nat): (q: nat)
    requires e <= |s|
    ensures e <= q <= |s|
    ensures q == |s| || Boundary(s, q)
    ensures forall q' :: e <= q' < q ==> !Boundary(s, q')
    decreases |s| - e
  {
    if e == |s| || Boundary(s, e) then e else SegmentEnd(s, e + 1)
  }

  /** A scan that resumes at the end of an item finds the next item right after
      the boundary newline, and nothing when the item ran to the end. */
  lemma NextStartAfter(s: string, q: nat)
    requires q <= |s| && (q == |s| || Boundary(s, q)) && 0 < q
    ensures q < |s| ==> NextStart(s, q) == Some(q + 1)
    ensures q == |s| ==> NextStart(s, q) == None
  {
  }

  /** The half-open range of one numbered item in the reply. */
  datatype Span = Span(start: nat, end: nat)

  /** sp is one item of s: it starts where an item may start, and it runs past
      its head up to the first boundary after the head, or to the end of s. */
  predicate IsItem(s: string, sp: Span) {
    sp.start < sp.end <= |s| && ItemStart(s, sp.start)
    && HeadEnd(s, sp.start).value <= sp.end
    && (sp.end == |s| || Boundary(s, sp.end))
    && forall q :: HeadEnd(s, sp.start).value <= q < sp.end ==> !Boundary(s, q)
  }

  /** The items `findall` reports when it resumes its search at p. */
  function SpansFrom(s: string, p: nat): (r: seq<Span>)
    requires p <= |s|
    ensures |r| == 0 <==> NextStart(s, p).None?
    ensures |r| > 0 ==> r[0].start == NextStart(s, p).value
    decreases |s| - p
  {
    match NextStart(s, p)
    case None => []
    case Some(g) =>
      var q := SegmentEnd(s, HeadEnd(s, g).value);
      [Span(g, q)] + SpansFrom(s, q)
  }

  /** The items a scan from p reports lie in order after p, each one ending
      where the next one's newline stands, the last one at the end of s. */
  lemma {:induction false} SpansFromChain(s: string, p: nat)
    requires p <= |s|
    ensures var r := SpansFrom(s, p);
            (forall i :: 0 <= i < |r| ==> p <= r[i].start < r[i].end <= |s|)
            && (forall i :: 0 <= i < |r| - 1 ==> r[i].end + 1 == r[i + 1].start)
            && (|r| > 0 ==> r[|r| - 1].end == |s|)
    decreases |s| - p
  {
    if NextStart(s, p).Some? {
      var g := NextStart(s, p).value;
      var q := SegmentEnd(s, HeadEnd(s, g).value);
      var rest := SpansFrom(s, q);
      SpansFromChain(s, q);
      NextStartAfter(s, q);
      var r := [Span(g, q)] + rest;
      assert SpansFrom(s, p) == r;
      assert forall i :: 0 < i < |r| ==> r[i] == rest[i - 1];
    }
  }

  /** Every span a scan from p reports is a whole item. */
  lemma {:induction false} SpansFromAreItems(s: string, p: nat, i: nat)
    requires p <= |s| && i < |SpansFrom(s, p)|
    ensures IsItem(s, SpansFrom(s, p)[i])
    decreases |s| - p
  {
    var g := NextStart(s, p).value;
    var q := SegmentEnd(s, HeadEnd(s, g).value);
    NextStartAfter(s, q);
    assert SpansFrom(s, p) == [Span(g, q)] + SpansFrom(s, q);
    if i > 0 {
      SpansFromAreItems(s, q, i - 1);
    }
  }

  /** The items of the whole reply, in document order. */
  function Spans(s: string): (r: seq<Span>)
    ensures forall i :: 0 <= i < |r| ==> r[i].start < r[i].end <= |s|
    ensures forall i :: 0 <= i < |r| - 1 ==> r[i].end + 1 == r[i + 1].start
    ensures |r| > 0 ==> r[|r| - 1].end == |s|
  {
    SpansFromChain(s, 0);
    SpansFrom(s, 0)
  }

  /** The text before the first item, the preamble, holds no item start; a
      reply without items holds none at all. */
  lemma PreambleDropped(s: string)
    ensures |Spans(s)| > 0 ==> forall g: nat :: g < Spans(s)[0].start ==> !ItemStart(s, g)
    ensures |Spans(s)| == 0 ==> forall g: nat :: !ItemStart(s, g)
  {
    NextStartIsFirst(s, 0);
    assert forall g: nat :: Scanned(0, g);
  }

  /** The spans of the reply are items: each starts where the head pattern matches
      at the beginning of the reply or of a line, and runs to the first boundary
      after its head, or to the end of the reply. */
  lemma SpansAreItems(s: string, i: nat)
    requires i < |Spans(s)|
    ensures IsItem(s, Spans(s)[i])
  {
    SpansFromAreItems(s, 0, i);
  }

  /** The text of each span. */
  function Slices(s: string, sp: seq<Span>): (r: seq<string>)
    requires forall i :: 0 <= i < |sp| ==> sp[i].start <= sp[i].end <= |s|
    ensures |r| == |sp|
    ensures forall i :: 0 <= i < |sp| ==> r[i] == s[sp[i].start..sp[i].end]
  {
    if sp == [] then [] else [s[sp[0].start..sp[0].end]] + Slices(s, sp[1..])
  }

  /** `questions` at main.py:65: the text of every numbered item of the reply. */
  function Segments(s: string): (r: seq<string>)
    ensures |r| == |Spans(s)|
  {
    Slices(s, Spans(s))
  }

  /** The lines joined back together with newlines (`"\n".join(xs)`). */
  function JoinLines(xs: seq<string>): (r: string) {
    if |xs| == 0 then [] else if |xs| == 1 then xs[0] else xs[0] + "\n" + JoinLines(xs[1..])
  }

  /** Joining a first line onto at least one more puts a newline between them. */
  lemma JoinLinesCons(x: string, ys: seq<string>)
    requires |ys| > 0
    ensures JoinLines([x] + ys) == x + "\n" + JoinLines(ys)
  {
    assert ([x] + ys)[1..] == ys;
  }

  /** s from g on is s[g..q], the newline at q and the rest. */
  lemma SplitAtNewline(s: string, g: nat, q: nat)
    requires g <= q < |s| && s[q] == '\n'
    ensures s[g..] == s[g..q] + "\n" + s[q + 1..]
  {
  }

  /** A line joined to what follows its newline gives s from the line's start. */
  lemma JoinAtNewline(s: string, g: nat, q: nat, ys: seq<string>)
    requires g <= q < |s| && s[q] == '\n' && |ys| > 0 && JoinLines(ys) == s[q + 1..]
    ensures JoinLines([s[g..q]] + ys) == s[g..]
  {
    JoinLinesCons(s[g..q], ys);
    SplitAtNewline(s, g, q);
  }

  /** Spans laid end to end, each but the last ending at the newline just
      before the next one begins, and the last ending at the end of s. */
  ghost predicate Chained(s: string, r: seq<Span>) {
    |r| > 0 && r[|r| - 1].end == |s|
    && (forall i :: 0 <= i < |r| ==> r[i].start <= r[i].end <= |s|)
    && (forall i :: 0 <= i < |r| - 1 ==> r[i].end < |s| && s[r[i].end] == '\n')
    && (forall i :: 0 <= i < |r| - 1 ==> r[i].end + 1 == r[i + 1].start)
  }

  /** Dropping the first of several chained spans leaves them chained. */
  lemma ChainedTail(s: string, r: seq<Span>)
    requires Chained(s, r) && |r| > 1
    ensures Chained(s, r[1..])
  {
    var rest := r[1..];
    forall i | 0 <= i < |rest| - 1
      ensures rest[i].end + 1 == rest[i + 1].start
    {
      assert rest[i] == r[i + 1] && rest[i + 1] == r[i + 2];
    }
  }

  /** The slices of a non-empty span list: the first span's text, then the rest. */
  lemma SlicesHead(s: string, r: seq<Span>)
    requires |r| > 0 && forall i :: 0 <= i < |r| ==> r[i].start <= r[i].end <= |s|
    ensures Slices(s, r) == [s[r[0].start..r[0].end]] + Slices(s, r[1..])
  {
  }

  /** The texts of chained spans, joined with newlines, are s from the first
      span on. */
  lemma {:induction false} JoinChained(s: string, r: seq<Span>)
    requires Chained(s, r)
    ensures JoinLines(Slices(s, r)) == s[r[0].start..]
    decreases |r|
  {
    var g, q := r[0].start, r[0].end;
    if |r| == 1 {
      assert Slices(s, r) == [s[g..q]];
    } else {
      ChainedTail(s, r);
      JoinChained(s, r[1..]);
      SlicesHead(s, r);
      JoinAtNewline(s, g, q, Slices(s, r[1..]));
    }
  }

  /** The segments, glued back with the newlines `findall` consumed between them,
      give back the reply from the first numbered item on: nothing after the
      preamble is lost, duplicated or reordered. */
  lemma SegmentsCoverReply(s: string)
    requires |Spans(s)| > 0
    ensures JoinLines(Segments(s)) == s[Spans(s)[0].start..]
  {
    var r := Spans(s);
    forall i | 0 <= i < |r| - 1
      ensures r[i].end < |s| && s[r[i].end] == '\n'
    {
      assert r[i].end + 1 == r[i + 1].start <= |s|;
      SpansAreItems(s, i);
    }
    JoinChained(s, r);
  }

  /** A head that ends inside s[lo..hi] is also a head of that slice. */
  lemma HeadInSlice(s: string, lo: nat, hi: nat, d: nat, e: nat)
    requires lo <= hi <= |s| && IsHead(s, lo, d, e) && e <= hi
    ensures IsHead(s[lo..hi], 0, d - lo, e - lo)
  {
    var t := s[lo..hi];
    forall j | 0 <= j < d - lo ensures IsDigit(t[j]) {
      assert t[j] == s[lo + j];
    }
    forall j | d - lo + 1 <= j < e - lo ensures IsSpace(t[j]) {
      assert t[j] == s[lo + j];
    }
  }

  /** The text of an item begins with a number, a '.' and whitespace. */
  lemma ItemBeginsWithNumber(s: string, sp: Span)
    requires IsItem(s, sp)
    ensures HeadEnd(s[sp.start..sp.end], 0).Some?
  {
    var d := DigitRunEnd(s, sp.start);
    var e := HeadEnd(s, sp.start).value;
    HeadEndSound(s, sp.start);
    HeadInSlice(s, sp.start, sp.end, d, e);
    HeadEndComplete(s[sp.start..sp.end], 0, d - sp.start, e - sp.start);
  }

  /** Every segment begins with a number, a '.' and whitespace. */
  lemma SegmentsBeginWithNumber(s: string, i: nat)
    requires i < |Segments(s)|
    ensures HeadEnd(Segments(s)[i], 0).Some?
  {
    SpansAreItems(s, i);
    ItemBeginsWithNumber(s, Spans(s)[i]);
  }

  /** A newline whose next line does not begin with a digit is no boundary. */
  lemma NoBoundaryBeforeText(s: string, q: nat)
    requires q + 1 < |s| && !IsDigit(s[q + 1])
    ensures !Boundary(s, q)
  {
  }

  /** A reply that begins with a head and holds no boundary after it is one
      item: its only segment is the whole reply. */
  lemma SingleItem(s: string)
    requires HeadEnd(s, 0).Some?
    requires forall q :: HeadEnd(s, 0).value <= q < |s| ==> !Boundary(s, q)
    ensures Segments(s) == [s]
  {
    var e := HeadEnd(s, 0).value;
    assert NextStart(s, 0) == Some(0);
    assert SegmentEnd(s, e) == |s|;
    assert NextStart(s, |s|) == None;
    assert SpansFrom(s, |s|) == [];
    assert SpansFrom(s, 0) == [Span(0, |s|)] + [];
    var r := Spans(s);
    assert r == [Span(0, |s|)];
    assert Slices(s, r) == [s[0..|s|]] + Slices(s, r[1..]);
    assert s[0..|s|] == s;
  }

  /** The `\s+` of a head also takes newlines, and the search for the end of
      an item starts only after it. A newline inside that run is therefore no
      end, even when a numbered line follows it: "1. \n2. x" is one item. */
  lemma HeadSwallowsNewline()
    ensures Boundary("1. \n2. x", 3)
    ensures Segments("1. \n2. x") == ["1. \n2. x"]
  {
    var s := "1. \n2. x";
    assert DigitRunEnd(s, 0) == 1;
    assert SpaceRunEnd(s, 2) == 4;
    assert HeadEnd(s, 0) == Some(4);
    assert DigitRunEnd(s, 4) == 5;
    assert HeadEnd(s, 4).Some?;
    forall q | 4 <= q < |s| ensures !Boundary(s, q) {
      assert s[q] != '\n';
    }
    SingleItem(s);
  }
}
