/** The correct-answer marker `***x***` with x one of a, b, c, d: finding the
    first one with `re.search` (main.py:87-91) and deleting every one that a
    left-to-right `re.sub` meets (main.py:93-97). */
module Marker {
  import opened Wrappers

  /** An option label, the only letters a marker can carry. */
  type Letter = c: char | 'a' <= c <= 'd' witness 'a'

  /** `\*\*\*([a-d])\*\*\*` matches s at k. */
  predicate MarkerAt(s: string, k: int) {
    0 <= k && k + 7 <= |s|
    && s[k] == '*' && s[k + 1] == '*' && s[k + 2] == '*'
    && 'a' <= s[k + 3] <= 'd'
    && s[k + 4] == '*' && s[k + 5] == '*' && s[k + 6] == '*'
  }

  /** A marker occurs somewhere in s. */
  ghost predicate HasMarker(s: string) {
    exists k :: MarkerAt(s, k)
  }

  /** Where the first marker at or after k starts. */
  function FirstMarkerFrom(s: string, k: nat): (r: Option<nat>)
    requires k <= |s|
    ensures r.Some? ==> k <= r.value && MarkerAt(s, r.value)
    ensures r.Some? ==> forall j :: k <= j < r.value ==> !MarkerAt(s, j)
    ensures r.None? ==> forall j :: k <= j ==> !MarkerAt(s, j)
    decreases |s| - k
  {
    if k == |s| then None
    else if MarkerAt(s, k) then Some(k)
    else FirstMarkerFrom(s, k + 1)
  }

  /** `correct_answer` at main.py:87-91: the letter of the first marker in s,
      None when s holds no marker. */
  function FindMarker(s: string): (r: Option<Letter>)
    ensures r.None? <==> !HasMarker(s)
    ensures r.Some? ==> exists k :: MarkerAt(s, k) && s[k + 3] == r.value
                                    && forall j :: 0 <= j < k ==> !MarkerAt(s, j)
  {
    match FirstMarkerFrom(s, 0)
    case None => None
    case Some(k) => Some(s[k + 3])
  }

  /** A marker at p with no marker starting before it gives the answer. */
  lemma FindMarkerAt(s: string, p: nat)
    requires MarkerAt(s, p) && forall j :: 0 <= j < p ==> !MarkerAt(s, j)
    ensures FindMarker(s) == Some(s[p + 3])
  {
    var r := FindMarker(s);
    assert r.Some?;
    var k :| MarkerAt(s, k) && s[k + 3] == r.value && forall j :: 0 <= j < k ==> !MarkerAt(s, j);
    assert k <= p;
  }

  /** `re.sub(correct_pattern, '', s)`: one left-to-right pass that deletes each
      marker it meets and resumes after it; what the deletions join up is not
      looked at again. */
  function RemoveMarkers(s: string): (r: string)
    ensures multiset(r) <= multiset(s)
    decreases |s|
  {
    if MarkerAt(s, 0) then
      assert s == s[..7] + s[7..];
      RemoveMarkers(s[7..])
    else if s == [] then
      []
    else
      assert s == [s[0]] + s[1..];
      [s[0]] + RemoveMarkers(s[1..])
  }

  /** Text without markers comes out of the pass unchanged (so cleaning text
      that has already been cleaned, and has no marker left, changes nothing). */
  lemma {:induction false} RemoveMarkersNoMarker(s: string)
    requires !HasMarker(s)
    ensures RemoveMarkers(s) == s
    decreases |s|
  {
    if s != [] {
      assert !MarkerAt(s, 0);
      assert !HasMarker(s[1..]) by {
        forall k | MarkerAt(s[1..], k) ensures false {
          assert MarkerAt(s, k + 1);
        }
      }
      RemoveMarkersNoMarker(s[1..]);
    }
  }

  /** A piece of a text without markers has no marker either. */
  lemma NoMarkerInSlice(s: string, lo: nat, hi: nat)
    requires lo <= hi <= |s| && !HasMarker(s)
    ensures !HasMarker(s[lo..hi])
  {
    forall k | MarkerAt(s[lo..hi], k) ensures MarkerAt(s, lo + k) {
    }
  }

  /** The '*' at p belongs to a marker occurrence of s. */
  predicate InMarker(s: string, p: int) {
    MarkerAt(s, p) || MarkerAt(s, p - 1) || MarkerAt(s, p - 2) || MarkerAt(s, p - 3)
    || MarkerAt(s, p - 4) || MarkerAt(s, p - 5) || MarkerAt(s, p - 6)
  }

  /** Every '*' of s is part of a marker, and no two markers of s overlap: the
      markers do not touch other '*' characters. */
  ghost predicate StarsOnlyInMarkers(s: string) {
    (forall p :: 0 <= p < |s| && s[p] == '*' ==> InMarker(s, p))
    && (forall j, k :: MarkerAt(s, j) && MarkerAt(s, k) && j < k ==> j + 7 <= k)
  }

  /** Past a marker at the front, the rest still has its '*' only in markers. */
  lemma StarsAfterMarker(s: string)
    requires StarsOnlyInMarkers(s) && MarkerAt(s, 0)
    ensures StarsOnlyInMarkers(s[7..])
  {
    var t := s[7..];
    forall p | 0 <= p < |t| && t[p] == '*' ensures InMarker(t, p) {
      assert InMarker(s, p + 7);
      assert MarkerAt(s, p + 7) ==> MarkerAt(t, p);
      assert MarkerAt(s, p + 6) ==> MarkerAt(t, p - 1);
      assert MarkerAt(s, p + 5) ==> MarkerAt(t, p - 2);
      assert MarkerAt(s, p + 4) ==> MarkerAt(t, p - 3);
      assert MarkerAt(s, p + 3) ==> MarkerAt(t, p - 4);
      assert MarkerAt(s, p + 2) ==> MarkerAt(t, p - 5);
      assert MarkerAt(s, p + 1) ==> MarkerAt(t, p - 6);
    }
    forall j, k | MarkerAt(t, j) && MarkerAt(t, k) && j < k ensures j + 7 <= k {
      assert MarkerAt(s, j + 7) && MarkerAt(s, k + 7);
    }
  }

  /** Where no marker starts, the first character is not a '*', and the rest
      still has its '*' only in markers. */
  lemma StarsAfterPlain(s: string)
    requires StarsOnlyInMarkers(s) && s != [] && !MarkerAt(s, 0)
    ensures s[0] != '*' && StarsOnlyInMarkers(s[1..])
  {
    var t := s[1..];
    forall p | 0 <= p < |t| && t[p] == '*' ensures InMarker(t, p) {
      assert InMarker(s, p + 1);
      assert MarkerAt(s, p + 1) ==> MarkerAt(t, p);
      assert MarkerAt(s, p) ==> MarkerAt(t, p - 1);
      assert MarkerAt(s, p - 1) ==> MarkerAt(t, p - 2);
      assert MarkerAt(s, p - 2) ==> MarkerAt(t, p - 3);
      assert MarkerAt(s, p - 3) ==> MarkerAt(t, p - 4);
      assert MarkerAt(s, p - 4) ==> MarkerAt(t, p - 5);
      assert MarkerAt(s, p - 5) ==> MarkerAt(t, p - 6);
    }
    forall j, k | MarkerAt(t, j) && MarkerAt(t, k) && j < k ensures j + 7 <= k {
      assert MarkerAt(s, j + 1) && MarkerAt(s, k + 1);
    }
  }

  /** Text without a '*' holds no marker. */
  lemma NoStarNoMarker(r: string)
    requires '*' !in r
    ensures !HasMarker(r)
  {
    forall k | 0 <= k < |r| ensures !MarkerAt(r, k) {
      assert r[k] in r;
    }
  }

  /** When the markers do not touch other '*' characters, the pass leaves no '*'
      behind, so no marker either. */
  lemma {:induction false} RemoveMarkersLeavesNoStar(s: string)
    requires StarsOnlyInMarkers(s)
    ensures '*' !in RemoveMarkers(s)
    ensures !HasMarker(RemoveMarkers(s))
    decreases |s|
  {
    if MarkerAt(s, 0) {
      StarsAfterMarker(s);
      RemoveMarkersLeavesNoStar(s[7..]);
      RemoveMarkersSkip(s);
    } else if s != [] {
      StarsAfterPlain(s);
      RemoveMarkersLeavesNoStar(s[1..]);
      RemoveMarkersKeep(s);
    }
    NoStarNoMarker(RemoveMarkers(s));
  }

  /** One step of the pass at a marker. */
  lemma RemoveMarkersSkip(s: string)
    requires MarkerAt(s, 0)
    ensures RemoveMarkers(s) == RemoveMarkers(s[7..])
  {
  }

  /** One step of the pass where no marker starts. */
  lemma RemoveMarkersKeep(s: string)
    requires s != [] && !MarkerAt(s, 0)
    ensures RemoveMarkers(s) == [s[0]] + RemoveMarkers(s[1..])
  {
  }

  /** The marker at the front of t is deleted and the rest is left alone. */
  lemma RemoveMarkersFrontMarker(t: string)
    requires t == "***a****b***"
    ensures RemoveMarkers(t) == "*b***"
  {
    assert MarkerAt(t, 0);
    assert t[7..] == "*b***";
    RemoveMarkersSkip(t);
    RemoveMarkersNoMarker(t[7..]);
  }

  /** A '*' in front of that marker is kept. */
  lemma RemoveMarkersStarThenMarker(u: string)
    requires u == "****a****b***"
    ensures RemoveMarkers(u) == "**b***"
  {
    assert [u[0]] + "*b***" == "**b***";
    assert u[1..] == "***a****b***";
    assert !MarkerAt(u, 0);
    RemoveMarkersFrontMarker(u[1..]);
    RemoveMarkersKeep(u);
  }

  /** The pass can join pieces into a new marker: the two '*' in front of the
      marker "***a***" and the "*b***" behind it become "***b***". */
  lemma RemoveMarkersCanLeaveMarker(s: string)
    requires s == "*****a****b***"
    ensures RemoveMarkers(s) == "***b***"
    ensures HasMarker(RemoveMarkers(s))
  {
    assert [s[0]] + "**b***" == "***b***";
    assert MarkerAt("***b***", 0);
    assert s[1..] == "****a****b***";
    assert !MarkerAt(s, 0);
    RemoveMarkersStarThenMarker(s[1..]);
    RemoveMarkersKeep(s);
  }
}
