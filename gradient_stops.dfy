/** Where the gradient's colour and alpha keys fall in mesh space: the stop
    lines that FindStops hands to the triangle splitter. */
module GradientStops {
  import opened UIMesh
  import opened GradientMath

  datatype GradientColorKey = GradientColorKey(color: Color, time: real)
  datatype GradientAlphaKey = GradientAlphaKey(alpha: real, time: real)

  /** The key frames of a colour ramp; evaluating the ramp is engine code and
      is not part of this datatype. */
  datatype Gradient = Gradient(colorKeys: seq<GradientColorKey>, alphaKeys: seq<GradientAlphaKey>)

  function ColorTimes(g: Gradient): (r: seq<real>)
    ensures |r| == |g.colorKeys|
    ensures forall k :: 0 <= k < |r| ==> r[k] == g.colorKeys[k].time
  {
    seq(|g.colorKeys|, k requires 0 <= k < |g.colorKeys| => g.colorKeys[k].time)
  }

  function AlphaTimes(g: Gradient): (r: seq<real>)
    ensures |r| == |g.alphaKeys|
    ensures forall k :: 0 <= k < |r| ==> r[k] == g.alphaKeys[k].time
  {
    seq(|g.alphaKeys|, k requires 0 <= k < |g.alphaKeys| => g.alphaKeys[k].time)
  }

  ghost predicate SortedAsc(s: seq<real>) {
    forall i, j :: 0 <= i < j < |s| ==> s[i] <= s[j]
  }

  // ---------------------------------------------------------------------
  // The visible window of key times
  // ---------------------------------------------------------------------

  /** A key time's distance past the window start, magnified by the zoom. */
  function KeyPosition(time: real, lo: real, zoom: real): real {
    (time - lo) * zoom
  }

  /** Scans the key times in order: the scan ends at the first time at or
      past `hi`, and each earlier time strictly after `lo` contributes
      (time - lo) * zoom. */
  function Window(times: seq<real>, lo: real, hi: real, zoom: real): seq<real>
    decreases |times|
  {
    if times == [] || times[0] >= hi then []
    else (if times[0] > lo then [KeyPosition(times[0], lo, zoom)] else []) + Window(times[1..], lo, hi, zoom)
  }

  lemma {:induction false} WindowLength(times: seq<real>, lo: real, hi: real, zoom: real)
    ensures |Window(times, lo, hi, zoom)| <= |times|
    decreases |times|
  {
    if times != [] && times[0] < hi {
      WindowLength(times[1..], lo, hi, zoom);
    }
  }

  /** Only key times strictly inside (lo, hi) contribute. */
  lemma {:induction false} WindowSound(times: seq<real>, lo: real, hi: real, zoom: real, y: real)
    requires y in Window(times, lo, hi, zoom)
    ensures exists k :: 0 <= k < |times| && lo < times[k] < hi && y == KeyPosition(times[k], lo, zoom)
    decreases |times|
  {
    if times[0] > lo && y == KeyPosition(times[0], lo, zoom) {
      assert 0 < |times| && lo < times[0] < hi;
    } else {
      WindowSound(times[1..], lo, hi, zoom, y);
      var k :| 0 <= k < |times[1..]| && lo < times[1..][k] < hi && y == KeyPosition(times[1..][k], lo, zoom);
      assert times[1..][k] == times[k + 1];
    }
  }

  /** For ascending key times (as the engine keeps them) every time strictly
      inside (lo, hi) contributes. */
  lemma {:induction false} WindowComplete(times: seq<real>, lo: real, hi: real, zoom: real, k: nat)
    requires SortedAsc(times)
    requires k < |times| && lo < times[k] < hi
    ensures KeyPosition(times[k], lo, zoom) in Window(times, lo, hi, zoom)
    decreases |times|
  {
    assert times[0] <= times[k];
    var head := if times[0] > lo then [KeyPosition(times[0], lo, zoom)] else [];
    assert Window(times, lo, hi, zoom) == head + Window(times[1..], lo, hi, zoom);
    if k > 0 {
      assert times[1..][k - 1] == times[k];
      assert SortedAsc(times[1..]);
      WindowComplete(times[1..], lo, hi, zoom, k - 1);
      assert KeyPosition(times[k], lo, zoom) in Window(times[1..], lo, hi, zoom);
    }
  }

  // ---------------------------------------------------------------------
  // Sorting (List.Sort)
  // ---------------------------------------------------------------------

  function Insert(x: real, s: seq<real>): (r: seq<real>)
    requires SortedAsc(s)
    ensures SortedAsc(r) && multiset(r) == multiset(s) + multiset{x}
    decreases |s|
  {
    if s == [] || x <= s[0] then
      SortedCons(x, s);
      [x] + s
    else
      SortedTail(s);
      var rest := Insert(x, s[1..]);
      assert s == [s[0]] + s[1..];
      LowerBound(s[0], x, s[1..], rest);
      SortedCons(s[0], rest);
      [s[0]] + rest
  }

  /** A value no larger than the head of an ascending list extends it. */
  lemma SortedCons(x: real, t: seq<real>)
    requires SortedAsc(t) && (t != [] ==> x <= t[0])
    ensures SortedAsc([x] + t)
  {
    var r := [x] + t;
    forall i, j | 0 <= i < j < |r| ensures r[i] <= r[j] {
      if i == 0 {
        assert r[j] == t[j - 1] && t[0] <= t[j - 1];
      } else {
        assert r[i] == t[i - 1] && r[j] == t[j - 1];
      }
    }
  }

  /** A bound on `x` and on every element of `s` bounds every element of a
      permutation of `s` plus `x`. */
  lemma LowerBound(lb: real, x: real, s: seq<real>, r: seq<real>)
    requires lb <= x && forall j :: 0 <= j < |s| ==> lb <= s[j]
    requires multiset(r) == multiset(s) + multiset{x}
    ensures forall j :: 0 <= j < |r| ==> lb <= r[j]
  {
    forall j | 0 <= j < |r| ensures lb <= r[j] {
      assert r[j] in multiset(r);
      if r[j] != x {
        assert r[j] in multiset(s);
        assert r[j] in s;
      }
    }
  }

  /** An ascending permutation of the input. */
  function SortAscending(s: seq<real>): (r: seq<real>)
    ensures SortedAsc(r) && multiset(r) == multiset(s)
    decreases |s|
  {
    if s == [] then []
    else
      assert s == [s[0]] + s[1..];
      Insert(s[0], SortAscending(s[1..]))
  }

  // ---------------------------------------------------------------------
  // Mapping into mesh space, and merging close stops
  // ---------------------------------------------------------------------

  /** A window position mapped into mesh space along an axis that starts
      at `min` and has extent `size`. */
  function ToMesh(v: real, size: real, min: real): real {
    v * size + min
  }

  function MapStops(s: seq<real>, size: real, min: real): (r: seq<real>)
    ensures |r| == |s|
  {
    seq(|s|, k requires 0 <= k < |s| => ToMesh(s[k], size, min))
  }

  /** MapStops on a non-empty list maps its head and then its tail. */
  lemma MapStopsCons(s: seq<real>, size: real, min: real)
    requires s != []
    ensures MapStops(s, size, min) == [ToMesh(s[0], size, min)] + MapStops(s[1..], size, min)
  {
    var r, t := MapStops(s, size, min), [ToMesh(s[0], size, min)] + MapStops(s[1..], size, min);
    assert |r| == |t|;
    forall k | 0 <= k < |r| ensures r[k] == t[k] {
      if k > 0 {
        assert t[k] == MapStops(s[1..], size, min)[k - 1] == ToMesh(s[1..][k - 1], size, min);
      }
    }
  }

  /** Keeps, in order, every value at least 2 away from the last value kept
      (initially `last`). */
  function MergeFrom(last: real, s: seq<real>): seq<real>
    decreases |s|
  {
    if s == [] then []
    else if Abs(s[0] - last) < 2.0 then MergeFrom(last, s[1..])
    else [s[0]] + MergeFrom(s[0], s[1..])
  }

  /** The first value is always kept. */
  function Merge(s: seq<real>): seq<real> {
    if s == [] then [] else [s[0]] + MergeFrom(s[0], s[1..])
  }

  /** One step of MergeFrom on a list with head x: x is dropped when it
      lies within 2 of the last value kept, and becomes the last value kept
      otherwise. */
  lemma MergeFromCons(last: real, x: real, rest: seq<real>)
    ensures Abs(x - last) < 2.0 ==> MergeFrom(last, [x] + rest) == MergeFrom(last, rest)
    ensures Abs(x - last) >= 2.0 ==> MergeFrom(last, [x] + rest) == [x] + MergeFrom(x, rest)
  {
    assert ([x] + rest)[0] == x && ([x] + rest)[1..] == rest;
  }

  /** The merge loop's invariant across one step: with `kept` the values
      kept so far, the next value x either is dropped or joins `kept`. */
  lemma MergeKeptStep(kept: seq<real>, x: real, rest: seq<real>, target: seq<real>)
    requires kept != [] && kept + MergeFrom(kept[|kept| - 1], [x] + rest) == target
    ensures Abs(x - kept[|kept| - 1]) < 2.0 ==> kept + MergeFrom(kept[|kept| - 1], rest) == target
    ensures Abs(x - kept[|kept| - 1]) >= 2.0 ==> (kept + [x]) + MergeFrom(x, rest) == target
  {
    MergeFromCons(kept[|kept| - 1], x, rest);
    assert kept + ([x] + MergeFrom(x, rest)) == (kept + [x]) + MergeFrom(x, rest);
  }

  /** `a` is `b` with some elements removed and the rest in their order. */
  ghost predicate IsSubsequence(a: seq<real>, b: seq<real>)
    decreases |b|
  {
    if a == [] then true
    else if b == [] then false
    else if a[0] == b[0] then IsSubsequence(a[1..], b[1..])
    else IsSubsequence(a, b[1..])
  }

  lemma {:induction false} MergeFromSubsequence(last: real, s: seq<real>)
    ensures IsSubsequence(MergeFrom(last, s), s)
    ensures |MergeFrom(last, s)| <= |s|
    decreases |s|
  {
    if s != [] {
      MergeFromSubsequence(last, s[1..]);
      MergeFromSubsequence(s[0], s[1..]);
      SubsequenceSkip(MergeFrom(last, s[1..]), s);
    }
  }

  lemma {:induction false} SubsequenceSkip(a: seq<real>, b: seq<real>)
    requires b != [] && IsSubsequence(a, b[1..])
    ensures IsSubsequence(a, b)
    decreases |b|, 1
  {
    if a != [] && a[0] == b[0] {
      // matching a[0] with b[0] leaves a[1..] against b[1..]
      SubsequenceTail(a, b[1..]);
    }
  }

  lemma {:induction false} SubsequenceTail(a: seq<real>, b: seq<real>)
    requires a != [] && IsSubsequence(a, b)
    ensures IsSubsequence(a[1..], b)
    decreases |b|, 2
  {
    if a[0] == b[0] {
      SubsequenceSkip(a[1..], b);
    } else {
      SubsequenceTail(a, b[1..]);
      SubsequenceSkip(a[1..], b);
    }
  }

  /** The merge only removes values; it never reorders or changes them. */
  lemma {:induction false} MergeSubsequence(s: seq<real>)
    ensures IsSubsequence(Merge(s), s)
    ensures |Merge(s)| <= |s|
    ensures s != [] ==> Merge(s) != [] && Merge(s)[0] == s[0]
  {
    if s != [] {
      MergeFromSubsequence(s[0], s[1..]);
      assert Merge(s)[1..] == MergeFrom(s[0], s[1..]);
    }
  }

  /** Consecutive kept values are at least 2 apart, and the first is at
      least 2 from `last`. */
  lemma {:induction false} MergeFromGaps(last: real, s: seq<real>)
    ensures var r := MergeFrom(last, s);
      (r != [] ==> Abs(r[0] - last) >= 2.0) &&
      forall k :: 0 <= k < |r| - 1 ==> Abs(r[k + 1] - r[k]) >= 2.0
    decreases |s|
  {
    if s != [] {
      if Abs(s[0] - last) < 2.0 {
        MergeFromGaps(last, s[1..]);
      } else {
        MergeFromGaps(s[0], s[1..]);
        var t := MergeFrom(s[0], s[1..]);
        GapsCons(s[0], t);
      }
    }
  }

  /** Prefixing `x` to a list spaced at least 2 apart whose head is at
      least 2 from `x` keeps the spacing. */
  lemma GapsCons(x: real, t: seq<real>)
    requires t != [] ==> Abs(t[0] - x) >= 2.0
    requires forall k :: 0 <= k < |t| - 1 ==> Abs(t[k + 1] - t[k]) >= 2.0
    ensures forall k :: 0 <= k < |[x] + t| - 1 ==> Abs(([x] + t)[k + 1] - ([x] + t)[k]) >= 2.0
  {
    var r := [x] + t;
    forall k | 0 <= k < |r| - 1 ensures Abs(r[k + 1] - r[k]) >= 2.0 {
      if k > 0 { assert r[k + 1] == t[k] && r[k] == t[k - 1]; }
    }
  }

  /** Prefixing `x` to an ascending list with gaps of at least 2 whose head
      is at least x + 2 keeps it so. */
  lemma AscendsCons(x: real, t: seq<real>)
    requires t != [] ==> t[0] >= x + 2.0
    requires forall k :: 0 <= k < |t| - 1 ==> t[k + 1] >= t[k] + 2.0
    ensures forall k :: 0 <= k < |[x] + t| - 1 ==> ([x] + t)[k + 1] >= ([x] + t)[k] + 2.0
  {
    var r := [x] + t;
    forall k | 0 <= k < |r| - 1 ensures r[k + 1] >= r[k] + 2.0 {
      if k > 0 { assert r[k + 1] == t[k] && r[k] == t[k - 1]; }
    }
  }

  /** The tail of an ascending list ascends and is bounded below by the
      head. */
  lemma SortedTail(s: seq<real>)
    requires SortedAsc(s) && s != []
    ensures SortedAsc(s[1..])
    ensures forall k :: 0 <= k < |s[1..]| ==> s[0] <= s[1..][k]
  {
    forall k | 0 <= k < |s[1..]| ensures s[0] <= s[1..][k] {
      assert s[1..][k] == s[k + 1];
    }
  }

  /** On ascending input bounded below by `last`, the kept values ascend
      with every gap at least 2, the first at least 2 past `last`. */
  lemma {:induction false} MergeFromAscends(last: real, s: seq<real>)
    requires SortedAsc(s)
    requires forall k :: 0 <= k < |s| ==> last <= s[k]
    ensures var r := MergeFrom(last, s);
      (r != [] ==> r[0] >= last + 2.0) &&
      forall k :: 0 <= k < |r| - 1 ==> r[k + 1] >= r[k] + 2.0
    decreases |s|
  {
    if s != [] {
      SortedTail(s);
      if Abs(s[0] - last) < 2.0 {
        forall k | 0 <= k < |s[1..]| ensures last <= s[1..][k] {
          assert s[1..][k] == s[k + 1];
        }
        MergeFromAscends(last, s[1..]);
      } else {
        assert last <= s[0];
        MergeFromAscends(s[0], s[1..]);
        AscendsCons(s[0], MergeFrom(s[0], s[1..]));
      }
    }
  }

  /** Merged output is always spaced at least 2 apart. */
  lemma {:induction false} MergeGaps(s: seq<real>)
    ensures forall k :: 0 <= k < |Merge(s)| - 1 ==> Abs(Merge(s)[k + 1] - Merge(s)[k]) >= 2.0
  {
    if s != [] {
      MergeFromGaps(s[0], s[1..]);
      GapsCons(s[0], MergeFrom(s[0], s[1..]));
    }
  }

  /** On ascending input the merged output ascends with gaps of at least 2. */
  lemma {:induction false} MergeAscends(s: seq<real>)
    requires SortedAsc(s)
    ensures forall k :: 0 <= k < |Merge(s)| - 1 ==> Merge(s)[k + 1] >= Merge(s)[k] + 2.0
  {
    if s != [] {
      SortedTail(s);
      MergeFromAscends(s[0], s[1..]);
      AscendsCons(s[0], MergeFrom(s[0], s[1..]));
    }
  }

  lemma {:induction false} MapStopsAscends(s: seq<real>, size: real, min: real)
    requires SortedAsc(s) && size >= 0.0
    ensures SortedAsc(MapStops(s, size, min))
  {
    var m := MapStops(s, size, min);
    forall i, j | 0 <= i < j < |m| ensures m[i] <= m[j] {
      var a, b := s[i], s[j];
      assert a <= b;
      ScaleMonotone(a, b, size);
      assert m[i] == ToMesh(a, size, min) == a * size + min;
      assert m[j] == ToMesh(b, size, min) == b * size + min;
    }
  }

  lemma ScaleMonotone(a: real, b: real, c: real)
    requires a <= b && c >= 0.0
    ensures a * c <= b * c
  {
    assert b * c - a * c == (b - a) * c;
  }

  // ---------------------------------------------------------------------
  // FindStops as a function
  // ---------------------------------------------------------------------

  /** The lower end of the visible window of key times. */
  function StartBoundary(offset: real, zoomOffset: real): real {
    zoomOffset - offset * (1.0 - zoomOffset)
  }

  /** The upper end of the visible window of key times. */
  function EndBoundary(offset: real, zoomOffset: real): real {
    1.0 - zoomOffset - offset * (1.0 - zoomOffset)
  }

  /** The window positions, in ramp units scaled by the zoom, of the colour
      keys followed by the alpha keys. */
  function Candidates(g: Gradient, offset: real, zoom: real, zoomOffset: real): (r: seq<real>)
    ensures |r| <= |g.colorKeys| + |g.alphaKeys|
  {
    var lo, hi := StartBoundary(offset, zoomOffset), EndBoundary(offset, zoomOffset);
    WindowLength(ColorTimes(g), lo, hi, zoom);
    WindowLength(AlphaTimes(g), lo, hi, zoom);
    Window(ColorTimes(g), lo, hi, zoom) + Window(AlphaTimes(g), lo, hi, zoom)
  }

  /** The stops in mesh space along an axis starting at `min` of extent
      `size`, merged. */
  function StopsSpec(g: Gradient, offset: real, zoom: real, zoomOffset: real, size: real, min: real): seq<real> {
    Merge(MapStops(SortAscending(Candidates(g, offset, zoom, zoomOffset)), size, min))
  }

  /** FindStops keeps no more stops than there are keys. */
  lemma {:induction false} StopsLength(g: Gradient, offset: real, zoom: real, zoomOffset: real, size: real, min: real)
    ensures |StopsSpec(g, offset, zoom, zoomOffset, size, min)| <= |g.colorKeys| + |g.alphaKeys|
  {
    var c := Candidates(g, offset, zoom, zoomOffset);
    var sorted := SortAscending(c);
    assert |sorted| == |multiset(sorted)| == |multiset(c)| == |c|;
    MergeSubsequence(MapStops(sorted, size, min));
  }

  /** The stops are spaced at least 2 apart; on a non-negative extent they
      ascend strictly. */
  lemma {:induction false} StopsSpacing(g: Gradient, offset: real, zoom: real, zoomOffset: real, size: real, min: real)
    ensures var r := StopsSpec(g, offset, zoom, zoomOffset, size, min);
      forall k :: 0 <= k < |r| - 1 ==> Abs(r[k + 1] - r[k]) >= 2.0
    ensures var r := StopsSpec(g, offset, zoom, zoomOffset, size, min);
      size >= 0.0 ==> forall k :: 0 <= k < |r| - 1 ==> r[k + 1] >= r[k] + 2.0
  {
    var sorted := SortAscending(Candidates(g, offset, zoom, zoomOffset));
    MergeGaps(MapStops(sorted, size, min));
    if size >= 0.0 {
      MapStopsAscends(sorted, size, min);
      MergeAscends(MapStops(sorted, size, min));
    }
  }

  /** The stops are the sorted, mapped candidates with some removed. */
  lemma {:induction false} StopsSubsequence(g: Gradient, offset: real, zoom: real, zoomOffset: real, size: real, min: real)
    ensures IsSubsequence(StopsSpec(g, offset, zoom, zoomOffset, size, min),
                          MapStops(SortAscending(Candidates(g, offset, zoom, zoomOffset)), size, min))
  {
    MergeSubsequence(MapStops(SortAscending(Candidates(g, offset, zoom, zoomOffset)), size, min));
  }

  /** Each element of a subsequence sits at some index of the longer one. */
  lemma {:induction false} SubsequenceMember(a: seq<real>, b: seq<real>, k: nat) returns (j: nat)
    requires IsSubsequence(a, b) && k < |a|
    ensures j < |b| && a[k] == b[j]
    decreases |b|
  {
    if a[0] == b[0] {
      if k == 0 {
        j := 0;
      } else {
        var i := SubsequenceMember(a[1..], b[1..], k - 1);
        j := i + 1;
      }
    } else {
      var i := SubsequenceMember(a, b[1..], k);
      j := i + 1;
    }
  }

  /** Every candidate comes from a key time strictly inside the window. */
  lemma {:induction false} CandidateSound(g: Gradient, offset: real, zoom: real, zoomOffset: real, y: real)
    returns (t: real)
    requires y in Candidates(g, offset, zoom, zoomOffset)
    ensures t in ColorTimes(g) || t in AlphaTimes(g)
    ensures StartBoundary(offset, zoomOffset) < t < EndBoundary(offset, zoomOffset)
    ensures y == KeyPosition(t, StartBoundary(offset, zoomOffset), zoom)
  {
    var lo, hi := StartBoundary(offset, zoomOffset), EndBoundary(offset, zoomOffset);
    var ct, at := ColorTimes(g), AlphaTimes(g);
    if y in Window(ct, lo, hi, zoom) {
      WindowSound(ct, lo, hi, zoom, y);
      var i :| 0 <= i < |ct| && lo < ct[i] < hi && y == KeyPosition(ct[i], lo, zoom);
      t := ct[i];
    } else {
      WindowSound(at, lo, hi, zoom, y);
      var i :| 0 <= i < |at| && lo < at[i] < hi && y == KeyPosition(at[i], lo, zoom);
      t := at[i];
    }
  }

  lemma SortedMember(c: seq<real>, j: nat)
    requires j < |SortAscending(c)|
    ensures SortAscending(c)[j] in c
  {
    var sorted := SortAscending(c);
    assert sorted[j] in multiset(sorted);
  }

  /** Every merged value is the mapping of the value at some index. */
  lemma MapMergeMember(s: seq<real>, size: real, min: real, k: nat) returns (j: nat)
    requires k < |Merge(MapStops(s, size, min))|
    ensures j < |s| && Merge(MapStops(s, size, min))[k] == ToMesh(s[j], size, min)
  {
    var mapped := MapStops(s, size, min);
    MergeSubsequence(mapped);
    j := SubsequenceMember(Merge(mapped), mapped, k);
  }

  /** Every merged, mapped, sorted value is the mapping of some input value. */
  lemma MergedMember(c: seq<real>, size: real, min: real, k: nat) returns (y: real)
    requires k < |Merge(MapStops(SortAscending(c), size, min))|
    ensures y in c && Merge(MapStops(SortAscending(c), size, min))[k] == ToMesh(y, size, min)
  {
    var sorted := SortAscending(c);
    var j := MapMergeMember(sorted, size, min, k);
    SortedMember(c, j);
    y := sorted[j];
  }

  /** Every stop comes from a colour or alpha key whose time `t` lies
      strictly inside the visible window: the stop is that key's window
      position `y` mapped into mesh space. */
  lemma {:induction false} StopsSound(g: Gradient, offset: real, zoom: real, zoomOffset: real, size: real, min: real, k: nat)
    returns (t: real, y: real)
    requires k < |StopsSpec(g, offset, zoom, zoomOffset, size, min)|
    ensures t in ColorTimes(g) || t in AlphaTimes(g)
    ensures StartBoundary(offset, zoomOffset) < t < EndBoundary(offset, zoomOffset)
    ensures y == KeyPosition(t, StartBoundary(offset, zoomOffset), zoom)
    ensures StopsSpec(g, offset, zoom, zoomOffset, size, min)[k] == ToMesh(y, size, min)
  {
    y := MergedMember(Candidates(g, offset, zoom, zoomOffset), size, min, k);
    t := CandidateSound(g, offset, zoom, zoomOffset, y);
  }
}
