/** Naming the WAL segments that cover a byte range, and the filter a resumed replay puts on them. */
module Segments {
  import opened Basics

  const SEG: nat := 0x100_0000
  const LOG: nat := 0x1_0000_0000
  const TOP: nat := 0x1_0000_0000_0000_0000
  const PER_LOG: nat := 256

  /** File name: timeline, high half of the position, segment within it. */
  datatype Segment = Segment(timeline: nat, log: nat, no: nat) {
    function Start(): nat { log * LOG + no * SEG }

    predicate Valid() { log < LOG && no < PER_LOG }

    function Next(): Segment {
      if no + 1 < PER_LOG then Segment(timeline, log, no + 1) else Segment(timeline, log + 1, 0)
    }
  }

  function SaturatingAdd(a: nat, b: nat): nat { if a + b < TOP then a + b else TOP - 1 }
  function SaturatingSub(a: nat, b: nat): nat { if a < b then 0 else a - b }
  function WrappingAdd(a: nat, b: nat): nat { (a + b) % TOP }

  /** Number of segments announced up front. */
  function Count(start: nat, end: nat): nat {
    var n := (SaturatingSub(end, start - start % SEG) + SEG - 1) / SEG;
    if n < 1 then 1 else n
  }

  lemma StartOf(lsn: nat, timeline: nat)
    requires lsn < TOP
    ensures var s := Segment(timeline, lsn / LOG, (lsn % LOG) / SEG);
            s.Valid() && s.Start() == lsn - lsn % SEG && s.Start() <= lsn < s.Start() + SEG
  {
    var high, low := lsn / LOG, lsn % LOG;
    assert lsn == high * LOG + low;
    assert low == (low / SEG) * SEG + low % SEG;
    assert lsn % SEG == low % SEG by {
      assert high * LOG == (high * PER_LOG) * SEG;
      ModShift(high * PER_LOG, low);
    }
  }

  lemma ModShift(k: nat, low: nat)
    ensures (k * SEG + low) % SEG == low % SEG
  {
    var q, r := low / SEG, low % SEG;
    assert k * SEG + low == (k + q) * SEG + r;
  }

  lemma NextFollows(s: Segment)
    requires s.Valid() && s.Start() + SEG < TOP
    ensures s.Next().Valid() && s.Next().Start() == s.Start() + SEG
  {
  }

  /** Consecutive segments of one timeline. */
  predicate Consecutive(out: seq<Segment>) {
    && (forall i :: 0 <= i < |out| ==> out[i].Valid() && out[i].timeline == out[0].timeline)
    && (forall i :: 0 <= i < |out| ==> out[i].Start() == out[0].Start() + i * SEG)
  }

  /** First holds `start`, the last reaches `end`, and no shorter run does. */
  predicate Covers(out: seq<Segment>, start: nat, end: nat) {
    && |out| >= 1 && Consecutive(out)
    && out[0].Start() <= start < out[0].Start() + SEG
    && end <= out[|out| - 1].Start() + SEG
    && (|out| > 1 ==> out[|out| - 1].Start() < end)
  }

  lemma CountOf(first: nat, start: nat, end: nat, n: nat)
    requires start < TOP && first == start - start % SEG && n >= 1
    requires end <= first + n * SEG && (n > 1 ==> first + (n - 1) * SEG < end)
    ensures Count(start, end) == n
  {
    var d := SaturatingSub(end, first);
    if n == 1 {
      assert d <= SEG;
    } else {
      assert (n - 1) * SEG < d <= n * SEG;
      DivCeil(d, n);
    }
  }

  lemma DivCeil(d: nat, n: nat)
    requires n >= 1 && (n - 1) * SEG < d <= n * SEG
    ensures (d + SEG - 1) / SEG == n
  {
    var r := d + SEG - 1 - n * SEG;
    assert 0 <= r < SEG;
    assert d + SEG - 1 == n * SEG + r;
  }

  /** Terminates, without overflow up to the last representable position, with the announced number of names. */
  method SegmentsCovering(timeline: nat, start: nat, end: nat) returns (out: seq<Segment>)
    requires start < TOP && end < TOP
    ensures Covers(out, start, end) && out[0].timeline == timeline
    ensures |out| == Count(start, end)
  {
    StartOf(start, timeline);
    var cur := Segment(timeline, start / LOG, (start % LOG) / SEG);
    out := [];
    ghost var first := cur.Start();
    while true
      invariant cur.Valid() && cur.timeline == timeline && cur.Start() == first + |out| * SEG
      invariant Consecutive(out) && (|out| > 0 ==> out[0].Start() == first && out[0].timeline == timeline)
      invariant |out| > 0 ==> cur.Start() < end
      decreases TOP - cur.Start()
    {
      out := out + [cur];
      if end <= SaturatingAdd(cur.Start(), SEG) {
        CountOf(first, start, end, |out|);
        return;
      }
      NextFollows(cur);
      cur := cur.Next();
    }
  }

  /** Every byte of the range lies in one of the named segments. */
  lemma EveryByteCovered(out: seq<Segment>, start: nat, end: nat, lsn: nat) returns (i: nat)
    requires Covers(out, start, end) && start <= lsn < end
    ensures i < |out| && out[i].Start() <= lsn < out[i].Start() + SEG
  {
    i := (lsn - out[0].Start()) / SEG;
    var d := lsn - out[0].Start();
    assert d == i * SEG + d % SEG;
    assert d < |out| * SEG;
    IndexBelow(i, d, |out|);
  }

  lemma IndexBelow(i: nat, d: nat, n: nat)
    requires i * SEG <= d < n * SEG
    ensures i < n
  {
  }

  // ------------------------------------------------------------------
  // Timelines
  // ------------------------------------------------------------------

  /** One branch of a timeline's history; it ends where the next one begins. */
  datatype Branch = Branch(tli: nat, begin: nat)

  /** Oldest first, from position zero, switchpoints ascending. */
  predicate History(h: seq<Branch>) {
    |h| > 0 && h[0].begin == 0 && forall i, j :: 0 <= i < j < |h| ==> h[i].begin <= h[j].begin
  }

  /** The newest branch that began in or before the segment. */
  function Serving(h: seq<Branch>, segment: nat): (k: Option<nat>)
    ensures k.Some? ==> k.value < |h| && h[k.value].begin / SEG <= segment
    ensures k.Some? ==> forall j :: k.value < j < |h| ==> segment < h[j].begin / SEG
    ensures k.None? ==> forall j :: 0 <= j < |h| ==> segment < h[j].begin / SEG
  {
    if h == [] then None
    else if h[|h| - 1].begin / SEG <= segment then Some(|h| - 1)
    else Serving(h[..|h| - 1], segment)
  }

  function Lineage(out: seq<Segment>, h: seq<Branch>, base: nat): seq<Segment> {
    seq(|out|, i requires 0 <= i < |out| =>
      var k := Serving(h, out[i].Start() / SEG);
      out[i].(timeline := if k.Some? then h[k.value].tli else base))
  }

  /**
   The branch's file has the byte of the history at `lsn`: written by the branch before it
   forked, or copied into its first segment from its ancestor.
   */
  predicate Holds(h: seq<Branch>, k: nat, lsn: nat)
    requires k < |h|
  {
    h[k].begin / SEG <= lsn / SEG && (k + 1 < |h| ==> lsn < h[k + 1].begin)
  }

  lemma SegmentOf(begin: nat, lsn: nat)
    ensures begin / SEG > lsn / SEG ==> lsn < begin
    ensures begin <= lsn ==> begin / SEG <= lsn / SEG
  {
  }

  /** A byte of the segment that a branch which has already forked does not have. */
  lemma ForkedMisses(h: seq<Branch>, k: nat, j: nat, segment: nat) returns (lsn: nat)
    requires History(h) && k < j < |h| && h[j].begin / SEG <= segment
    ensures lsn / SEG == segment && !Holds(h, k, lsn)
  {
    lsn := segment * SEG + (SEG - 1);
    assert lsn / SEG == segment;
    assert h[k + 1].begin <= h[j].begin;
    assert h[j].begin < (h[j].begin / SEG) * SEG + SEG;
  }

  /** A file has every byte of its segment if and only if its branch is the one the rule picks. */
  lemma ServesWholeIff(h: seq<Branch>, k: nat, segment: nat)
    requires History(h) && k < |h|
    ensures (forall lsn: nat :: lsn / SEG == segment ==> Holds(h, k, lsn)) <==> Serving(h, segment) == Some(k)
  {
    var s := Serving(h, segment);
    if s == Some(k) {
      forall lsn: nat | lsn / SEG == segment
        ensures Holds(h, k, lsn)
      {
        if k + 1 < |h| { SegmentOf(h[k + 1].begin, lsn); }
      }
    } else if s.Some? && k < s.value {
      var lsn := ForkedMisses(h, k, s.value, segment);
    } else {
      assert (segment * SEG) / SEG == segment;
      assert !Holds(h, k, segment * SEG);
    }
  }

  lemma StartAligned(s: Segment)
    ensures s.Start() == (s.log * PER_LOG + s.no) * SEG && s.Start() / SEG == s.log * PER_LOG + s.no
  {
    assert s.Start() == (s.log * PER_LOG + s.no) * SEG;
  }

  /** Every byte of the range is in a named file, under the one timeline whose file has it and the whole segment. */
  lemma LineageServesEveryByte(out: seq<Segment>, start: nat, end: nat, h: seq<Branch>, base: nat, lsn: nat)
    returns (i: nat, k: nat)
    requires Covers(out, start, end) && History(h) && start <= lsn < end
    ensures i < |out| == |Lineage(out, h, base)| && k < |h|
    ensures var file := Lineage(out, h, base)[i];
            && file.Start() <= lsn < file.Start() + SEG && file.timeline == h[k].tli
            && Holds(h, k, lsn) && forall other: nat :: other / SEG == lsn / SEG ==> Holds(h, k, other)
  {
    i := EveryByteCovered(out, start, end, lsn);
    StartAligned(out[i]);
    var segment := out[i].Start() / SEG;
    assert lsn / SEG == segment;
    assert h[0].begin / SEG <= segment;
    var s := Serving(h, segment);
    k := s.value;
    ServesWholeIff(h, k, segment);
  }

  // ------------------------------------------------------------------
  // Resume filter
  // ------------------------------------------------------------------

  /** The segment's end, computed in 64 bits, lies past the resume point. */
  predicate Stays(s: Segment, from: nat) { WrappingAdd(s.Start(), SEG) > from }

  function Resumed(out: seq<Segment>, from: nat): seq<Segment> {
    if out == [] then [] else (if Stays(out[0], from) then [out[0]] else []) + Resumed(out[1..], from)
  }

  /** First segment that still reaches past `from`. */
  function FirstPast(out: seq<Segment>, from: nat): (i: nat)
    ensures i <= |out|
    ensures forall k :: 0 <= k < i ==> out[k].Start() + SEG <= from
    ensures i < |out| ==> from < out[i].Start() + SEG
  {
    if out == [] || from < out[0].Start() + SEG then 0 else 1 + FirstPast(out[1..], from)
  }

  predicate HasTop(out: seq<Segment>) { exists s :: s in out && s.Start() + SEG == TOP }

  lemma StaysIff(s: Segment, from: nat)
    requires s.Start() + SEG < TOP
    ensures Stays(s, from) <==> from < s.Start() + SEG
  {
  }

  lemma {:induction false} AllStay(out: seq<Segment>, from: nat)
    requires forall i :: 0 <= i < |out| ==> Stays(out[i], from)
    ensures Resumed(out, from) == out
    decreases |out|
  {
    if out != [] {
      assert forall i :: 0 <= i < |out[1..]| ==> out[1..][i] == out[i + 1];
      AllStay(out[1..], from);
      assert [out[0]] + out[1..] == out;
    }
  }

  lemma {:induction false} ResumedIsSuffix(out: seq<Segment>, from: nat)
    requires forall i :: 0 <= i < |out| ==> (Stays(out[i], from) <==> from < out[i].Start() + SEG)
    requires forall i, j :: 0 <= i < j < |out| ==> out[i].Start() <= out[j].Start()
    ensures Resumed(out, from) == out[FirstPast(out, from)..]
    decreases |out|
  {
    if out == [] {
    } else if from < out[0].Start() + SEG {
      AllStay(out, from);
    } else {
      assert forall i :: 0 <= i < |out[1..]| ==> out[1..][i] == out[i + 1];
      ResumedIsSuffix(out[1..], from);
      var i := FirstPast(out, from);
      assert out[1..][i - 1..] == out[i..];
    }
  }

  lemma {:induction false} ResumedDropsTop(out: seq<Segment>, from: nat)
    ensures forall s :: s in Resumed(out, from) ==> s.Start() + SEG != TOP
    decreases |out|
  {
    if out != [] {
      ResumedDropsTop(out[1..], from);
    }
  }

  lemma Ascending(out: seq<Segment>)
    requires Consecutive(out)
    ensures forall i, j :: 0 <= i < j < |out| ==> out[i].Start() + SEG <= out[j].Start()
  {
    forall i, j | 0 <= i < j < |out|
      ensures out[i].Start() + SEG <= out[j].Start()
    {
      assert out[j].Start() - out[i].Start() == (j - i) * SEG;
    }
  }

  lemma WithinTop(s: Segment)
    requires s.Valid()
    ensures s.Start() + SEG <= TOP
  {
  }

  lemma FirstPastHolds(out: seq<Segment>, start: nat, end: nat, from: nat)
    requires Covers(out, start, end) && start <= from < end
    ensures var i := FirstPast(out, from); i < |out| && out[i].Start() <= from
  {
    Ascending(out);
    var at := EveryByteCovered(out, start, end, from);
    assert FirstPast(out, from) == at;
  }

  lemma BelowTop(out: seq<Segment>)
    requires Consecutive(out) && !HasTop(out)
    ensures forall i :: 0 <= i < |out| ==> out[i].Start() + SEG < TOP
  {
    forall i | 0 <= i < |out|
      ensures out[i].Start() + SEG < TOP
    {
      WithinTop(out[i]);
      assert out[i] in out;
    }
  }

  lemma TopIsMissing(out: seq<Segment>, from: nat)
    requires HasTop(out) && from < TOP
    ensures Resumed(out, from) != out[FirstPast(out, from)..]
  {
    var s :| s in out && s.Start() + SEG == TOP;
    var k :| 0 <= k < |out| && out[k] == s;
    var i := FirstPast(out, from);
    assert i <= k;
    assert out[i..][k - i] == s;
    ResumedDropsTop(out, from);
  }

  /**
   The filter keeps exactly the suffix that still covers everything from the resume
   point, if and only if the cover stops short of the last segment of the position space.
   */
  lemma ResumeKeepsSuffixIff(out: seq<Segment>, start: nat, end: nat, from: nat)
    requires Covers(out, start, end) && start <= from < end < TOP
    ensures Resumed(out, from) == out[FirstPast(out, from)..] <==> !HasTop(out)
    ensures !HasTop(out) ==> Resumed(out, from) != [] && Resumed(out, from)[0].Start() <= from
                             && end <= Resumed(out, from)[|Resumed(out, from)| - 1].Start() + SEG
  {
    if HasTop(out) {
      TopIsMissing(out, from);
    } else {
      BelowTop(out);
      Ascending(out);
      forall i | 0 <= i < |out|
        ensures Stays(out[i], from) <==> from < out[i].Start() + SEG
      {
        StaysIff(out[i], from);
      }
      ResumedIsSuffix(out, from);
      FirstPastHolds(out, start, end, from);
    }
  }

  /** The top of the position space is reachable: the last segment covers its last byte. */
  lemma TopSegmentIsDropped()
    ensures var top := Segment(1, LOG - 1, PER_LOG - 1);
            Covers([top], TOP - 2, TOP - 1) && HasTop([top]) && Resumed([top], TOP - 2) == []
  {
    var top := Segment(1, LOG - 1, PER_LOG - 1);
    assert top.Start() + SEG == TOP;
    assert top in [top];
    assert [top][1..] == [];
  }
}
