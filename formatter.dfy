/**
 * `build_connection_string` of `formatter.py`: consecutive segments on the
 * same train that continue where the previous one stopped are merged into
 * one ride, and the rides are rendered as `train : from -> to`, separated
 * by ` ; `.
 */
module Formatter {
  import opened Text
  import opened Timetable

  /** `seg` continues the ride `cur`: same train, leaving from the islno where `cur` arrived. */
  predicate Joins(cur: Segment, seg: Segment)
  {
    seg.train == cur.train && seg.fromIslno == cur.toIslno
  }

  /** The merged segment: the current one, now ending where `seg` ends. */
  function Extend(cur: Segment, seg: Segment): Segment
  {
    Segment(cur.train, cur.fromIslno, seg.toIslno)
  }

  /** The rides closed so far and the open ride `cur` after the merge loop has seen `segs`. */
  function MergeState(segs: seq<Segment>): (seq<Segment>, Segment)
    requires |segs| > 0
  {
    if |segs| == 1 then ([], segs[0])
    else
      var st := MergeState(segs[..|segs| - 1]);
      var seg := segs[|segs| - 1];
      if Joins(st.1, seg) then (st.0, Extend(st.1, seg)) else (st.0 + [st.1], seg)
  }

  /** The merged rides of `segs`; none for no segments. */
  function Merged(segs: seq<Segment>): seq<Segment>
  {
    if segs == [] then [] else MergeState(segs).0 + [MergeState(segs).1]
  }

  /** `f"{seg['train']} : {seg['from_islno']} -> {seg['to_islno']}"`. */
  function Part(seg: Segment): string
  {
    seg.train + " : " + IntToString(seg.fromIslno) + " -> " + IntToString(seg.toIslno)
  }

  /** The rendered rides joined by ` ; `. */
  function Render(rides: seq<Segment>): string
  {
    Join(seq(|rides|, i requires 0 <= i < |rides| => Part(rides[i])), " ; ")
  }

  /** `build_connection_string(segments)` (formatter.py:4-26). */
  method BuildConnectionString(segments: seq<Segment>) returns (s: string)
    ensures s == Render(Merged(segments))
  {
    if |segments| == 0 {
      return "";
    }
    var merged: seq<Segment> := [];
    var cur := segments[0];
    var k := 1;
    while k < |segments|
      invariant 1 <= k <= |segments|
      invariant (merged, cur) == MergeState(segments[..k])
    {
      var seg := segments[k];
      var next := k + 1;
      MergeStep(segments, k, next);
      if seg.train == cur.train && seg.fromIslno == cur.toIslno {
        cur := Segment(cur.train, cur.fromIslno, seg.toIslno);
      } else {
        merged := merged + [cur];
        cur := seg;
      }
      k := next;
    }
    assert segments[..k] == segments;
    merged := merged + [cur];
    ghost var rendered := seq(|merged|, i requires 0 <= i < |merged| => Part(merged[i]));
    var parts: seq<string> := [];
    var j := 0;
    while j < |merged|
      invariant 0 <= j <= |merged| && parts == rendered[..j]
    {
      var piece := Part(merged[j]);
      var next := j + 1;
      assert piece == rendered[j];
      PrefixSnoc(rendered, j, next);
      parts := parts + [piece];
      j := next;
    }
    assert rendered[..j] == rendered;
    s := Join(parts, " ; ");
  }

  lemma PrefixSnoc<T>(s: seq<T>, j: nat, next: nat)
    requires j < |s| && next == j + 1
    ensures s[..next] == s[..j] + [s[j]]
  {
  }

  /** One more turn of the merge loop. */
  lemma MergeStep(segs: seq<Segment>, k: nat, next: nat)
    requires 1 <= k < |segs| && next == k + 1
    ensures var st := MergeState(segs[..k]);
            MergeState(segs[..next]) == if Joins(st.1, segs[k]) then (st.0, Extend(st.1, segs[k])) else (st.0 + [st.1], segs[k])
  {
    assert segs[..next][..k] == segs[..k];
  }

  // ---------------------------------------------------------------------
  // What the merge promises
  // ---------------------------------------------------------------------

  /** The number of places where a segment does not continue the one before it. */
  function Breaks(segs: seq<Segment>): nat
  {
    if |segs| <= 1 then 0
    else Breaks(segs[..|segs| - 1]) + (if Joins(segs[|segs| - 2], segs[|segs| - 1]) then 0 else 1)
  }

  /**
   * The open ride starts where the last break left off and ends where the
   * last segment ends; a segment continues it exactly when it continues the
   * segment before. The closed rides are the previous breaks.
   */
  lemma {:induction false} MergeStateShape(segs: seq<Segment>)
    requires |segs| > 0
    ensures var st := MergeState(segs);
            && st.1.train == segs[|segs| - 1].train && st.1.toIslno == segs[|segs| - 1].toIslno
            && |st.0| == Breaks(segs)
            && (st.0 == [] ==> st.1.fromIslno == segs[0].fromIslno && st.1.train == segs[0].train)
            && (st.0 != [] ==> st.0[0].fromIslno == segs[0].fromIslno && st.0[0].train == segs[0].train)
            && (st.0 != [] ==> !Joins(st.0[|st.0| - 1], st.1))
            && forall i :: 0 <= i < |st.0| - 1 ==> !Joins(st.0[i], st.0[i + 1])
  {
    if |segs| > 1 {
      var init := segs[..|segs| - 1];
      MergeStateShape(init);
      assert init[|init| - 1] == segs[|segs| - 2];
      assert init[0] == segs[0];
    }
  }

  /**
   * Merging yields one ride for non-empty input and one more for each
   * break, so never more rides than segments; the first ride leaves where
   * the first segment leaves and the last arrives where the last arrives.
   */
  lemma MergedBounds(segs: seq<Segment>)
    ensures segs == [] <==> Merged(segs) == []
    ensures |Merged(segs)| <= |segs|
    ensures segs != [] ==> |Merged(segs)| == 1 + Breaks(segs)
    ensures segs != [] ==> var m := Merged(segs);
              && m[0].train == segs[0].train && m[0].fromIslno == segs[0].fromIslno
              && m[|m| - 1].train == segs[|segs| - 1].train && m[|m| - 1].toIslno == segs[|segs| - 1].toIslno
  {
    if segs != [] {
      MergeStateShape(segs);
      BreaksBound(segs);
    }
  }

  lemma {:induction false} BreaksBound(segs: seq<Segment>)
    ensures |segs| > 0 ==> Breaks(segs) < |segs|
  {
    if |segs| > 1 {
      BreaksBound(segs[..|segs| - 1]);
    }
  }

  /** No two neighbouring rides of the result could be merged further. */
  lemma MergedMaximal(segs: seq<Segment>)
    ensures var m := Merged(segs); forall i :: 0 <= i < |m| - 1 ==> !Joins(m[i], m[i + 1])
  {
    if segs != [] {
      MergeStateShape(segs);
      var st := MergeState(segs);
      var m := Merged(segs);
      forall i | 0 <= i < |m| - 1 ensures !Joins(m[i], m[i + 1]) {
        if i + 1 < |st.0| {
          assert m[i] == st.0[i] && m[i + 1] == st.0[i + 1];
        } else {
          assert m[i] == st.0[|st.0| - 1] && m[i + 1] == st.1;
        }
      }
    }
  }

  /** A journey on one train with no gaps renders as a single ride from its first islno to its last. */
  lemma MergedChain(segs: seq<Segment>)
    requires segs != [] && forall i :: 0 < i < |segs| ==> Joins(segs[i - 1], segs[i])
    ensures Merged(segs) == [Segment(segs[0].train, segs[0].fromIslno, segs[|segs| - 1].toIslno)]
  {
    NoBreaks(segs);
    MergedBounds(segs);
  }

  lemma {:induction false} NoBreaks(segs: seq<Segment>)
    requires forall i :: 0 < i < |segs| ==> Joins(segs[i - 1], segs[i])
    ensures Breaks(segs) == 0
  {
    if |segs| > 1 {
      var init := segs[..|segs| - 1];
      assert forall i :: 0 <= i < |init| ==> init[i] == segs[i];
      NoBreaks(init);
      assert Joins(segs[|segs| - 1 - 1], segs[|segs| - 1]);
    }
  }

  /** Rides no two of which could be merged are left as they are. */
  lemma {:induction false} MergedUnjoined(segs: seq<Segment>)
    requires forall i :: 0 < i < |segs| ==> !Joins(segs[i - 1], segs[i])
    ensures segs != [] ==> MergeState(segs) == (segs[..|segs| - 1], segs[|segs| - 1])
    ensures Merged(segs) == segs
  {
    if |segs| > 1 {
      var j := |segs| - 1;
      var init := segs[..j];
      assert forall i :: 0 <= i < j ==> init[i] == segs[i];
      MergedUnjoined(init);
      var last := segs[j];
      assert MergeState(init) == (init[..j - 1], init[j - 1]);
      assert !Joins(segs[j - 1], last);
      assert init[..j - 1] + [init[j - 1]] == init;
      assert init + [last] == segs;
    } else if |segs| == 1 {
      assert segs[..0] + [segs[0]] == segs;
    }
  }

  /** Merging is idempotent: the connection string of merged rides is the same string. */
  lemma MergedIdempotent(segs: seq<Segment>)
    ensures Merged(Merged(segs)) == Merged(segs)
  {
    var m := Merged(segs);
    MergedMaximal(segs);
    assert forall i :: 0 < i < |m| ==> !Joins(m[i - 1], m[i]) by {
      forall i | 0 < i < |m| ensures !Joins(m[i - 1], m[i]) {
        var j := i - 1;
        assert !Joins(m[j], m[j + 1]);
      }
    }
    MergedUnjoined(m);
  }

  /** No segments give the empty connection string. */
  lemma RenderEmpty()
    ensures Render(Merged([])) == ""
  {
  }

  /** Three segments, the first two one ride on `T`, give `T : 1 -> 5 ; U : 1 -> 2`. */
  lemma RenderExample()
    ensures Render(Merged([Segment("T", 1, 3), Segment("T", 3, 5), Segment("U", 1, 2)])) == "T : 1 -> 5 ; U : 1 -> 2"
  {
    var segs := [Segment("T", 1, 3), Segment("T", 3, 5), Segment("U", 1, 2)];
    assert segs[..2][..1] == [Segment("T", 1, 3)];
    assert segs[..2] == [Segment("T", 1, 3), Segment("T", 3, 5)];
    assert MergeState(segs[..2]) == ([], Segment("T", 1, 5));
    var rides := [Segment("T", 1, 5), Segment("U", 1, 2)];
    assert Merged(segs) == rides;
    assert DigitChar(1) == '1' && DigitChar(2) == '2' && DigitChar(5) == '5';
    assert IntToString(1) == "1" && IntToString(5) == "5" && IntToString(2) == "2";
    assert Part(rides[0]) == "T : 1 -> 5";
    assert Part(rides[1]) == "U : 1 -> 2";
    var parts := seq(|rides|, i requires 0 <= i < |rides| => Part(rides[i]));
    assert parts == ["T : 1 -> 5", "U : 1 -> 2"];
    assert Join(parts, " ; ") == "T : 1 -> 5" + " ; " + Join(parts[1..], " ; ");
  }
}
