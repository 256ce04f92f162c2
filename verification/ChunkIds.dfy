/** Chunk ids `<source>_chunk_<n>` and citation anchors `<source>#chunk-<n>`. */
module ChunkIds {
  import opened Text

  const ANCHOR_MARK := "#chunk-"

  function ChunkId(source: string, n: nat): string { source + "_chunk_" + ToDecimal(n) }

  function Anchor(source: string, n: nat): string { source + ANCHOR_MARK + ToDecimal(n) }

  /** app.py `retrieve_fn`: cut the anchor at the mark and rebuild the id of the ingested chunk. */
  function RebuildChunkId(anchor: string): Option<string> {
    var pieces := SplitOn(anchor, ANCHOR_MARK);
    if |pieces| < 2 then None else Some(pieces[0] + "_chunk_" + pieces[1])
  }

  lemma NumeralFollowsUnderscore(id: string, source: string, n: nat)
    requires id == ChunkId(source, n)
    ensures |id| > |ToDecimal(n)| && id[|id| - |ToDecimal(n)| - 1] == '_'
    ensures forall j :: |id| - |ToDecimal(n)| <= j < |id| ==> IsDigit(id[j])
    ensures id[|id| - |ToDecimal(n)|..] == ToDecimal(n)
    ensures |id| >= |ToDecimal(n)| + 7 && id[..|id| - |ToDecimal(n)| - 7] == source
  {
    DecimalDigits(n);
  }

  /** No two chunks of any two documents share an id. */
  lemma ChunkIdInjective(s1: string, n1: nat, s2: string, n2: nat)
    requires ChunkId(s1, n1) == ChunkId(s2, n2)
    ensures s1 == s2 && n1 == n2
  {
    var id := ChunkId(s1, n1);
    NumeralFollowsUnderscore(id, s1, n1);
    NumeralFollowsUnderscore(id, s2, n2);
    assert |ToDecimal(n1)| == |ToDecimal(n2)|;
    DecimalRoundTrip(n1);
    DecimalRoundTrip(n2);
  }

  // ---- Cutting an anchor ----

  lemma {:induction false} DigitsHoldNoMark(cur: string, digits: string)
    requires forall i :: 0 <= i < |digits| ==> IsDigit(digits[i])
    ensures SplitFrom(cur, digits, ANCHOR_MARK) == [cur + digits]
    decreases |digits|
  {
    if digits == "" {
      assert cur + digits == cur;
    } else {
      assert ANCHOR_MARK[0] == '#' && !IsDigit('#');
      DigitsHoldNoMark(cur + [digits[0]], digits[1..]);
      assert cur + [digits[0]] + digits[1..] == cur + digits;
    }
  }

  /** The mark overlaps itself nowhere, so in u + mark + d it starts inside u or exactly after it. */
  lemma MarkPosition(u: string, d: string)
    requires ANCHOR_MARK <= u + ANCHOR_MARK + d
    ensures u == "" || ANCHOR_MARK <= u
  {
    var s := u + ANCHOR_MARK + d;
    assert s[|u|] == '#';
    assert forall j :: 0 < j < 7 ==> ANCHOR_MARK[j] != '#';
    assert s[..7] == ANCHOR_MARK;
    if |u| >= 7 {
      assert s[..7] == u[..7];
    }
  }

  lemma {:induction false} SplitPlainAnchor(cur: string, u: string, d: string)
    requires !Contains(u, ANCHOR_MARK)
    requires forall i :: 0 <= i < |d| ==> IsDigit(d[i])
    ensures SplitFrom(cur, u + ANCHOR_MARK + d, ANCHOR_MARK) == [cur + u, d]
    decreases |u|
  {
    var s := u + ANCHOR_MARK + d;
    if u == "" {
      assert s[7..] == d;
      DigitsHoldNoMark("", d);
      assert "" + d == d && cur + u == cur;
    } else {
      if ANCHOR_MARK <= s {
        MarkPosition(u, d);
        assert OccursAt(u, ANCHOR_MARK, 0);
      }
      assert s[1..] == u[1..] + ANCHOR_MARK + d;
      forall i: nat | OccursAt(u[1..], ANCHOR_MARK, i) ensures false {
        assert OccursAt(u, ANCHOR_MARK, i + 1);
      }
      SplitPlainAnchor(cur + [u[0]], u[1..], d);
      assert cur + [u[0]] + u[1..] == cur + u;
    }
  }

  function TotalLength(pieces: seq<string>): nat {
    if pieces == [] then 0 else |pieces[0]| + TotalLength(pieces[1..])
  }

  lemma {:induction false} SplitLength(cur: string, s: string)
    ensures TotalLength(SplitFrom(cur, s, ANCHOR_MARK)) + 7 * (|SplitFrom(cur, s, ANCHOR_MARK)| - 1) == |cur| + |s|
    decreases |s|
  {
    if s == "" {
    } else if ANCHOR_MARK <= s {
      SplitLength("", s[7..]);
      assert SplitFrom(cur, s, ANCHOR_MARK)[1..] == SplitFrom("", s[7..], ANCHOR_MARK);
    } else {
      SplitLength(cur + [s[0]], s[1..]);
    }
  }

  /** One mark gives at least two pieces; a mark inside the source gives at least three. */
  lemma {:induction false} SplitPieceCount(cur: string, u: string, d: string)
    ensures |SplitFrom(cur, u + ANCHOR_MARK + d, ANCHOR_MARK)| >= 2
    ensures Contains(u, ANCHOR_MARK) ==> |SplitFrom(cur, u + ANCHOR_MARK + d, ANCHOR_MARK)| >= 3
    decreases |u|
  {
    var s := u + ANCHOR_MARK + d;
    if u == "" || OccursAt(u, ANCHOR_MARK, 0) {
      assert s[..7] == ANCHOR_MARK;
    }
    if ANCHOR_MARK <= s {
      MarkPosition(u, d);
      if u == "" {
        assert !Contains(u, ANCHOR_MARK);
      } else {
        assert s[7..] == u[7..] + ANCHOR_MARK + d;
        SplitPieceCount("", u[7..], d);
      }
    } else {
      assert s[1..] == u[1..] + ANCHOR_MARK + d;
      SplitPieceCount(cur + [u[0]], u[1..], d);
      if Contains(u, ANCHOR_MARK) {
        var i: nat :| i <= |u| && OccursAt(u, ANCHOR_MARK, i);
        assert i != 0;
        assert OccursAt(u[1..], ANCHOR_MARK, i - 1);
      }
    }
  }

  /** Rebuilding the id from the printed anchor works exactly for sources without the mark. */
  lemma AnchorRoundTrip(source: string, n: nat)
    ensures RebuildChunkId(Anchor(source, n)) == Some(ChunkId(source, n)) <==> !Contains(source, ANCHOR_MARK)
  {
    var d := ToDecimal(n);
    DecimalDigits(n);
    if !Contains(source, ANCHOR_MARK) {
      SplitPlainAnchor("", source, d);
      assert "" + source == source;
    } else {
      SplitPieceCount("", source, d);
      var pieces := SplitOn(Anchor(source, n), ANCHOR_MARK);
      SplitLength("", Anchor(source, n));
      assert TotalLength(pieces) >= |pieces[0]| + |pieces[1]| by {
        assert pieces[1..][1..] == pieces[2..];
        assert TotalLength(pieces) == |pieces[0]| + TotalLength(pieces[1..]);
        assert pieces[1..][0] == pieces[1];
      }
      assert |pieces[0] + "_chunk_" + pieces[1]| < |ChunkId(source, n)|;
    }
  }
}
