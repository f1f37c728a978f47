/**
  Two tables in one document: rewriting one leaves the other alone, the order of the two
  rewrites does not matter, and running the whole fill again is the same as running it once.
 */
module TableRerun {
  import opened TableRewrite
  import opened Wrappers

  /** The first table ends before the label of the second. */
  ghost predicate Before(tex: string, name1: string, name2: string) {
    && PlainLabel(name1) && PlainLabel(name2)
    && Locate(tex, name1).Some? && Locate(tex, name2).Some?
    && Locate(tex, name1).value.bottom <= Locate(tex, name2).value.tag
  }

  function MovedBy(r: Region, d: int): Region
    requires r.tag + d >= 0 && r.mid + d >= 0 && r.bottom + d >= 0
  {
    Region(r.tag + d, r.mid + d, r.bottom + d)
  }

  /** How far a rewrite of r moves everything behind it. */
  function Growth(r: Region, body: string): int {
    BodyStart(r) + 2 + |body| - r.bottom
  }

  /** The rewritten first table holds no label of the second that was not there before. */
  lemma NoTagBefore(tex: string, r: Region, body: string, p: string, at: nat, m: nat)
    requires IsCommand(p) && p[1] == 'l' && p[|p| - 1] != '\n' && !Contains(body, p)
    requires BodyStart(r) <= r.bottom <= at && At(tex, MIDRULE, r.mid) && At(tex, BOTTOMRULE, r.bottom)
    requires First(tex, p, 0, at) && m < at + Growth(r, body)
    ensures !At(Splice(tex, r, body), p, m)
  {
    var u, s, e := Splice(tex, r, body), BodyStart(r), BodyStart(r) + 2 + |body|;
    SpliceShape(tex, r, body);
    if m < s {
      TagInPrefix(tex, u, r.mid, p, m);
    } else if m < e {
      AtChar(tex, BOTTOMRULE, r.bottom, 0);
      assert u[e] == u[e..][0];
      hide Splice, At, Contains;
      NoneInBody(u, s, body, p, m);
    } else {
      hide Splice, At, Contains;
      AtSuffix(tex, u, r.bottom, e, p, m - Growth(r, body));
    }
  }

  lemma TagInPrefix(tex: string, u: string, mid: nat, p: string, m: nat)
    requires IsCommand(p) && p[1] == 'l' && At(tex, MIDRULE, mid)
    requires m < mid + |MIDRULE| <= |u| && u[..mid + |MIDRULE|] == tex[..mid + |MIDRULE|]
    requires !At(tex, p, m)
    ensures !At(u, p, m)
  {
    var s := mid + |MIDRULE|;
    AtPrefix(tex, u, s, MIDRULE, mid);
    if At(u, p, m) {
      if m <= mid {
        NoOverlap(u, p, m, MIDRULE, mid);
        AtPrefix(tex, u, s, p, m);
      } else {
        NoOverlap(u, MIDRULE, mid, p, m);
      }
    }
  }

  lemma TagMoves(tex: string, r: Region, body: string, p: string, at: nat)
    requires BodyStart(r) <= r.bottom <= at && r.bottom <= |tex| && At(tex, p, at)
    ensures At(Splice(tex, r, body), p, at + Growth(r, body))
  {
    SpliceShape(tex, r, body);
    AtSuffix(tex, Splice(tex, r, body), r.bottom, BodyStart(r) + 2 + |body|, p, at);
  }

  lemma TagAfterPut(tex: string, r: Region, body: string, p: string, at: nat)
    requires IsCommand(p) && p[1] == 'l' && p[|p| - 1] != '\n' && !Contains(body, p)
    requires BodyStart(r) <= r.bottom <= at && At(tex, MIDRULE, r.mid) && At(tex, BOTTOMRULE, r.bottom)
    requires First(tex, p, 0, at)
    ensures at + Growth(r, body) >= 0 && First(Splice(tex, r, body), p, 0, at + Growth(r, body))
  {
    TagMoves(tex, r, body, p, at);
    hide Splice, Block, Contains, IsCommand;
    forall m | 0 <= m < at + Growth(r, body) ensures !At(Splice(tex, r, body), p, m) {
      NoTagBefore(tex, r, body, p, at, m);
    }
  }

  /** Rewriting the first table moves the second as a whole. */
  lemma LaterTableMoves(tex: string, name1: string, body1: string, name2: string)
    requires Before(tex, name1, name2) && !Contains(body1, LabelTag(name2))
    ensures ReplaceBody(tex, name1, body1).Some?
    ensures var r1, r2 := Locate(tex, name1).value, Locate(tex, name2).value;
            && r2.tag <= r2.mid <= r2.bottom && BodyStart(r1) <= r1.bottom
            && Locate(ReplaceBody(tex, name1, body1).value, name2) == Some(MovedBy(r2, Growth(r1, body1)))
  {
    hide ReplaceBody, Locate, Splice, At, Find, Contains, LabelTag;
    PutIs(tex, name1, body1);
    LocateOrder(tex, name1);
    LocateOrder(tex, name2);
    TagIsCommand(name2);
    var r1, r2 := Locate(tex, name1).value, Locate(tex, name2).value;
    var u, e := Splice(tex, r1, body1), BodyStart(r1) + 2 + |body1|;
    SpliceShape(tex, r1, body1);
    TagAfterPut(tex, r1, body1, LabelTag(name2), r2.tag);
    FindIs(u, LabelTag(name2), 0, r2.tag + Growth(r1, body1));
    FindSuffix(tex, u, r1.bottom, e, MIDRULE, r2.tag, r2.mid);
    FindSuffix(tex, u, r1.bottom, e, BOTTOMRULE, r2.mid, r2.bottom);
    LocateBy(u, name2, MovedBy(r2, Growth(r1, body1)));
  }

  /** Rewriting the second table leaves the first where it is. */
  lemma EarlierTableStays(tex: string, name1: string, name2: string, body2: string)
    requires Before(tex, name1, name2)
    ensures ReplaceBody(tex, name2, body2).Some?
    ensures Locate(ReplaceBody(tex, name2, body2).value, name1) == Locate(tex, name1)
    ensures Locate(tex, name1).value.bottom + |BOTTOMRULE| <= Locate(tex, name2).value.tag
            <= BodyStart(Locate(tex, name2).value)
  {
    hide ReplaceBody, Locate, Splice, At, Find, Contains, LabelTag;
    PutIs(tex, name2, body2);
    LocateOrder(tex, name1);
    LocateOrder(tex, name2);
    TagIsCommand(name2);
    var r1, r2 := Locate(tex, name1).value, Locate(tex, name2).value;
    var u, s := Splice(tex, r2, body2), BodyStart(r2);
    SpliceShape(tex, r2, body2);
    NoOverlap(tex, BOTTOMRULE, r1.bottom, LabelTag(name2), r2.tag);
    FindPrefix(tex, u, s, LabelTag(name1), 0, r1.tag);
    FindPrefix(tex, u, s, MIDRULE, r1.tag, r1.mid);
    FindPrefix(tex, u, s, BOTTOMRULE, r1.mid, r1.bottom);
    LocateBy(u, name1, r1);
  }

  lemma SplicesCommute(tex: string, r1: Region, body1: string, r2: Region, body2: string)
    requires BodyStart(r1) <= r1.bottom <= r2.tag <= r2.mid && BodyStart(r2) <= r2.bottom <= |tex|
    ensures var u1, u2, moved := Splice(tex, r1, body1), Splice(tex, r2, body2), MovedBy(r2, Growth(r1, body1));
            && BodyStart(moved) <= moved.bottom <= |u1| && r1.bottom <= |u2|
            && Splice(u1, moved, body2) == Splice(u2, r1, body1)
  {
    var u1, u2, moved := Splice(tex, r1, body1), Splice(tex, r2, body2), MovedBy(r2, Growth(r1, body1));
    var head, middle, tail := tex[..BodyStart(r1)], tex[r1.bottom..BodyStart(r2)], tex[r2.bottom..];
    FirstSpliced(tex, r1, body1, r2, head, middle, tail);
    SecondSpliced(tex, r1, r2, body2, head, middle, tail);
    hide Block;
    assert Splice(u1, moved, body2) == (head + Block(body1) + middle) + Block(body2) + tail;
    assert Splice(u2, r1, body1) == head + Block(body1) + (middle + Block(body2) + tail);
  }

  lemma FirstSpliced(tex: string, r1: Region, body1: string, r2: Region, head: string, middle: string, tail: string)
    requires BodyStart(r1) <= r1.bottom <= r2.tag <= r2.mid && BodyStart(r2) <= r2.bottom <= |tex|
    requires head == tex[..BodyStart(r1)] && middle == tex[r1.bottom..BodyStart(r2)] && tail == tex[r2.bottom..]
    ensures var u1, moved := Splice(tex, r1, body1), MovedBy(r2, Growth(r1, body1));
            && BodyStart(moved) <= moved.bottom <= |u1|
            && u1[..BodyStart(moved)] == head + Block(body1) + middle && u1[moved.bottom..] == tail
  {
    var u1, moved := Splice(tex, r1, body1), MovedBy(r2, Growth(r1, body1));
    var rest := tex[r1.bottom..];
    assert rest[..BodyStart(r2) - r1.bottom] == middle && rest[r2.bottom - r1.bottom..] == tail;
    assert |Block(body1)| == |body1| + 2;
  }

  lemma SecondSpliced(tex: string, r1: Region, r2: Region, body2: string, head: string, middle: string, tail: string)
    requires BodyStart(r1) <= r1.bottom <= BodyStart(r2) <= r2.bottom <= |tex|
    requires head == tex[..BodyStart(r1)] && middle == tex[r1.bottom..BodyStart(r2)] && tail == tex[r2.bottom..]
    ensures var u2 := Splice(tex, r2, body2);
            r1.bottom <= |u2| && u2[..BodyStart(r1)] == head && u2[r1.bottom..] == middle + Block(body2) + tail
  {
  }

  /** The order in which two tables are rewritten does not matter. */
  lemma PutsCommute(tex: string, name1: string, body1: string, name2: string, body2: string)
    requires Before(tex, name1, name2) && !Contains(body1, LabelTag(name2))
    ensures ReplaceBody(tex, name1, body1).Some? && ReplaceBody(tex, name2, body2).Some?
    ensures var done := ReplaceBody(ReplaceBody(tex, name1, body1).value, name2, body2);
            done.Some? && done == ReplaceBody(ReplaceBody(tex, name2, body2).value, name1, body1)
  {
    LaterTableMoves(tex, name1, body1, name2);
    EarlierTableStays(tex, name1, name2, body2);
    LocateOrder(tex, name1);
    LocateOrder(tex, name2);
    hide ReplaceBody, Locate, Splice, At, Find, Contains, LabelTag;
    PutIs(tex, name1, body1);
    PutIs(tex, name2, body2);
    PutIs(ReplaceBody(tex, name1, body1).value, name2, body2);
    PutIs(ReplaceBody(tex, name2, body2).value, name1, body1);
    SplicesCommute(tex, Locate(tex, name1).value, body1, Locate(tex, name2).value, body2);
  }

  /** Main frame result: a rewrite changes only its own table, whichever of the two comes first. */
  lemma OtherBodyUnchanged(tex: string, name1: string, body1: string, name2: string, body2: string)
    requires Before(tex, name1, name2) && !Contains(body1, LabelTag(name2))
    ensures ReplaceBody(tex, name1, body1).Some? && ReplaceBody(tex, name2, body2).Some?
    ensures ReadBody(ReplaceBody(tex, name1, body1).value, name2) == ReadBody(tex, name2)
    ensures ReadBody(ReplaceBody(tex, name2, body2).value, name1) == ReadBody(tex, name1)
  {
    LaterTableMoves(tex, name1, body1, name2);
    EarlierTableStays(tex, name1, name2, body2);
    LocateOrder(tex, name1);
    LocateOrder(tex, name2);
    hide ReplaceBody, Locate, ReadAt, Splice, At, Find, Contains, LabelTag;
    PutIs(tex, name1, body1);
    PutIs(tex, name2, body2);
    var r1, r2 := Locate(tex, name1).value, Locate(tex, name2).value;
    SpliceShape(tex, r1, body1);
    SuffixSame(tex, Splice(tex, r1, body1), r1.bottom, Growth(r1, body1));
    ReadAtMoved(tex, Splice(tex, r1, body1), r1.bottom, Growth(r1, body1), r2);
    ReadKept(tex, r1, r2, body2);
  }

  /** u holds the characters of t from m on, d places later. */
  ghost predicate SameFrom(t: string, u: string, m: nat, d: int) {
    0 <= m + d && |u| == |t| + d && forall k :: m <= k < |t| ==> t[k] == u[k + d]
  }

  lemma SuffixSame(t: string, u: string, m: nat, d: int)
    requires 0 <= m + d && m <= |t| && m + d <= |u| && t[m..] == u[m + d..]
    ensures SameFrom(t, u, m, d)
  {
    var v := t[m..];
    forall k | m <= k < |t| ensures t[k] == u[k + d] {
      assert t[k] == v[k - m] == u[k + d];
    }
  }

  lemma ReadAtMoved(t: string, u: string, m: nat, d: int, r: Region)
    requires SameFrom(t, u, m, d) && m <= r.tag <= r.mid && BodyStart(r) <= r.bottom <= |t|
    ensures ReadAt(u, MovedBy(r, d)) == ReadAt(t, r)
  {
    var i, j := BodyStart(r), r.bottom;
    if i + 2 <= j {
      assert t[i] == u[i + d] && t[j - 1] == u[j - 1 + d];
      assert t[i + 1..j - 1] == u[i + 1 + d..j - 1 + d];
    }
  }

  lemma ReadKept(tex: string, r1: Region, r2: Region, body2: string)
    requires BodyStart(r1) <= r1.bottom <= BodyStart(r2) <= r2.bottom <= |tex|
    ensures ReadAt(Splice(tex, r2, body2), r1) == ReadAt(tex, r1)
  {
    var u, s := Splice(tex, r2, body2), BodyStart(r2);
    SpliceShape(tex, r2, body2);
    hide Splice;
    assert forall k :: 0 <= k < s ==> tex[k] == tex[..s][k] == u[k];
    if BodyStart(r1) + 2 <= r1.bottom {
      assert u[BodyStart(r1) + 1..r1.bottom - 1] == tex[BodyStart(r1) + 1..r1.bottom - 1];
    }
  }

  // ----- The whole fill -----

  const STRATEGIES := "tab:realD"
  const SLOPES := "tab:slopeD"

  function Fill(tex: string, strategies: string, slopes: string): Option<string> {
    match ReplaceBody(tex, STRATEGIES, strategies)
    case None => None
    case Some(t) => ReplaceBody(t, SLOPES, slopes)
  }

  /** Both tables exist and neither lies inside the other. */
  ghost predicate Separate(tex: string) {
    Before(tex, STRATEGIES, SLOPES) || Before(tex, SLOPES, STRATEGIES)
  }

  /** Rows only: no end rule and no label of either table. Middle rules are allowed. */
  predicate Rows(body: string) {
    !Contains(body, BOTTOMRULE) && !Contains(body, LabelTag(STRATEGIES)) && !Contains(body, LabelTag(SLOPES))
  }

  /** Rewriting either table keeps the two separate. */
  lemma StaySeparate(tex: string, name: string, body: string)
    requires Separate(tex) && Rows(body) && (name == STRATEGIES || name == SLOPES)
    ensures ReplaceBody(tex, name, body).Some? && Separate(ReplaceBody(tex, name, body).value)
    ensures Locate(tex, STRATEGIES).Some? && Locate(tex, SLOPES).Some?
  {
    hide ReplaceBody, Locate, LabelTag, Contains;
    LocateAfterPut(tex, name, body);
    var other := if name == STRATEGIES then SLOPES else STRATEGIES;
    LocateOrder(tex, other);
    LocateOrder(tex, name);
    if Before(tex, name, other) {
      LaterTableMoves(tex, name, body, other);
      assert Before(ReplaceBody(tex, name, body).value, name, other);
    } else {
      EarlierTableStays(tex, other, name, body);
      assert Before(ReplaceBody(tex, name, body).value, other, name);
    }
  }

  lemma FillOrder(tex: string, strategies: string, slopes: string)
    requires Separate(tex) && Rows(strategies) && Rows(slopes)
    ensures ReplaceBody(tex, STRATEGIES, strategies).Some? && ReplaceBody(tex, SLOPES, slopes).Some?
    ensures ReplaceBody(ReplaceBody(tex, STRATEGIES, strategies).value, SLOPES, slopes)
            == ReplaceBody(ReplaceBody(tex, SLOPES, slopes).value, STRATEGIES, strategies)
  {
    hide ReplaceBody, Locate, LabelTag, Contains;
    if Before(tex, STRATEGIES, SLOPES) {
      PutsCommute(tex, STRATEGIES, strategies, SLOPES, slopes);
    } else {
      PutsCommute(tex, SLOPES, slopes, STRATEGIES, strategies);
    }
  }

  /** Main result, the documented promise: re-running is safe, and equals running once with the latest rows. */
  lemma RerunIsSafe(tex: string, strategies1: string, slopes1: string, strategies2: string, slopes2: string)
    requires Separate(tex) && Rows(strategies1) && Rows(slopes1) && Rows(strategies2) && Rows(slopes2)
    ensures Fill(tex, strategies1, slopes1).Some?
    ensures Fill(Fill(tex, strategies1, slopes1).value, strategies2, slopes2) == Fill(tex, strategies2, slopes2)
  {
    hide ReplaceBody, Locate, LabelTag, Contains, Separate;
    StaySeparate(tex, STRATEGIES, strategies1);
    var t1 := ReplaceBody(tex, STRATEGIES, strategies1).value;
    StaySeparate(t1, SLOPES, slopes1);
    FillOrder(t1, strategies2, slopes1);
    PutPut(tex, STRATEGIES, strategies1, strategies2);
    StaySeparate(tex, STRATEGIES, strategies2);
    var w := ReplaceBody(tex, STRATEGIES, strategies2).value;
    StaySeparate(w, SLOPES, slopes1);
    PutPut(w, SLOPES, slopes1, slopes2);
  }

  /** After a fill both tables read back as the rows given. */
  lemma FillReadsBack(tex: string, strategies: string, slopes: string)
    requires Separate(tex) && Rows(strategies) && Rows(slopes)
    ensures Fill(tex, strategies, slopes).Some?
    ensures ReadBody(Fill(tex, strategies, slopes).value, STRATEGIES) == Some(strategies)
    ensures ReadBody(Fill(tex, strategies, slopes).value, SLOPES) == Some(slopes)
  {
    hide ReplaceBody, Locate, LabelTag, Contains, ReadBody, Separate;
    StaySeparate(tex, STRATEGIES, strategies);
    var t1 := ReplaceBody(tex, STRATEGIES, strategies).value;
    StaySeparate(t1, SLOPES, slopes);
    FillOrder(tex, strategies, slopes);
    StaySeparate(tex, SLOPES, slopes);
    var w := ReplaceBody(tex, SLOPES, slopes).value;
    StaySeparate(w, STRATEGIES, strategies);
    PutGet(t1, SLOPES, slopes);
    PutGet(w, STRATEGIES, strategies);
  }
}
