/** Rewriting the body of a LaTeX table in place: find the label, then its rules, and splice. */
module TableRewrite {
  import opened Wrappers

  const MIDRULE := "\\midrule"
  const BOTTOMRULE := "\\bottomrule"

  function LabelTag(name: string): string {
    "\\label{" + name + "}"
  }

  predicate At(t: string, p: string, i: int) {
    0 <= i && i + |p| <= |t| && t[i..i + |p|] == p
  }

  ghost predicate First(t: string, p: string, from: int, j: int) {
    from <= j && At(t, p, j) && forall m :: from <= m < j ==> !At(t, p, m)
  }

  predicate Contains(t: string, p: string) {
    exists i :: 0 <= i < |t| && At(t, p, i)
  }

  /** Position of the first occurrence at or after `from`, or -1. */
  function Find(t: string, p: string, from: nat): (r: int)
    ensures r >= 0 ==> First(t, p, from, r)
    ensures r < 0 ==> r == -1 && forall m :: from <= m ==> !At(t, p, m)
    decreases |t| - from
  {
    if from + |p| > |t| then -1
    else if At(t, p, from) || from == |t| then (if At(t, p, from) then from else -1)
    else Find(t, p, from + 1)
  }

  /** Where a table lies: its label, the rule its body follows, and the rule that ends it. */
  datatype Region = Region(tag: nat, mid: nat, bottom: nat)

  function Locate(tex: string, name: string): Option<Region> {
    var i := Find(tex, LabelTag(name), 0);
    if i < 0 then None
    else
      var start := Find(tex, MIDRULE, i);
      if start < 0 then None
      else
        var end := Find(tex, BOTTOMRULE, start);
        if end < 0 then None else Some(Region(i, start, end))
  }

  function BodyStart(r: Region): nat {
    r.mid + |MIDRULE|
  }

  /** A body on lines of its own. */
  function Block(body: string): string {
    "\n" + body + "\n"
  }

  function Splice(tex: string, r: Region, body: string): string
    requires BodyStart(r) <= |tex| && r.bottom <= |tex|
  {
    tex[..BodyStart(r)] + Block(body) + tex[r.bottom..]
  }

  lemma LocateFits(tex: string, name: string)
    requires Locate(tex, name).Some?
    ensures var r := Locate(tex, name).value;
            BodyStart(r) <= |tex| && r.bottom + |BOTTOMRULE| <= |tex|
  {
  }

  /** None when the program gives up because the label or a rule is missing. */
  function ReplaceBody(tex: string, name: string, body: string): Option<string> {
    match Locate(tex, name)
    case None => None
    case Some(r) => LocateFits(tex, name); Some(Splice(tex, r, body))
  }

  function ReadAt(tex: string, r: Region): Option<string> {
    if BodyStart(r) + 2 <= r.bottom <= |tex| && tex[BodyStart(r)] == '\n' && tex[r.bottom - 1] == '\n'
    then Some(tex[BodyStart(r) + 1..r.bottom - 1]) else None
  }

  /** The body as written by ReplaceBody: what stands between the rules, without its two newlines. */
  function ReadBody(tex: string, name: string): Option<string> {
    match Locate(tex, name)
    case None => None
    case Some(r) => ReadAt(tex, r)
  }

  // ----- Occurrences and splices -----

  lemma AtChar(t: string, p: string, i: int, k: int)
    requires At(t, p, i) && 0 <= k < |p|
    ensures t[i + k] == p[k]
  {
    assert t[i..i + |p|][k] == p[k];
  }

  /** Texts that agree on a prefix have the same occurrences inside it. */
  lemma AtPrefix(t: string, u: string, m: nat, p: string, i: int)
    requires m <= |t| && m <= |u| && t[..m] == u[..m] && i + |p| <= m
    ensures At(t, p, i) <==> At(u, p, i)
  {
    if i >= 0 {
      assert t[i..i + |p|] == t[..m][i..i + |p|] && u[i..i + |p|] == u[..m][i..i + |p|];
    }
  }

  /** Texts that agree on a suffix have the same occurrences inside it. */
  lemma AtSuffix(t: string, u: string, m: nat, n: nat, p: string, i: int)
    requires m <= |t| && n <= |u| && t[m..] == u[n..] && i >= m
    ensures At(t, p, i) <==> At(u, p, i - m + n)
  {
    assert |t| - m == |u| - n;
    if i + |p| <= |t| {
      var d := i - m;
      assert t[i..i + |p|] == t[m..][d..d + |p|];
      assert u[n + d..n + d + |p|] == u[n..][d..d + |p|];
    }
  }

  lemma FindIs(t: string, p: string, from: nat, j: nat)
    requires First(t, p, from, j)
    ensures Find(t, p, from) == j
  {
    hide At;
    assert At(t, p, j);
  }

  lemma FindPrefix(t: string, u: string, m: nat, p: string, from: nat, j: nat)
    requires m <= |t| && m <= |u| && t[..m] == u[..m]
    requires First(t, p, from, j) && j + |p| <= m
    ensures Find(u, p, from) == j
  {
    AtPrefix(t, u, m, p, j);
    forall k | from <= k < j ensures !At(u, p, k) {
      AtPrefix(t, u, m, p, k);
    }
    FindIs(u, p, from, j);
  }

  lemma FindSuffix(t: string, u: string, m: nat, n: nat, p: string, from: nat, j: nat)
    requires m <= |t| && n <= |u| && t[m..] == u[n..] && from >= m
    requires First(t, p, from, j)
    ensures Find(u, p, from - m + n) == j - m + n
  {
    AtSuffix(t, u, m, n, p, j);
    forall k | from - m + n <= k < j - m + n ensures !At(u, p, k) {
      AtSuffix(t, u, m, n, p, k + m - n);
    }
    FindIs(u, p, from - m + n, j - m + n);
  }

  /** A command name: a backslash, then no further backslash. */
  predicate IsCommand(p: string) {
    |p| >= 2 && p[0] == '\\' && '\\' !in p[1..]
  }

  lemma CommandTail(p: string, k: int)
    requires IsCommand(p) && 1 <= k < |p|
    ensures p[k] != '\\'
  {
    assert p[k] == p[1..][k - 1];
  }

  /** Different commands that start differently after the backslash cannot overlap. */
  lemma NoOverlap(t: string, p: string, i: int, q: string, j: int)
    requires IsCommand(p) && IsCommand(q) && p[1] != q[1]
    requires At(t, p, i) && At(t, q, j) && i <= j
    ensures i + |p| <= j
  {
    AtChar(t, q, j, 0);
    AtChar(t, q, j, 1);
    if i < j < i + |p| {
      CommandTail(p, j - i);
      AtChar(t, p, i, j - i);
    } else if j == i {
      AtChar(t, p, i, 1);
    }
  }

  predicate PlainLabel(name: string) {
    '\\' !in name
  }

  lemma TagIsCommand(name: string)
    requires PlainLabel(name)
    ensures IsCommand(LabelTag(name)) && LabelTag(name)[1] == 'l' && LabelTag(name)[|LabelTag(name)| - 1] == '}'
  {
    assert LabelTag(name)[1..] == "label{" + name + "}";
  }

  lemma LocateOrder(tex: string, name: string)
    requires PlainLabel(name) && Locate(tex, name).Some?
    ensures var r := Locate(tex, name).value;
            && First(tex, LabelTag(name), 0, r.tag) && First(tex, MIDRULE, r.tag, r.mid)
            && First(tex, BOTTOMRULE, r.mid, r.bottom)
            && r.tag + |LabelTag(name)| <= r.mid && BodyStart(r) <= r.bottom && r.bottom + |BOTTOMRULE| <= |tex|
  {
    var r := Locate(tex, name).value;
    TagIsCommand(name);
    assert IsCommand(MIDRULE) && IsCommand(BOTTOMRULE);
    NoOverlap(tex, LabelTag(name), r.tag, MIDRULE, r.mid);
    NoOverlap(tex, MIDRULE, r.mid, BOTTOMRULE, r.bottom);
  }

  lemma SpliceShape(tex: string, r: Region, body: string)
    requires BodyStart(r) <= r.bottom <= |tex|
    ensures var u, s := Splice(tex, r, body), BodyStart(r);
            && |u| == s + 2 + |body| + |tex| - r.bottom
            && u[..s] == tex[..s] && u[s] == '\n' && u[s + 1..s + 1 + |body|] == body
            && u[s + 1 + |body|] == '\n' && u[s + 2 + |body|..] == tex[r.bottom..]
  {
  }

  /** A command that does not occur in the body starts nowhere in the spliced part, nor runs out of it. */
  lemma NoneInBody(u: string, s: nat, body: string, p: string, m: nat)
    requires IsCommand(p) && p[|p| - 1] != '\n' && !Contains(body, p)
    requires s + 2 + |body| < |u| && u[s] == '\n' && u[s + 1..s + 1 + |body|] == body
    requires u[s + 1 + |body|] == '\n' && u[s + 2 + |body|] == '\\'
    requires s <= m < s + 2 + |body|
    ensures !At(u, p, m)
  {
    if At(u, p, m) {
      AtChar(u, p, m, 0);
      var k := m - s - 1;
      assert 0 <= k < |body| && body[k] == '\\';
      if k + |p| <= |body| {
        assert body[k..k + |p|] == u[m..m + |p|] == p;
        assert At(body, p, k);
      } else if k + |p| == |body| + 1 {
        AtChar(u, p, m, |p| - 1);
      } else {
        CommandTail(p, |body| - k + 1);
        AtChar(u, p, m, |body| - k + 1);
      }
    }
  }

  // ----- One table -----

  function Shifted(r: Region, body: string): Region {
    Region(r.tag, r.mid, BodyStart(r) + 2 + |body|)
  }

  lemma NoBottomBefore(tex: string, r: Region, body: string, m: nat)
    requires BodyStart(r) <= r.bottom && At(tex, MIDRULE, r.mid) && At(tex, BOTTOMRULE, r.bottom)
    requires !Contains(body, BOTTOMRULE) && r.mid <= m < BodyStart(r) + 2 + |body|
    ensures !At(Splice(tex, r, body), BOTTOMRULE, m)
  {
    var u, s := Splice(tex, r, body), BodyStart(r);
    SpliceShape(tex, r, body);
    AtPrefix(tex, u, s, MIDRULE, r.mid);
    if m < s {
      if At(u, BOTTOMRULE, m) {
        NoOverlap(u, MIDRULE, r.mid, BOTTOMRULE, m);
      }
    } else {
      AtChar(tex, BOTTOMRULE, r.bottom, 0);
      assert u[s + 2 + |body|] == u[s + 2 + |body|..][0];
      NoneInBody(u, s, body, BOTTOMRULE, m);
    }
  }

  lemma LocateBy(u: string, name: string, r: Region)
    requires Find(u, LabelTag(name), 0) == r.tag && Find(u, MIDRULE, r.tag) == r.mid
             && Find(u, BOTTOMRULE, r.mid) == r.bottom
    ensures Locate(u, name) == Some(r)
  {
  }

  lemma PutIs(tex: string, name: string, body: string)
    requires Locate(tex, name).Some?
    ensures var r := Locate(tex, name).value;
            BodyStart(r) <= |tex| && r.bottom <= |tex| && ReplaceBody(tex, name, body) == Some(Splice(tex, r, body))
  {
    LocateFits(tex, name);
  }

  /** The end rule is found right behind the new body. */
  lemma BottomAfterPut(tex: string, r: Region, body: string)
    requires BodyStart(r) <= r.bottom && At(tex, MIDRULE, r.mid) && At(tex, BOTTOMRULE, r.bottom)
             && !Contains(body, BOTTOMRULE)
    ensures Find(Splice(tex, r, body), BOTTOMRULE, r.mid) == BodyStart(r) + 2 + |body|
  {
    var u, e := Splice(tex, r, body), BodyStart(r) + 2 + |body|;
    SpliceShape(tex, r, body);
    AtSuffix(tex, u, r.bottom, e, BOTTOMRULE, r.bottom);
    hide Splice, At, Find, Contains;
    forall m | r.mid <= m < e ensures !At(u, BOTTOMRULE, m) {
      NoBottomBefore(tex, r, body, m);
    }
    FindIs(u, BOTTOMRULE, r.mid, e);
  }

  /** After a rewrite the same table is found again, with the new body between its rules. */
  lemma LocateAfterPut(tex: string, name: string, body: string)
    requires PlainLabel(name) && Locate(tex, name).Some? && !Contains(body, BOTTOMRULE)
    ensures ReplaceBody(tex, name, body).Some?
    ensures Locate(ReplaceBody(tex, name, body).value, name) == Some(Shifted(Locate(tex, name).value, body))
  {
    hide ReplaceBody, Locate, Splice, At, Find, Contains, LabelTag;
    PutIs(tex, name, body);
    LocateOrder(tex, name);
    var r := Locate(tex, name).value;
    var u, s := Splice(tex, r, body), BodyStart(r);
    SpliceShape(tex, r, body);
    FindPrefix(tex, u, s, LabelTag(name), 0, r.tag);
    FindPrefix(tex, u, s, MIDRULE, r.tag, r.mid);
    BottomAfterPut(tex, r, body);
    LocateBy(u, name, Shifted(r, body));
  }

  lemma InsideSplice(tex: string, r: Region, body: string, p: string, k: nat)
    requires BodyStart(r) <= r.bottom <= |tex| && k < |body| && At(body, p, k)
    ensures At(Splice(tex, r, body), p, BodyStart(r) + 1 + k)
  {
    SpliceShape(tex, r, body);
    var u, s := Splice(tex, r, body), BodyStart(r);
    hide Splice;
    assert u[s + 1 + k..s + 1 + k + |p|] == u[s + 1..s + 1 + |body|][k..k + |p|];
  }

  lemma BottomInBody(tex: string, r: Region, body: string)
    requires BodyStart(r) <= r.bottom && At(tex, MIDRULE, r.mid) && At(tex, BOTTOMRULE, r.bottom)
             && Contains(body, BOTTOMRULE)
    ensures BodyStart(r) <= Find(Splice(tex, r, body), BOTTOMRULE, r.mid) < BodyStart(r) + 1 + |body|
  {
    var k :| 0 <= k < |body| && At(body, BOTTOMRULE, k);
    hide Splice, At, Find;
    InsideSplice(tex, r, body, BOTTOMRULE, k);
    SpliceShape(tex, r, body);
    var u := Splice(tex, r, body);
    AtPrefix(tex, u, BodyStart(r), MIDRULE, r.mid);
    assert At(u, BOTTOMRULE, BodyStart(r) + 1 + k);
    NoOverlap(u, MIDRULE, r.mid, BOTTOMRULE, Find(u, BOTTOMRULE, r.mid));
  }

  /** A body with its own end rule is found cut short. */
  lemma LocateCutShort(tex: string, name: string, body: string)
    requires PlainLabel(name) && Locate(tex, name).Some? && Contains(body, BOTTOMRULE)
    ensures ReplaceBody(tex, name, body).Some?
    ensures var r := Locate(tex, name).value;
            var after := Locate(ReplaceBody(tex, name, body).value, name);
            after.Some? && after.value.mid == r.mid && after.value.tag == r.tag
            && BodyStart(r) <= after.value.bottom < BodyStart(r) + 1 + |body|
  {
    hide ReplaceBody, Locate, Splice, At, Find, Contains, LabelTag;
    PutIs(tex, name, body);
    LocateOrder(tex, name);
    var r := Locate(tex, name).value;
    var u, s := Splice(tex, r, body), BodyStart(r);
    SpliceShape(tex, r, body);
    FindPrefix(tex, u, s, LabelTag(name), 0, r.tag);
    FindPrefix(tex, u, s, MIDRULE, r.tag, r.mid);
    BottomInBody(tex, r, body);
    LocateBy(u, name, Region(r.tag, r.mid, Find(u, BOTTOMRULE, r.mid)));
  }

  lemma ReadShape(u: string, s: nat, e: nat, body: string)
    requires s + 2 + |body| < |u| && u[s] == '\n' && u[s + 1..s + 1 + |body|] == body && u[s + 1 + |body|] == '\n'
    requires s <= e <= |u|
    ensures (s + 2 <= e && u[s] == '\n' && u[e - 1] == '\n' && u[s + 1..e - 1] == body) <==> e == s + 2 + |body|
  {
  }

  /** Reading back gives the body just written, exactly when the body has no end rule of its own. */
  lemma PutGet(tex: string, name: string, body: string)
    requires PlainLabel(name) && Locate(tex, name).Some?
    ensures ReadBody(ReplaceBody(tex, name, body).value, name) == Some(body) <==> !Contains(body, BOTTOMRULE)
  {
    hide Find, LabelTag, Contains, At;
    LocateOrder(tex, name);
    var r := Locate(tex, name).value;
    var u, s := Splice(tex, r, body), BodyStart(r);
    SpliceShape(tex, r, body);
    if Contains(body, BOTTOMRULE) {
      LocateCutShort(tex, name, body);
    } else {
      LocateAfterPut(tex, name, body);
    }
    assert ReplaceBody(tex, name, body) == Some(u);
    hide Splice, Locate, ReplaceBody;
    ReadShape(u, s, Locate(u, name).value.bottom, body);
  }

  /** A second splice over the first keeps the prefix and replaces everything up to where the second one ends. */
  lemma SpliceTwice(tex: string, u: string, r: Region, r': Region, body: string)
    requires BodyStart(r) <= r.bottom <= |tex| && BodyStart(r) <= r'.bottom <= |u| && r'.mid == r.mid
    requires u[..BodyStart(r)] == tex[..BodyStart(r)]
    ensures Splice(u, r', body) == Splice(tex, r, body) <==> u[r'.bottom..] == tex[r.bottom..]
  {
    SpliceShape(tex, r, body);
    SpliceShape(u, r', body);
  }

  /**
    Rewriting twice equals rewriting once with the last body, exactly when the first body has no
    end rule of its own.
   */
  lemma PutPut(tex: string, name: string, body1: string, body2: string)
    requires PlainLabel(name) && Locate(tex, name).Some?
    ensures ReplaceBody(ReplaceBody(tex, name, body1).value, name, body2) == ReplaceBody(tex, name, body2)
            <==> !Contains(body1, BOTTOMRULE)
  {
    LocateOrder(tex, name);
    var r := Locate(tex, name).value;
    var u := Splice(tex, r, body1);
    SpliceShape(tex, r, body1);
    if Contains(body1, BOTTOMRULE) {
      LocateCutShort(tex, name, body1);
    } else {
      LocateAfterPut(tex, name, body1);
    }
    hide Splice, Locate, LabelTag, Contains, At;
    var r' := Locate(u, name).value;
    LocateFits(u, name);
    SpliceTwice(tex, u, r, r', body2);
  }
}
