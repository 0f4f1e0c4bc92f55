/** What the chunks of a split message spell: the content itself, up to whitespace between
    chunks, plus re-opened headers and closing fences. */
module Preservation {
  import opened FenceText
  import opened Sequences
  import opened Splitter

  /** A header line of the content: newline-free consecutive runes of it that begin with a fence. */
  ghost predicate HeaderOf(h: string, content: string) {
    HeaderShape(h) && Inside(h, content)
  }

  /** Runes that come from a re-opened header of the content and the newline behind it. */
  ghost predicate Injected(x: string, content: string, limit: int) {
    x == "" || exists h :: HeaderOf(h, content) && |h| <= limit && Inside(x, h + "\n")
  }

  /** How a chunk is made: injected header runes, the copied runes content[from..to], and
      possibly a closing fence. */
  datatype Piece = Piece(header: string, from: nat, to: nat, closed: bool) {
    predicate Fits(content: string) { from <= to <= |content| }

    function Text(content: string): string
      requires Fits(content)
    {
      header + content[from..to] + if closed then CLOSING else ""
    }
  }

  /** The pieces make the chunks, and the copied runes, in order, are the content from k on with
      nothing but whitespace left out. */
  ghost predicate Spells(content: string, k: nat, limit: int, chunks: seq<string>, pieces: seq<Piece>)
    requires k <= |content|
    decreases |pieces|
  {
    && |chunks| == |pieces|
    && if pieces == [] then AllSpace(content[k..]) else
       var p := pieces[0];
       && p.Fits(content) && k <= p.from && AllSpace(content[k..p.from])
       && Injected(p.header, content, limit)
       && (p.closed ==> !NoFence(content))
       && chunks[0] == p.Text(content)
       && Spells(content, p.to, limit, chunks[1..], pieces[1..])
  }

  ghost predicate Spelled(content: string, limit: int, chunks: seq<string>) {
    exists pieces :: Spells(content, 0, limit, chunks, pieces)
  }

  // ------------------------------------------------------------ runes within runes

  lemma SliceWithin(s: string, a: nat, b: nat)
    requires a <= b <= |s|
    ensures Inside(s[a..b], s)
  {
  }

  /** Newline-free runes of a line and its newline lie in the line. */
  lemma LineWithin(x: string, h: string)
    requires Inside(x, h + "\n") && forall i :: 0 <= i < |x| ==> x[i] != '\n'
    ensures Inside(x, h)
  {
    var s := h + "\n";
    var a, b :| 0 <= a <= b <= |s| && x == s[a..b];
    if a == b {
      assert x == h[0..0];
    } else {
      assert x[|x| - 1] == s[b - 1];
      assert x == h[a..b];
    }
  }

  lemma InjectedSlice(hd: string, a: nat, b: nat, content: string, limit: int)
    requires a <= b <= |hd| && Injected(hd, content, limit)
    ensures Injected(hd[a..b], content, limit)
  {
    if a < b {
      var h :| HeaderOf(h, content) && |h| <= limit && Inside(hd, h + "\n");
      SliceWithin(hd, a, b);
      InsideTrans(hd[a..b], hd, h + "\n");
    }
  }

  // ------------------------------------------------------------ texts still to be sent

  /** A text still to be sent: injected runes hd followed by content[from..to], where only
      whitespace of the content lies behind `to`. */
  datatype View = View(hd: string, from: nat, to: nat) {
    ghost predicate Of(t: string, content: string, maxLen: nat) {
      && from <= to <= |content|
      && t == hd + content[from..to]
      && AllSpace(content[to..])
      && Injected(hd, content, maxLen - 7)
      && (hd != "" ==> hd[|hd| - 1] == '\n' || |t| <= maxLen)
    }

    /** The view left when the first m runes are gone. */
    function Drop(m: nat): View {
      View(hd[Min(m, |hd|)..], from + Max(m - |hd|, 0), to)
    }
  }

  lemma InjectedIsShort(hd: string, content: string, limit: int)
    requires Injected(hd, content, limit)
    ensures hd == "" || |hd| <= limit + 1
  {
  }

  lemma ConcatCut(x: string, y: string, m: nat)
    requires m <= |x| + |y|
    ensures (x + y)[..m] == x[..Min(m, |x|)] + y[0..Max(m - |x|, 0)]
    ensures (x + y)[m..] == x[Min(m, |x|)..] + y[Max(m - |x|, 0)..|y|]
  {
  }

  lemma TakeConcat(line: string, content: string, from: nat, to: nat, b: nat)
    requires from <= to <= |content| && b <= |line| + (to - from)
    ensures (line + content[from..to])[..b] == line[..Min(b, |line|)] + content[from..from + Max(0, b - |line|)]
  {
    ConcatCut(line, content[from..to], b);
    SliceOfSlice(content, from, to, 0, Max(0, b - |line|));
  }

  lemma DropConcat(line: string, content: string, from: nat, to: nat, b: nat)
    requires from <= to <= |content| && b <= |line| + (to - from)
    ensures (line + content[from..to])[b..] == line[Min(b, |line|)..] + content[from + Max(0, b - |line|)..to]
  {
    ConcatCut(line, content[from..to], b);
    SliceOfSlice(content, from, to, Max(0, b - |line|), to - from);
  }

  /** Cutting a text at m cuts its injected front and its copied rest. */
  lemma ViewCut(v: View, t: string, content: string, maxLen: nat, m: nat)
    requires v.Of(t, content, maxLen) && m <= |t|
    ensures var e := v.Drop(m).from;
            && e <= v.to
            && t[..m] == v.hd[..Min(m, |v.hd|)] + content[v.from..e]
            && t[m..] == v.Drop(m).hd + content[e..v.to]
  {
    hide AllSpace;
    hide Injected;
    TakeConcat(v.hd, content, v.from, v.to, m);
    DropConcat(v.hd, content, v.from, v.to, m);
  }

  /** A suffix of a text still to be sent is again one. */
  lemma ViewSuffix(v: View, t: string, content: string, maxLen: nat, m: nat)
    requires v.Of(t, content, maxLen) && m <= |t|
    ensures v.Drop(m).Of(t[m..], content, maxLen)
  {
    ViewCut(v, t, content, maxLen, m);
    var a := Min(m, |v.hd|);
    InjectedSlice(v.hd, a, |v.hd|, content, maxLen - 7);
    assert v.hd[a..] == v.hd[a..|v.hd|];
    hide Injected;
    hide AllSpace;
    assert v.Drop(m).hd != "" ==> v.Drop(m).hd[|v.Drop(m).hd| - 1] == v.hd[|v.hd| - 1];
  }

  lemma InjectedLine(hd: string, a: nat, b: nat, content: string, limit: int)
    requires a < b <= |hd| && Injected(hd, content, limit) && forall i :: a <= i < b ==> hd[i] != '\n'
    ensures Inside(hd[a..b], content)
  {
    var h :| HeaderOf(h, content) && |h| <= limit && Inside(hd, h + "\n");
    SliceWithin(hd, a, b);
    InsideTrans(hd[a..b], hd, h + "\n");
    LineWithin(hd[a..b], h);
    InsideTrans(hd[a..b], h, content);
  }

  lemma CopiedLine(t: string, u: nat, n: nat, v: View, content: string, maxLen: nat)
    requires v.Of(t, content, maxLen) && |v.hd| <= u < n <= |t|
    ensures Inside(t[u..n], content)
  {
    ViewCut(v, t, content, maxLen, u);
    hide View.Of;
    var a := v.Drop(u).from;
    assert t[u..n] == t[u..][0..n - u];
    assert t[u..] == content[a..v.to];
    SliceOfSlice(content, a, v.to, 0, n - u);
  }

  /** Newline-free runes of a text still to be sent are runes of one of the content's header
      lines or of its copied rest; a fence among them makes them a header of the content. */
  lemma LineFromContent(t: string, u: nat, n: nat, v: View, content: string, maxLen: nat)
    requires v.Of(t, content, maxLen) && |t| > maxLen && u < n <= |t|
    requires forall i :: u <= i < n ==> t[i] != '\n'
    ensures Inside(t[u..n], content)
    ensures u < |v.hd| ==> n < |v.hd|
  {
    hide Inside;
    hide AllSpace;
    var hd := v.hd;
    if u < |hd| {
      assert t[|hd| - 1] == '\n';
      assert n < |hd|;
      assert t[u..n] == hd[u..n];
      assert forall i :: u <= i < n ==> t[i] == hd[i];
      InjectedLine(hd, u, n, content, maxLen - 7);
    } else {
      CopiedLine(t, u, n, v, content, maxLen);
    }
  }

  /** A header found in a text still to be sent is a header line of the content. */
  lemma HeaderFromContent(t: string, u: nat, v: View, content: string, maxLen: nat)
    requires v.Of(t, content, maxLen) && |t| > maxLen && FenceAt(t, u)
    ensures HeaderOf(Header(t, u), content)
    ensures |v.hd| <= HeaderEnd(t, u) + 1
  {
    HeaderIsSlice(t, u);
    NewlineFromIsFirst(t, u);
    hide Header;
    hide Inside;
    hide Injected;
    hide AllSpace;
    hide IsSpace;
    var x := Header(t, u);
    assert forall i :: u <= i < u + |x| ==> t[i] == x[i - u];
    LineFromContent(t, u, u + |x|, v, content, maxLen);
    if u < |v.hd| {
      assert t[|v.hd| - 1] == '\n' || |v.hd| - 1 < u;
    }
  }

  /** Whitespace dropped behind copied runes leaves only whitespace of the content behind. */
  lemma SpaceBehind(content: string, from: nat, to: nat, line: string, b: nat)
    requires from <= to <= |content| && AllSpace(content[to..])
    requires b <= |line| + (to - from) && AllSpace((line + content[from..to])[b..])
    ensures AllSpace(content[from + Max(0, b - |line|)..])
  {
    hide IsSpace;
    var r := line + content[from..to];
    var e := from + Max(0, b - |line|);
    forall i | 0 <= i < |content| - e ensures IsSpace(content[e..][i]) {
      if e + i < to {
        assert r[b..][|line| + (e + i - from) - b] == content[e + i];
      } else {
        assert content[to..][e + i - to] == content[e + i];
      }
    }
  }

  /** The view of a header line in front of copied runes, cut to its first b runes. */
  lemma ViewTake(line: string, v: View, tail: string, b: nat, content: string, maxLen: nat) returns (w: View)
    requires v.hd == "" && v.Of(tail, content, maxLen) && b <= |line + tail|
    requires Injected(line, content, maxLen - 7) && AllSpace((line + tail)[b..])
    requires line != "" && line[|line| - 1] == '\n' && |line| <= maxLen + 1
    ensures w.from == v.from && w.Of((line + tail)[..b], content, maxLen)
  {
    hide IsSpace;
    assert tail == content[v.from..v.to];
    var k := Min(b, |line|);
    SpaceBehind(content, v.from, v.to, line, b);
    TakeConcat(line, content, v.from, v.to, b);
    InjectedSlice(line, 0, k, content, maxLen - 7);
    hide AllSpace;
    hide Injected;
    w := View(line[0..k], v.from, v.from + Max(0, b - |line|));
    assert w.hd == line[..k];
    assert b >= |line| ==> w.hd == line;
    assert b < |line| ==> |(line + tail)[..b]| < |line|;
  }

  /** A re-opened header in front of copied runes is a text still to be sent, whatever
      whitespace is dropped at its end. */
  lemma ViewRebuilt(h: string, v: View, tail: string, content: string, maxLen: nat) returns (w: View)
    requires HeaderOf(h, content) && |h| <= maxLen - 7
    requires v.hd == "" && v.Of(tail, content, maxLen)
    ensures w.from == v.from
    ensures w.Of(TrimSpace(h + "\n" + tail), content, maxLen)
  {
    var line := h + "\n";
    HeaderLineInjected(h, content, maxLen - 7);
    RebuiltTrims(tail, 0, h);
    assert tail[0..] == tail && line + tail == Rebuilt(tail, 0, h);
    hide AllSpace;
    hide Injected;
    hide TrimSpace;
    var b :| 3 <= b <= |line + tail| && TrimSpace(line + tail) == (line + tail)[..b] && AllSpace((line + tail)[b..]);
    w := ViewTake(line, v, tail, b, content, maxLen);
  }

  lemma HeaderLineInjected(h: string, content: string, limit: int)
    requires HeaderOf(h, content) && |h| <= limit
    ensures Injected(h + "\n", content, limit)
  {
    InsideSelf(h + "\n");
  }

  // ------------------------------------------------------------ one iteration, then all

  /** Whitespace between two cuts of a text covers only whitespace of the content. */
  lemma DropGap(v: View, t: string, content: string, maxLen: nat, m: nat, n: nat)
    requires v.Of(t, content, maxLen) && m <= n <= |t|
    requires forall i :: m <= i < n ==> IsSpace(t[i])
    ensures v.Drop(m).from <= v.Drop(n).from <= v.to
    ensures AllSpace(content[v.Drop(m).from..v.Drop(n).from])
  {
    hide IsSpace;
    var d := v.Drop(m).from;
    forall i | 0 <= i < v.Drop(n).from - d ensures IsSpace(content[d..v.Drop(n).from][i]) {
      assert t[|v.hd| + (d + i - v.from)] == content[d + i];
    }
  }

  lemma HeaderMeansFence(h: string, content: string)
    requires HeaderOf(h, content)
    ensures !NoFence(content)
  {
    var a, b :| 0 <= a <= b <= |content| && h == content[a..b];
    assert content[a] == h[0] && content[a + 1] == h[1] && content[a + 2] == h[2];
    assert FenceAt(content, a);
  }

  lemma SkipGap(t: string, m: nat, v: View, content: string, maxLen: nat)
    requires v.Of(t, content, maxLen) && m <= |t|
    ensures var n := m + TrimStart(t[m..], Cutset);
            && v.Drop(m).from <= v.Drop(n).from <= v.to
            && AllSpace(content[v.Drop(m).from..v.Drop(n).from])
  {
    TrimStartIsLongest(t[m..], Cutset);
    var n := m + TrimStart(t[m..], Cutset);
    forall i | m <= i < n ensures IsSpace(t[i]) { assert Cutset.Has(t[m..][i - m]); }
    hide IsSpace;
    hide TrimStart;
    DropGap(v, t, content, maxLen, m, n);
    hide AllSpace;
    hide View.Of;
  }

  /** The first b runes of a text still to be sent, as a piece. */
  lemma FrontPiece(t: string, b: nat, v: View, content: string, maxLen: nat, closed: bool) returns (p: Piece)
    requires v.Of(t, content, maxLen) && b <= |t|
    ensures p.Fits(content) && p.from == v.from && p.to == v.Drop(b).from && p.closed == closed
    ensures Injected(p.header, content, maxLen - 7)
    ensures if closed then t[..b] + CLOSING == p.Text(content) else t[..b] == p.Text(content)
  {
    ViewCut(v, t, content, maxLen, b);
    var a := Min(b, |v.hd|);
    InjectedSlice(v.hd, 0, a, content, maxLen - 7);
    assert v.hd[..a] == v.hd[0..a];
    p := Piece(v.hd[..a], v.from, v.Drop(b).from, closed);
  }

  /** A chunk sent from the view v: it is the piece p, and w is the view of the rest, with nothing
      but whitespace of the content between the two. */
  ghost predicate Sends(v: View, chunk: string, rest: string, p: Piece, w: View, content: string, maxLen: nat) {
    && p.Fits(content) && p.from == v.from && p.to <= w.from <= |content|
    && AllSpace(content[p.to..w.from])
    && Injected(p.header, content, maxLen - 7) && (p.closed ==> !NoFence(content))
    && chunk == p.Text(content) && w.Of(rest, content, maxLen)
  }

  lemma KeepPiece(t: string, m: nat, v: View, content: string, maxLen: nat) returns (p: Piece, w: View)
    requires v.Of(t, content, maxLen) && m <= |t|
    ensures Sends(v, t[..m], t[m + TrimStart(t[m..], Cutset)..], p, w, content, maxLen)
  {
    hide AllSpace;
    hide Injected;
    hide TrimStart;
    hide Piece.Text;
    p := FrontPiece(t, m, v, content, maxLen, false);
    SkipGap(t, m, v, content, maxLen);
    var n := m + TrimStart(t[m..], Cutset);
    ViewSuffix(v, t, content, maxLen, n);
    w := v.Drop(n);
    hide View.Drop;
  }

  /** The piece of a chunk that is closed behind its trimmed end b. */
  lemma ClosedPiece(t: string, m: nat, v: View, content: string, maxLen: nat) returns (p: Piece)
    requires v.Of(t, content, maxLen) && m <= |t|
    ensures p.Fits(content) && p.from == v.from && p.to <= v.Drop(m).from <= v.to && p.closed
    ensures AllSpace(content[p.to..v.Drop(m).from])
    ensures Injected(p.header, content, maxLen - 7)
    ensures TrimRight(t[..m]) + CLOSING == p.Text(content)
  {
    var b := TrimEnd(t[..m], Cutset);
    TrimEndIsLongest(t[..m], Cutset);
    forall i | b <= i < m ensures IsSpace(t[i]) { assert t[i] == t[..m][i]; }
    assert t[..m][..b] == t[..b];
    hide IsSpace;
    DropGap(v, t, content, maxLen, b, m);
    hide AllSpace;
    hide Injected;
    hide Piece.Text;
    p := FrontPiece(t, b, v, content, maxLen, true);
  }

  lemma ReopenPiece(t: string, m: nat, u: nat, v: View, content: string, maxLen: nat) returns (p: Piece, w: View)
    requires v.Of(t, content, maxLen) && |t| > maxLen && |v.hd| <= m <= |t|
    requires FenceAt(t, u) && |Header(t, u)| <= maxLen - 7
    ensures Sends(v, TrimRight(t[..m]) + CLOSING, TrimSpace(Header(t, u) + "\n" + t[m..]), p, w, content, maxLen)
  {
    HeaderFromContent(t, u, v, content, maxLen);
    hide Header;
    HeaderMeansFence(Header(t, u), content);
    hide HeaderOf;
    hide NoFence;
    hide Injected;
    hide AllSpace;
    hide TrimSpace;
    hide TrimRight;
    hide Piece.Text;
    p := ClosedPiece(t, m, v, content, maxLen);
    ViewSuffix(v, t, content, maxLen, m);
    w := ViewRebuilt(Header(t, u), v.Drop(m), t[m..], content, maxLen);
    hide View.Of;
  }

  lemma LastPiece(t: string, v: View, content: string, maxLen: nat) returns (p: Piece, w: View)
    requires v.Of(t, content, maxLen)
    ensures Sends(v, t, "", p, w, content, maxLen)
  {
    p := Piece(v.hd, v.from, v.to, false);
    w := View("", v.to, v.to);
  }

  /** A re-opening cut comes behind whatever was injected in front of the text. */
  lemma ReopenBehindInjected(t: string, v: View, content: string, maxLen: nat)
    requires 0 < maxLen < |t| && Splittable(t, maxLen) && v.Of(t, content, maxLen) && NextCut(t, maxLen).Reopen?
    ensures var Reopen(m, u) := NextCut(t, maxLen);
            |v.hd| <= m <= |t| && |Header(t, u)| <= maxLen - 7
  {
    hide NextCut;
    if NoFence(t) || maxLen < 5 { NeverReopens(t, maxLen); }
    var u := NextCut(t, maxLen).fence;
    ReopenFacts(t, maxLen);
    HeaderIsSlice(t, u);
    HeaderFromContent(t, u, v, content, maxLen);
    InjectedIsShort(v.hd, content, maxLen - 7);
    hide Header;
    hide HeaderOf;
    hide View.Of;
  }

  lemma IterationPiece(t: string, v: View, content: string, maxLen: nat) returns (p: Piece, w: View)
    requires maxLen > 0 && t != "" && Splittable(t, maxLen) && v.Of(t, content, maxLen)
    ensures var it := Iterate(t, maxLen);
            Sends(v, it.chunk, it.rest, p, w, content, maxLen)
  {
    hide NextCut;
    hide Header;
    hide TrimSpace;
    hide TrimRight;
    hide Sends;
    hide View.Of;
    hide Splittable;
    if |t| <= maxLen {
      p, w := LastPiece(t, v, content, maxLen);
    } else {
      CutBounds(t, maxLen);
      match NextCut(t, maxLen)
      case Keep(m) =>
        p, w := KeepPiece(t, m, v, content, maxLen);
      case Reopen(m, u) =>
        ReopenBehindInjected(t, v, content, maxLen);
        hide View.Of;
        p, w := ReopenPiece(t, m, u, v, content, maxLen);
    }
  }

  lemma SpaceJoins(s: string, a: nat, b: nat, c: nat)
    requires a <= b <= c <= |s| && AllSpace(s[a..b]) && AllSpace(s[b..c])
    ensures AllSpace(s[a..c])
  {
    forall i | 0 <= i < c - a ensures IsSpace(s[a..c][i]) {
      assert if a + i < b then s[a..b][i] == s[a + i] else s[b..c][a + i - b] == s[a + i];
    }
  }

  lemma {:induction false} Preserved(t: string, v: View, k: nat, content: string, maxLen: nat, n: nat)
    returns (pieces: seq<Piece>)
    requires maxLen > 0 && Splittable(t, maxLen) && n >= |t|
    requires v.Of(t, content, maxLen) && k <= v.from && AllSpace(content[k..v.from])
    ensures Spells(content, k, maxLen - 7, Emitted(t, maxLen, n), pieces)
    decreases n
  {
    hide Iterate;
    hide Injected;
    hide IsSpace;
    hide Splittable;
    if t == "" {
      pieces := [];
      assert content[v.from..] == content[v.from..|content|] && content[k..] == content[k..|content|];
      SpaceJoins(content, k, v.from, |content|);
    } else {
      IterationShrinks(t, maxLen);
      var p, w := IterationPiece(t, v, content, maxLen);
      var rest := Iterate(t, maxLen).rest;
      var later := Preserved(rest, w, p.to, content, maxLen, n - 1);
      pieces := [p] + later;
      assert Emitted(t, maxLen, n)[1..] == Emitted(rest, maxLen, n - 1);
      assert pieces[1..] == later;
    }
  }

  /** Content preservation: the chunks of a splittable content consist of injected headers and
      closing fences around copied runes that, in order, are the content up to whitespace. */
  lemma ContentPreserved(content: string, maxLen: nat)
    requires maxLen > 0 && Splittable(content, maxLen)
    ensures Spelled(content, maxLen - 7, Emitted(content, maxLen, |content|))
  {
    var v := View("", 0, |content|);
    var pieces := Preserved(content, v, 0, content, maxLen, |content|);
  }

  /** Without a fence nothing is injected: the chunks are substrings of the content, in order,
      with only whitespace between them. */
  lemma {:induction false} UnfencedInjectsNothing(content: string, k: nat, limit: int, chunks: seq<string>,
                                                  pieces: seq<Piece>)
    requires k <= |content| && NoFence(content) && Spells(content, k, limit, chunks, pieces)
    ensures forall i :: 0 <= i < |pieces| ==>
              pieces[i].Fits(content) && chunks[i] == content[pieces[i].from..pieces[i].to]
    decreases |pieces|
  {
    if pieces != [] {
      var p := pieces[0];
      if p.header != "" {
        var h :| HeaderOf(h, content) && |h| <= limit && Inside(p.header, h + "\n");
        HeaderMeansFence(h, content);
      }
      UnfencedInjectsNothing(content, p.to, limit, chunks[1..], pieces[1..]);
      forall i | 0 < i < |pieces|
        ensures pieces[i].Fits(content) && chunks[i] == content[pieces[i].from..pieces[i].to]
      {
        assert pieces[i] == pieces[1..][i - 1] && chunks[i] == chunks[1..][i - 1];
      }
    }
  }

  // ------------------------------------------------------------ what the copied runes spell

  function NonSpace(s: string): string {
    if s == "" then "" else (if IsSpace(s[0]) then "" else [s[0]]) + NonSpace(s[1..])
  }

  function Copied(content: string, pieces: seq<Piece>): string
    requires forall i :: 0 <= i < |pieces| ==> pieces[i].Fits(content)
  {
    if |pieces| == 0 then "" else
    var p := pieces[0];
    assert p.Fits(content);
    content[p.from..p.to] + Copied(content, pieces[1..])
  }

  lemma {:induction false} NonSpaceConcat(x: string, y: string)
    ensures NonSpace(x + y) == NonSpace(x) + NonSpace(y)
  {
    if x == "" {
      assert x + y == y;
    } else {
      assert (x + y)[1..] == x[1..] + y;
      NonSpaceConcat(x[1..], y);
    }
  }

  lemma {:induction false} AllSpaceVanishes(s: string)
    requires AllSpace(s)
    ensures NonSpace(s) == ""
  {
    if s != "" {
      forall i | 0 <= i < |s[1..]| ensures IsSpace(s[1..][i]) { assert s[1..][i] == s[i + 1]; }
      AllSpaceVanishes(s[1..]);
    }
  }

  lemma SplitInThree(s: string, a: nat, b: nat, c: nat)
    requires a <= b <= c <= |s|
    ensures s[a..] == s[a..b] + (s[b..c] + s[c..])
  {
  }

  /** The copied runes in order spell the content exactly, up to whitespace. */
  lemma {:induction false} CopiedSpellsContent(content: string, k: nat, limit: int, chunks: seq<string>,
                                               pieces: seq<Piece>)
    requires k <= |content| && Spells(content, k, limit, chunks, pieces)
    ensures forall i :: 0 <= i < |pieces| ==> pieces[i].Fits(content)
    ensures NonSpace(Copied(content, pieces)) == NonSpace(content[k..])
    decreases |pieces|
  {
    hide IsSpace;
    hide Injected;
    if pieces == [] {
      AllSpaceVanishes(content[k..]);
    } else {
      var p := pieces[0];
      CopiedSpellsContent(content, p.to, limit, chunks[1..], pieces[1..]);
      SplitInThree(content, k, p.from, p.to);
      NonSpaceConcat(content[k..p.from], content[p.from..p.to] + content[p.to..]);
      NonSpaceConcat(content[p.from..p.to], content[p.to..]);
      AllSpaceVanishes(content[k..p.from]);
      NonSpaceConcat(content[p.from..p.to], Copied(content, pieces[1..]));
    }
  }
}
