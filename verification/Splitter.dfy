/** The outbound message splitter: one iteration of its loop as a function of the text still
    to be sent, runs of that loop, and what every run guarantees. */
module Splitter {
  import opened FenceText

  const CLOSING := "\n```"

  // ------------------------------------------------------------ one iteration

  function CodeBlockBuffer(maxLen: nat): nat {
    var buffer := Max(maxLen / 10, 50);
    if buffer > maxLen / 2 then maxLen / 2 else buffer
  }

  /** Where a chunk should preferably end, leaving room for closing a code block. */
  function EffectiveLimit(maxLen: nat): (e: nat)
    ensures maxLen > 0 ==> 0 < e <= maxLen
    ensures maxLen < 5 ==> e < 3
    ensures maxLen >= 10 ==> 5 <= e <= maxLen - 5
  {
    Max(maxLen - CodeBlockBuffer(maxLen), maxLen / 2)
  }

  /** Last newline, else last blank, else the limit itself; never an empty chunk. */
  function NaturalEnd(t: string, e: nat): (m: nat)
    requires 0 < e <= |t|
    ensures 0 < m <= e
  {
    var newline := FindLast(t, Newline, 0, e, 200);
    if newline > 0 then newline else
    var blank := FindLast(t, Blank, 0, e, 100);
    if blank > 0 then blank else e
  }

  /** The end in front of a block, if there is one after the chunk's first rune. */
  function EndBefore(t: string, u: nat): int
    requires u <= |t|
  {
    var newline := FindLast(t, Newline, 0, u, 200);
    if newline > 0 then newline else FindLast(t, Blank, 0, u, 100)
  }

  /** The info line of the fence at u, without surrounding whitespace. */
  function Header(t: string, u: nat): string
    requires FenceAt(t, u)
  {
    var n := NewlineFrom(t, u);
    TrimSpace(if n == -1 then t[u..u + 3] else t[u..n])
  }

  function HeaderEnd(t: string, u: nat): nat
    requires FenceAt(t, u)
  {
    var n := NewlineFrom(t, u);
    if n == -1 then u + |Header(t, u)| else n
  }

  /** How a text longer than the limit is cut: at `end`, or at `end` inside the block whose fence
      is at `fence`. */
  datatype Cut = Keep(end: nat) | Reopen(end: nat, fence: nat)

  /** The cut of a block that does not close within the limit: the fence at u is open at the
      natural end m. */
  function BlockCut(t: string, maxLen: nat, m: nat, u: nat): (cut: Cut)
    requires 5 <= maxLen < |t| && m <= maxLen && FenceAt(t, u)
    ensures cut.Reopen? ==> cut.fence == u
  {
    if m > HeaderEnd(t, u) + 20 then
      var limit := Min(maxLen - 5, |t|);
      var better := FindLast(t, Newline, 0, limit, 200);
      Reopen(if better > HeaderEnd(t, u) then better else limit, u)
    else if EndBefore(t, u) > 0 then Keep(EndBefore(t, u))
    else if u > 20 then Keep(u)
    else Reopen(Min(maxLen - 5, |t|), u)
  }

  function NextCut(t: string, maxLen: nat): (cut: Cut)
    requires 0 < maxLen < |t|
    ensures cut.Reopen? ==> FenceAt(t, cut.fence)
  {
    var m := NaturalEnd(t, EffectiveLimit(maxLen));
    var u := LastOpen(t, 0, m, -1);
    if u < 0 then Keep(m) else
    OpenNeedsRoom(t, maxLen);
    var closing := NextClosing(t, m, |t|);
    if closing > 0 && closing <= maxLen then Keep(closing)
    else BlockCut(t, maxLen, m, u)
  }

  /** A fence fits in front of the natural end only for limits of at least 5, so no cut is ever taken
      at a negative index. */
  lemma OpenNeedsRoom(t: string, maxLen: nat)
    requires 0 < maxLen < |t| && LastOpen(t, 0, NaturalEnd(t, EffectiveLimit(maxLen)), -1) >= 0
    ensures maxLen >= 5 && FenceAt(t, LastOpen(t, 0, NaturalEnd(t, EffectiveLimit(maxLen)), -1))
  {
    OpenMeansOdd(t, 0, NaturalEnd(t, EffectiveLimit(maxLen)), -1);
  }

  /** A chunk and the text still to be sent behind it. */
  datatype Iteration = Next(chunk: string, rest: string)

  /** One pass of the loop over the text still to be sent. */
  function Iterate(t: string, maxLen: nat): Iteration
    requires maxLen > 0 && t != ""
  {
    if |t| <= maxLen then Next(t, "") else
    match NextCut(t, maxLen)
    case Keep(m) =>
      CutBounds(t, maxLen);
      Next(t[..m], t[m + TrimStart(t[m..], Cutset)..])
    case Reopen(m, u) =>
      CutBounds(t, maxLen);
      Next(TrimRight(t[..m]) + CLOSING, TrimSpace(Header(t, u) + "\n" + t[m..]))
  }

  /** A kept chunk is neither empty nor too long; a re-opened one leaves room for its closing fence. */
  lemma CutBounds(t: string, maxLen: nat)
    requires 0 < maxLen < |t|
    ensures match NextCut(t, maxLen)
            case Keep(m) => 0 < m <= maxLen
            case Reopen(m, _) => maxLen >= 5 && m <= maxLen - 5
  {
    var m := NaturalEnd(t, EffectiveLimit(maxLen));
    OpenMeansOdd(t, 0, m, -1);
  }

  // ------------------------------------------------------------ runs

  /** Chunks sent by the first n iterations. */
  function Emitted(t: string, maxLen: nat, n: nat): seq<string>
    requires maxLen > 0
    decreases n
  {
    if n == 0 || t == "" then [] else
    var Next(chunk, rest) := Iterate(t, maxLen);
    [chunk] + Emitted(rest, maxLen, n - 1)
  }

  /** Text still to be sent after n iterations. */
  function Pending(t: string, maxLen: nat, n: nat): string
    requires maxLen > 0
    decreases n
  {
    if n == 0 || t == "" then t else
    Pending(Iterate(t, maxLen).rest, maxLen, n - 1)
  }

  /** The loop ends. */
  ghost predicate Ends(t: string, maxLen: nat)
    requires maxLen > 0
  {
    exists n: nat :: Pending(t, maxLen, n) == ""
  }

  // ------------------------------------------------------------ chunk bounds

  lemma IterationChunk(t: string, maxLen: nat)
    requires maxLen > 0 && t != ""
    ensures var it := Iterate(t, maxLen);
            1 <= |it.chunk| <= maxLen
  {
    if |t| > maxLen { CutBounds(t, maxLen); }
  }

  /** Every chunk any run sends has between 1 and maxLen runes. */
  lemma {:induction false} ChunkBounds(t: string, maxLen: nat, n: nat)
    requires maxLen > 0
    ensures forall c :: c in Emitted(t, maxLen, n) ==> 1 <= |c| <= maxLen
    decreases n
  {
    hide Iterate;
    if n > 0 && t != "" {
      IterationChunk(t, maxLen);
      var it := Iterate(t, maxLen);
      ChunkBounds(it.rest, maxLen, n - 1);
      assert Emitted(t, maxLen, n) == [it.chunk] + Emitted(it.rest, maxLen, n - 1);
    }
  }

  // ------------------------------------------------------------ termination

  /** Every fence followed by a newline is at most maxLen - 7 runes before it. */
  predicate ShortHeaders(t: string, maxLen: nat) {
    forall i :: 0 <= i < |t| && FenceAt(t, i) ==> NewlineFrom(t, i) - i <= maxLen - 7
  }

  /** What a caller can check so that the loop is sure to end. */
  predicate Splittable(t: string, maxLen: nat) {
    |t| <= maxLen || maxLen < 5 || NoFence(t) || (maxLen >= 10 && ShortHeaders(t, maxLen))
  }

  lemma NewlineFromSlice(t: string, a: nat, b: nat, i: nat)
    requires a <= b <= |t| && i <= b - a
    ensures var n := NewlineFrom(t, a + i);
            NewlineFrom(t[a..b], i) == if n == -1 || n >= b then -1 else n - a
  {
    var r := NewlineFrom(t[a..b], i);
    var n := NewlineFrom(t, a + i);
    NewlineFromIsFirst(t[a..b], i);
    NewlineFromIsFirst(t, a + i);
    if r >= 0 { assert t[a + r] == '\n'; }
    if 0 <= n < b { assert t[a..b][n - a] == '\n'; }
  }

  lemma SliceShortHeaders(t: string, a: nat, b: nat, maxLen: nat)
    requires a <= b <= |t| && maxLen >= 7 && ShortHeaders(t, maxLen)
    ensures ShortHeaders(t[a..b], maxLen)
  {
    forall i | 0 <= i < b - a && FenceAt(t[a..b], i) ensures NewlineFrom(t[a..b], i) - i <= maxLen - 7 {
      assert FenceAt(t, a + i);
      NewlineFromSlice(t, a, b, i);
    }
  }

  lemma SliceNoFence(t: string, a: nat, b: nat)
    requires a <= b <= |t| && NoFence(t)
    ensures NoFence(t[a..b])
  {
    forall i | 0 <= i < b - a ensures !FenceAt(t[a..b], i) {
      assert FenceAt(t[a..b], i) ==> FenceAt(t, a + i);
    }
  }

  /** A header is the text from its fence on, without a newline, and ends by the line's end. */
  lemma HeaderIsSlice(t: string, u: nat)
    requires FenceAt(t, u)
    ensures var h := Header(t, u);
            && 3 <= |h| && u + |h| <= HeaderEnd(t, u) <= |t|
            && h == t[u..u + |h|] && FenceAt(h, 0)
            && (forall i :: 0 <= i < |h| ==> h[i] != '\n')
            && (NewlineFrom(t, u) == -1 ==> |h| == 3)
  {
    var n := NewlineFrom(t, u);
    NewlineFromIsFirst(t, u);
    var line := if n == -1 then t[u..u + 3] else t[u..n];
    assert t[u] == '`' && t[u + 1] == '`' && t[u + 2] == '`';
    assert n == -1 || n >= u + 3;
    assert line[0] == '`' && line[1] == '`' && line[2] == '`';
    TrimSpaceKeepsFront(line);
    TrimEndIsLongest(line, Space);
    var h := Header(t, u);
    assert h == line[..TrimEnd(line, Space)];
    assert forall i :: 0 <= i < |h| ==> h[i] == t[u + i];
  }

  /** The text rebuilt behind a re-opened header, before its trailing whitespace is dropped. */
  function Rebuilt(t: string, m: nat, h: string): string
    requires m <= |t|
  {
    h + "\n" + t[m..]
  }

  lemma RebuiltTrims(t: string, m: nat, h: string)
    requires m <= |t| && FenceAt(h, 0)
    ensures exists b :: 3 <= b <= |Rebuilt(t, m, h)| && TrimSpace(Rebuilt(t, m, h)) == Rebuilt(t, m, h)[..b]
                        && AllSpace(Rebuilt(t, m, h)[b..])
  {
    var r := Rebuilt(t, m, h);
    assert r[0] == h[0] == '`' && r[1] == h[1] == '`' && r[2] == h[2] == '`';
    TrimSpaceKeepsFront(r);
    TrimEndIsLongest(r, Space);
  }

  /** The shape of a header that can be re-opened. */
  predicate HeaderShape(h: string) {
    && FenceAt(h, 0)
    && (forall i :: 0 <= i < |h| ==> h[i] != '\n')
  }

  /** A short header re-opened in front of the rest of a text leaves a text with short headers. */
  lemma RebuiltShortHeaders(t: string, m: nat, h: string, maxLen: nat)
    requires m <= |t| && HeaderShape(h) && ShortHeaders(t, maxLen) && 7 <= |h| + 7 <= maxLen
    ensures ShortHeaders(Rebuilt(t, m, h), maxLen)
  {
    var r := Rebuilt(t, m, h);
    assert r[|h|] == '\n';
    forall i | 0 <= i < |r| && FenceAt(r, i) ensures NewlineFrom(r, i) - i <= maxLen - 7 {
      NewlineFromIsFirst(r, i);
      if i > |h| {
        var j := i - (|h| + 1);
        assert r[|h| + 1..|r|] == t[m..|t|];
        assert r[i] == t[m + j] && r[i + 1] == t[m + j + 1] && r[i + 2] == t[m + j + 2];
        NewlineFromSlice(r, |h| + 1, |r|, j);
        NewlineFromSlice(t, m, |t|, j);
      }
    }
  }

  /** A natural end never beats a later search: the better split point of a re-opened block
      is not before the end it replaces. */
  lemma BetterEndIsLater(t: string, maxLen: nat)
    requires 10 <= maxLen < |t|
    ensures var m := NaturalEnd(t, EffectiveLimit(maxLen));
            var better := FindLast(t, Newline, 0, maxLen - 5, 200);
            better <= 0 || better >= m
  {
    var e := EffectiveLimit(maxLen);
    FindLastIsLast(t, Newline, 0, e, 200);
    FindLastIsLast(t, Newline, 0, maxLen - 5, 200);
  }

  /** What a re-opening cut is: the header of the unclosed fence, cut no earlier than the
      natural end, and either well after the header's line or at the last-resort limit. */
  lemma ReopenFacts(t: string, maxLen: nat)
    requires 0 < maxLen < |t| && NextCut(t, maxLen).Reopen?
    ensures var Reopen(m, u) := NextCut(t, maxLen);
            var m0 := NaturalEnd(t, EffectiveLimit(maxLen));
            && u == LastOpen(t, 0, m0, -1)
            && m <= maxLen - 5
            && (m > HeaderEnd(t, u) + 20 || m == maxLen - 5)
            && (maxLen >= 10 ==> m >= m0)
            && (var c := NextClosing(t, m0, |t|); c <= 0 || c > maxLen)
  {
    CutBounds(t, maxLen);
    OpenMeansOdd(t, 0, NaturalEnd(t, EffectiveLimit(maxLen)), -1);
    if maxLen >= 10 { BetterEndIsLater(t, maxLen); }
  }

  lemma KeepShrinks(t: string, m: nat, maxLen: nat)
    requires 0 < m <= |t| && maxLen > 0
    requires maxLen < 5 || NoFence(t) || (maxLen >= 10 && ShortHeaders(t, maxLen))
    ensures var rest := t[m + TrimStart(t[m..], Cutset)..];
            |rest| < |t| && Splittable(rest, maxLen)
  {
    var a := m + TrimStart(t[m..], Cutset);
    assert t[a..] == t[a..|t|];
    if NoFence(t) { SliceNoFence(t, a, |t|); } else if maxLen >= 10 { SliceShortHeaders(t, a, |t|, maxLen); }
  }

  lemma ReopenShrinks(t: string, m: nat, h: string, maxLen: nat)
    requires m <= |t| && maxLen >= 10 && ShortHeaders(t, maxLen)
    requires HeaderShape(h) && |h| + 7 <= maxLen && |h| + 1 < m
    ensures var rest := TrimSpace(h + "\n" + t[m..]);
            |rest| < |t| && Splittable(rest, maxLen)
  {
    var r := Rebuilt(t, m, h);
    RebuiltTrims(t, m, h);
    RebuiltShortHeaders(t, m, h, maxLen);
    var b :| 3 <= b <= |r| && TrimSpace(r) == r[..b];
    assert r[..b] == r[0..b];
    SliceShortHeaders(r, 0, b, maxLen);
  }

  /** Without a fence, or without room for one, every chunk is kept. */
  lemma NeverReopens(t: string, maxLen: nat)
    requires 0 < maxLen < |t| && (NoFence(t) || maxLen < 5)
    ensures NextCut(t, maxLen).Keep?
  {
    var m0 := NaturalEnd(t, EffectiveLimit(maxLen));
    if NoFence(t) { NoFenceCountsZero(t, 0, m0); }
    OpenMeansOdd(t, 0, m0, -1);
  }

  /** Each iteration leaves a strictly shorter text that is splittable again. */
  lemma IterationShrinks(t: string, maxLen: nat)
    requires maxLen > 0 && t != "" && Splittable(t, maxLen)
    ensures var it := Iterate(t, maxLen);
            |it.rest| < |t| && Splittable(it.rest, maxLen)
  {
    hide NextCut;
    if |t| > maxLen {
      CutBounds(t, maxLen);
      if NoFence(t) || maxLen < 5 { NeverReopens(t, maxLen); }
      match NextCut(t, maxLen)
      case Keep(m) =>
        KeepShrinks(t, m, maxLen);
      case Reopen(m, u) =>
        HeaderIsSlice(t, u);
        ReopenFacts(t, maxLen);
        ReopenShrinks(t, m, Header(t, u), maxLen);
    }
  }

  /** Termination: a splittable text is sent completely within one iteration per rune. */
  lemma {:induction false} Terminates(t: string, maxLen: nat, n: nat)
    requires maxLen > 0 && Splittable(t, maxLen) && n >= |t|
    ensures Pending(t, maxLen, n) == ""
    decreases n
  {
    hide Iterate;
    if t != "" {
      IterationShrinks(t, maxLen);
      Terminates(Iterate(t, maxLen).rest, maxLen, n - 1);
    }
  }

  lemma SplittableEnds(t: string, maxLen: nat)
    requires maxLen > 0 && Splittable(t, maxLen)
    ensures Ends(t, maxLen)
  {
    Terminates(t, maxLen, |t|);
  }

  // ------------------------------------------------------------ fence balance

  /** Every run of three or more backticks is exactly three long and starts a line: a longer run
      would hold a second occurrence preceded by a backtick. */
  predicate LineFences(t: string) {
    forall i :: 0 <= i < |t| && FenceAt(t, i) ==> i == 0 || t[i - 1] == '\n'
  }

  predicate Balanced(t: string) {
    LineFences(t) && FenceCount(t) % 2 == 0
  }

  lemma NaturalEndIsClean(t: string, e: nat)
    requires 4 <= e <= |t| && LineFences(t)
    ensures CleanCut(t, NaturalEnd(t, e))
  {
    FindLastIsLast(t, Newline, 0, e, 200);
    FindLastIsLast(t, Blank, 0, e, 100);
  }

  /** A fence that starts a line is bounded by clean cuts. */
  lemma FenceEdgesAreClean(t: string, u: nat)
    requires LineFences(t) && FenceAt(t, u)
    ensures CleanCut(t, u) && CleanCut(t, u + 3)
  {
    assert t[u] == '`' && t[u + 1] == '`' && t[u + 2] == '`';
  }

  /** Splitting in front of a block happens at the newline before its fence. */
  lemma BeforeBlock(t: string, u: nat)
    requires u < |t| && LineFences(t) && FenceAt(t, u)
    ensures var before := EndBefore(t, u);
            && (before > 0 <==> u > 1)
            && (before > 0 ==> before == u - 1 && t[before] == '\n')
  {
    FindLastIsLast(t, Newline, 0, u, 200);
    FindLastIsLast(t, Blank, 0, u, 100);
  }

  /** The ways a chunk is kept: the natural end, the end of the closing fence, in front of the
      block, or at its fence. */
  lemma KeepFacts(t: string, maxLen: nat)
    requires 0 < maxLen < |t| && NextCut(t, maxLen).Keep?
    ensures var m := NextCut(t, maxLen).end;
            var m0 := NaturalEnd(t, EffectiveLimit(maxLen));
            var u := LastOpen(t, 0, m0, -1);
            || (u < 0 && m == m0)
            || (0 <= u < |t| && FenceAt(t, u)
                && (m == NextClosing(t, m0, |t|) || (m == EndBefore(t, u) > 0) || m == u > 20))
  {
    OpenMeansOdd(t, 0, NaturalEnd(t, EffectiveLimit(maxLen)), -1);
  }

  lemma KeepParity(t: string, maxLen: nat)
    requires 10 <= maxLen < |t| && Balanced(t) && NextCut(t, maxLen).Keep?
    ensures var m := NextCut(t, maxLen).end;
            0 < m <= |t| && CleanCut(t, m) && Fences(t, 0, m) % 2 == 0
  {
    hide NextCut;
    CutBounds(t, maxLen);
    KeepFacts(t, maxLen);
    var m := NextCut(t, maxLen).end;
    var m0 := NaturalEnd(t, EffectiveLimit(maxLen));
    NaturalEndIsClean(t, EffectiveLimit(maxLen));
    hide NaturalEnd;
    OpenMeansOdd(t, 0, m0, -1);
    var u := LastOpen(t, 0, m0, -1);
    hide LastOpen;
    hide CleanCut;
    if u >= 0 {
      FenceEdgesAreClean(t, u);
      BeforeBlock(t, u);
      hide LineFences;
      if m == NextClosing(t, m0, |t|) {
        ClosingParity(t, m0, m);
      } else if m != u {
        BeforeBlockParity(t, m, u);
      }
    }
  }

  lemma BeforeBlockParity(t: string, m: nat, u: nat)
    requires LineFences(t) && u <= |t| && CleanCut(t, u) && m + 1 == u && t[m] == '\n'
    ensures CleanCut(t, m) && Fences(t, 0, m) == Fences(t, 0, u)
  {
    FencesSplit(t, 0, m, u);
  }

  lemma ReopenParity(t: string, maxLen: nat)
    requires 10 <= maxLen < |t| && Balanced(t) && NextCut(t, maxLen).Reopen?
    ensures var m := NextCut(t, maxLen).end;
            0 < m <= |t| && CleanCut(t, m) && Fences(t, 0, m) % 2 == 1
  {
    hide NextCut;
    var m := NextCut(t, maxLen).end;
    var m0 := NaturalEnd(t, EffectiveLimit(maxLen));
    ReopenFacts(t, maxLen);
    OpenMeansOdd(t, 0, m0, -1);
    NaturalEndIsClean(t, EffectiveLimit(maxLen));
    hide NaturalEnd;
    hide CleanCut;
    hide LastOpen;
    hide LineFences;
    UnclosedStretch(t, m0, m, maxLen);
  }

  /** Without a closing fence within the limit nothing changes from the natural end on. */
  lemma UnclosedStretch(t: string, m0: nat, m: nat, maxLen: nat)
    requires m0 <= m && m + 5 <= maxLen <= |t| && CleanCut(t, m0)
    requires var c := NextClosing(t, m0, |t|); c <= 0 || c > maxLen
    ensures CleanCut(t, m) && Fences(t, 0, m) == Fences(t, 0, m0)
  {
    NextClosingIsFirst(t, m0, |t|);
    FencesSplit(t, 0, m0, m);
    NoFenceCountsZero(t, m0, m);
  }

  /** Where the loop cuts a balanced text: no fence is broken, and exactly the re-opening cuts
      leave an odd number of fences in front. */
  lemma CutParity(t: string, maxLen: nat)
    requires 10 <= maxLen < |t| && Balanced(t)
    ensures var cut := NextCut(t, maxLen);
            && 0 < cut.end <= |t| && CleanCut(t, cut.end)
            && (cut.Keep? <==> Fences(t, 0, cut.end) % 2 == 0)
  {
    hide NextCut;
    CutBounds(t, maxLen);
    match NextCut(t, maxLen)
    case Keep(_) => KeepParity(t, maxLen);
    case Reopen(_, _) => ReopenParity(t, maxLen);
  }

  lemma ClosingParity(t: string, m0: nat, c: nat)
    requires LineFences(t) && m0 <= |t| && CleanCut(t, m0) && c == NextClosing(t, m0, |t|)
    ensures CleanCut(t, c) && Fences(t, 0, c) == Fences(t, 0, m0) + 1
  {
    NextClosingIsFirst(t, m0, |t|);
    FenceEdgesAreClean(t, c - 3);
    FencesSplit(t, 0, m0, c);
    FencesSplit(t, m0, c - 3, c);
    NoFenceCountsZero(t, m0, c - 3);
    assert Fences(t, c - 3, c) == 1;
  }

  lemma SuffixLineFences(t: string, a: nat)
    requires a <= |t| && LineFences(t)
    ensures LineFences(t[a..])
  {
    forall i | 0 <= i < |t[a..]| && FenceAt(t[a..], i) ensures i == 0 || t[a..][i - 1] == '\n' {
      assert FenceAt(t, a + i);
    }
  }

  lemma KeepBalances(t: string, m: nat)
    requires m <= |t| && Balanced(t) && CleanCut(t, m) && Fences(t, 0, m) % 2 == 0
    ensures FenceCount(t[..m]) % 2 == 0
    ensures Balanced(t[m + TrimStart(t[m..], Cutset)..])
  {
    var tail := t[m..];
    var a := TrimStart(tail, Cutset);
    FenceCountSplit(t, m);
    FencesLocal(t, 0, m, t[..m], 0, m);
    TrimStartIsLongest(tail, Cutset);
    FenceCountIgnoresSpace(tail, a, |tail|);
    assert t[m + a..] == tail[a..|tail|];
    SuffixLineFences(t, m + a);
  }

  /** Closing a chunk adds one fence; trailing whitespace carries none. */
  lemma ClosingAddsOne(s: string)
    ensures FenceCount(TrimRight(s) + CLOSING) == FenceCount(s) + 1
  {
    var b := TrimEnd(s, Cutset);
    TrimEndIsLongest(s, Cutset);
    forall i | b <= i < |s| ensures s[i] != '`' { assert Cutset.Has(s[i]); }
    FenceCountIgnoresSpace(s, 0, b);
    assert s[0..b] == TrimRight(s);
    var c := TrimRight(s) + CLOSING;
    assert c[b] == '\n';
    FenceCountSplit(c, b);
    assert c[..b] == TrimRight(s) && c[b..] == CLOSING;
    assert FenceAt(CLOSING, 1);
  }

  /** A header holds its own fence and no other. */
  lemma HeaderHasOneFence(t: string, u: nat)
    requires LineFences(t) && FenceAt(t, u)
    ensures FenceCount(Header(t, u)) == 1
    ensures forall i :: 0 < i < |Header(t, u)| ==> !FenceAt(Header(t, u), i)
  {
    var h := Header(t, u);
    HeaderIsSlice(t, u);
    forall i | 0 < i < |h| ensures !FenceAt(h, i) {
      assert t[u + i - 1] == h[i - 1];
      assert FenceAt(h, i) ==> FenceAt(t, u + i);
    }
    NoFenceCountsZero(h, 3, |h|);
  }

  lemma ReopenBalances(t: string, m: nat, u: nat)
    requires m <= |t| && Balanced(t) && CleanCut(t, m) && Fences(t, 0, m) % 2 == 1 && FenceAt(t, u)
    ensures FenceCount(TrimRight(t[..m]) + CLOSING) % 2 == 0
    ensures Balanced(TrimSpace(Header(t, u) + "\n" + t[m..]))
  {
    hide Header;
    hide TrimSpace;
    hide TrimRight;
    var h := Header(t, u);
    FenceCountSplit(t, m);
    FencesLocal(t, 0, m, t[..m], 0, m);
    ClosingAddsOne(t[..m]);
    HeaderIsSlice(t, u);
    HeaderHasOneFence(t, u);
    RebuiltBalanced(t, m, h);
  }

  lemma RebuiltCount(t: string, m: nat, h: string)
    requires m <= |t| && HeaderShape(h)
    ensures FenceCount(Rebuilt(t, m, h)) == FenceCount(h) + FenceCount(t[m..])
  {
    var r := Rebuilt(t, m, h);
    assert r[|h|] == '\n';
    FenceCountSplit(r, |h|);
    assert r[..|h|] == h;
    var back := r[|h|..];
    assert back[0] == '\n' && back[1..] == t[m..];
    FenceCountSplit(back, 1);
  }

  lemma RebuiltLineFences(t: string, m: nat, h: string)
    requires m <= |t| && LineFences(t) && HeaderShape(h) && forall i :: 0 < i < |h| ==> !FenceAt(h, i)
    ensures LineFences(Rebuilt(t, m, h))
  {
    var r := Rebuilt(t, m, h);
    var tail := t[m..];
    SuffixLineFences(t, m);
    assert r[|h|] == '\n';
    forall i | 0 <= i < |r| && FenceAt(r, i) ensures i == 0 || r[i - 1] == '\n' {
      if i < |h| {
        assert r[i] == h[i];
        assert FenceAt(h, i);
      } else if i > |h| + 1 {
        assert FenceAt(tail, i - |h| - 1);
        assert r[i - 1] == tail[i - |h| - 2];
      }
    }
  }

  /** Trailing whitespace holds no fence and follows none of their lines. */
  lemma PrefixBalanced(r: string, b: nat)
    requires Balanced(r) && b <= |r| && AllSpace(r[b..])
    ensures Balanced(r[..b])
  {
    forall i | b <= i < |r| ensures r[i] != '`' { assert r[i] == r[b..][i - b]; }
    FenceCountIgnoresSpace(r, 0, b);
    assert r[0..b] == r[..b];
    forall i | 0 <= i < b && FenceAt(r[..b], i) ensures i == 0 || r[..b][i - 1] == '\n' {
      assert FenceAt(r, i);
    }
  }

  lemma RebuiltBalanced(t: string, m: nat, h: string)
    requires m <= |t| && LineFences(t) && FenceCount(t[m..]) % 2 == 1
    requires HeaderShape(h) && FenceCount(h) == 1 && forall i :: 0 < i < |h| ==> !FenceAt(h, i)
    ensures Balanced(TrimSpace(h + "\n" + t[m..]))
  {
    RebuiltCount(t, m, h);
    RebuiltLineFences(t, m, h);
    RebuiltTrims(t, m, h);
    hide LineFences;
    hide FenceCount;
    hide TrimSpace;
    hide AllSpace;
    var r := Rebuilt(t, m, h);
    var b :| 3 <= b <= |r| && TrimSpace(r) == r[..b] && AllSpace(r[b..]);
    PrefixBalanced(r, b);
  }

  lemma IterationBalances(t: string, maxLen: nat)
    requires maxLen >= 10 && t != "" && Balanced(t)
    ensures var it := Iterate(t, maxLen);
            FenceCount(it.chunk) % 2 == 0 && Balanced(it.rest)
  {
    hide NextCut;
    hide Header;
    hide TrimSpace;
    hide TrimRight;
    if |t| > maxLen {
      CutBounds(t, maxLen);
      CutParity(t, maxLen);
      match NextCut(t, maxLen)
      case Keep(m) => KeepBalances(t, m);
      case Reopen(m, u) => ReopenBalances(t, m, u);
    }
  }

  /** Fence balance: with a limit of at least 10, every chunk any run sends of a balanced text
      holds an even number of fences. */
  lemma {:induction false} ChunksBalanced(t: string, maxLen: nat, n: nat)
    requires maxLen >= 10 && Balanced(t)
    ensures forall c :: c in Emitted(t, maxLen, n) ==> FenceCount(c) % 2 == 0
    decreases n
  {
    hide Iterate;
    if n > 0 && t != "" {
      IterationBalances(t, maxLen);
      ChunksBalanced(Iterate(t, maxLen).rest, maxLen, n - 1);
    }
  }
}
