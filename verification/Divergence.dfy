/** How sharp the splitter's termination condition is: for texts that begin with a block, closed or
    not, the loop ends exactly when the block's header is at most maxLen - 7 runes long or the block
    closes within the limit. */
module Divergence {
  import opened FenceText
  import opened Splitter

  /** A text that begins with a block: a header line with the one fence at its start, then anything.
      Neither the header nor the text ends in whitespace. */
  predicate Block(t: string, h: string, x: string) {
    && t == h + "\n" + x
    && HeaderShape(h) && (forall i :: 0 < i < |h| ==> !FenceAt(h, i)) && !IsSpace(h[|h| - 1])
    && x != "" && !IsSpace(x[|x| - 1])
  }

  /** No fence but the first ends within the limit. */
  predicate NotClosedWithin(t: string, maxLen: nat) {
    forall i :: 0 < i && i + 3 <= maxLen ==> !FenceAt(t, i)
  }

  /** There is no fence but the first and, possibly, one at c. */
  predicate OneBlock(t: string, h: string, x: string, c: int) {
    Block(t, h, x) && forall i :: 0 < i < |t| && FenceAt(t, i) ==> i == c
  }

  lemma BlockFences(t: string, h: string, x: string)
    requires Block(t, h, x)
    ensures FenceAt(t, 0) && forall i :: 0 < i <= |h| ==> !FenceAt(t, i)
    ensures t[|h|] == '\n' && NewlineFrom(t, 0) == |h|
    ensures Header(t, 0) == h && HeaderEnd(t, 0) == |h|
  {
    assert forall i :: 0 <= i < |h| ==> t[i] == h[i];
    assert t[|h|] == '\n';
    assert h[0] == '`' && h[1] == '`' && h[2] == '`';
    forall i | 0 < i <= |h| ensures !FenceAt(t, i) {
      if i + 2 < |h| {
        assert FenceAt(t, i) ==> FenceAt(h, i);
      }
    }
    NewlineFromIsFirst(t, 0);
    assert t[0..|h|] == h;
    TrimSpaceKeepsFront(h);
    TrimEndIsLongest(h, Space);
  }

  lemma BlockNaturalEnd(t: string, h: string, x: string, e: nat)
    requires Block(t, h, x) && 3 <= e <= |t|
    ensures 3 <= NaturalEnd(t, e)
    ensures |h| < e <= |h| + 2 && (e == |h| + 2 ==> t[|h| + 1] != '\n') ==> NaturalEnd(t, e) == |h|
  {
    BlockFences(t, h, x);
    assert forall i :: 0 <= i < 3 ==> t[i] == h[i] == '`';
    FindLastIsLast(t, Newline, 0, e, 200);
    FindLastIsLast(t, Blank, 0, e, 100);
  }

  /** While no other fence ends by m, the first one is open there. */
  lemma BlockIsOpen(t: string, m: nat)
    requires FenceAt(t, 0) && 3 <= m <= |t| && forall i :: 0 < i && i + 3 <= m ==> !FenceAt(t, i)
    ensures LastOpen(t, 0, m, -1) == 0
  {
    OpenMeansOdd(t, 0, m, -1);
    NoFenceCountsZero(t, 3, m);
  }

  // ------------------------------------------------------------ running for ever

  /** A header too long for the limit makes the loop cut inside it. */
  lemma BlockIsCutInside(t: string, h: string, x: string, maxLen: nat)
    requires Block(t, h, x) && NotClosedWithin(t, maxLen) && 5 <= maxLen < |t| && |h| >= maxLen - 6
    ensures NextCut(t, maxLen) == Reopen(maxLen - 5, 0)
  {
    var e := EffectiveLimit(maxLen);
    BlockFences(t, h, x);
    BlockNaturalEnd(t, h, x, e);
    var m := NaturalEnd(t, e);
    BlockIsOpen(t, m);
    NextClosingIsFirst(t, m, |t|);
    assert EndBefore(t, 0) <= 0;
  }

  /** Re-opening at k rebuilds a text that begins with the same block; its other fences are those
      from k on, moved by |h| + 1 - k. */
  lemma BlockRebuilt(t: string, h: string, x: string, k: nat)
    requires Block(t, h, x) && 0 <= k < |t|
    ensures var rest := h + "\n" + t[k..];
            && Block(rest, h, t[k..]) && TrimSpace(rest) == rest
            && (forall i :: 0 < i < |rest| && FenceAt(rest, i) ==> i > |h| && FenceAt(t, i - |h| - 1 + k))
  {
    var y := t[k..];
    var rest := h + "\n" + y;
    assert rest[|rest| - 1] == t[|t| - 1] == x[|x| - 1];
    assert y[|y| - 1] == t[|t| - 1];
    assert rest[0] == h[0] == '`';
    TrimSpaceKeepsFront(rest);
    TrimEndIsLongest(rest, Space);
    hide TrimSpace;
    hide IsSpace;
    BlockFences(rest, h, y);
    forall i | 0 < i < |rest| && FenceAt(rest, i) ensures i > |h| && FenceAt(t, i - |h| - 1 + k) {
      assert rest[|h| + 1..] == y;
      assert FenceAt(y, i - |h| - 1);
    }
  }

  /** ... and the rebuilt text is no shorter and of the same kind. */
  lemma BlockGrows(t: string, h: string, x: string, maxLen: nat)
    requires Block(t, h, x) && NotClosedWithin(t, maxLen) && 5 <= maxLen < |t| && |h| >= maxLen - 6
    ensures var rest := h + "\n" + t[maxLen - 5..];
            && Iterate(t, maxLen).rest == rest && |rest| >= |t|
            && Block(rest, h, t[maxLen - 5..]) && NotClosedWithin(rest, maxLen)
  {
    hide NextCut;
    BlockIsCutInside(t, h, x, maxLen);
    BlockFences(t, h, x);
    hide Header;
    hide TrimSpace;
    hide TrimRight;
    BlockRebuilt(t, h, x, maxLen - 5);
  }

  /** A block whose header is longer than maxLen - 7 and that does not close within the limit keeps
      the loop running for ever, whatever follows. */
  lemma {:induction false} NeverEnds(t: string, h: string, x: string, maxLen: nat, n: nat)
    requires Block(t, h, x) && NotClosedWithin(t, maxLen) && 5 <= maxLen < |t| && |h| >= maxLen - 6
    ensures Pending(t, maxLen, n) != ""
    decreases n
  {
    hide Iterate;
    hide Block;
    if n > 0 {
      BlockGrows(t, h, x, maxLen);
      NeverEnds(h + "\n" + t[maxLen - 5..], h, t[maxLen - 5..], maxLen, n - 1);
    }
  }

  // ------------------------------------------------------------ coming to an end

  /** A chunk that is kept takes the whole block with it. */
  lemma KeptTakesBlock(t: string, h: string, x: string, c: int, maxLen: nat)
    requires OneBlock(t, h, x, c) && 10 <= maxLen < |t| && NextCut(t, maxLen).Keep?
    ensures var m := NextCut(t, maxLen).end; m <= |t| && NoFence(t[m..])
  {
    var e := EffectiveLimit(maxLen);
    BlockFences(t, h, x);
    BlockNaturalEnd(t, h, x, e);
    CutBounds(t, maxLen);
    KeepFacts(t, maxLen);
    var m, m0 := NextCut(t, maxLen).end, NaturalEnd(t, e);
    var u := LastOpen(t, 0, m0, -1);
    hide NextCut;
    hide NaturalEnd;
    if 0 < c && FenceAt(t, c) && c + 3 <= m0 {
      assert NoFence(t[m..]) by {
        ClosedFirst(t, c, m0);
        AfterClosing(t, c, m);
      }
    } else {
      BlockIsOpen(t, m0);
      NextClosingIsFirst(t, m0, |t|);
      assert m == NextClosing(t, m0, |t|);
      AfterClosing(t, c, m);
    }
  }

  lemma ClosedFirst(t: string, c: nat, m: nat)
    requires FenceAt(t, 0) && FenceAt(t, c) && 3 <= c && c + 3 <= m <= |t|
    requires forall i :: 0 < i < |t| && FenceAt(t, i) ==> i == c
    ensures LastOpen(t, 0, m, -1) < 0
  {
    OpenMeansOdd(t, 0, m, -1);
    FencesSplit(t, 3, c, m);
    NoFenceCountsZero(t, 3, c);
    NoFenceCountsZero(t, c + 3, m);
  }

  lemma AfterClosing(t: string, c: int, m: nat)
    requires 0 < m <= |t| && (forall i :: 0 < i < |t| && FenceAt(t, i) ==> i == c) && c < m
    ensures NoFence(t[m..])
  {
    forall i | 0 <= i < |t[m..]| ensures !FenceAt(t[m..], i) {
      assert FenceAt(t[m..], i) ==> FenceAt(t, m + i);
    }
  }

  lemma OpenedIsFirst(t: string, h: string, x: string, c: int, m: nat)
    requires OneBlock(t, h, x, c) && 3 <= m <= |t| && LastOpen(t, 0, m, -1) >= 0
    ensures LastOpen(t, 0, m, -1) == 0
  {
    BlockFences(t, h, x);
    OpenMeansOdd(t, 0, m, -1);
    if 0 < c && FenceAt(t, c) && c + 3 <= m {
      ClosedFirst(t, c, m);
    } else {
      BlockIsOpen(t, m);
    }
  }

  /** A re-opened block of this kind leaves a shorter text of this kind. */
  lemma ReopenedIsBlock(t: string, h: string, x: string, c: int, maxLen: nat)
    requires OneBlock(t, h, x, c) && 10 <= maxLen < |t| && |h| <= maxLen - 7 && NextCut(t, maxLen).Reopen?
    ensures var m := NextCut(t, maxLen).end;
            && 0 < m < |t|
            && var rest := h + "\n" + t[m..];
               && Iterate(t, maxLen).rest == rest && |rest| < |t|
               && OneBlock(rest, h, t[m..], c + |h| + 1 - m)
  {
    BlockFences(t, h, x);
    BlockNaturalEnd(t, h, x, EffectiveLimit(maxLen));
    ReopenFacts(t, maxLen);
    OpenedIsFirst(t, h, x, c, NaturalEnd(t, EffectiveLimit(maxLen)));
    hide NextCut;
    hide Header;
    hide TrimSpace;
    hide TrimRight;
    hide NaturalEnd;
    BlockRebuilt(t, h, x, NextCut(t, maxLen).end);
  }

  lemma KeptRest(t: string, maxLen: nat)
    requires 0 < maxLen < |t| && NextCut(t, maxLen).Keep? && NextCut(t, maxLen).end <= |t|
    requires NoFence(t[NextCut(t, maxLen).end..])
    ensures NoFence(Iterate(t, maxLen).rest)
  {
    hide NextCut;
    var tail := t[NextCut(t, maxLen).end..];
    var a := TrimStart(tail, Cutset);
    SliceNoFence(tail, a, |tail|);
    assert Iterate(t, maxLen).rest == tail[a..|tail|];
  }

  lemma EndsAfterOne(t: string, maxLen: nat)
    requires maxLen > 0 && t != "" && Ends(Iterate(t, maxLen).rest, maxLen)
    ensures Ends(t, maxLen)
  {
    hide Iterate;
    var n: nat :| Pending(Iterate(t, maxLen).rest, maxLen, n) == "";
    assert Pending(t, maxLen, n + 1) == "";
  }

  lemma {:induction false} ShortHeaderEnds(t: string, h: string, x: string, c: int, maxLen: nat)
    requires OneBlock(t, h, x, c) && 10 <= maxLen && |h| <= maxLen - 7
    ensures Ends(t, maxLen)
    decreases |t|
  {
    hide Iterate;
    hide Ends;
    if |t| <= maxLen {
      SplittableEnds(t, maxLen);
    } else {
      match NextCut(t, maxLen)
      case Keep(m) =>
        KeptTakesBlock(t, h, x, c, maxLen);
        KeptRest(t, maxLen);
        SplittableEnds(Iterate(t, maxLen).rest, maxLen);
        EndsAfterOne(t, maxLen);
      case Reopen(m, _) =>
        ReopenedIsBlock(t, h, x, c, maxLen);
        ShortHeaderEnds(h + "\n" + t[m..], h, t[m..], c + |h| + 1 - m, maxLen);
        EndsAfterOne(t, maxLen);
    }
  }

  /** A block with a long header that closes within the limit is kept whole. */
  lemma ClosedWithinEnds(t: string, h: string, x: string, c: int, maxLen: nat)
    requires OneBlock(t, h, x, c) && 5 <= maxLen < |t| && |h| >= maxLen - 6
    requires 0 < c && FenceAt(t, c) && c + 3 <= maxLen
    ensures Ends(t, maxLen)
  {
    var e := EffectiveLimit(maxLen);
    BlockFences(t, h, x);
    BlockNaturalEnd(t, h, x, e);
    var m := NaturalEnd(t, e);
    assert t[c] == '`';
    assert 3 <= m <= c;
    BlockIsOpen(t, m);
    NextClosingIsFirst(t, m, |t|);
    assert NextCut(t, maxLen) == Keep(c + 3);
    hide NextCut;
    AfterClosing(t, c, c + 3);
    KeptRest(t, maxLen);
    SplittableEnds(Iterate(t, maxLen).rest, maxLen);
    EndsAfterOne(t, maxLen);
  }

  /** The loop ends on a text with one block, closed or not, exactly when the header leaves room to
      make progress or the block closes within the limit. */
  lemma EndsIffHeaderFits(t: string, h: string, x: string, c: int, maxLen: nat)
    requires OneBlock(t, h, x, c) && 5 <= maxLen < |t|
    ensures Ends(t, maxLen) <==> |h| <= maxLen - 7 || (0 < c && FenceAt(t, c) && c + 3 <= maxLen)
  {
    if |h| <= maxLen - 7 {
      ShortHeaderEnds(t, h, x, c, maxLen);
    } else if 0 < c && FenceAt(t, c) && c + 3 <= maxLen {
      ClosedWithinEnds(t, h, x, c, maxLen);
    } else {
      forall n: nat ensures Pending(t, maxLen, n) != "" {
        NeverEnds(t, h, x, maxLen, n);
      }
    }
  }
}
