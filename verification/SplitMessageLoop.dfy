/** SplitMessage itself: the loop over a rune slice and a start index, with its five search
    helpers, proved against the iteration of module Splitter. */
module SplitMessageLoop {
  import opened FenceText
  import opened Splitter

  // ------------------------------------------------------------ the search helpers

  method FindLastInRange(runes: string, which: RuneClass, start: nat, end: nat, searchWindow: nat)
    returns (r: int)
    requires start <= end <= |runes|
    ensures r == FindLast(runes, which, start, end, searchWindow)
  {
    var searchStart := Max(end - searchWindow, start);
    var i := end - 1;
    while i >= searchStart
      invariant searchStart - 1 <= i < end
      invariant LastIn(runes, which, searchStart, end) == LastIn(runes, which, searchStart, i + 1)
    {
      if which.Has(runes[i]) {
        return i;
      }
      i := i - 1;
    }
    return start - 1;
  }

  method FindLastUnclosedCodeBlockInRange(runes: string, start: nat, end: nat) returns (r: int)
    requires start <= end <= |runes|
    ensures r == LastOpen(runes, start, end, -1)
  {
    var inCodeBlock := false;
    var lastOpenIdx := -1;
    var i := start;
    while i < end
      invariant start <= i <= end
      invariant inCodeBlock ==> 0 <= lastOpenIdx
      invariant LastOpen(runes, start, end, -1) == LastOpen(runes, i, end, if inCodeBlock then lastOpenIdx else -1)
    {
      if i + 2 < end && runes[i] == '`' && runes[i + 1] == '`' && runes[i + 2] == '`' {
        if !inCodeBlock {
          lastOpenIdx := i;
        }
        inCodeBlock := !inCodeBlock;
        i := i + 2;
      }
      i := i + 1;
    }
    return if inCodeBlock then lastOpenIdx else -1;
  }

  method FindNextClosingCodeBlockInRange(runes: string, startIdx: nat, end: nat) returns (r: int)
    requires startIdx <= end <= |runes|
    ensures r == NextClosing(runes, startIdx, end)
  {
    var i := startIdx;
    while i < end
      invariant startIdx <= i <= end
      invariant NextClosing(runes, startIdx, end) == NextClosing(runes, i, end)
    {
      if i + 2 < end && runes[i] == '`' && runes[i + 1] == '`' && runes[i + 2] == '`' {
        return i + 3;
      }
      i := i + 1;
    }
    return -1;
  }

  method FindNewlineFrom(runes: string, from: nat) returns (r: int)
    requires from <= |runes|
    ensures r == NewlineFrom(runes, from)
  {
    var i := from;
    while i < |runes|
      invariant from <= i <= |runes|
      invariant NewlineFrom(runes, from) == NewlineFrom(runes, i)
    {
      if runes[i] == '\n' {
        return i;
      }
      i := i + 1;
    }
    return -1;
  }

  // ------------------------------------------------------------ searching behind an offset

  lemma {:induction false} LastInShift(s: string, p: RuneClass, k: nat, lo: nat, hi: nat)
    requires lo <= hi && k + hi <= |s|
    ensures LastIn(s, p, k + lo, k + hi) == k + LastIn(s[k..], p, lo, hi)
    decreases hi - lo
  {
    if lo < hi {
      LastInShift(s, p, k, lo, hi - 1);
    }
  }

  lemma FindLastShift(s: string, p: RuneClass, k: nat, end: nat, window: nat)
    requires k + end <= |s|
    ensures FindLast(s, p, k, k + end, window) == k + FindLast(s[k..], p, 0, end, window)
  {
    LastInShift(s, p, k, Max(end - window, 0), end);
  }

  lemma {:induction false} LastOpenShift(s: string, k: nat, i: nat, end: nat, open: int)
    requires i <= end && k + end <= |s| && -1 <= open
    ensures LastOpen(s, k + i, k + end, if open < 0 then -1 else k + open)
            == var r := LastOpen(s[k..], i, end, open); if r < 0 then -1 else k + r
    decreases end - i
  {
    if i < end {
      if i + 2 < end && FenceAt(s[k..], i) {
        LastOpenShift(s, k, i + 3, end, if open < 0 then i else -1);
      } else {
        LastOpenShift(s, k, i + 1, end, open);
      }
    }
  }

  lemma {:induction false} NextClosingShift(s: string, k: nat, i: nat, end: nat)
    requires i <= end && k + end <= |s|
    ensures NextClosing(s, k + i, k + end)
            == var r := NextClosing(s[k..], i, end); if r < 0 then -1 else k + r
    decreases end - i
  {
    if i < end && !(i + 2 < end && FenceAt(s[k..], i)) {
      NextClosingShift(s, k, i + 1, end);
    }
  }

  lemma {:induction false} NewlineFromShift(s: string, k: nat, i: nat)
    requires k + i <= |s|
    ensures NewlineFrom(s, k + i)
            == var r := NewlineFrom(s[k..], i); if r < 0 then -1 else k + r
    decreases |s| - i
  {
    if k + i < |s| && s[k + i] != '\n' {
      NewlineFromShift(s, k, i + 1);
    }
  }

  // ------------------------------------------------------------ the loop

  /** All the chunks of a text on which the loop ends. */
  ghost function Split(t: string, maxLen: nat): seq<string>
    requires maxLen > 0 && Ends(t, maxLen)
  {
    var n: nat :| Pending(t, maxLen, n) == "";
    Emitted(t, maxLen, n)
  }

  /** Once nothing is pending further passes change nothing. */
  lemma {:induction false} EmittedStable(t: string, maxLen: nat, n: nat, m: nat)
    requires maxLen > 0 && Pending(t, maxLen, n) == "" && n <= m
    ensures Pending(t, maxLen, m) == "" && Emitted(t, maxLen, m) == Emitted(t, maxLen, n)
    decreases n
  {
    hide Iterate;
    if t != "" {
      EmittedStable(Iterate(t, maxLen).rest, maxLen, n - 1, m - 1);
    }
  }

  /** So the chunks do not depend on how many passes are counted. */
  lemma SplitIs(t: string, maxLen: nat, n: nat)
    requires maxLen > 0 && Pending(t, maxLen, n) == ""
    ensures Ends(t, maxLen) && Split(t, maxLen) == Emitted(t, maxLen, n)
  {
    var k: nat :| Pending(t, maxLen, k) == "" && Split(t, maxLen) == Emitted(t, maxLen, k);
    EmittedStable(t, maxLen, if k < n then k else n, if k < n then n else k);
  }

  lemma SplitOfSplittable(t: string, maxLen: nat)
    requires maxLen > 0 && Splittable(t, maxLen)
    ensures Ends(t, maxLen) && Split(t, maxLen) == Emitted(t, maxLen, |t|)
  {
    Terminates(t, maxLen, |t|);
    SplitIs(t, maxLen, |t|);
  }

  lemma SplitStep(t: string, maxLen: nat, n: nat)
    requires maxLen > 0 && t != "" && Pending(t, maxLen, n) == ""
    ensures n > 0 && Ends(t, maxLen)
    ensures var it := Iterate(t, maxLen);
            && Pending(it.rest, maxLen, n - 1) == "" && Ends(it.rest, maxLen)
            && Split(t, maxLen) == [it.chunk] + Split(it.rest, maxLen)
  {
    hide Iterate;
    SplitIs(t, maxLen, n);
    SplitIs(Iterate(t, maxLen).rest, maxLen, n - 1);
  }

  lemma SplitEmpty(maxLen: nat)
    requires maxLen > 0
    ensures Ends("", maxLen) && Split("", maxLen) == []
  {
    SplitIs("", maxLen, 0);
  }

  /** The natural split point within the effective limit. */
  method FindNaturalEnd(runes: string, start: nat, end: nat) returns (msgEnd: nat)
    requires start < end <= |runes|
    ensures msgEnd == start + NaturalEnd(runes[start..], end - start)
  {
    var found := FindLastInRange(runes, Newline, start, end, 200);
    FindLastShift(runes, Newline, start, end - start, 200);
    if found <= start {
      found := FindLastInRange(runes, Blank, start, end, 100);
      FindLastShift(runes, Blank, start, end - start, 100);
    }
    if found <= start {
      found := end;
    }
    msgEnd := found;
  }

  /** The header of the block opened at unclosedIdx, and where its line ends. */
  method FindHeader(runes: string, start: nat, unclosedIdx: nat) returns (header: string, headerEndIdx: nat)
    requires start <= unclosedIdx <= |runes| && FenceAt(runes[start..], unclosedIdx - start)
    ensures header == Header(runes[start..], unclosedIdx - start)
    ensures headerEndIdx == start + HeaderEnd(runes[start..], unclosedIdx - start)
  {
    ghost var t, u := runes[start..], unclosedIdx - start;
    var headerEnd := FindNewlineFrom(runes, unclosedIdx);
    NewlineFromShift(runes, start, u);
    if headerEnd == -1 {
      header := TrimSpace(runes[unclosedIdx..unclosedIdx + 3]);
      assert runes[unclosedIdx..unclosedIdx + 3] == t[u..u + 3];
    } else {
      header := TrimSpace(runes[unclosedIdx..headerEnd]);
      assert runes[unclosedIdx..headerEnd] == t[u..headerEnd - start];
    }
    headerEndIdx := unclosedIdx + |header|;
    if headerEnd != -1 {
      headerEndIdx := headerEnd;
    }
  }

  /** The cut of a block too long for one chunk: inside it, in front of it, or at the limit. */
  method FindBlockCut(runes: string, start: nat, maxLen: nat, naturalEnd: nat, unclosedIdx: nat)
    returns (msgEnd: nat, reopen: bool, header: string)
    requires 5 <= maxLen < |runes| - start && start <= unclosedIdx && start <= naturalEnd <= start + maxLen
    requires FenceAt(runes[start..], unclosedIdx - start)
    ensures start <= msgEnd <= |runes|
    ensures BlockCut(runes[start..], maxLen, naturalEnd - start, unclosedIdx - start)
            == if reopen then Reopen(msgEnd - start, unclosedIdx - start) else Keep(msgEnd - start)
    ensures header == Header(runes[start..], unclosedIdx - start)
  {
    hide Header;
    hide HeaderEnd;
    ghost var u := unclosedIdx - start;
    reopen := false;
    var headerEndIdx;
    header, headerEndIdx := FindHeader(runes, start, unclosedIdx);

    if naturalEnd > headerEndIdx + 20 {
      var innerLimit := Min(start + maxLen - 5, |runes|);
      var betterEnd := FindLastInRange(runes, Newline, start, innerLimit, 200);
      FindLastShift(runes, Newline, start, innerLimit - start, 200);
      msgEnd := if betterEnd > headerEndIdx then betterEnd else innerLimit;
      reopen := true;
      return;
    }

    var newEnd := FindLastInRange(runes, Newline, start, unclosedIdx, 200);
    FindLastShift(runes, Newline, start, u, 200);
    if newEnd <= start {
      newEnd := FindLastInRange(runes, Blank, start, unclosedIdx, 100);
      FindLastShift(runes, Blank, start, u, 100);
    }
    if newEnd > start {
      msgEnd := newEnd;
    } else if unclosedIdx - start > 20 {
      msgEnd := unclosedIdx;
    } else {
      msgEnd := Min(start + maxLen - 5, |runes|);
      reopen := true;
    }
  }

  /** Where the current chunk ends, and whether it ends inside a block that has to be closed
      and re-opened with `header`. */
  method FindCut(runes: string, start: nat, maxLen: nat, effectiveLimit: nat)
    returns (msgEnd: nat, reopen: bool, header: string)
    requires 0 < maxLen < |runes| - start && effectiveLimit == EffectiveLimit(maxLen)
    ensures start <= msgEnd <= |runes|
    ensures !reopen ==> NextCut(runes[start..], maxLen) == Keep(msgEnd - start)
    ensures reopen ==>
              && NextCut(runes[start..], maxLen).Reopen? && NextCut(runes[start..], maxLen).end == msgEnd - start
              && header == Header(runes[start..], NextCut(runes[start..], maxLen).fence)
  {
    hide Header;
    hide BlockCut;
    hide NaturalEnd;
    ghost var t := runes[start..];
    header, reopen := "", false;
    msgEnd := FindNaturalEnd(runes, start, start + effectiveLimit);
    ghost var m := NaturalEnd(t, effectiveLimit);

    var unclosedIdx := FindLastUnclosedCodeBlockInRange(runes, start, msgEnd);
    LastOpenShift(runes, start, 0, m, -1);
    if unclosedIdx >= 0 {
      OpenNeedsRoom(t, maxLen);
      if |runes| > msgEnd {
        var closingIdx := FindNextClosingCodeBlockInRange(runes, msgEnd, |runes|);
        NextClosingShift(runes, start, m, |t|);
        if closingIdx > 0 && closingIdx - start <= maxLen {
          msgEnd := closingIdx;
        } else {
          msgEnd, reopen, header := FindBlockCut(runes, start, maxLen, msgEnd, unclosedIdx);
        }
      }
    }
  }

  /** Advances over leading whitespace of the next chunk. */
  method SkipLeadingSpace(runes: string, from: nat) returns (start: nat)
    requires from <= |runes|
    ensures start == from + TrimStart(runes[from..], Cutset)
  {
    start := from;
    while start < |runes|
          && (runes[start] == ' ' || runes[start] == '\t' || runes[start] == '\n' || runes[start] == '\r')
      invariant from <= start <= |runes|
      invariant from + TrimStart(runes[from..], Cutset) == start + TrimStart(runes[start..], Cutset)
    {
      assert runes[start..][1..] == runes[start + 1..];
      start := start + 1;
    }
  }

  /** For every content on which the source's loop ends. */
  method SplitMessage(content: string, maxLen: int) returns (messages: seq<string>)
    requires maxLen <= 0 || Ends(content, maxLen)
    ensures maxLen <= 0 ==> messages == if content == "" then [] else [content]
    ensures maxLen > 0 ==> messages == Split(content, maxLen)
  {
    hide Iterate;
    hide NextCut;
    hide Header;
    hide TrimSpace;
    hide TrimRight;
    hide Split;
    hide Pending;
    if maxLen <= 0 {
      if content == "" {
        return [];
      }
      return [content];
    }

    var runes := content;
    var totalLen := |runes|;
    messages := [];
    ghost var passes: nat :| Pending(content, maxLen, passes) == "";

    var codeBlockBuffer := Max(maxLen / 10, 50);
    if codeBlockBuffer > maxLen / 2 {
      codeBlockBuffer := maxLen / 2;
    }

    var start := 0;
    assert runes[0..] == content;
    while start < totalLen
      invariant totalLen == |runes| && 0 <= start <= totalLen
      invariant codeBlockBuffer == CodeBlockBuffer(maxLen)
      invariant Pending(runes[start..], maxLen, passes) == "" && Ends(runes[start..], maxLen)
      invariant messages + Split(runes[start..], maxLen) == Split(content, maxLen)
      decreases passes, totalLen - start
    {
      ghost var t := runes[start..];
      SplitStep(t, maxLen, passes);
      passes := passes - 1;

      var remaining := totalLen - start;
      if remaining <= maxLen {
        LastIteration(t, maxLen);
        assert runes[start..totalLen] == t;
        messages := messages + [runes[start..totalLen]];
        start := totalLen;
        assert runes[start..] == "";
        break;
      }

      var effectiveLimit := Max(maxLen - codeBlockBuffer, maxLen / 2);
      var msgEnd, reopen, header := FindCut(runes, start, maxLen, effectiveLimit);
      if reopen {
        ReopenIteration(runes, start, msgEnd, NextCut(t, maxLen).fence, maxLen);
        messages := messages + [TrimRight(runes[start..msgEnd]) + CLOSING];
        runes := TrimSpace(header + "\n" + runes[msgEnd..totalLen]);
        totalLen := |runes|;
        start := 0;
        assert runes[0..] == runes;
        continue;
      }

      KeepIteration(runes, start, msgEnd, maxLen);
      messages := messages + [runes[start..msgEnd]];
      start := SkipLeadingSpace(runes, msgEnd);
    }
    assert runes[start..] == "";
    SplitEmpty(maxLen);
  }

  lemma LastIteration(t: string, maxLen: nat)
    requires t != "" && 0 < |t| <= maxLen
    ensures Iterate(t, maxLen) == Next(t, "")
  {
  }

  lemma KeepIteration(runes: string, start: nat, end: nat, maxLen: nat)
    requires start <= end <= |runes| && 0 < maxLen < |runes| - start
    requires NextCut(runes[start..], maxLen) == Keep(end - start)
    ensures var it := Iterate(runes[start..], maxLen);
            it == Next(runes[start..end], runes[end + TrimStart(runes[end..], Cutset)..])
  {
    hide NextCut;
    hide TrimStart;
    var t := runes[start..];
    assert t[..end - start] == runes[start..end];
    assert t[end - start..] == runes[end..];
    var a := TrimStart(runes[end..], Cutset);
    assert t[end - start + a..] == runes[end + a..];
  }

  lemma ReopenIteration(runes: string, start: nat, end: nat, u: nat, maxLen: nat)
    requires start <= end <= |runes| && 0 < maxLen < |runes| - start
    requires NextCut(runes[start..], maxLen) == Reopen(end - start, u)
    ensures FenceAt(runes[start..], u)
    ensures var it := Iterate(runes[start..], maxLen);
            it == Next(TrimRight(runes[start..end]) + CLOSING,
                       TrimSpace(Header(runes[start..], u) + "\n" + runes[end..|runes|]))
  {
    hide NextCut;
    hide TrimSpace;
    hide TrimRight;
    hide Header;
    var t := runes[start..];
    SliceOffset(runes, start, end);
    assert NextCut(t, maxLen).end == end - start;
    IterateReopens(t, maxLen);
  }

  lemma SliceOffset(s: string, a: nat, b: nat)
    requires a <= b <= |s|
    ensures s[a..][..b - a] == s[a..b]
    ensures s[a..][b - a..] == s[b..|s|]
  {
  }

  lemma IterateReopens(t: string, maxLen: nat)
    requires 0 < maxLen < |t| && NextCut(t, maxLen).Reopen?
    ensures var Reopen(m, u) := NextCut(t, maxLen);
            && m <= |t|
            && Iterate(t, maxLen) == Next(TrimRight(t[..m]) + CLOSING, TrimSpace(Header(t, u) + "\n" + t[m..]))
  {
    hide NextCut;
    hide TrimSpace;
    hide TrimRight;
    hide Header;
    CutBounds(t, maxLen);
  }
}
