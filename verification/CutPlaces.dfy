/** Where the splitter cuts a text, said of its runes alone: the last newline of a window, else the last
    blank of a smaller one, else the limit; and how a code block changes that. */
module CutPlaces {
  import opened FenceText
  import opened Splitter
  import opened SplitMessageLoop

  /** Some rune of t[lo..hi] is of the class. */
  ghost predicate SomeIn(t: string, p: RuneClass, lo: int, hi: int) {
    exists j :: lo <= j < hi && 0 <= j < |t| && p.Has(t[j])
  }

  /** The last rune of the class in front of hi is at m. */
  predicate IsLastIn(t: string, p: RuneClass, m: int, hi: int) {
    0 <= m < hi <= |t| && p.Has(t[m]) && forall j :: m < j < hi ==> !p.Has(t[j])
  }

  /** A chunk that begins at k and has a limit of e runes ends at m: at the last newline of the last 200
      runes, else at the last space or tab of the last 100, else at the limit; but never at k. */
  ghost predicate NaturalAt(t: string, k: nat, e: nat, m: int) {
    var newline := SomeIn(t, Newline, Max(k + 1, k + e - 200), k + e);
    var blank := SomeIn(t, Blank, Max(k + 1, k + e - 100), k + e);
    && (newline ==> k < m && IsLastIn(t, Newline, m, k + e))
    && (!newline && blank ==> k < m && IsLastIn(t, Blank, m, k + e))
    && (!newline && !blank ==> m == k + e)
  }

  lemma SearchIs(t: string, p: RuneClass, e: nat, window: nat)
    requires e <= |t|
    ensures var r := FindLast(t, p, 0, e, window);
            && (r > 0 <==> SomeIn(t, p, Max(1, e - window), e))
            && (r > 0 ==> IsLastIn(t, p, r, e))
  {
    FindLastIsLast(t, p, 0, e, window);
  }

  /** The natural end of a chunk. */
  lemma NaturalEndIs(t: string, e: nat)
    requires 0 < e <= |t|
    ensures NaturalAt(t, 0, e, NaturalEnd(t, e))
  {
    SearchIs(t, Newline, e, 200);
    SearchIs(t, Blank, e, 100);
  }

  /** The same rune by rune, without the search windows' names. */
  lemma NaturalEndRunes(t: string, e: nat)
    requires 0 < e <= |t|
    ensures var m := NaturalEnd(t, e);
            && ((exists j :: Max(1, e - 200) <= j < e && t[j] == '\n') ==>
                  0 < m < e && t[m] == '\n' && forall j :: m < j < e ==> t[j] != '\n')
            && ((forall j :: Max(1, e - 200) <= j < e ==> t[j] != '\n')
                && (exists j :: Max(1, e - 100) <= j < e && (t[j] == ' ' || t[j] == '\t')) ==>
                  && 0 < m < e && (t[m] == ' ' || t[m] == '\t')
                  && forall j :: m < j < e ==> t[j] != ' ' && t[j] != '\t')
            && ((forall j :: Max(1, e - 200) <= j < e ==> t[j] != '\n')
                && (forall j :: Max(1, e - 100) <= j < e ==> t[j] != ' ' && t[j] != '\t') ==>
                  m == e)
  {
    NaturalEndIs(t, e);
    var m := NaturalEnd(t, e);
    hide NaturalEnd;
    if j :| Max(1, e - 200) <= j < e && t[j] == '\n' {
      assert SomeIn(t, Newline, Max(1, e - 200), e);
    }
    if j :| Max(1, e - 100) <= j < e && (t[j] == ' ' || t[j] == '\t') {
      assert SomeIn(t, Blank, Max(1, e - 100), e);
    }
  }

  /** The room kept for closing a block: a tenth of the limit, but at least 50 runes, but at most half. */
  lemma EffectiveLimitIs(maxLen: nat)
    ensures maxLen >= 500 ==> EffectiveLimit(maxLen) == maxLen - maxLen / 10
    ensures 100 <= maxLen < 500 ==> EffectiveLimit(maxLen) == maxLen - 50
    ensures maxLen < 100 ==> EffectiveLimit(maxLen) == maxLen - maxLen / 2
  {
  }

  // ------------------------------------------------------------ blocks

  /** The first fence that starts at or after m and ends within the limit ends at c. */
  predicate ClosesAt(t: string, m: nat, maxLen: nat, c: int) {
    && m + 3 <= c <= maxLen && FenceAt(t, c - 3)
    && forall j :: m <= j < c - 3 ==> !FenceAt(t, j)
  }

  predicate NotClosed(t: string, m: nat, maxLen: nat) {
    forall j :: m <= j && j + 3 <= maxLen ==> !FenceAt(t, j)
  }

  /** The line of the fence at u ends at n: its newline, or the end of the fence if there is none. */
  predicate LineEndsAt(t: string, u: nat, n: int) {
    || (u <= n < |t| && t[n] == '\n' && forall j :: u <= j < n ==> t[j] != '\n')
    || (n == u + 3 && forall j :: u <= j < |t| ==> t[j] != '\n')
  }

  lemma LineEndIs(t: string, u: nat)
    requires FenceAt(t, u)
    ensures LineEndsAt(t, u, HeaderEnd(t, u))
  {
    NewlineFromIsFirst(t, u);
    HeaderIsSlice(t, u);
  }

  /** A split in front of the block at u ends at b, or there is none for b <= 0. */
  ghost predicate BeforeAt(t: string, u: nat, b: int) {
    var newline := SomeIn(t, Newline, Max(1, u - 200), u);
    var blank := SomeIn(t, Blank, Max(1, u - 100), u);
    && (newline ==> b > 0 && IsLastIn(t, Newline, b, u))
    && (!newline && blank ==> b > 0 && IsLastIn(t, Blank, b, u))
    && (!newline && !blank ==> b <= 0)
  }

  /** A block is split inside at m: at the last newline of the 200 runes in front of the limit less five
      if that lies behind the header's line, else at the limit less five. */
  ghost predicate InsideAt(t: string, lineEnd: nat, limit: nat, m: int) {
    if SomeIn(t, Newline, Max(lineEnd + 1, limit - 200), limit) then m > lineEnd && IsLastIn(t, Newline, m, limit)
    else m == limit
  }

  /** The cut of a text longer than the limit. If no fence is open at the natural end m0, it is m0. Else,
      for the open fence at u: the end of its closing fence within the limit; else inside, if more than
      20 runes lie behind the header's line; else in front of the block; else at its fence, if that is
      more than 20 runes away; else inside, at the limit less five. */
  ghost predicate CutAt(t: string, maxLen: nat, m0: nat, cut: Cut) {
    if m0 <= |t| && Fences(t, 0, m0) % 2 == 0 then cut == Keep(m0) else
    exists u: nat, lineEnd: nat, before ::
      && m0 <= |t| && IsOpenAt(t, m0, u) && LineEndsAt(t, u, lineEnd) && BeforeAt(t, u, before)
      && match cut
         case Keep(m) =>
           || ClosesAt(t, m0, maxLen, m)
           || (NotClosed(t, m0, maxLen) && m0 <= lineEnd + 20
               && (before > 0 || u > 20) && m == if before > 0 then before else u)
         case Reopen(m, fence) =>
           && fence == u && NotClosed(t, m0, maxLen) && maxLen >= 5
           && if m0 > lineEnd + 20 then InsideAt(t, lineEnd, maxLen - 5, m)
              else before <= 0 && u <= 20 && m == maxLen - 5
  }

  /** The fence at u is the last of those that end by m, and the odd one. */
  predicate IsOpenAt(t: string, m: nat, u: nat)
    requires m <= |t|
  {
    && u + 3 <= m && FenceAt(t, u) && Fences(t, 0, u) % 2 == 0 && Fences(t, u + 3, m) == 0
  }

  lemma BeforeIs(t: string, u: nat)
    requires u <= |t|
    ensures BeforeAt(t, u, EndBefore(t, u))
  {
    SearchIs(t, Newline, u, 200);
    SearchIs(t, Blank, u, 100);
  }

  lemma InsideIs(t: string, lineEnd: nat, limit: nat)
    requires limit <= |t|
    ensures var better := FindLast(t, Newline, 0, limit, 200);
            InsideAt(t, lineEnd, limit, if better > lineEnd then better else limit)
  {
    FindLastIsLast(t, Newline, 0, limit, 200);
  }

  lemma OpenIs(t: string, m: nat)
    requires m <= |t|
    ensures var u := LastOpen(t, 0, m, -1);
            && (u < 0 <==> Fences(t, 0, m) % 2 == 0)
            && (u >= 0 ==> IsOpenAt(t, m, u))
  {
    OpenMeansOdd(t, 0, m, -1);
  }

  lemma ClosingIs(t: string, m: nat, maxLen: nat)
    requires m <= |t| && maxLen <= |t|
    ensures var c := NextClosing(t, m, |t|);
            if c > 0 && c <= maxLen then ClosesAt(t, m, maxLen, c) else NotClosed(t, m, maxLen)
  {
    NextClosingIsFirst(t, m, |t|);
  }

  /** Every cut the loop makes is this one. */
  lemma CutIs(t: string, maxLen: nat)
    requires 0 < maxLen < |t|
    ensures var m0 := NaturalEnd(t, EffectiveLimit(maxLen));
            NaturalAt(t, 0, EffectiveLimit(maxLen), m0) && CutAt(t, maxLen, m0, NextCut(t, maxLen))
  {
    var m0 := NaturalEnd(t, EffectiveLimit(maxLen));
    NaturalEndIs(t, EffectiveLimit(maxLen));
    hide NaturalAt;
    OpenIs(t, m0);
    var u := LastOpen(t, 0, m0, -1);
    if u >= 0 {
      OpenNeedsRoom(t, maxLen);
      ClosingIs(t, m0, maxLen);
      LineEndIs(t, u);
      BeforeIs(t, u);
      InsideIs(t, HeaderEnd(t, u), maxLen - 5);
      BlockCutIs(t, maxLen, m0, u);
    }
    hide NaturalEnd;
    hide LastOpen;
    hide NextClosing;
    hide HeaderEnd;
    hide EndBefore;
    hide BlockCut;
    hide NaturalAt;
    hide IsOpenAt;
    hide LineEndsAt;
    hide BeforeAt;
    hide InsideAt;
    hide ClosesAt;
    hide NotClosed;
    hide Fences;
    if u >= 0 {
      assert IsOpenAt(t, m0, u) && LineEndsAt(t, u, HeaderEnd(t, u)) && BeforeAt(t, u, EndBefore(t, u));
    }
  }

  lemma BlockCutIs(t: string, maxLen: nat, m0: nat, u: nat)
    requires 5 <= maxLen < |t| && m0 <= maxLen && FenceAt(t, u)
    ensures var better := FindLast(t, Newline, 0, maxLen - 5, 200);
            BlockCut(t, maxLen, m0, u)
            == if m0 > HeaderEnd(t, u) + 20 then Reopen(if better > HeaderEnd(t, u) then better else maxLen - 5, u)
               else if EndBefore(t, u) > 0 then Keep(EndBefore(t, u))
               else if u > 20 then Keep(u)
               else Reopen(maxLen - 5, u)
  {
    hide HeaderEnd;
    hide EndBefore;
    hide FindLast;
  }

  /** The header carried over is the whole line of the fence but for trailing whitespace. */
  predicate HeaderAt(t: string, u: nat, lineEnd: nat, h: string) {
    && 3 <= |h| && u + |h| <= lineEnd <= |t| && h == t[u..u + |h|]
    && AllSpace(t[u + |h|..lineEnd]) && !IsSpace(h[|h| - 1])
  }

  /** Trimming a text that begins with a fence drops its trailing whitespace only. */
  lemma TrimmedFence(s: string)
    requires FenceAt(s, 0)
    ensures var b := TrimEnd(s, Space);
            3 <= b <= |s| && AllSpace(s[b..]) && !IsSpace(s[b - 1]) && TrimSpace(s) == s[..b]
  {
    assert s[0] == '`' && s[1] == '`' && s[2] == '`';
    TrimSpaceKeepsFront(s);
    TrimEndIsLongest(s, Space);
    hide IsSpace;
    var b := TrimEnd(s, Space);
    forall i | 0 <= i < |s[b..]| ensures IsSpace(s[b..][i]) {
      assert Space.Has(s[b + i]);
    }
    assert !Space.Has(s[b - 1]);
  }

  lemma HeaderIs(t: string, u: nat)
    requires FenceAt(t, u)
    ensures HeaderAt(t, u, HeaderEnd(t, u), Header(t, u))
  {
    NewlineFromIsFirst(t, u);
    var n := NewlineFrom(t, u);
    var end := if n == -1 then u + 3 else n;
    assert t[u] == t[u + 1] == t[u + 2] == '`';
    var line := t[u..end];
    TrimmedFence(line);
    var b := TrimEnd(line, Space);
    assert Header(t, u) == line[..b] == t[u..u + b];
    assert line[b..] == t[u + b..end];
    hide AllSpace;
    hide IsSpace;
  }

  /** A pass that splits inside a block sends the text up to the cut, without trailing whitespace and
      with a closing fence, and goes on with the header line in front of the rest. */
  lemma ReopeningPass(t: string, maxLen: nat) returns (a: nat, h: string, b: nat)
    requires 0 < maxLen < |t| && NextCut(t, maxLen).Reopen?
    ensures var Reopen(m, u) := NextCut(t, maxLen);
            && m <= |t| && TrimmedAt(t, m, a) && HeaderAt(t, u, HeaderEnd(t, u), h)
            && var all := h + "\n" + t[m..];
               && 3 <= b <= |all| && AllSpace(all[b..]) && !IsSpace(all[b - 1])
               && Iterate(t, maxLen) == Next(t[..a] + "\n```", all[..b])
  {
    CutBounds(t, maxLen);
    var m, u := NextCut(t, maxLen).end, NextCut(t, maxLen).fence;
    IterateReopens(t, maxLen);
    TrimmedIs(t, m);
    a := TrimEnd(t[..m], Cutset);
    h, b := HeaderAndRest(t, u, t[m..]);
    hide *;
  }

  /** A header line in front of a rest: only trailing whitespace is trimmed. */
  lemma HeaderAndRest(t: string, u: nat, rest: string) returns (h: string, b: nat)
    requires FenceAt(t, u)
    ensures h == Header(t, u) && HeaderAt(t, u, HeaderEnd(t, u), h)
    ensures var all := h + "\n" + rest;
            3 <= b <= |all| && AllSpace(all[b..]) && !IsSpace(all[b - 1]) && TrimSpace(all) == all[..b]
  {
    HeaderIs(t, u);
    HeaderIsSlice(t, u);
    h := Header(t, u);
    hide Header;
    TrimmedFence(h + "\n" + rest);
    b := TrimEnd(h + "\n" + rest, Space);
    hide HeaderAt;
  }

  /** The trailing blanks and line ends of t[..m] begin at a. */
  predicate TrimmedAt(t: string, m: nat, a: nat) {
    && a <= m <= |t| && (forall i :: a <= i < m ==> Cutset.Has(t[i])) && (a > 0 ==> !Cutset.Has(t[a - 1]))
  }

  lemma TrimmedIs(t: string, m: nat)
    requires m <= |t|
    ensures TrimmedAt(t, m, TrimEnd(t[..m], Cutset)) && TrimRight(t[..m]) == t[..TrimEnd(t[..m], Cutset)]
  {
    TrimEndIsLongest(t[..m], Cutset);
    forall i | TrimEnd(t[..m], Cutset) <= i < m ensures Cutset.Has(t[i]) { assert t[i] == t[..m][i]; }
  }

  // ------------------------------------------------------------ whole texts without a fence

  /** The chunks of content[k..]: each ends at its natural end, the whitespace behind it is skipped, and
      the last one is whatever fits. */
  ghost predicate CutsNaturally(content: string, k: nat, maxLen: nat, chunks: seq<string>)
    requires k <= |content|
    decreases |chunks|
  {
    if k == |content| then chunks == []
    else if |content| - k <= maxLen then chunks == [content[k..]]
    else
      && chunks != []
      && exists m: nat, next: nat ::
           && k < m <= next <= |content| && chunks[0] == content[k..m]
           && NaturalAt(content, k, EffectiveLimit(maxLen), m)
           && (forall i :: m <= i < next ==> Cutset.Has(content[i]))
           && (next < |content| ==> !Cutset.Has(content[next]))
           && CutsNaturally(content, next, maxLen, chunks[1..])
  }

  lemma SomeInShift(t: string, k: nat, p: RuneClass, lo: int, hi: int)
    requires k <= |t| && 0 <= lo
    ensures SomeIn(t[k..], p, lo, hi) <==> SomeIn(t, p, k + lo, k + hi)
  {
    if j :| lo <= j < hi && 0 <= j < |t[k..]| && p.Has(t[k..][j]) {
      assert p.Has(t[k + j]);
    }
    if j :| k + lo <= j < k + hi && 0 <= j < |t| && p.Has(t[j]) {
      assert p.Has(t[k..][j - k]);
    }
  }

  lemma NaturalShift(t: string, k: nat, e: nat, m: int)
    requires k <= |t| && NaturalAt(t[k..], 0, e, m)
    ensures NaturalAt(t, k, e, k + m)
  {
    SomeInShift(t, k, Newline, Max(1, e - 200), e);
    SomeInShift(t, k, Blank, Max(1, e - 100), e);
    hide SomeIn;
    assert 0 <= m < |t[k..]| ==> t[k..][m] == t[k + m];
    forall j | k + m < j < |t| && 0 <= j - k ensures t[j] == t[k..][j - k] {}
  }

  lemma UnfencedStep(content: string, k: nat, maxLen: nat) returns (m: nat, next: nat)
    requires NoFence(content) && k <= |content| && 0 < maxLen < |content| - k
    ensures k < m <= next <= |content| && NaturalAt(content, k, EffectiveLimit(maxLen), m)
    ensures Iterate(content[k..], maxLen) == Next(content[k..m], content[next..])
    ensures forall i :: m <= i < next ==> Cutset.Has(content[i])
    ensures next < |content| ==> !Cutset.Has(content[next])
  {
    var t, e := content[k..], EffectiveLimit(maxLen);
    assert content[k..|content|] == t;
    SliceNoFence(content, k, |content|);
    CutIs(t, maxLen);
    CutBounds(t, maxLen);
    UnfencedCut(t, maxLen);
    var end := NextCut(t, maxLen).end;
    NaturalShift(content, k, e, end);
    m := k + end;
    next := SkipTo(content, m);
    hide NextCut;
    hide NaturalEnd;
    hide NaturalAt;
    hide TrimStart;
    hide CutAt;
    hide NoFence;
    KeepIteration(content, k, m, maxLen);
  }

  /** Where the whitespace from m on ends. */
  lemma SkipTo(content: string, m: nat) returns (next: nat)
    requires m <= |content|
    ensures next == m + TrimStart(content[m..], Cutset) && m <= next <= |content|
    ensures forall i :: m <= i < next ==> Cutset.Has(content[i])
    ensures next < |content| ==> !Cutset.Has(content[next])
  {
    var tail := content[m..];
    var a := TrimStart(tail, Cutset);
    TrimStartIsLongest(tail, Cutset);
    next := m + a;
    forall i | m <= i < next ensures Cutset.Has(content[i]) { assert content[i] == tail[i - m]; }
    assert next < |content| ==> content[next] == tail[a];
  }

  lemma UnfencedCut(t: string, maxLen: nat)
    requires NoFence(t) && 0 < maxLen < |t|
    ensures NextCut(t, maxLen) == Keep(NaturalEnd(t, EffectiveLimit(maxLen)))
  {
    NoFenceCountsZero(t, 0, NaturalEnd(t, EffectiveLimit(maxLen)));
    OpenMeansOdd(t, 0, NaturalEnd(t, EffectiveLimit(maxLen)), -1);
  }

  lemma {:induction false} UnfencedRuns(content: string, k: nat, maxLen: nat, n: nat)
    requires NoFence(content) && k <= |content| && maxLen > 0 && Pending(content[k..], maxLen, n) == ""
    ensures CutsNaturally(content, k, maxLen, Emitted(content[k..], maxLen, n))
    decreases n
  {
    hide Iterate;
    var t := content[k..];
    if k < |content| {
      if |t| <= maxLen {
        LastIteration(t, maxLen);
        assert Emitted("", maxLen, n - 1) == [];
      } else {
        var m, next := UnfencedStep(content, k, maxLen);
        hide NaturalAt;
        UnfencedRuns(content, next, maxLen, n - 1);
        assert Emitted(t, maxLen, n)[1..] == Emitted(content[next..], maxLen, n - 1);
      }
    }
  }

  /** SplitMessage cuts a content without a fence at its natural ends, and nowhere else. */
  lemma UnfencedSplitsNaturally(content: string, maxLen: nat)
    requires NoFence(content) && maxLen > 0
    ensures Ends(content, maxLen) && CutsNaturally(content, 0, maxLen, Split(content, maxLen))
  {
    SplitOfSplittable(content, maxLen);
    Terminates(content, maxLen, |content|);
    assert content[0..] == content;
    UnfencedRuns(content, 0, maxLen, |content|);
  }
}
