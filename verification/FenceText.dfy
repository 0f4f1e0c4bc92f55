/** Rune-level text helpers: trimming, backward and forward scans, and the greedy
    left-to-right count of ``` fences that the message splitter is built on.
    A rune sequence is a `string`; Dafny's `char` ranges over the same Unicode
    scalar values as a decoded Go rune. */
module FenceText {

  const FENCE := "```"

  /** Classes of runes the splitter looks for: a newline, a space or tab, the cut set
      " \t\n\r", and unicode.IsSpace. */
  datatype RuneClass = Newline | Blank | Cutset | Space {
    predicate Has(c: char) {
      match this
      case Newline => c == '\n'
      case Blank => c == ' ' || c == '\t'
      case Cutset => c == ' ' || c == '\t' || c == '\n' || c == '\r'
      case Space => IsSpace(c)
    }
  }

  predicate IsSpace(c: char) {
    || '\t' <= c <= '\r' || c == ' '
    || c == '\U{85}' || c == '\U{A0}' || c == '\U{1680}'
    || '\U{2000}' <= c <= '\U{200A}'
    || c == '\U{2028}' || c == '\U{2029}' || c == '\U{202F}' || c == '\U{205F}' || c == '\U{3000}'
  }

  predicate AllSpace(s: string) {
    forall i :: 0 <= i < |s| ==> IsSpace(s[i])
  }

  /** Length of the longest prefix of s made of runes satisfying p. */
  function TrimStart(s: string, p: RuneClass): (a: nat)
    ensures a <= |s|
  {
    if s != "" && p.Has(s[0]) then 1 + TrimStart(s[1..], p) else 0
  }

  lemma {:induction false} TrimStartIsLongest(s: string, p: RuneClass)
    ensures var a := TrimStart(s, p);
            (forall i :: 0 <= i < a ==> p.Has(s[i])) && (a < |s| ==> !p.Has(s[a]))
  {
    if s != "" && p.Has(s[0]) {
      TrimStartIsLongest(s[1..], p);
      forall i | 0 <= i < TrimStart(s, p) ensures p.Has(s[i]) {
        assert i > 0 ==> s[i] == s[1..][i - 1];
      }
    }
  }

  /** Length of s without its longest suffix of runes satisfying p. */
  function TrimEnd(s: string, p: RuneClass): (b: nat)
    ensures b <= |s|
  {
    if s != "" && p.Has(s[|s| - 1]) then TrimEnd(s[..|s| - 1], p) else |s|
  }

  lemma {:induction false} TrimEndIsLongest(s: string, p: RuneClass)
    ensures var b := TrimEnd(s, p);
            (forall i :: b <= i < |s| ==> p.Has(s[i])) && (b > 0 ==> !p.Has(s[b - 1]))
  {
    if s != "" && p.Has(s[|s| - 1]) {
      TrimEndIsLongest(s[..|s| - 1], p);
    }
  }

  /** strings.TrimRight(s, " \t\n\r"). */
  function TrimRight(s: string): string {
    s[..TrimEnd(s, Cutset)]
  }

  /** strings.TrimSpace. */
  function TrimSpace(s: string): string {
    var a := TrimStart(s, Space);
    var b := TrimEnd(s, Space);
    if a <= b then s[a..b] else ""
  }

  /** A text that starts with a non-space rune only loses trailing whitespace. */
  lemma TrimSpaceKeepsFront(s: string)
    requires s != "" && !IsSpace(s[0])
    ensures 0 < TrimEnd(s, Space) && TrimSpace(s) == s[..TrimEnd(s, Space)]
  {
    TrimEndIsLongest(s, Space);
  }

  /** Greatest index in [lo, hi) whose rune satisfies p, or lo - 1. */
  function LastIn(s: string, p: RuneClass, lo: nat, hi: nat): (r: int)
    requires lo <= hi <= |s|
    ensures lo - 1 <= r < hi
    decreases hi - lo
  {
    if lo == hi then lo - 1
    else if p.Has(s[hi - 1]) then hi - 1
    else LastIn(s, p, lo, hi - 1)
  }

  lemma {:induction false} LastInIsLast(s: string, p: RuneClass, lo: nat, hi: nat)
    requires lo <= hi <= |s|
    ensures var r := LastIn(s, p, lo, hi);
            (lo <= r ==> p.Has(s[r])) && (forall j :: r < j < hi ==> !p.Has(s[j]))
    decreases hi - lo
  {
    if lo < hi && !p.Has(s[hi - 1]) {
      LastInIsLast(s, p, lo, hi - 1);
    }
  }

  function Max(a: int, b: int): int { if a < b then b else a }

  function Min(a: int, b: int): int { if a < b then a else b }

  /** The last rune satisfying p among the last `window` runes of s[start..end], or start - 1. */
  function FindLast(s: string, p: RuneClass, start: nat, end: nat, window: nat): (r: int)
    requires start <= end <= |s|
    ensures r == start - 1 || start <= r < end
  {
    var lo := Max(end - window, start);
    var r := LastIn(s, p, lo, end);
    if r < lo then start - 1 else r
  }

  lemma FindLastIsLast(s: string, p: RuneClass, start: nat, end: nat, window: nat)
    requires start <= end <= |s|
    ensures var r := FindLast(s, p, start, end, window);
            && (r >= start ==> r >= end - window && p.Has(s[r]))
            && (forall j :: Max(end - window, start) <= j < end && r < j ==> !p.Has(s[j]))
  {
    LastInIsLast(s, p, Max(end - window, start), end);
  }

  /** First newline at or after i, or -1. */
  function NewlineFrom(s: string, i: nat): (r: int)
    requires i <= |s|
    ensures r == -1 || i <= r < |s|
    decreases |s| - i
  {
    if i == |s| then -1 else if s[i] == '\n' then i else NewlineFrom(s, i + 1)
  }

  lemma {:induction false} NewlineFromIsFirst(s: string, i: nat)
    requires i <= |s|
    ensures var r := NewlineFrom(s, i);
            && (r >= 0 ==> s[r] == '\n')
            && (forall j :: i <= j < |s| && (r < 0 || j < r) ==> s[j] != '\n')
    decreases |s| - i
  {
    if i < |s| && s[i] != '\n' {
      NewlineFromIsFirst(s, i + 1);
    }
  }

  // ---------------------------------------------------------------- fences

  predicate FenceAt(s: string, i: int) {
    0 <= i && i + 3 <= |s| && s[i] == '`' && s[i + 1] == '`' && s[i + 2] == '`'
  }

  predicate NoFence(s: string) {
    forall i :: 0 <= i < |s| ==> !FenceAt(s, i)
  }

  /** Fences counted greedily from the left in s[i..end]. */
  function Fences(s: string, i: nat, end: nat): nat
    requires i <= end <= |s|
    decreases end - i
  {
    if i == end then 0
    else if i + 2 < end && FenceAt(s, i) then 1 + Fences(s, i + 3, end)
    else Fences(s, i + 1, end)
  }

  function FenceCount(s: string): nat {
    Fences(s, 0, |s|)
  }

  /** The scan for an unclosed fence; `open` is the opening fence seen so far, or -1. */
  function LastOpen(s: string, i: nat, end: nat, open: int): int
    requires i <= end <= |s|
    decreases end - i
  {
    if i == end then open
    else if i + 2 < end && FenceAt(s, i) then LastOpen(s, i + 3, end, if open < 0 then i else -1)
    else LastOpen(s, i + 1, end, open)
  }

  /** Index just after the first fence that starts at or after i and ends by `end`, or -1. */
  function NextClosing(s: string, i: nat, end: nat): (r: int)
    requires i <= end <= |s|
    ensures r == -1 || i + 3 <= r <= end
    decreases end - i
  {
    if i == end then -1
    else if i + 2 < end && FenceAt(s, i) then i + 3
    else NextClosing(s, i + 1, end)
  }

  lemma {:induction false} NextClosingIsFirst(s: string, i: nat, end: nat)
    requires i <= end <= |s|
    ensures var r := NextClosing(s, i, end);
            && (r >= 0 ==> FenceAt(s, r - 3))
            && (forall j :: i <= j && j + 3 <= end && (r < 0 || j < r - 3) ==> !FenceAt(s, j))
    decreases end - i
  {
    if i < end && !(i + 2 < end && FenceAt(s, i)) {
      NextClosingIsFirst(s, i + 1, end);
    }
  }

  /** What the unclosed-fence scan reports: an open fence exists exactly when the number of
      fences is odd, and it is then the last fence of the range. */
  lemma {:induction false} OpenMeansOdd(s: string, i: nat, end: nat, open: int)
    requires i <= end <= |s| && open < i
    ensures var r := LastOpen(s, i, end, open);
            var n := Fences(s, i, end) + (if open < 0 then 0 else 1);
            && (r >= 0 <==> n % 2 == 1)
            && (r >= 0 ==> (r == open && Fences(s, i, end) == 0)
                           || (i <= r && r + 3 <= end && FenceAt(s, r)
                               && Fences(s, r + 3, end) == 0
                               && Fences(s, i, end) == Fences(s, i, r) + 1))
    decreases end - i
  {
    if i == end {
    } else if i + 2 < end && FenceAt(s, i) {
      OpenMeansOdd(s, i + 3, end, if open < 0 then i else -1);
    } else {
      OpenMeansOdd(s, i + 1, end, open);
    }
  }

  /** Counting depends only on the runes counted. */
  lemma {:induction false} FencesLocal(s: string, i: nat, end: nat, t: string, j: nat, stop: nat)
    requires i <= end <= |s| && j <= stop <= |t| && end - i == stop - j
    requires forall k :: i <= k < end ==> s[k] == t[k - i + j]
    ensures Fences(s, i, end) == Fences(t, j, stop)
    decreases end - i
  {
    if i == end {
    } else if i + 2 < end && FenceAt(s, i) {
      assert s[i + 1] == t[j + 1] && s[i + 2] == t[j + 2];
      FencesLocal(s, i + 3, end, t, j + 3, stop);
    } else {
      assert i + 2 < end ==> s[i + 1] == t[j + 1] && s[i + 2] == t[j + 2];
      FencesLocal(s, i + 1, end, t, j + 1, stop);
    }
  }

  /** No fence lies across position m. */
  predicate CleanCut(s: string, m: int) {
    !FenceAt(s, m - 1) && !FenceAt(s, m - 2)
  }

  /** Fences add up over a cut that breaks none. */
  lemma {:induction false} FencesSplit(s: string, i: nat, m: nat, end: nat)
    requires i <= m <= end <= |s| && CleanCut(s, m)
    ensures Fences(s, i, end) == Fences(s, i, m) + Fences(s, m, end)
    decreases m - i
  {
    if i == m {
    } else if i + 2 < end && FenceAt(s, i) {
      assert i != m - 1 && i != m - 2;
      FencesSplit(s, i + 3, m, end);
    } else {
      FencesSplit(s, i + 1, m, end);
    }
  }

  lemma FenceCountSplit(s: string, m: nat)
    requires m <= |s| && CleanCut(s, m)
    ensures FenceCount(s) == FenceCount(s[..m]) + FenceCount(s[m..])
  {
    FencesSplit(s, 0, m, |s|);
    FencesLocal(s, 0, m, s[..m], 0, m);
    FencesLocal(s, m, |s|, s[m..], 0, |s| - m);
  }

  lemma {:induction false} NoFenceCountsZero(s: string, i: nat, end: nat)
    requires i <= end <= |s|
    requires forall j :: i <= j && j + 3 <= end ==> !FenceAt(s, j)
    ensures Fences(s, i, end) == 0
    decreases end - i
  {
    if i < end {
      NoFenceCountsZero(s, i + 1, end);
    }
  }

  /** Whitespace removed at the front or at the end changes no fence count. */
  lemma FenceCountIgnoresSpace(s: string, a: nat, b: nat)
    requires a <= b <= |s|
    requires forall i :: 0 <= i < a || b <= i < |s| ==> s[i] != '`'
    ensures FenceCount(s[a..b]) == FenceCount(s)
  {
    FencesSplit(s, 0, a, |s|);
    FencesSplit(s, a, b, |s|);
    NoFenceCountsZero(s, 0, a);
    NoFenceCountsZero(s, b, |s|);
    FencesLocal(s, a, b, s[a..b], 0, b - a);
  }
}
