/**
 * Which prefix of a session path one compaction covers: everything before the
 * turn that starts the recent context to keep.
 */
module CompactionPrefix {
  import opened Options

  /** A path entry: what compaction reads of its payload is the role, its own or its message's, and the text length. */
  datatype Entry = Entry(id: nat, role: Option<string>, characters: nat)

  predicate IsTurn(entry: Entry) {
    entry.role == Some("user") || entry.role == Some("assistant")
  }

  /** `estimateTokens([entry])`: four characters of payload text a token, rounded up. */
  function Tokens(entry: Entry): (tokens: nat)
    ensures 4 * tokens - 4 < entry.characters <= 4 * tokens
  {
    (entry.characters + 3) / 4
  }

  /** The estimate the backward scan accumulates over `entries`. */
  function Total(entries: seq<Entry>): nat {
    if entries == [] then 0 else Tokens(entries[0]) + Total(entries[1..])
  }

  /** Where the recent context begins: the last suffix that reaches the target, or the whole path. */
  ghost predicate RecentStart(entries: seq<Entry>, target: int, start: nat) {
    && start < |entries|
    && (start == 0 || Total(entries[start..]) >= target)
    && BelowTarget(entries, target, start + 1)
  }

  /** No suffix from `first` on reaches the target. */
  ghost predicate BelowTarget(entries: seq<Entry>, target: int, first: nat) {
    forall k | first <= k < |entries| :: Total(entries[k..]) < target
  }

  ghost predicate NoTurn(entries: seq<Entry>, low: nat, high: nat) {
    forall k | low <= k < high && k < |entries| :: !IsTurn(entries[k])
  }

  /**
   * Where the kept part begins: the first turn at or after `start`, else the
   * last turn before it, else the beginning.
   */
  ghost predicate KeptFrom(entries: seq<Entry>, start: nat, first: nat) {
    && first < |entries|
    && ((start <= first && IsTurn(entries[first]) && NoTurn(entries, start, first))
        || (first < start && IsTurn(entries[first]) && NoTurn(entries, first + 1, |entries|))
        || (first == 0 && NoTurn(entries, 0, |entries|)))
  }

  /** The whole tokens of the budget, and at least one. */
  function Target(keepRecentTokens: real): (target: int)
    ensures target >= 1 && keepRecentTokens < (target + 1) as real
    ensures target > 1 ==> target as real <= keepRecentTokens
  {
    if keepRecentTokens.Floor < 1 then 1 else keepRecentTokens.Floor
  }

  /** How many entries a compaction covers. */
  ghost predicate Cut(entries: seq<Entry>, keepRecentTokens: real, covered: nat) {
    if |entries| < 2 then covered == 0
    else exists start: nat :: RecentStart(entries, Target(keepRecentTokens), start) && KeptFrom(entries, start, covered)
  }

  lemma SuffixStep(entries: seq<Entry>, k: nat)
    requires k < |entries|
    ensures Total(entries[k..]) == Tokens(entries[k]) + Total(entries[k + 1..])
  {
    assert entries[k..][1..] == entries[k + 1..];
  }

  method FindRecentStart(entries: seq<Entry>, target: int) returns (searchStart: nat)
    requires |entries| > 0
    ensures RecentStart(entries, target, searchStart)
  {
    var accumulated := 0;
    searchStart := |entries| - 1;
    var index := |entries| - 1;
    while index >= 0
      invariant -1 <= index < |entries|
      invariant accumulated == Total(entries[index + 1..])
      invariant BelowTarget(entries, target, index + 1)
      invariant searchStart == if index == |entries| - 1 then index else index + 1
    {
      SuffixStep(entries, index);
      accumulated := accumulated + Tokens(entries[index]);
      searchStart := index;
      assert accumulated == Total(entries[index..]);
      if accumulated >= target { break; }
      index := index - 1;
    }
  }

  method FindKeptFrom(entries: seq<Entry>, searchStart: nat) returns (first: nat)
    requires searchStart < |entries|
    ensures KeptFrom(entries, searchStart, first)
    ensures forall k | searchStart <= k < |entries| && (k < first || first < searchStart) ::
              entries[k].role != Some("user") && entries[k].role != Some("assistant")
    ensures first > 0 ==> entries[first].role == Some("user") || entries[first].role == Some("assistant")
  {
    for i := searchStart to |entries|
      invariant NoTurn(entries, searchStart, i)
    {
      if IsTurn(entries[i]) {
        return i;
      }
    }
    var index := searchStart - 1;
    while index >= 0
      invariant -1 <= index < searchStart
      invariant NoTurn(entries, index + 1, |entries|)
    {
      if IsTurn(entries[index]) {
        return index;
      }
      index := index - 1;
    }
    return 0;
  }

  method SelectCompactionPrefix(entries: seq<Entry>, keepRecentTokens: real)
    returns (covered: seq<Entry>, retained: seq<Entry>)
    ensures covered + retained == entries
    ensures Cut(entries, keepRecentTokens, |covered|)
    ensures covered != [] ==> retained != [] && (retained[0].role == Some("user") || retained[0].role == Some("assistant"))
  {
    if |entries| < 2 {
      return [], entries;
    }
    var searchStart := FindRecentStart(entries, Target(keepRecentTokens));
    var firstKept := FindKeptFrom(entries, searchStart);
    if firstKept == 0 {
      return [], entries;
    }
    return entries[..firstKept], entries[firstKept..];
  }

  // ----- the cut is determined, and cutting is a fixpoint -----

  /** One budget determines one cut. */
  lemma CutUnique(entries: seq<Entry>, keep: real, a: nat, b: nat)
    requires Cut(entries, keep, a) && Cut(entries, keep, b)
    ensures a == b
  {
    if |entries| >= 2 {
      var s: nat :| RecentStart(entries, Target(keep), s) && KeptFrom(entries, s, a);
      var t: nat :| RecentStart(entries, Target(keep), t) && KeptFrom(entries, t, b);
    }
  }

  /** The recent context of what was kept begins where it did, or at the kept part's first entry. */
  lemma RecentStartOfRetained(entries: seq<Entry>, target: int, start: nat, c: nat)
    requires RecentStart(entries, target, start) && c < |entries|
    ensures RecentStart(entries[c..], target, if start <= c then 0 else start - c)
  {
    forall k | 0 <= k <= |entries| - c ensures entries[c..][k..] == entries[c + k..] {}
  }

  /** Compacting what a compaction kept, with the same budget, covers nothing. */
  lemma SelectionIsFixpoint(entries: seq<Entry>, keep: real, c: nat)
    requires Cut(entries, keep, c) && c > 0
    ensures Cut(entries[c..], keep, 0)
    ensures forall d: nat | Cut(entries[c..], keep, d) :: d == 0
  {
    var target := Target(keep);
    var rest := entries[c..];
    var start: nat :| RecentStart(entries, target, start) && KeptFrom(entries, start, c);
    if |rest| >= 2 {
      RecentStartOfRetained(entries, target, start, c);
      var s := if start <= c then 0 else start - c;
      assert NoTurn(rest, 1, |rest|) || s == 0;
      assert KeptFrom(rest, s, 0);
    }
    forall d: nat | Cut(rest, keep, d) ensures d == 0 {
      CutUnique(rest, keep, 0, d);
    }
  }

  /** `entriesAfter`: the index following `coveredEnd`, or the beginning when it is absent. */
  function IndexAfter(entries: seq<Entry>, coveredEnd: Option<nat>): (k: nat)
    ensures k <= |entries|
    ensures k > 0 ==> coveredEnd == Some(entries[k - 1].id)
    ensures k == 0 && coveredEnd.Some? ==> forall i | 0 <= i < |entries| :: entries[i].id != coveredEnd.value
  {
    if coveredEnd.None? || entries == [] then 0
    else if entries[0].id == coveredEnd.value then 1
    else
      var k := IndexAfter(entries[1..], coveredEnd);
      assert forall i | 1 <= i < |entries| :: entries[i] == entries[1..][i - 1];
      if k == 0 then 0 else k + 1
  }
}
