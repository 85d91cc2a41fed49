/** Collision-free package paths for recovered skill files. */
module RecoveredPaths {
  import Decimal
  import Sets

  type Path = string

  predicate IdCharacter(c: char) {
    'a' <= c <= 'z' || '0' <= c <= '9' || c == '-'
  }

  function LowerCase(c: char): char {
    if 'A' <= c <= 'Z' then (c as nat - 'A' as nat + 'a' as nat) as char else c
  }

  /** Lower-cased, with everything but letters, digits and dashes removed. */
  function Cleaned(fileId: string): string {
    if fileId == "" then "" else Cleaned(fileId[..|fileId| - 1]) + CleanedCharacter(fileId[|fileId| - 1])
  }

  function CleanedCharacter(c: char): string {
    if IdCharacter(LowerCase(c)) then [LowerCase(c)] else ""
  }

  /** Each character of a file id counts on its own: letters lower-cased, digits and dashes as they are, nothing else. */
  lemma CleanedOneMore(fileId: string, c: char)
    ensures Cleaned("") == ""
    ensures Cleaned(fileId + [c]) == Cleaned(fileId) + if 'A' <= c <= 'Z' then [(c as nat - 'A' as nat + 'a' as nat) as char]
                                                       else if 'a' <= c <= 'z' || '0' <= c <= '9' || c == '-' then [c]
                                                       else ""
  {
    assert (fileId + [c])[..|fileId|] == fileId;
  }

  function StableId(fileId: string): (id: string)
    ensures id != "" && (Cleaned(fileId) != "" ==> id == Cleaned(fileId))
  {
    var cleaned := Cleaned(fileId);
    if cleaned == "" then "recovered" else cleaned
  }

  function Suffix(stableId: string, attempt: nat): string {
    if attempt == 1 then stableId else stableId + "-" + Decimal.Digits(attempt)
  }

  /** The path tried at each attempt; attempt 0 is the preferred path. */
  function Candidate(folder: string, baseName: string, stableId: string, attempt: nat): Path {
    if attempt == 0 then folder + "/" + baseName
    else folder + "/" + Suffix(stableId, attempt) + "-" + baseName
  }

  lemma SameMiddle(front: string, a: string, b: string, back: string)
    requires front + a + back == front + b + back
    ensures a == b
  {
    assert |a| == |b|;
    assert a == (front + a + back)[|front|..|front| + |a|];
    assert b == (front + b + back)[|front|..|front| + |b|];
  }

  lemma SuffixesDiffer(stableId: string, m: nat, n: nat)
    requires m >= 1 && n >= 1 && Suffix(stableId, m) == Suffix(stableId, n)
    ensures m == n
  {
    assert forall k: nat | k >= 2 :: |Suffix(stableId, k)| > |stableId|;
    if m >= 2 && n >= 2 {
      SameMiddle(stableId + "-", Decimal.Digits(m), Decimal.Digits(n), "");
      assert stableId + "-" + Decimal.Digits(m) + "" == stableId + "-" + Decimal.Digits(m);
      assert stableId + "-" + Decimal.Digits(n) + "" == stableId + "-" + Decimal.Digits(n);
      Decimal.DigitsInjective(m, n);
    }
  }

  /** Distinct attempts are distinct paths. */
  lemma CandidatesDiffer(folder: string, baseName: string, stableId: string, m: nat, n: nat)
    requires stableId != "" && Candidate(folder, baseName, stableId, m) == Candidate(folder, baseName, stableId, n)
    ensures m == n
  {
    if m > 0 && n > 0 {
      var front, back := folder + "/", "-" + baseName;
      assert front + Suffix(stableId, m) + back == Candidate(folder, baseName, stableId, m);
      assert front + Suffix(stableId, n) + back == Candidate(folder, baseName, stableId, n);
      SameMiddle(front, Suffix(stableId, m), Suffix(stableId, n), back);
      SuffixesDiffer(stableId, m, n);
    } else {
      assert |Candidate(folder, baseName, stableId, 0)| == |folder| + 1 + |baseName|;
    }
  }

  ghost function Tried(folder: string, baseName: string, stableId: string, n: nat): set<Path> {
    set k: nat | k < n :: Candidate(folder, baseName, stableId, k)
  }

  lemma {:induction false} TriedCount(folder: string, baseName: string, stableId: string, n: nat)
    requires stableId != ""
    ensures |Tried(folder, baseName, stableId, n)| == n
  {
    if n > 0 {
      TriedCount(folder, baseName, stableId, n - 1);
      var last := Candidate(folder, baseName, stableId, n - 1);
      forall k: nat | k < n - 1 ensures Candidate(folder, baseName, stableId, k) != last {
        if Candidate(folder, baseName, stableId, k) == last { CandidatesDiffer(folder, baseName, stableId, k, n - 1); }
      }
      TriedStep(folder, baseName, stableId, n - 1);
    }
  }

  lemma TriedStep(folder: string, baseName: string, stableId: string, n: nat)
    requires forall k: nat | k < n :: Candidate(folder, baseName, stableId, k) != Candidate(folder, baseName, stableId, n)
    ensures |Tried(folder, baseName, stableId, n + 1)| == |Tried(folder, baseName, stableId, n)| + 1
  {
    var last := Candidate(folder, baseName, stableId, n);
    assert Tried(folder, baseName, stableId, n + 1) == Tried(folder, baseName, stableId, n) + {last};
  }

  /** Used candidates are limited by the used paths, so some candidate is free. */
  lemma AttemptsBounded(folder: string, baseName: string, stableId: string, used: set<Path>, n: nat)
    requires stableId != "" && forall k: nat | k < n :: Candidate(folder, baseName, stableId, k) in used
    ensures n <= |used|
  {
    TriedCount(folder, baseName, stableId, n);
    Sets.SubsetSize(Tried(folder, baseName, stableId, n), used);
  }

  class UsedPaths {
    var used: set<Path>

    constructor (used: set<Path>)
      ensures this.used == used
    {
      this.used := used;
    }

    /** The first candidate not used yet, found within as many attempts as there are used paths. */
    method UniqueRecoveredPackagePath(folder: string, baseName: string, fileId: string) returns (path: Path, ghost attempt: nat)
      modifies this
      ensures path !in old(used) && used == old(used) + {path}
      ensures attempt <= |old(used)| && path == Candidate(folder, baseName, StableId(fileId), attempt)
      ensures forall k: nat | k < attempt :: Candidate(folder, baseName, StableId(fileId), k) in old(used)
    {
      attempt := 0;
      var preferred := folder + "/" + baseName;
      if preferred !in used {
        used := used + {preferred};
        return preferred, 0;
      }
      var stableId := StableId(fileId);
      var n := 1;
      AttemptsBounded(folder, baseName, stableId, used, 1);
      while true
        invariant 1 <= n <= |used| && used == old(used)
        invariant forall k: nat | k < n :: Candidate(folder, baseName, stableId, k) in used
        decreases |used| - n
      {
        var suffix := if n == 1 then stableId else stableId + "-" + Decimal.Digits(n);
        var candidate := folder + "/" + suffix + "-" + baseName;
        if candidate !in used {
          used := used + {candidate};
          return candidate, n;
        }
        AttemptsBounded(folder, baseName, stableId, used, n + 1);
        n := n + 1;
      }
    }

    /** All paths of one recovery differ from each other and from the package's own. */
    method RecoverAll(files: seq<(string, string, string)>) returns (paths: seq<Path>)
      modifies this
      ensures |paths| == |files|
      ensures forall i | 0 <= i < |paths| :: paths[i] !in old(used)
      ensures forall i, j | 0 <= i < j < |paths| :: paths[i] != paths[j]
      ensures used == old(used) + set p | p in paths
    {
      paths := [];
      for k := 0 to |files|
        invariant |paths| == k
        invariant forall i | 0 <= i < |paths| :: paths[i] !in old(used)
        invariant forall i, j | 0 <= i < j < |paths| :: paths[i] != paths[j]
        invariant used == old(used) + set p | p in paths
      {
        ghost var attempt;
        var path;
        path, attempt := UniqueRecoveredPackagePath(files[k].0, files[k].1, files[k].2);
        paths := paths + [path];
      }
    }
  }
}
