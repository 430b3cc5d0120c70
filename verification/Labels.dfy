/** Dotted names: splitting a domain into labels, joining labels back, and the label suffixes
    ("parent domains") that every lookup of the program enumerates. */
module Labels {

  /** Position of the first dot. */
  function DotIndex(d: string): (p: nat)
    requires '.' in d
    ensures p < |d| && d[p] == '.' && '.' !in d[..p]
  {
    if d[0] == '.' then 0 else 1 + DotIndex(d[1..])
  }

  /** strings.Split(d, "."): always at least one part, possibly empty ones. */
  function Split(d: string): (parts: seq<string>)
    ensures |parts| >= 1
    ensures forall i :: 0 <= i < |parts| ==> '.' !in parts[i]
  {
    if '.' in d then [d[..DotIndex(d)]] + Split(d[DotIndex(d) + 1..]) else [d]
  }

  /** strings.Join(parts, "."). */
  function Join(parts: seq<string>): string {
    if |parts| == 0 then "" else if |parts| == 1 then parts[0] else parts[0] + "." + Join(parts[1..])
  }

  predicate HasSuffix(d: string, tail: string) {
    |tail| <= |d| && d[|d| - |tail|..] == tail
  }

  /** s is d itself or a parent domain of d: "d equals s or d ends in a dot followed by s". */
  predicate IsLabelSuffix(d: string, s: string) {
    d == s || HasSuffix(d, "." + s)
  }

  lemma {:induction false} DotIndexUnique(d: string, p: nat)
    requires p < |d| && d[p] == '.' && '.' !in d[..p]
    ensures DotIndex(d) == p
  {
    var q := DotIndex(d);
    assert forall k :: 0 <= k < p ==> d[..p][k] == d[k];
    assert forall k :: 0 <= k < q ==> d[..q][k] == d[k];
  }

  lemma {:induction false} JoinSplit(d: string)
    ensures Join(Split(d)) == d
    decreases |d|
  {
    if '.' in d {
      var p := DotIndex(d);
      JoinSplit(d[p + 1..]);
      assert Split(d)[1..] == Split(d[p + 1..]);
      assert d == d[..p] + "." + d[p + 1..];
    }
  }

  /** Splitting what starts with one dot-free part. */
  lemma SplitHead(head: string, rest: string)
    requires '.' !in head
    ensures Split(head + "." + rest) == [head] + Split(rest)
  {
    var d, p := head + "." + rest, |head|;
    assert d[p] == '.' && d[..p] == head && d[p + 1..] == rest;
    DotIndexUnique(d, p);
  }

  lemma {:induction false} SplitJoin(parts: seq<string>)
    requires |parts| >= 1
    requires forall i :: 0 <= i < |parts| ==> '.' !in parts[i]
    ensures Split(Join(parts)) == parts
    decreases |parts|
  {
    if |parts| > 1 {
      SplitJoin(parts[1..]);
      SplitHead(parts[0], Join(parts[1..]));
      assert parts == [parts[0]] + parts[1..];
    }
  }

  /** Dropping i labels of d is dropping i - 1 labels of what follows d's first dot. */
  lemma DropPastFirst(d: string, i: nat)
    requires 0 < i < |Split(d)|
    ensures '.' in d && i - 1 < |Split(d[DotIndex(d) + 1..])|
    ensures Split(d)[i..] == Split(d[DotIndex(d) + 1..])[i - 1..]
  {
    var head, rest := d[..DotIndex(d)], Split(d[DotIndex(d) + 1..]);
    assert Split(d) == [head] + rest;
    assert ([head] + rest)[i..] == rest[i - 1..];
  }

  /** The suffix reached after dropping i labels is a label suffix, shorter for larger i. */
  lemma {:induction false} SuffixAt(d: string, i: nat)
    requires i < |Split(d)|
    ensures IsLabelSuffix(d, Join(Split(d)[i..]))
    ensures i > 0 ==> |Join(Split(d)[i..])| < |d|
    decreases |d|
  {
    if i == 0 {
      JoinSplit(d);
      assert Split(d)[0..] == Split(d);
    } else {
      DropPastFirst(d, i);
      var p := DotIndex(d);
      SuffixAt(d[p + 1..], i - 1);
      DotThen(d, p, Join(Split(d)[i..]));
    }
  }

  /** Label suffixes of what follows a dot are label suffixes of the whole. */
  lemma DotThen(d: string, p: nat, s: string)
    requires p < |d| && d[p] == '.'
    requires IsLabelSuffix(d[p + 1..], s)
    ensures IsLabelSuffix(d, s) && |s| < |d|
  {
    var rest := d[p + 1..];
    if rest == s {
      assert d[|d| - |s| - 1..] == "." + s;
    } else {
      assert rest[|rest| - |s| - 1..] == "." + s;
      assert d[|d| - |s| - 1..] == rest[|rest| - |s| - 1..];
    }
  }

  /** A proper label suffix of d is a label suffix of what follows d's first dot. */
  lemma PastFirstDot(d: string, s: string)
    requires IsLabelSuffix(d, s) && d != s
    ensures '.' in d && IsLabelSuffix(d[DotIndex(d) + 1..], s)
  {
    var q := |d| - |s| - 1;
    assert d[q..] == "." + s;
    assert d[q] == ("." + s)[0] == '.';
    var p := DotIndex(d);
    var rest := d[p + 1..];
    assert forall k :: 0 <= k < p ==> d[..p][k] == d[k];
    if p == q {
      assert rest == d[q..][1..] == s;
    } else {
      assert rest[|rest| - |s| - 1..] == d[q..];
    }
  }

  /** Every label suffix is reached by dropping some number of labels. */
  lemma {:induction false} SuffixIndex(d: string, s: string) returns (i: nat)
    requires IsLabelSuffix(d, s)
    ensures i < |Split(d)| && Join(Split(d)[i..]) == s
    decreases |d|
  {
    if d == s {
      i := 0;
      JoinSplit(d);
      assert Split(d)[0..] == Split(d);
    } else {
      PastFirstDot(d, s);
      var rest := d[DotIndex(d) + 1..];
      var j := SuffixIndex(rest, s);
      i := j + 1;
      assert Split(d)[i..] == Split(rest)[j..];
    }
  }

  /** Dropping more labels gives a strictly shorter string. */
  lemma {:induction false} SuffixesShrink(d: string, i: nat, j: nat)
    requires i < j < |Split(d)|
    ensures |Join(Split(d)[j..])| < |Join(Split(d)[i..])|
    decreases |d|
  {
    if i == 0 {
      SuffixAt(d, j);
      JoinSplit(d);
      assert Split(d)[0..] == Split(d);
    } else {
      var rest := d[DotIndex(d) + 1..];
      assert Split(d)[i..] == Split(rest)[i - 1..];
      assert Split(d)[j..] == Split(rest)[j - 1..];
      SuffixesShrink(rest, i - 1, j - 1);
    }
  }

  /** Two label suffixes of one name that have the same length are the same string. */
  lemma SuffixesOfOneLength(d: string, s: string, t: string)
    requires IsLabelSuffix(d, s) && IsLabelSuffix(d, t) && |s| == |t|
    ensures s == t
  {
    if d != s {
      assert ("." + s)[1..] == s;
    }
    if d != t {
      assert ("." + t)[1..] == t;
    }
  }

  /** Suffixes of a suffix are suffixes. */
  lemma SuffixTransitive(domain: string, parent: string, s: string)
    requires IsLabelSuffix(domain, parent) && IsLabelSuffix(parent, s)
    ensures IsLabelSuffix(domain, s)
  {
    if domain != parent && parent != s {
      assert domain[|domain| - |parent|..] == parent by {
        assert domain[|domain| - |parent| - 1..][1..] == parent;
      }
      assert parent[|parent| - |s| - 1..] == "." + s;
      assert domain[|domain| - |s| - 1..] == parent[|parent| - |s| - 1..];
    }
  }

  /** Shorter suffixes of a domain are suffixes of its longer ones. */
  lemma SuffixLinear(domain: string, parent: string, s: string)
    requires IsLabelSuffix(domain, parent) && IsLabelSuffix(domain, s) && |s| <= |parent|
    ensures IsLabelSuffix(parent, s)
  {
    if |s| == |parent| {
      SuffixesOfOneLength(domain, parent, s);
    } else {
      assert domain[|domain| - |s| - 1..] == "." + s;
      if domain != parent {
        assert domain[|domain| - |parent| - 1..][1..] == parent;
      }
      assert parent == domain[|domain| - |parent|..];
      assert parent[|parent| - |s| - 1..] == domain[|domain| - |s| - 1..];
    }
  }

  /** The split-and-join scan visits exactly the strings that equal the domain or follow one of its dots. */
  lemma ScanEnumeratesLabelSuffixes(d: string, s: string)
    ensures IsLabelSuffix(d, s) <==> exists i :: 0 <= i < |Split(d)| && Join(Split(d)[i..]) == s
  {
    if IsLabelSuffix(d, s) {
      var i := SuffixIndex(d, s);
    }
    forall i | 0 <= i < |Split(d)| && Join(Split(d)[i..]) == s
      ensures IsLabelSuffix(d, s)
    {
      SuffixAt(d, i);
    }
  }

  /** The nonempty label suffixes, longest first. */
  function Candidates(d: string): seq<string> {
    (if d == "" then [] else [d]) + (if '.' in d then Candidates(d[DotIndex(d) + 1..]) else [])
  }

  lemma {:induction false} CandidatesExact(d: string, s: string)
    ensures s in Candidates(d) <==> s != "" && IsLabelSuffix(d, s)
    decreases |d|
  {
    if '.' in d {
      var p := DotIndex(d);
      var rest := d[p + 1..];
      CandidatesExact(rest, s);
      assert s in Candidates(d) <==> (d != "" && s == d) || s in Candidates(rest);
      if IsLabelSuffix(rest, s) {
        DotThen(d, p, s);
      }
      if IsLabelSuffix(d, s) && d != s {
        PastFirstDot(d, s);
      }
    } else if IsLabelSuffix(d, s) && d != s {
      PastFirstDot(d, s);
    }
  }

  /** Candidates come longest first. */
  lemma {:induction false} CandidatesShrink(d: string, i: nat, j: nat)
    requires i < j < |Candidates(d)|
    ensures |Candidates(d)[j]| < |Candidates(d)[i]|
    decreases |d|
  {
    var rest := if '.' in d then d[DotIndex(d) + 1..] else "";
    if i == 0 && d != "" {
      var c := Candidates(d)[j];
      assert c in Candidates(rest);
      CandidatesExact(rest, c);
    } else {
      var skip := if d == "" then 0 else 1;
      CandidatesShrink(rest, i - skip, j - skip);
    }
  }

  lemma {:induction false} CandidatesFrom(d: string, i: nat)
    requires i < |Split(d)|
    ensures Candidates(Join(Split(d)[i..])) ==
            (if Join(Split(d)[i..]) == "" then [] else [Join(Split(d)[i..])]) +
            (if i + 1 < |Split(d)| then Candidates(Join(Split(d)[i + 1..])) else [])
    decreases |d|
  {
    if i > 0 {
      var rest := d[DotIndex(d) + 1..];
      assert Split(d)[i..] == Split(rest)[i - 1..];
      if i + 1 < |Split(d)| {
        assert Split(d)[i + 1..] == Split(rest)[i..];
      }
      CandidatesFrom(rest, i - 1);
    } else {
      JoinSplit(d);
      assert Split(d)[0..] == Split(d);
      if '.' in d {
        var rest := d[DotIndex(d) + 1..];
        assert Split(d)[1..] == Split(rest);
        JoinSplit(rest);
      }
    }
  }

  /** threatFeedCandidates: the loop over split parts collects exactly Candidates(domain). */
  method ThreatFeedCandidates(domain: string) returns (candidates: seq<string>)
    ensures candidates == Candidates(domain)
  {
    var parts := Split(domain);
    candidates := [];
    JoinSplit(domain);
    assert parts[0..] == parts;
    for i := 0 to |parts|
      invariant Candidates(domain) == candidates + (if i < |parts| then Candidates(Join(parts[i..])) else [])
    {
      var candidate := Join(parts[i..]);
      CandidatesFrom(domain, i);
      if candidate != "" {
        candidates := candidates + [candidate];
      }
    }
  }
}
